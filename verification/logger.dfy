/** The battery log: rotation when it is opened, and appending lines. */
module Logger {
  import opened Optional

  // A reading and its percentage; the time stamp in front of it is not modelled.
  datatype Line = Line(raw: int, percent: int)

  // A directory is taken to be non-empty; Special is any other kind of file that is not regular.
  datatype File = Regular(lines: seq<Line>) | Directory | Special

  datatype LogDir = LogDir(log: Option<File>, rotated: Option<File>)

  function RemoveRotated(d: LogDir): LogDir {
    if d.rotated.Some? && d.rotated.value.Regular? then d.(rotated := None) else d
  }

  // rename() of an existing log: refused when exactly one side is a directory, or over a non-empty one.
  function Rename(d: LogDir): LogDir
    requires d.log.Some?
  {
    if d.rotated.None? || (!d.log.value.Directory? && !d.rotated.value.Directory?) then LogDir(None, d.log) else d
  }

  // Opening for output creates or truncates a regular file; a directory cannot be opened.
  function Truncate(d: LogDir): LogDir {
    if d.log.None? || d.log.value.Regular? then d.(log := Some(Regular([]))) else d
  }

  function Rotated(d: LogDir): LogDir {
    var d1 := RemoveRotated(d);
    if d1.log.Some? then Rename(d1) else d1
  }

  function Append(d: LogDir, lines: seq<Line>): LogDir {
    if d.log.Some? && d.log.value.Regular? then d.(log := Some(Regular(d.log.value.lines + lines))) else d
  }

  class BatteryLog {
    var dir: LogDir
    var failed: bool         // the stream's sticky error state
    var written: seq<Line>   // what the stream has taken since it was opened

    // A regular log file holds what was written to it; a device or a pipe keeps nothing.
    ghost predicate Valid()
      reads this
    {
      dir.log.Some? && (dir.log.value.Regular? ==> dir.log.value.lines == written)
    }

    constructor (dir: LogDir)
      ensures this.dir == dir && !failed && written == []
    {
      this.dir, failed, written := dir, false, [];
    }

    /** Rotates the log of the previous run and opens a new one. */
    method Open(dirWritable: bool, openOk: bool) returns (ok: bool)
      modifies this
      ensures !dirWritable ==> !ok && dir == old(dir) && failed == old(failed)
      ensures dirWritable && !ok ==> dir == Rotated(old(dir))
      ensures dirWritable && ok ==> dir == Truncate(Rotated(old(dir))) && !failed && written == [] && Valid()
      ensures ok <==> dirWritable && openOk && Rotated(old(dir)).log != Some(Directory)
    {
      if !dirWritable {
        return false;
      }
      if dir.rotated.Some? && dir.rotated.value.Regular? {
        dir := dir.(rotated := None);
      }
      if dir.log.Some? {
        dir := Rename(dir);
      }
      if !openOk || dir.log == Some(Directory) {
        return false;
      }
      dir := Truncate(dir);
      failed, written := false, [];
      return true;
    }

    // Once a write has failed, the stream refuses every later one.
    method Log(line: Line, writeOk: bool) returns (ok: bool)
      modifies this
      ensures ok == (!old(failed) && writeOk)
      ensures failed == (old(failed) || !writeOk)
      ensures dir == if ok then Append(old(dir), [line]) else old(dir)
      ensures written == if ok then old(written) + [line] else old(written)
      ensures old(Valid()) ==> Valid()
    {
      if failed || !writeOk {
        failed := true;
        return false;
      }
      dir, written := Append(dir, [line]), written + [line];
      return true;
    }
  }

  /** What opening leaves, name by name. An old regular `.0` is always deleted; the log takes its place unless
      the rename is refused, by a directory that cannot be replaced or by any other kind of file in the way of
      one; and only a directory that stayed is not opened. */
  lemma OpenLeaves(d: LogDir)
    ensures var blocked := d.log.Some? && d.rotated.Some?
                           && (d.rotated == Some(Directory) || (d.rotated == Some(Special) && d.log == Some(Directory)));
            var e := Truncate(Rotated(d));
            && (e.rotated == if blocked then d.rotated
                             else if d.log.Some? then d.log
                             else if d.rotated.Some? && d.rotated.value.Regular? then None else d.rotated)
            && (e.log == if blocked && !d.log.value.Regular? then d.log else Some(Regular([])))
            && (Rotated(d).log == Some(Directory) <==> blocked && d.log == Some(Directory))
            && (Rotated(d).log == if blocked then d.log else None) && Rotated(d).rotated == e.rotated
  {
  }

  // A whole run: open, then write `lines`.
  function OneRun(d: LogDir, lines: seq<Line>): LogDir {
    Append(Truncate(Rotated(d)), lines)
  }

  function ManyRuns(d: LogDir, runs: seq<seq<Line>>): LogDir {
    if runs == [] then d else OneRun(ManyRuns(d, runs[..|runs| - 1]), runs[|runs| - 1])
  }

  /** Opening the log keeps the previous run's lines under the rotated name if and only if that name is
      not taken by a directory; in that case the lines are lost. */
  lemma RotationKeepsPreviousLog(d: LogDir, lines: seq<Line>)
    requires d.log == Some(Regular(lines))
    ensures Truncate(Rotated(d)).rotated == Some(Regular(lines)) <==> d.rotated != Some(Directory)
    ensures Truncate(Rotated(d)).log == Some(Regular([]))
  {
  }

  /** Over any number of restarts: the log holds exactly the current run and, from the second run on, the
      rotated file exactly the one before it if and only if its name is not a directory's. */
  lemma {:induction false} RestartsKeepOneLog(d: LogDir, runs: seq<seq<Line>>)
    requires runs != []
    requires d.log.None? || d.log.value.Regular?
    ensures var e := ManyRuns(d, runs);
            && e.log == Some(Regular(runs[|runs| - 1]))
            && (e.rotated == Some(Directory) <==> d.rotated == Some(Directory))
            && (|runs| > 1 ==>
                  (e.rotated == Some(Regular(runs[|runs| - 2])) <==> d.rotated != Some(Directory)))
  {
    var last := runs[|runs| - 1];
    assert [] + last == last;
    if |runs| == 1 {
      assert ManyRuns(d, runs[..0]) == d;
    } else {
      RestartsKeepOneLog(d, runs[..|runs| - 1]);
    }
  }
}
