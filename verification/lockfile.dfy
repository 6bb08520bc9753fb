/** The singleton lock: processes, inodes and POSIX record locks (fcntl() in chapter 3 of the System
    Interfaces volume of IEEE Std 1003.1-2017), at the granularity of single system calls. */
module Lockfile {
  import opened Optional

  type Pid = int
  type Inode = nat

  /** How far a process is. Opened to Running are the steps of `is_running`; Unlocked and Closed those of
      `cleanup`. */
  datatype Phase =
    | Idle
    | Opened(ino: Inode)
    | Locked(ino: Inode)
    | Truncated(ino: Inode)
    | Running(ino: Inode)
    | Refused
    | Unlocked(ino: Inode)
    | Closed
    | Gone

  // `text` is the pid written in a lock file; inodes from `next` on have never been used.
  datatype Kernel = Kernel(path: Option<Inode>, locks: map<Inode, Pid>, text: map<Inode, Option<Pid>>,
                           next: Inode, phase: map<Pid, Phase>)

  datatype Action = Open | SetLock | Truncate | WritePid | Unlock | Close | Unlink | Die

  function PhaseOf(k: Kernel, p: Pid): Phase {
    if p in k.phase then k.phase[p] else Idle
  }

  // Past the lock and not yet in its clean-up.
  predicate Holder(ph: Phase) {
    ph.Locked? || ph.Truncated? || ph.Running?
  }

  // Holding the lock, or about to try for it.
  predicate Interested(ph: Phase) {
    ph.Opened? || Holder(ph)
  }

  predicate Enabled(k: Kernel, p: Pid, a: Action) {
    var ph := PhaseOf(k, p);
    match a
    case Open => ph.Idle?
    case SetLock => ph.Opened?
    case Truncate => ph.Locked?
    case WritePid => ph.Truncated?
    case Unlock => Interested(ph)
    case Close => ph.Unlocked?
    case Unlink => ph.Closed? || ph.Idle? || ph.Refused?
    case Die => true
  }

  function Release(locks: map<Inode, Pid>, p: Pid): map<Inode, Pid> {
    map i | i in locks && locks[i] != p :: locks[i]
  }

  /** One system call. Opening creates the file when the path names none; a lock held by another process
      refuses; the end of a process, however it comes, gives up its lock; unlinking only clears the path. */
  function Apply(k: Kernel, p: Pid, a: Action): Kernel
    requires Enabled(k, p, a)
  {
    var ph := PhaseOf(k, p);
    match a
    case Open =>
      if k.path.Some? then k.(phase := k.phase[p := Opened(k.path.value)])
      else k.(path := Some(k.next), text := k.text[k.next := None], next := k.next + 1,
              phase := k.phase[p := Opened(k.next)])
    case SetLock =>
      if ph.ino in k.locks && k.locks[ph.ino] != p then k.(phase := k.phase[p := Refused])
      else k.(locks := k.locks[ph.ino := p], phase := k.phase[p := Locked(ph.ino)])
    case Truncate => k.(text := k.text[ph.ino := None], phase := k.phase[p := Truncated(ph.ino)])
    case WritePid => k.(text := k.text[ph.ino := Some(p)], phase := k.phase[p := Running(ph.ino)])
    case Unlock => k.(locks := Release(k.locks, p), phase := k.phase[p := Unlocked(ph.ino)])
    case Close => k.(phase := k.phase[p := Closed])
    case Unlink => k.(path := None, phase := k.phase[p := Gone])
    case Die => k.(locks := Release(k.locks, p), phase := k.phase[p := Gone])
  }

  // The condition on unlinking: no other process holds the lock or has the file open to try for it.
  ghost predicate Quiet(k: Kernel, p: Pid) {
    forall q: Pid | q != p :: !Interested(PhaseOf(k, q))
  }

  // At most one process is past `is_running() == false`, and the lock file carries its pid.
  ghost predicate Exclusive(k: Kernel) {
    forall p, q: Pid | PhaseOf(k, p).Running? && PhaseOf(k, q).Running? :: p == q
  }

  predicate HasLock(k: Kernel, p: Pid, i: Inode) {
    i in k.locks && k.locks[i] == p
  }

  predicate Names(k: Kernel, i: Inode, p: Pid) {
    i in k.text && k.text[i] == Some(p)
  }

  predicate Blank(k: Kernel, i: Inode) {
    i in k.text && k.text[i] == None
  }

  ghost predicate Inv(k: Kernel) {
    && (forall p: Pid | Interested(PhaseOf(k, p)) :: k.path == Some(PhaseOf(k, p).ino))
    && (forall p: Pid | Holder(PhaseOf(k, p)) :: HasLock(k, p, PhaseOf(k, p).ino))
    && (forall i | i in k.locks :: Holder(PhaseOf(k, k.locks[i])) && PhaseOf(k, k.locks[i]).ino == i && i < k.next)
    && (forall p: Pid | PhaseOf(k, p).Running? :: Names(k, PhaseOf(k, p).ino, p))
    && (forall p: Pid | PhaseOf(k, p).Truncated? :: Blank(k, PhaseOf(k, p).ino))
    && (k.path.Some? ==> k.path.value < k.next)
  }

  lemma PhaseAfter(k: Kernel, p: Pid, a: Action)
    requires Enabled(k, p, a)
    ensures forall q: Pid | q != p :: PhaseOf(Apply(k, p, a), q) == PhaseOf(k, q)
  {
  }

  lemma InvExclusive(k: Kernel)
    requires Inv(k)
    ensures Exclusive(k)
    ensures forall p: Pid | PhaseOf(k, p).Running? ::
              k.path.Some? && Names(k, k.path.value, p) && HasLock(k, p, k.path.value)
  {
    forall p, q: Pid | PhaseOf(k, p).Running? && PhaseOf(k, q).Running? ensures p == q {
      assert HasLock(k, p, PhaseOf(k, p).ino) && HasLock(k, q, PhaseOf(k, q).ino);
    }
  }

  lemma StepKeepsText(k: Kernel, p: Pid, a: Action)
    requires Inv(k) && Enabled(k, p, a)
    ensures var k' := Apply(k, p, a);
            && (forall q: Pid | PhaseOf(k', q).Running? :: Names(k', PhaseOf(k', q).ino, q))
            && (forall q: Pid | PhaseOf(k', q).Truncated? :: Blank(k', PhaseOf(k', q).ino))
  {
    var k' := Apply(k, p, a);
    PhaseAfter(k, p, a);
    forall q: Pid | PhaseOf(k', q).Running? || PhaseOf(k', q).Truncated?
      ensures PhaseOf(k', q).Running? ==> Names(k', PhaseOf(k', q).ino, q)
      ensures PhaseOf(k', q).Truncated? ==> Blank(k', PhaseOf(k', q).ino)
    {
      assert q != p ==> HasLock(k, q, PhaseOf(k, q).ino);
    }
  }

  /** Every step keeps the invariant, provided that an unlink happens while no other process is interested. */
  lemma StepKeepsInv(k: Kernel, p: Pid, a: Action)
    requires Inv(k) && Enabled(k, p, a)
    requires a == Unlink ==> Quiet(k, p)
    ensures Inv(Apply(k, p, a))
  {
    var k' := Apply(k, p, a);
    PhaseAfter(k, p, a);
    forall q: Pid | Interested(PhaseOf(k', q)) ensures k'.path == Some(PhaseOf(k', q).ino) {
    }
    forall q: Pid | Holder(PhaseOf(k', q)) ensures HasLock(k', q, PhaseOf(k', q).ino) {
      assert q != p ==> HasLock(k, q, PhaseOf(k, q).ino);
    }
    StepKeepsText(k, p, a);
  }

  // ---------------------------------------------------------------- runs

  datatype Move = Move(pid: Pid, action: Action)

  ghost predicate CanRun(k: Kernel, run: seq<Move>)
    decreases |run|
  {
    run == [] || (Enabled(k, run[0].pid, run[0].action) && CanRun(Apply(k, run[0].pid, run[0].action), run[1..]))
  }

  ghost function After(k: Kernel, run: seq<Move>): Kernel
    requires CanRun(k, run)
    decreases |run|
  {
    if run == [] then k else After(Apply(k, run[0].pid, run[0].action), run[1..])
  }

  // Every unlink in the run happens while no other process is interested.
  ghost predicate Serialised(k: Kernel, run: seq<Move>)
    requires CanRun(k, run)
    decreases |run|
  {
    run == [] ||
    ((run[0].action == Unlink ==> Quiet(k, run[0].pid))
     && Serialised(Apply(k, run[0].pid, run[0].action), run[1..]))
  }

  /** Singleton safety: over every interleaving of system calls, crashes included, in which unlinks are
      serialised, at most one process runs as the daemon, it holds the lock of the file the path names,
      and that file carries its pid. */
  lemma {:induction false} SingletonSafety(k: Kernel, run: seq<Move>)
    requires Inv(k) && CanRun(k, run) && Serialised(k, run)
    ensures Inv(After(k, run)) && Exclusive(After(k, run))
    decreases |run|
  {
    hide Inv, Exclusive, Apply, Quiet;
    if run == [] {
      InvExclusive(k);
    } else {
      StepKeepsInv(k, run[0].pid, run[0].action);
      SingletonSafety(Apply(k, run[0].pid, run[0].action), run[1..]);
    }
  }

  lemma FreshKernel()
    ensures Inv(Kernel(None, map[], map[], 0, map[]))
  {
  }

  // ---------------------------------------------------------------- why the condition is needed

  ghost predicate NoUnlink(run: seq<Move>) {
    forall m | m in run :: m.action != Unlink
  }

  lemma {:induction false} NoUnlinkIsSerialised(k: Kernel, run: seq<Move>)
    requires CanRun(k, run) && NoUnlink(run)
    ensures Serialised(k, run)
    decreases |run|
  {
    hide Apply, Enabled;
    if run == [] {
    } else {
      assert run[0] in run;
      NoUnlinkIsSerialised(Apply(k, run[0].pid, run[0].action), run[1..]);
    }
  }

  lemma {:induction false} RunConcat(k: Kernel, a: seq<Move>, b: seq<Move>)
    requires CanRun(k, a) && CanRun(After(k, a), b)
    ensures CanRun(k, a + b) && After(k, a + b) == After(After(k, a), b)
    decreases |a|
  {
    hide Apply, Enabled;
    if a == [] {
      assert a + b == b;
    } else {
      assert (a + b)[0] == a[0] && (a + b)[1..] == a[1..] + b;
      RunConcat(Apply(k, a[0].pid, a[0].action), a[1..], b);
    }
  }

  lemma OneMove(k: Kernel, p: Pid, a: Action, rest: seq<Move>)
    requires Enabled(k, p, a) && CanRun(Apply(k, p, a), rest)
    ensures var run := [Move(p, a)] + rest;
            CanRun(k, run) && After(k, run) == After(Apply(k, p, a), rest)
  {
    hide Apply, Enabled;
    var run := [Move(p, a)] + rest;
    assert run[1..] == rest;
  }

  function StepsLeft(ph: Phase): nat {
    match ph case Opened(_) => 3 case Locked(_) => 2 case Truncated(_) => 1 case _ => 0
  }

  // The rest of a run of `is_running` that nobody interrupts.
  function NextAction(ph: Phase): Action {
    match ph case Opened(_) => SetLock case Locked(_) => Truncate case _ => WritePid
  }

  // Only `r` has moved, from one phase on inode `i` to another, and it has not touched the path.
  ghost predicate OnlyMoved(k: Kernel, k': Kernel, r: Pid, i: Inode) {
    && k'.path == k.path && k'.next == k.next
    && (forall q: Pid | q != r :: PhaseOf(k', q) == PhaseOf(k, q))
    && (forall j | j in k'.locks :: j in k.locks || j == i)
  }

  lemma DriveStep(k: Kernel, r: Pid, i: Inode)
    requires Interested(PhaseOf(k, r)) && !PhaseOf(k, r).Running? && PhaseOf(k, r).ino == i
    requires i in k.locks ==> k.locks[i] == r
    ensures var a := NextAction(PhaseOf(k, r));
            && Enabled(k, r, a) && a != Unlink
            && (var k' := Apply(k, r, a);
                && Interested(PhaseOf(k', r)) && PhaseOf(k', r).ino == i
                && StepsLeft(PhaseOf(k', r)) < StepsLeft(PhaseOf(k, r))
                && (i in k'.locks ==> k'.locks[i] == r)
                && OnlyMoved(k, k', r, i))
  {
  }

  // A process that can get its lock runs on to the end of `is_running`.
  lemma {:induction false} Drive(k: Kernel, r: Pid, i: Inode) returns (run: seq<Move>)
    requires Interested(PhaseOf(k, r)) && PhaseOf(k, r).ino == i
    requires i in k.locks ==> k.locks[i] == r
    ensures CanRun(k, run) && NoUnlink(run)
    ensures PhaseOf(After(k, run), r).Running? && OnlyMoved(k, After(k, run), r, i)
    decreases StepsLeft(PhaseOf(k, r))
  {
    hide Apply, Enabled;
    if PhaseOf(k, r).Running? {
      run := [];
    } else {
      DriveStep(k, r, i);
      var a := NextAction(PhaseOf(k, r));
      var rest := Drive(Apply(k, r, a), r, i);
      OneMove(k, r, a, rest);
      run := [Move(r, a)] + rest;
    }
  }

  // With no lock file at the path, a newcomer makes a new one and locks it, whoever holds the old one.
  lemma Newcomer(k: Kernel, c: Pid) returns (run: seq<Move>)
    requires PhaseOf(k, c).Idle? && k.path.None? && k.next !in k.locks
    ensures CanRun(k, run) && NoUnlink(run)
    ensures PhaseOf(After(k, run), c).Running?
    ensures forall q: Pid | q != c :: PhaseOf(After(k, run), q) == PhaseOf(k, q)
  {
    var k' := Apply(k, c, Open);
    PhaseAfter(k, c, Open);
    var rest := Drive(k', c, k.next);
    OneMove(k, c, Open, rest);
    run := [Move(c, Open)] + rest;
  }

  // The process that an unlink leaves able to run on the old file.
  lemma Survivor(k: Kernel, p: Pid) returns (r: Pid)
    requires Inv(k) && !Quiet(k, p) && !Interested(PhaseOf(k, p))
    ensures r != p && Interested(PhaseOf(k, r))
    ensures PhaseOf(k, r).ino in k.locks ==> k.locks[PhaseOf(k, r).ino] == r
  {
    var q: Pid :| q != p && Interested(PhaseOf(k, q));
    var i := PhaseOf(k, q).ino;
    if i in k.locks {
      r := k.locks[i];
    } else {
      r := q;
    }
  }

  // An unlink while another process is interested lets two processes run.
  lemma TwoDaemons(k: Kernel, p: Pid, c: Pid) returns (run: seq<Move>)
    requires Inv(k) && Enabled(k, p, Unlink) && !Quiet(k, p)
    requires c != p && PhaseOf(k, c).Idle?
    ensures CanRun(Apply(k, p, Unlink), run) && NoUnlink(run)
    ensures !Exclusive(After(Apply(k, p, Unlink), run))
  {
    var r := Survivor(k, p);
    var i := PhaseOf(k, r).ino;
    var k' := Apply(k, p, Unlink);
    PhaseAfter(k, p, Unlink);
    assert k'.next !in k'.locks && i < k.next;
    var first := Drive(k', r, i);
    var k'' := After(k', first);
    var second := Newcomer(k'', c);
    RunConcat(k', first, second);
    run := first + second;
    assert PhaseOf(After(k', run), r).Running? && PhaseOf(After(k', run), c).Running?;
  }

  /** The condition is exact: in any state the invariant allows, an unlink leaves every continuation whose
      further unlinks are serialised exclusive if and only if no other process holds the lock or has the file
      open to try for it; continuations without any further unlink give the same condition. */
  lemma UnlinkCondition(k: Kernel, p: Pid, c: Pid)
    requires Inv(k) && Enabled(k, p, Unlink)
    requires c != p && PhaseOf(k, c).Idle?
    ensures Quiet(k, p) <==>
            forall run | CanRun(Apply(k, p, Unlink), run) && Serialised(Apply(k, p, Unlink), run) ::
              Exclusive(After(Apply(k, p, Unlink), run))
    ensures Quiet(k, p) <==>
            forall run | CanRun(Apply(k, p, Unlink), run) && NoUnlink(run) ::
              Exclusive(After(Apply(k, p, Unlink), run))
  {
    hide Inv, Exclusive, Serialised;
    var k' := Apply(k, p, Unlink);
    if Quiet(k, p) {
      StepKeepsInv(k, p, Unlink);
      forall run | CanRun(k', run) && Serialised(k', run) ensures Exclusive(After(k', run)) {
        SingletonSafety(k', run);
      }
      forall run | CanRun(k', run) && NoUnlink(run) ensures Exclusive(After(k', run)) {
        NoUnlinkIsSerialised(k', run);
      }
    } else {
      var run := TwoDaemons(k, p, c);
      NoUnlinkIsSerialised(k', run);
    }
  }

  /** A run from an empty system in which two processes end up past the check: one starts completely,
      another that never started receives a signal and unlinks, and a third starts on a new file. */
  lemma TwoDaemonsFromScratch() returns (run: seq<Move>)
    ensures var k := Kernel(None, map[], map[], 0, map[]);
            CanRun(k, run) && !Exclusive(After(k, run))
  {
    var k0 := Kernel(None, map[], map[], 0, map[]);
    FreshKernel();
    var start := Newcomer(k0, 1);
    NoUnlinkIsSerialised(k0, start);
    SingletonSafety(k0, start);
    var k1 := After(k0, start);
    assert PhaseOf(k1, 1).Running? && PhaseOf(k1, 2).Idle? && PhaseOf(k1, 3).Idle?;
    assert !Quiet(k1, 2) && Enabled(k1, 2, Unlink);
    hide Inv, Apply, Enabled;
    var rest := TwoDaemons(k1, 2, 3);
    OneMove(k1, 2, Unlink, rest);
    RunConcat(k0, start, [Move(2, Unlink)] + rest);
    run := start + ([Move(2, Unlink)] + rest);
  }

  // ---------------------------------------------------------------- the daemon's own calls

  // The state of the system that all processes share.
  class System {
    var k: Kernel

    constructor ()
      ensures Inv(k) && k.path.None? && k.phase == map[]
    {
      k := Kernel(None, map[], map[], 0, map[]);
    }

    method Call(p: Pid, a: Action)
      requires Enabled(k, p, a)
      modifies this
      ensures k == Apply(old(k), p, a)
    {
      k := Apply(k, p, a);
    }
  }

  // A newly created file is locked by nobody; nobody opens a file as somebody who already has.
  lemma OpenedInode(k: Kernel, p: Pid)
    requires Inv(k) && PhaseOf(k, p).Idle?
    ensures var k' := Apply(k, p, Open);
            && PhaseOf(k', p).Opened? && k'.path == Some(PhaseOf(k', p).ino) && k'.locks == k.locks
            && (PhaseOf(k', p).ino in k.locks ==> k.locks[PhaseOf(k', p).ino] != p)
            && (PhaseOf(k', p).ino in k.locks <==> k.path.Some? && k.path.value in k.locks)
            && (k.path.None? ==> Blank(k', PhaseOf(k', p).ino))
  {
  }

  lemma NoLockToRelease(k: Kernel, p: Pid)
    requires Inv(k) && !Holder(PhaseOf(k, p))
    ensures Release(k.locks, p) == k.locks
  {
  }

  lemma NobodyHolds(k: Kernel)
    requires Inv(k) && forall q: Pid :: !Interested(PhaseOf(k, q))
    ensures k.locks == map[]
  {
    assert k.locks.Keys == {};
  }

  class Tdaemon {
    const sys: System
    const pid: Pid   // after both forks

    constructor (sys: System, pid: Pid)
      ensures this.sys == sys && this.pid == pid
    {
      this.sys, this.pid := sys, pid;
    }

    /** One uninterrupted start. It answers true exactly when another process holds the lock of the file at
        the path; otherwise this process holds it, and the file carries its pid. */
    method IsRunning() returns (running: bool)
      requires Inv(sys.k) && PhaseOf(sys.k, pid).Idle?
      modifies sys
      ensures Inv(sys.k)
      ensures running <==> old(sys.k).path.Some? && old(sys.k).path.value in old(sys.k).locks
      ensures running ==> PhaseOf(sys.k, pid).Refused? && sys.k.locks == old(sys.k).locks && sys.k.path == old(sys.k).path
      ensures running ==> sys.k.text == old(sys.k).text
      ensures !running ==>
                && PhaseOf(sys.k, pid).Running? && sys.k.path.Some?
                && HasLock(sys.k, pid, sys.k.path.value) && Names(sys.k, sys.k.path.value, pid)
      ensures forall q: Pid | q != pid :: PhaseOf(sys.k, q) == PhaseOf(old(sys.k), q)
    {
      hide Inv;
      StepKeepsInv(sys.k, pid, Open);
      OpenedInode(sys.k, pid);
      sys.Call(pid, Open);
      StepKeepsInv(sys.k, pid, SetLock);
      sys.Call(pid, SetLock);
      if PhaseOf(sys.k, pid).Refused? {
        return true;
      }
      StepKeepsInv(sys.k, pid, Truncate);
      sys.Call(pid, Truncate);
      StepKeepsInv(sys.k, pid, WritePid);
      sys.Call(pid, WritePid);
      InvExclusive(sys.k);
      return false;
    }

    /** The uninterrupted clean-up of the destructor, which runs from whatever phase the process has reached:
        it gives up the lock and closes the file if it has them, and removes the path in any case, whoever
        else may have the file open. When nobody has, the invariant survives. */
    method Cleanup()
      requires Inv(sys.k)
      requires var ph := PhaseOf(sys.k, pid); Interested(ph) || ph.Idle? || ph.Refused?
      modifies sys
      ensures sys.k.path.None? && PhaseOf(sys.k, pid).Gone?
      ensures sys.k.locks == Release(old(sys.k).locks, pid)
      ensures forall q: Pid | q != pid :: PhaseOf(sys.k, q) == PhaseOf(old(sys.k), q)
      ensures Quiet(old(sys.k), pid) ==> Inv(sys.k) && sys.k.locks == map[]
    {
      hide Inv;
      ghost var k0 := sys.k;
      if Interested(PhaseOf(sys.k, pid)) {
        StepKeepsInv(sys.k, pid, Unlock);
        PhaseAfter(sys.k, pid, Unlock);
        sys.Call(pid, Unlock);
        PhaseAfter(sys.k, pid, Close);
        StepKeepsInv(sys.k, pid, Close);
        sys.Call(pid, Close);
      } else {
        NoLockToRelease(sys.k, pid);
      }
      PhaseAfter(sys.k, pid, Unlink);
      if Quiet(k0, pid) {
        assert Quiet(sys.k, pid);
        StepKeepsInv(sys.k, pid, Unlink);
        NobodyHolds(Apply(sys.k, pid, Unlink));
      }
      sys.Call(pid, Unlink);
    }
  }
}
