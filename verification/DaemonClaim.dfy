/**
Claiming the daemon PID file. Creating the file and writing the record into it are two steps, and a starter
that meets a file looks at it, decides and removes it in three more, so the file alone does not exclude
anyone. `nic start` runs the whole claim under the reload flock. Any process may die at any step, which frees
the flock it holds. A record names a process and its start time, so it is live exactly while that process is.
*/
module DaemonClaim {
  import opened Wrappers

  type Pid = nat

  /** A file created by one process; until it is written it holds no readable record. */
  datatype Record = Record(owner: Pid, written: bool)

  datatype Pc =
    | WantLock
    | Create(attempt: nat)
    | Write
    | Close
    | Undo
    | Read(attempt: nat)
    | CheckLive(owner: Pid, attempt: nat)
    | Discard(attempt: nat)
    | Claimed
    | Running
    | ExitRead
    | ExitRemove
    | Refused
    | ClientIdle
    | ClientLocked

  /** `guarded` tells whether ClaimDaemon runs under the reload lock, as cmdStart has it. */
  datatype System = System(guarded: bool, file: Option<Record>, lock: Option<Pid>, procs: map<Pid, Pc>, nextPid: Pid)

  datatype Label =
    | Launch(starter: bool)
    | Step(p: Pid, fail: bool)
    | Quit(p: Pid)
    | Die(p: Pid)

  function Initial(guarded: bool): System {
    System(guarded, None, None, map[], 0)
  }

  function Move(s: System, p: Pid, pc: Pc): System {
    s.(procs := s.procs[p := pc])
  }

  function Vanish(s: System, p: Pid): System {
    s.(procs := s.procs - {p}, lock := if s.lock == Some(p) then None else s.lock)
  }

  function Unlock(s: System, p: Pid): System {
    s.(lock := if s.lock == Some(p) then None else s.lock)
  }

  /** ClaimDaemon between taking the lock and returning. */
  function ClaimStep(s: System, p: Pid, pc: Pc, fail: bool): System {
    match pc
    case Create(n) =>
      // O_CREATE|O_EXCL
      if s.file.Some? then Move(s, p, Read(n))
      else if fail then Move(s, p, Refused)
      else Move(s.(file := Some(Record(p, false))), p, Write)
    case Write =>
      // The write goes to the file this process created, which need not be the one at the path.
      if fail then Move(s, p, Undo)
      else Move(s.(file := if s.file == Some(Record(p, false)) then Some(Record(p, true)) else s.file), p, Close)
    case Close => Move(s, p, if fail then Undo else Claimed)
    case Undo => Move(s.(file := None), p, Refused)
    case Read(n) =>
      if s.file.Some? && s.file.value.written then Move(s, p, CheckLive(s.file.value.owner, n))
      else Move(s, p, Discard(n))
    case CheckLive(o, n) => Move(s, p, if o in s.procs then Refused else Discard(n))
    case Discard(n) =>
      if fail then Move(s, p, Refused)
      else Move(s.(file := None), p, if n == 0 then Create(1) else Refused)
    case _ => s
  }

  function ProcStep(s: System, p: Pid, pc: Pc, fail: bool): System {
    match pc
    case WantLock =>
      if fail || (s.guarded && s.lock.Some?) then Vanish(s, p)
      else Move(s.(lock := if s.guarded then Some(p) else s.lock), p, Create(0))
    case Claimed => Move(Unlock(s, p), p, Running)
    case Running => Move(s, p, ExitRead)
    // removeIfOwned
    case ExitRead => if s.file == Some(Record(p, true)) then Move(s, p, ExitRemove) else Vanish(s, p)
    case ExitRemove => Vanish(s.(file := None), p)
    case Refused => Vanish(s, p)
    case ClientIdle => if s.lock.Some? then s else Move(s.(lock := Some(p)), p, ClientLocked)
    case ClientLocked => Move(Unlock(s, p), p, ClientIdle)
    case _ => ClaimStep(s, p, pc, fail)
  }

  function Next(s: System, l: Label): System {
    match l
    case Launch(starter) => Move(s.(nextPid := s.nextPid + 1), s.nextPid, if starter then WantLock else ClientIdle)
    case Step(p, fail) => if p in s.procs then ProcStep(s, p, s.procs[p], fail) else s
    // A daemon that cannot identify itself gives the claim back while it still holds the lock.
    case Quit(p) => if p in s.procs && s.procs[p] == Claimed then Move(s, p, ExitRead) else s
    case Die(p) => if p in s.procs then Vanish(s, p) else s
  }

  function Run(guarded: bool, labels: seq<Label>): System {
    if labels == [] then Initial(guarded)
    else Next(Run(guarded, labels[..|labels| - 1]), labels[|labels| - 1])
  }

  // ---------------------------------------------------------------- invariant

  predicate Claiming(pc: Pc) {
    || pc.Create? || pc.Write? || pc.Close? || pc.Undo? || pc.Read? || pc.CheckLive? || pc.Discard? || pc.Claimed?
    || pc.ClientLocked?
  }

  /** ClaimDaemon has returned and the claim has not been given back. */
  predicate Holds(pc: Pc) {
    pc.Claimed? || pc.Running? || pc.ExitRead? || pc.ExitRemove?
  }

  ghost predicate NobodyHolds(s: System) {
    forall q | q in s.procs :: !Holds(s.procs[q])
  }

  ghost predicate ProcInv(s: System, p: Pid, pc: Pc) {
    && p < s.nextPid
    && (Claiming(pc) ==> s.lock == Some(p))
    && (Holds(pc) ==> s.file == Some(Record(p, true)))
    && (pc.Write? ==> s.file == Some(Record(p, false)))
    && (pc.Close? ==> s.file == Some(Record(p, true)))
    && (pc.Undo? ==> s.file == Some(Record(p, false)) || s.file == Some(Record(p, true)))
    && (pc.CheckLive? ==> s.file == None || s.file == Some(Record(pc.owner, true)))
    && (pc.Discard? ==> NobodyHolds(s))
  }

  ghost predicate Inv(s: System) {
    && s.guarded
    && (s.lock.Some? ==> s.lock.value in s.procs)
    && (s.file.Some? ==> s.file.value.owner < s.nextPid)
    && (forall p | p in s.procs :: ProcInv(s, p, s.procs[p]))
  }

  lemma InvStep(s: System, l: Label)
    requires Inv(s)
    ensures Inv(Next(s, l))
  {
    var s' := Next(s, l);
    if l.Step? && l.p in s.procs {
      assert ProcInv(s, l.p, s.procs[l.p]);
      if Claiming(s.procs[l.p]) && !s.procs[l.p].Claimed? && !s.procs[l.p].ClientLocked? {
        InvClaimStep(s, l.p, s.procs[l.p], l.fail);
      } else {
        InvPlainStep(s, l.p, s.procs[l.p], l.fail);
      }
    } else {
      forall q | q in s'.procs ensures ProcInv(s', q, s'.procs[q]) {
        assert q in s.procs ==> ProcInv(s, q, s.procs[q]);
      }
    }
  }

  lemma InvClaimStep(s: System, p: Pid, pc: Pc, fail: bool)
    requires Inv(s) && p in s.procs && s.procs[p] == pc
    requires Claiming(pc) && !pc.Claimed? && !pc.ClientLocked?
    ensures Inv(ClaimStep(s, p, pc, fail))
  {
    var s' := ClaimStep(s, p, pc, fail);
    assert ProcInv(s, p, pc);
    forall q | q in s.procs && Holds(s.procs[q]) ensures s.file == Some(Record(q, true)) {
      assert ProcInv(s, q, s.procs[q]);
    }
    forall q | q in s'.procs ensures ProcInv(s', q, s'.procs[q]) {
      assert ProcInv(s, q, s.procs[q]);
    }
  }

  lemma InvPlainStep(s: System, p: Pid, pc: Pc, fail: bool)
    requires Inv(s) && p in s.procs && s.procs[p] == pc
    requires !Claiming(pc) || pc.Claimed? || pc.ClientLocked?
    ensures Inv(ProcStep(s, p, pc, fail))
  {
    var s' := ProcStep(s, p, pc, fail);
    assert ProcInv(s, p, pc);
    forall q | q in s'.procs ensures ProcInv(s', q, s'.procs[q]) {
      assert ProcInv(s, q, s.procs[q]);
    }
  }

  lemma {:induction false} InvRun(labels: seq<Label>)
    ensures Inv(Run(true, labels))
  {
    if labels != [] {
      InvRun(labels[..|labels| - 1]);
      InvStep(Run(true, labels[..|labels| - 1]), labels[|labels| - 1]);
    }
  }

  // ---------------------------------------------------------------- main results

  /** Under the reload lock at most one live process holds the daemon claim. */
  lemma AtMostOneDaemon(labels: seq<Label>, p: Pid, q: Pid)
    requires var s := Run(true, labels); p in s.procs && q in s.procs && Holds(s.procs[p]) && Holds(s.procs[q])
    ensures p == q
  {
    var s := Run(true, labels);
    InvRun(labels);
    assert ProcInv(s, p, s.procs[p]) && ProcInv(s, q, s.procs[q]);
  }

  /** removeIfOwned and a failed claim only ever remove the record of the process that runs them, although the
      ownership test and the removal are two steps. */
  lemma RemovesOwnRecordOnly(labels: seq<Label>, p: Pid)
    requires var s := Run(true, labels); p in s.procs && (s.procs[p] == ExitRemove || s.procs[p] == Undo)
    ensures var s := Run(true, labels);
            s.file.Some? && s.file.value.owner == p && (s.procs[p] == ExitRemove ==> s.file.value.written)
  {
    var s := Run(true, labels);
    InvRun(labels);
    assert ProcInv(s, p, s.procs[p]);
  }

  /** A starter about to discard a record never takes it from a live daemon. */
  lemma DiscardsStaleRecordsOnly(labels: seq<Label>, p: Pid, q: Pid)
    requires var s := Run(true, labels); p in s.procs && s.procs[p].Discard? && q in s.procs
    ensures !Holds(Run(true, labels).procs[q])
  {
    var s := Run(true, labels);
    InvRun(labels);
    assert ProcInv(s, p, s.procs[p]);
  }

  /** The system after p took n successful steps by itself. */
  function Alone(s: System, p: Pid, n: nat): System {
    if n == 0 then s else Next(Alone(s, p, n - 1), Step(p, false))
  }

  /** A record left behind by a crash, readable or not, does not keep a starter out. */
  lemma StaleRecordIsReplaced(s: System, p: Pid)
    requires s.guarded && s.lock.None? && p in s.procs && s.procs[p] == WantLock
    requires s.file.Some? && (s.file.value.written ==> s.file.value.owner !in s.procs)
    ensures var n := if s.file.value.written then 9 else 8;
            Alone(s, p, n) == Move(s.(file := Some(Record(p, true))), p, Running)
  {
    var s0 := s.(lock := Some(p));
    assert Alone(s, p, 1) == Move(s0, p, Create(0));
    assert Alone(s, p, 2).procs == Move(s0, p, Read(0)).procs;
    if s.file.value.written {
      assert Alone(s, p, 3).procs == Move(s0, p, CheckLive(s.file.value.owner, 0)).procs;
      assert Alone(s, p, 4).procs == Move(s0, p, Discard(0)).procs;
      FinishClaim(s, p, 4);
    } else {
      assert Alone(s, p, 3).procs == Move(s0, p, Discard(0)).procs;
      FinishClaim(s, p, 3);
    }
  }

  lemma FinishClaim(s: System, p: Pid, n: nat)
    requires s.guarded && s.lock.None? && p in s.procs
    requires Alone(s, p, n) == Move(s.(lock := Some(p)), p, Discard(0))
    ensures Alone(s, p, n + 5) == Move(s.(file := Some(Record(p, true))), p, Running)
  {
    var s0 := s.(lock := Some(p));
    assert Alone(s, p, n + 1).procs == Move(s0, p, Create(1)).procs;
    assert Alone(s, p, n + 2).procs == Move(s0, p, Write).procs;
    assert Alone(s, p, n + 3).procs == Move(s0, p, Close).procs;
    assert Alone(s, p, n + 4).procs == Move(s0, p, Claimed).procs;
    assert Alone(s, p, n + 5).procs == Move(s, p, Running).procs;
  }

  /** Nor is a starter kept out when there is no record. */
  lemma FreeClaim(s: System, p: Pid)
    requires s.guarded && s.lock.None? && s.file.None? && p in s.procs && s.procs[p] == WantLock
    ensures Alone(s, p, 5) == Move(s.(file := Some(Record(p, true))), p, Running)
  {
    var s0 := s.(lock := Some(p));
    assert Alone(s, p, 1) == Move(s0, p, Create(0));
    assert Alone(s, p, 2).procs == Move(s0, p, Write).procs;
    assert Alone(s, p, 3).procs == Move(s0, p, Close).procs;
    assert Alone(s, p, 4).procs == Move(s0, p, Claimed).procs;
    assert Alone(s, p, 5).procs == Move(s, p, Running).procs;
  }

  /** A live daemon's record keeps a starter out, which leaves everything as it was. */
  lemma LiveRecordKeepsOut(s: System, p: Pid)
    requires s.guarded && s.lock.None? && p in s.procs && s.procs[p] == WantLock
    requires s.file.Some? && s.file.value.written && s.file.value.owner in s.procs
    ensures Alone(s, p, 5) == s.(procs := s.procs - {p})
  {
    var s0 := s.(lock := Some(p));
    assert Alone(s, p, 1) == Move(s0, p, Create(0));
    assert Alone(s, p, 2).procs == Move(s0, p, Read(0)).procs;
    assert Alone(s, p, 3).procs == Move(s0, p, CheckLive(s.file.value.owner, 0)).procs;
    assert Alone(s, p, 4).procs == Move(s0, p, Refused).procs;
    assert Alone(s, p, 5).procs == s.procs - {p};
  }

  /** A claim that cannot create the file or discard a stale one leaves it as it is; */
  lemma FailedStepLeavesFile(s: System, p: Pid)
    requires p in s.procs && ((s.procs[p].Create? && s.file.None?) || s.procs[p].Discard?)
    ensures Alone(Next(s, Step(p, true)), p, 1) == Vanish(s, p)
  {
    var s0 := Next(s, Step(p, true));
    assert Alone(s0, p, 0).procs == Move(s, p, Refused).procs;
    assert Alone(s0, p, 1).procs == s.procs - {p};
  }

  /** there is no third attempt; */
  lemma SecondDiscardIsTheLast(s: System, p: Pid, n: nat)
    requires p in s.procs && s.procs[p] == Discard(n) && n > 0
    ensures Alone(s, p, 2) == Vanish(s.(file := None), p)
  {
    assert Alone(s, p, 0).procs == s.procs;
    assert Alone(s, p, 1).procs == Move(s, p, Refused).procs;
    assert Alone(s, p, 2).procs == s.procs - {p};
  }

  /** and one that fails after creating the file takes it back. */
  lemma FailedClaimUndoes(s: System, p: Pid)
    requires p in s.procs && (s.procs[p].Write? || s.procs[p].Close?)
    ensures Alone(Next(s, Step(p, true)), p, 2) == Vanish(s.(file := None), p)
  {
    var s0 := Next(s, Step(p, true));
    assert Alone(s0, p, 0).procs == Move(s, p, Undo).procs;
    assert Alone(s0, p, 1).procs == Move(s, p, Refused).procs;
    assert Alone(s0, p, 2).procs == s.procs - {p};
  }

  /** A daemon that exits, or gives the claim back at once, removes its own record and is gone. */
  lemma ExitRemovesRecord(labels: seq<Label>, p: Pid)
    requires var s := Run(true, labels); p in s.procs && (s.procs[p].Running? || s.procs[p].Claimed?)
    ensures var s := Run(true, labels);
            var exiting := Next(s, if s.procs[p].Running? then Step(p, false) else Quit(p));
            Alone(exiting, p, 2) == Vanish(s.(file := None), p)
  {
    var s := Run(true, labels);
    InvRun(labels);
    assert ProcInv(s, p, s.procs[p]);
    var exiting := Next(s, if s.procs[p].Running? then Step(p, false) else Quit(p));
    assert Alone(exiting, p, 0).procs == Move(s, p, ExitRead).procs;
    assert Alone(exiting, p, 1).procs == Move(s, p, ExitRemove).procs;
    assert Alone(exiting, p, 2).procs == s.procs - {p};
  }

  /** Whatever else stands in the file, with or without the lock, is left alone. */
  lemma OthersRecordIsLeft(s: System, p: Pid)
    requires p in s.procs && s.procs[p].ExitRead? && s.file != Some(Record(p, true))
    ensures Next(s, Step(p, false)) == Vanish(s, p)
  {
  }

  /** A claim and a reload client give the lock back. */
  lemma LockIsGivenBack(s: System, p: Pid)
    requires p in s.procs && (s.procs[p].Claimed? || s.procs[p].ClientLocked?) && s.lock == Some(p)
    ensures Next(s, Step(p, false)) == Move(s.(lock := None), p, if s.procs[p].Claimed? then Running else ClientIdle)
  {
  }

  ghost predicate Reachable(s: System) {
    exists labels :: Run(s.guarded, labels) == s
  }

  lemma ReachNext(s: System, l: Label, r: System)
    requires Reachable(s)
    requires var n := Next(s, l); n.(procs := r.procs) == r && n.procs == r.procs
    ensures Reachable(r)
  {
    var labels :| Run(s.guarded, labels) == s;
    assert (labels + [l])[..|labels|] == labels;
    assert Run(s.guarded, labels + [l]) == r;
  }

  function Race(file: Option<Record>, first: Pc, second: Pc): System {
    System(false, file, None, map[0 := first, 1 := second], 2)
  }

  /** Without the lock the claim is not exclusive: a starter that meets a file created but not yet written takes it
      for a stale one, and both return successfully. */
  lemma UnguardedClaimIsNotExclusive()
    ensures exists labels, p, q ::
      var s := Run(false, labels); p in s.procs && q in s.procs && p != q && Holds(s.procs[p]) && Holds(s.procs[q])
  {
    BothStart();
    FirstCreates();
    SecondTakesOver();
    FirstReturns();
    var labels :| Run(false, labels) == Race(Some(Record(1, true)), Claimed, Claimed);
    assert Holds(Run(false, labels).procs[0]) && Holds(Run(false, labels).procs[1]);
  }

  lemma FirstCreates()
    requires Reachable(Race(None, Create(0), Create(0)))
    ensures Reachable(Race(Some(Record(0, false)), Write, Read(0)))
  {
    ReachNext(Race(None, Create(0), Create(0)), Step(0, false), Race(Some(Record(0, false)), Write, Create(0)));
    ReachNext(Race(Some(Record(0, false)), Write, Create(0)), Step(1, false),
              Race(Some(Record(0, false)), Write, Read(0)));
  }

  lemma FirstReturns()
    requires Reachable(Race(Some(Record(1, true)), Write, Claimed))
    ensures Reachable(Race(Some(Record(1, true)), Claimed, Claimed))
  {
    ReachNext(Race(Some(Record(1, true)), Write, Claimed), Step(0, false), Race(Some(Record(1, true)), Close, Claimed));
    ReachNext(Race(Some(Record(1, true)), Close, Claimed), Step(0, false),
              Race(Some(Record(1, true)), Claimed, Claimed));
  }

  lemma BothStart()
    ensures Reachable(Race(None, Create(0), Create(0)))
  {
    assert Run(false, []) == Initial(false);
    ReachNext(Initial(false), Launch(true), System(false, None, None, map[0 := WantLock], 1));
    ReachNext(System(false, None, None, map[0 := WantLock], 1), Launch(true), Race(None, WantLock, WantLock));
    ReachNext(Race(None, WantLock, WantLock), Step(0, false), Race(None, Create(0), WantLock));
    ReachNext(Race(None, Create(0), WantLock), Step(1, false), Race(None, Create(0), Create(0)));
  }

  lemma SecondTakesOver()
    requires Reachable(Race(Some(Record(0, false)), Write, Read(0)))
    ensures Reachable(Race(Some(Record(1, true)), Write, Claimed))
  {
    ReachNext(Race(Some(Record(0, false)), Write, Read(0)), Step(1, false),
              Race(Some(Record(0, false)), Write, Discard(0)));
    ReachNext(Race(Some(Record(0, false)), Write, Discard(0)), Step(1, false), Race(None, Write, Create(1)));
    ReachNext(Race(None, Write, Create(1)), Step(1, false), Race(Some(Record(1, false)), Write, Write));
    ReachNext(Race(Some(Record(1, false)), Write, Write), Step(1, false), Race(Some(Record(1, true)), Write, Close));
    ReachNext(Race(Some(Record(1, true)), Write, Close), Step(1, false), Race(Some(Record(1, true)), Write, Claimed));
  }
}
