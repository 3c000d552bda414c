/**
What the pending-revert protocol does get done, and when a watcher holds back: undisturbed callers and watchers reach
their ends, and over any continuation of a run a watcher reverts only a dead applier's change or one whose deadline
has passed.
*/
module RevertProgress {
  import opened Wrappers
  import opened PendingRevert

  // ---------------------------------------------------------------- undisturbed steps

  ghost predicate Goes(trace: seq<System>, i: nat, p: Pid) {
    i + 1 < |trace| && trace[i + 1] == Next(trace[i], Step(p, Go))
  }

  /** n successful steps of p, and nothing else, lead from s to t. */
  ghost predicate Leads(s: System, p: Pid, n: nat, t: System) {
    exists trace: seq<System> ::
      |trace| == n + 1 && trace[0] == s && trace[n] == t && forall i: nat | i < n :: Goes(trace, i, p)
  }

  lemma NoStep(s: System, p: Pid)
    ensures Leads(s, p, 0, s)
  {
    assert [s][0] == s;
  }

  lemma OneMoreStep(s: System, p: Pid, n: nat, t: System)
    requires Leads(s, p, n, t)
    ensures Leads(s, p, n + 1, Next(t, Step(p, Go)))
  {
    var trace :| |trace| == n + 1 && trace[0] == s && trace[n] == t && forall i: nat | i < n :: Goes(trace, i, p);
    var longer := trace + [Next(t, Step(p, Go))];
    forall i: nat | i < n + 1
      ensures Goes(longer, i, p)
    {
      if i < n { assert Goes(trace, i, p); }
    }
    assert longer[0] == s && longer[n + 1] == Next(t, Step(p, Go));
  }

  /** The steps of an undisturbed process are determined. */
  lemma {:induction false} LeadsToOne(s: System, p: Pid, n: nat, t: System, t': System)
    requires Leads(s, p, n, t) && Leads(s, p, n, t')
    ensures t == t'
  {
    var trace :| |trace| == n + 1 && trace[0] == s && trace[n] == t && forall i: nat | i < n :: Goes(trace, i, p);
    var trace' :| |trace'| == n + 1 && trace'[0] == s && trace'[n] == t' && forall i: nat | i < n :: Goes(trace', i, p);
    for i := 0 to n
      invariant trace[i] == trace'[i]
    {
      assert Goes(trace, i, p) && Goes(trace', i, p);
    }
  }

  /** s with the files d and the process p at x. */
  function Doing(s: System, p: Pid, d: Disk, x: Process): System {
    Move(s.(disk := d), p, x)
  }

  /** s with the watcher w standing at pc. */
  function Standing(s: System, w: Pid, pc: WatcherPc): System
    requires w in s.procs && s.procs[w].Watcher?
  {
    Move(s, w, s.procs[w].(pc := pc))
  }

  lemma WatcherDoes(s0: System, w: Pid, n: nat, s: System, d: Disk, x: Process, d': Disk, x': Process)
    requires x.Watcher? && !(x.pc.UnarmedParent? || x.pc.Lock? || x.pc.Exit?)
    requires WatcherLocal(d, x, Go) == Local(d', x')
    requires Leads(s0, w, n, Doing(s, w, d, x))
    ensures Leads(s0, w, n + 1, Doing(s, w, d', x'))
  {
    OneMoreStep(s0, w, n, Doing(s, w, d, x));
    MoveTwice(s.(disk := d'), w, x, x');
  }

  lemma CallerDoes(s0: System, p: Pid, n: nat, s: System, d: Disk, c: Process, d': Disk, c': Process)
    requires c.Caller? && IsLocal(c.at) && CallerLocal(d, c, Go) == Local(d', c')
    requires Leads(s0, p, n, Doing(s, p, d, c))
    ensures Leads(s0, p, n + 1, Doing(s, p, d', c'))
  {
    OneMoreStep(s0, p, n, Doing(s, p, d, c));
    MoveTwice(s.(disk := d'), p, c, c');
  }

  /** A process about to begin. */
  lemma Starts(s: System, p: Pid)
    requires p in s.procs
    ensures Leads(s, p, 0, Doing(s, p, s.disk, s.procs[p]))
  {
    NoStep(s, p);
    MoveNowhere(s, p);
  }

  // ---------------------------------------------------------------- what an undisturbed watcher does

  /** A watcher that has decided to revert, finds the lock free and no confirmation restores the state and
      the configuration saved with it. */
  lemma RevertRestores(s: System, w: Pid)
    requires w in s.procs && s.procs[w].Watcher? && s.procs[w].pc.Lock?
    requires s.lock.None? && s.disk.state.Some? && s.disk.confirm.None?
    ensures Leads(s, w, 3, Standing(s.(lock := Some(w)), w, Restoring(s.disk.state, s.disk.config)))
  {
    NoStep(s, w);
    MoveNowhere(s, w);
    Reverts(s, w, 0, s, s.procs[w]);
  }

  lemma Reverts(s0: System, w: Pid, n: nat, s: System, x: Process)
    requires x.Watcher? && x.pc.Lock? && Leads(s0, w, n, Move(s, w, x))
    requires s.lock.None? && s.disk.state.Some? && s.disk.confirm.None?
    ensures Leads(s0, w, n + 3, Move(s.(lock := Some(w)), w, x.(pc := Restoring(s.disk.state, s.disk.config))))
  {
    var s1, d := s.(lock := Some(w)), s.disk;
    OneMoreStep(s0, w, n, Move(s, w, x));
    MoveTwice(s1, w, x, x.(pc := LockedState));
    WatcherDoes(s0, w, n + 1, s1, d, x.(pc := LockedState), d, x.(pc := LockedConfirm));
    WatcherDoes(s0, w, n + 2, s1, d, x.(pc := LockedConfirm), d, x.(pc := Restoring(d.state, d.config)));
  }

  /** A watcher in its armed loop reverts when the deadline passes unconfirmed. */
  lemma DeadlineReverts(s: System, w: Pid)
    requires w in s.procs && s.procs[w].Watcher? && s.procs[w].pc.ArmedState?
    requires s.lock.None? && s.disk.state.Some? && s.disk.confirm.None?
    ensures Leads(Next(s, Step(w, Other)), w, 3,
                  Standing(s.(lock := Some(w)), w, Restoring(s.disk.state, s.disk.config)))
  {
    var s' := Next(s, Step(w, Other));
    assert s' == Standing(s, w, Lock);
    NoStep(s', w);
    Reverts(s', w, 0, s, s.procs[w].(pc := Lock));
  }

  /** A watcher that was never armed reverts as soon as its applier is gone. */
  lemma DeadApplierReverts(s: System, w: Pid)
    requires w in s.procs && s.procs[w].Watcher? && s.procs[w].pc.UnarmedState? && s.procs[w].parent !in s.procs
    requires s.lock.None? && s.disk.state.Some? && s.disk.confirm.None? && s.disk.arm.None?
    ensures Leads(s, w, 7, Standing(s.(lock := Some(w)), w, Restoring(s.disk.state, s.disk.config)))
  {
    var x, d := s.procs[w], s.disk;
    LooksAround(s, w);
    WatcherDoes(s, w, 2, s, d, x.(pc := UnarmedArm), d, x.(pc := UnarmedParent));
    OneMoreStep(s, w, 3, Doing(s, w, d, x.(pc := UnarmedParent)));
    MoveTwice(s, w, x.(pc := UnarmedParent), x.(pc := Lock));
    Reverts(s, w, 4, s, x.(pc := Lock));
  }

  lemma LooksAround(s: System, w: Pid)
    requires w in s.procs && s.procs[w].Watcher? && s.procs[w].pc.UnarmedState?
    requires s.disk.state.Some? && s.disk.confirm.None?
    ensures Leads(s, w, 2, Doing(s, w, s.disk, s.procs[w].(pc := UnarmedArm)))
  {
    var x, d := s.procs[w], s.disk;
    Starts(s, w);
    WatcherDoes(s, w, 0, s, d, x, d, x.(pc := UnarmedConfirm));
    WatcherDoes(s, w, 1, s, d, x.(pc := UnarmedConfirm), d, x.(pc := UnarmedArm));
  }

  /** A watcher that finds the arm marker starts the countdown. */
  lemma MarkerArms(s: System, w: Pid)
    requires w in s.procs && s.procs[w].Watcher? && s.procs[w].pc.UnarmedState?
    requires s.disk.state.Some? && s.disk.confirm.None? && s.disk.arm.Some?
    ensures Leads(s, w, 3, Standing(s, w, ArmedState))
  {
    LooksAround(s, w);
    WatcherDoes(s, w, 2, s, s.disk, s.procs[w].(pc := UnarmedArm), s.disk, s.procs[w].(pc := ArmedState));
  }

  /** The tests, with and without the lock, that tell a watcher that nothing is pending or that it is confirmed. */
  predicate Over(d: Disk, pc: WatcherPc) {
    || ((pc.UnarmedState? || pc.ArmedState? || pc.LockedState?) && d.state.None?)
    || ((pc.UnarmedConfirm? || pc.ArmedConfirm? || pc.LockedConfirm?) && d.confirm.Some?)
  }

  /** After a successful restore, and when there is nothing to revert any more, the watcher clears every file, frees the
      lock if it holds it and is gone. */
  lemma RestoreClears(s: System, w: Pid)
    requires w in s.procs && s.procs[w].Watcher? && (s.procs[w].pc.Restoring? || Over(s.disk, s.procs[w].pc))
    ensures Leads(s, w, 7,
                  s.(lock := if s.lock == Some(w) then None else s.lock, disk := Empty, procs := s.procs - {w}))
  {
    var x := s.procs[w];
    Starts(s, w);
    WatcherDoes(s, w, 0, s, s.disk, x, s.disk, x.(pc := CleanUp(StateFile)));
    WatcherCleans(s, w, 1, s, s.disk, x);
    OneMoreStep(s, w, 6, Doing(s, w, Empty, x.(pc := Exit)));
    assert Doing(s, w, Empty, x.(pc := Exit)).procs - {w} == s.procs - {w};
  }

  /** A revert that fails, because the lock cannot be had, because what is pending cannot be told or because the restore
      fails, leaves every file in place and the lock free. */
  lemma FailedRevertKeepsFiles(s: System, w: Pid)
    requires w in s.procs && s.procs[w].Watcher?
    requires var pc := s.procs[w].pc; pc.Lock? || pc.LockedState? || pc.LockedConfirm? || pc.Restoring?
    ensures var s' := Next(s, Step(w, Fail));
            Leads(s', w, if s.procs[w].pc.Lock? then 0 else 1, Vanish(s, w))
  {
    var s' := Next(s, Step(w, Fail));
    NoStep(s', w);
    if !s.procs[w].pc.Lock? {
      OneMoreStep(s', w, 0, s');
      assert s'.procs - {w} == s.procs - {w};
    }
  }

  /** A watcher waits for the lock as long as somebody holds it. */
  lemma RevertWaits(s: System, w: Pid)
    requires w in s.procs && s.procs[w].Watcher? && s.procs[w].pc.Lock? && s.lock.Some?
    ensures Next(s, Step(w, Go)) == s
  {
  }

  lemma WatcherCleans(s0: System, w: Pid, n: nat, s: System, d: Disk, x: Process)
    requires x.Watcher? && Leads(s0, w, n, Doing(s, w, d, x.(pc := CleanUp(StateFile))))
    ensures Leads(s0, w, n + 5, Doing(s, w, Empty, x.(pc := Exit)))
  {
    var d1 := d.(state := None);
    var d2 := d1.(config := None);
    var d3 := d2.(confirm := None);
    var d4 := d3.(arm := None);
    WatcherDoes(s0, w, n, s, d, x.(pc := CleanUp(StateFile)), d1, x.(pc := CleanUp(ConfigFile)));
    WatcherDoes(s0, w, n + 1, s, d1, x.(pc := CleanUp(ConfigFile)), d2, x.(pc := CleanUp(ConfirmFile)));
    WatcherDoes(s0, w, n + 2, s, d2, x.(pc := CleanUp(ConfirmFile)), d3, x.(pc := CleanUp(ArmFile)));
    WatcherDoes(s0, w, n + 3, s, d3, x.(pc := CleanUp(ArmFile)), d4, x.(pc := CleanUp(PidFile)));
    WatcherDoes(s0, w, n + 4, s, d4, x.(pc := CleanUp(PidFile)), Empty, x.(pc := Exit));
  }

  // ---------------------------------------------------------------- when a watcher holds back

  predicate Unarmed(pc: WatcherPc) {
    pc.UnarmedState? || pc.UnarmedConfirm? || pc.UnarmedArm? || pc.UnarmedParent?
  }

  predicate Armed(pc: WatcherPc) {
    pc.ArmedState? || pc.ArmedConfirm?
  }

  /** A watcher that waits, or that has seen that there is nothing to wait for. */
  predicate Waits(pc: WatcherPc, armed: bool) {
    (if armed then Armed(pc) else Unarmed(pc)) || pc.CleanUp? || pc.Exit?
  }

  /** At every step of the continuation the applier is alive and no arm marker stands. */
  ghost predicate Applying(s: System, more: seq<Label>, applier: Pid)
    decreases |more|
  {
    more == [] || (applier in s.procs && s.disk.arm.None? && Applying(Next(s, more[0]), more[1..], applier))
  }

  /** At every step of the continuation a state is on file and not confirmed. */
  ghost predicate Pending(s: System, more: seq<Label>)
    decreases |more|
  {
    more == [] || (s.disk.state.Some? && s.disk.confirm.None? && Pending(Next(s, more[0]), more[1..]))
  }

  lemma UnarmedWaits(s: System, l: Label, w: Pid)
    requires LockInv(s) && w in s.procs && s.procs[w].Watcher? && Waits(s.procs[w].pc, false)
    requires s.procs[w].parent in s.procs && s.disk.arm.None?
    ensures var s' := Next(s, l);
            w in s'.procs ==>
              && s'.procs[w].Watcher? && s'.procs[w].parent == s.procs[w].parent && Waits(s'.procs[w].pc, false)
              && (Unarmed(s.procs[w].pc) && s.disk.state.Some? && s.disk.confirm.None? ==> Unarmed(s'.procs[w].pc))
  {
    assert LockProc(s, w, s.procs[w]);
    if l.Step? && l.p in s.procs {
      assert LockProc(s, l.p, s.procs[l.p]);
    }
  }

  lemma ArmedWaits(s: System, l: Label, w: Pid)
    requires LockInv(s) && w in s.procs && s.procs[w].Watcher? && Waits(s.procs[w].pc, true)
    requires l != Step(w, Other)
    ensures var s' := Next(s, l);
            w in s'.procs ==>
              && s'.procs[w].Watcher? && Waits(s'.procs[w].pc, true)
              && (Armed(s.procs[w].pc) && s.disk.state.Some? && s.disk.confirm.None? ==> Armed(s'.procs[w].pc))
  {
    assert LockProc(s, w, s.procs[w]);
    if l.Step? && l.p in s.procs {
      assert LockProc(s, l.p, s.procs[l.p]);
    }
  }

  /** Process numbers are not used twice. */
  lemma {:induction false} GoneForGood(s: System, more: seq<Label>, p: Pid)
    requires p !in s.procs && p < s.nextPid
    ensures p !in Continue(s, more).procs
    decreases |more|
  {
    if more != [] {
      assert p !in Next(s, more[0]).procs && p < Next(s, more[0]).nextPid;
      GoneForGood(Next(s, more[0]), more[1..], p);
    }
  }

  lemma NumbersGrow(s: System, l: Label, p: Pid)
    requires LockInv(s) && p in s.procs
    ensures p < Next(s, l).nextPid
  {
    assert LockProc(s, p, s.procs[p]);
  }

  lemma {:induction false} UnarmedKeepsWaiting(s: System, more: seq<Label>, w: Pid)
    requires LockInv(s) && w in s.procs && s.procs[w].Watcher? && Waits(s.procs[w].pc, false)
    requires Applying(s, more, s.procs[w].parent)
    ensures var s' := Continue(s, more);
            w in s'.procs ==>
              && s'.procs[w].Watcher? && Waits(s'.procs[w].pc, false)
              && (Unarmed(s.procs[w].pc) && Pending(s, more) ==> Unarmed(s'.procs[w].pc))
    decreases |more|
  {
    if more != [] {
      var s' := Next(s, more[0]);
      LockStep(s, more[0]);
      UnarmedWaits(s, more[0], w);
      NumbersGrow(s, more[0], w);
      if w in s'.procs {
        UnarmedKeepsWaiting(s', more[1..], w);
      } else {
        GoneForGood(s', more[1..], w);
      }
    }
  }

  lemma {:induction false} ArmedKeepsWaiting(s: System, more: seq<Label>, w: Pid)
    requires LockInv(s) && w in s.procs && s.procs[w].Watcher? && Waits(s.procs[w].pc, true)
    requires Step(w, Other) !in more
    ensures var s' := Continue(s, more);
            w in s'.procs ==>
              && s'.procs[w].Watcher? && Waits(s'.procs[w].pc, true)
              && (Armed(s.procs[w].pc) && Pending(s, more) ==> Armed(s'.procs[w].pc))
    decreases |more|
  {
    if more != [] {
      var s' := Next(s, more[0]);
      LockStep(s, more[0]);
      ArmedWaits(s, more[0], w);
      NumbersGrow(s, more[0], w);
      if w in s'.procs {
        ArmedKeepsWaiting(s', more[1..], w);
      } else {
        GoneForGood(s', more[1..], w);
      }
    }
  }

  /** In any continuation in which its applier lives and does not arm it, an unarmed watcher does not so much as go for
      the lock; and while an unconfirmed state is on file it goes on watching. */
  lemma LiveApplierIsLeftAlone(labels: seq<Label>, more: seq<Label>, w: Pid)
    requires var s := Run(labels); w in s.procs && s.procs[w].Watcher? && Unarmed(s.procs[w].pc)
    requires Applying(Run(labels), more, Run(labels).procs[w].parent)
    requires w in Run(labels + more).procs
    ensures var x := Run(labels + more).procs[w];
            && x.Watcher? && (Unarmed(x.pc) || x.pc.CleanUp? || x.pc.Exit?)
            && (Pending(Run(labels), more) ==> Unarmed(x.pc))
  {
    RunAppend(labels, more);
    RunKeepsInvariants(labels);
    UnarmedKeepsWaiting(Run(labels), more, w);
  }

  /** In any continuation in which its deadline does not pass, neither does an armed watcher, even when its applier is
      gone. */
  lemma DeadlineIsAwaited(labels: seq<Label>, more: seq<Label>, w: Pid)
    requires var s := Run(labels); w in s.procs && s.procs[w].Watcher? && Armed(s.procs[w].pc)
    requires Step(w, Other) !in more && w in Run(labels + more).procs
    ensures var x := Run(labels + more).procs[w];
            && x.Watcher? && (Armed(x.pc) || x.pc.CleanUp? || x.pc.Exit?)
            && (Pending(Run(labels), more) ==> Armed(x.pc))
  {
    RunAppend(labels, more);
    RunKeepsInvariants(labels);
    ArmedKeepsWaiting(Run(labels), more, w);
  }

  // ---------------------------------------------------------------- what an undisturbed caller does

  function AfterCleaning(op: Op): CallerPc {
    if op == Save then DropConfirm else Release(true)
  }

  lemma Cleans(s0: System, p: Pid, n: nat, s: System, d: Disk, op: Op, g: Gen)
    requires Leads(s0, p, n, Doing(s, p, d, Caller(op, DropPid, g)))
    ensures Leads(s0, p, n + 6, Doing(s, p, Empty, Caller(op, AfterCleaning(op), g)))
  {
    var d0 := d.(pid := None);
    var d1 := d0.(state := None);
    var d2 := d1.(config := None);
    var d3 := d2.(confirm := None);
    CallerDoes(s0, p, n, s, d, Caller(op, DropPid, g), d0, Caller(op, Clean(StateFile), g));
    CallerDoes(s0, p, n + 1, s, d0, Caller(op, Clean(StateFile), g), d1, Caller(op, Clean(ConfigFile), g));
    CallerDoes(s0, p, n + 2, s, d1, Caller(op, Clean(ConfigFile), g), d2, Caller(op, Clean(ConfirmFile), g));
    CallerDoes(s0, p, n + 3, s, d2, Caller(op, Clean(ConfirmFile), g), d3, Caller(op, Clean(ArmFile), g));
    CallerDoes(s0, p, n + 4, s, d3, Caller(op, Clean(ArmFile), g), Empty, Caller(op, Clean(PidFile), g));
    CallerDoes(s0, p, n + 5, s, Empty, Caller(op, Clean(PidFile), g), Empty, Caller(op, AfterCleaning(op), g));
  }

  /** s after the caller p has returned. */
  function Returned(s: System, p: Pid, op: Op, ok: bool, g: Gen): System {
    Move(s.(lock := None,
            confirmed := if op == Confirm && ok then s.confirmed + {g} else s.confirmed,
            prepared := if op == Save && ok then s.prepared + {p} else s.prepared), p, Caller(op, Idle, g))
  }

  lemma Returns(s0: System, p: Pid, n: nat, s: System, d: Disk, op: Op, ok: bool, g: Gen)
    requires Leads(s0, p, n, Doing(s, p, d, Caller(op, Release(ok), g)))
    ensures Leads(s0, p, n + 1, Returned(s.(disk := d), p, op, ok, g))
  {
    var c := Caller(op, Release(ok), g);
    OneMoreStep(s0, p, n, Doing(s, p, d, c));
    MoveTwice(s.(disk := d), p, c, Caller(op, Idle, g));
  }

  lemma Enters(s: System, p: Pid, op: Op, g: Gen)
    requires s.lock.None? && p in s.procs && s.procs[p] == Caller(op, Waiting, g)
    ensures var at := match op case Save => CheckPending case Cancel => ReadPid case Confirm => CheckConfirmable;
            Leads(s, p, 1, Doing(s.(lock := Some(p)), p, s.disk, Caller(op, at, g)))
  {
    NoStep(s, p);
    OneMoreStep(s, p, 0, s);
  }

  // -- Confirm and Cancel

  /** Confirm is for the generation on file. */
  function About(s: System, p: Pid): Gen
    requires p in s.procs && s.procs[p].Caller? && (s.procs[p].op == Confirm ==> s.disk.state.Some?)
  {
    if s.procs[p].op == Confirm then s.disk.state.value else s.procs[p].gen
  }

  /** Confirm or Cancel may begin, and has something to confirm. */
  predicate MayStop(s: System, p: Pid) {
    && s.lock.None? && p in s.procs && s.procs[p].Caller? && s.procs[p].at == Waiting && s.procs[p].op != Save
    && (s.procs[p].op == Confirm ==> s.disk.state.Some?)
  }

  function Marked(s: System, p: Pid): Disk
    requires MayStop(s, p)
  {
    if s.procs[p].op == Confirm then s.disk.(confirm := s.disk.state) else s.disk
  }

  lemma StopBegins(s: System, p: Pid)
    requires MayStop(s, p)
    ensures var op := s.procs[p].op;
            Leads(s, p, if op == Confirm then 3 else 1,
                  Doing(s.(lock := Some(p)), p, Marked(s, p), Caller(op, ReadPid, About(s, p))))
  {
    var s', d, op, g := s.(lock := Some(p)), s.disk, s.procs[p].op, About(s, p);
    Enters(s, p, op, s.procs[p].gen);
    if op == Confirm {
      CallerDoes(s, p, 1, s', d, Caller(op, CheckConfirmable, s.procs[p].gen), d, Caller(op, MarkConfirmed, g));
      CallerDoes(s, p, 2, s', d, Caller(op, MarkConfirmed, g), Marked(s, p), Caller(op, ReadPid, g));
    }
  }

  /** With no watcher on record, Confirm and Cancel clear every file and succeed, and a confirmation counts. */
  lemma StopClears(s: System, p: Pid)
    requires MayStop(s, p) && s.disk.pid.None?
    ensures var op := s.procs[p].op;
            Leads(s, p, if op == Confirm then 11 else 9, Returned(s.(disk := Empty), p, op, true, About(s, p)))
  {
    var s', d, op, g := s.(lock := Some(p)), Marked(s, p), s.procs[p].op, About(s, p);
    var n := if op == Confirm then 3 else 1;
    StopBegins(s, p);
    CallerDoes(s, p, n, s', d, Caller(op, ReadPid, g), d, Caller(op, DropPid, g));
    Cleans(s, p, n + 1, s', d, op, g);
    Returns(s, p, n + 7, s', Empty, op, true, g);
  }

  /** A watcher on record is signalled; */
  lemma StopSignals(s: System, p: Pid, w: Pid)
    requires MayStop(s, p) && s.disk.pid == Some(w)
    ensures var op := s.procs[p].op;
            Leads(s, p, if op == Confirm then 5 else 3,
                  Doing(s.(lock := Some(p)), p, Marked(s, p), Caller(op, AwaitExit(w), About(s, p))))
  {
    var s', d, op, g := s.(lock := Some(p)), Marked(s, p), s.procs[p].op, About(s, p);
    var n := if op == Confirm then 3 else 1;
    StopBegins(s, p);
    CallerDoes(s, p, n, s', d, Caller(op, ReadPid, g), d, Caller(op, Signal(w), g));
    CallerDoes(s, p, n + 1, s', d, Caller(op, Signal(w), g), d, Caller(op, AwaitExit(w), g));
  }

  /** and once it is gone, every file is cleared likewise. */
  lemma StopFinishes(s: System, p: Pid, w: Pid, op: Op, g: Gen)
    requires p in s.procs && s.procs[p] == Caller(op, AwaitExit(w), g) && op != Save && w !in s.procs
    ensures Leads(s, p, 8, Returned(s.(disk := Empty), p, op, true, g))
  {
    NoStep(s, p);
    OneMoreStep(s, p, 0, s);
    Cleans(s, p, 1, s, s.disk, op, g);
    Returns(s, p, 7, s, Empty, op, true, g);
  }

  /** A watcher that cannot be signalled, or that does not exit, makes the call fail and leaves every file in place, the
      confirmation marker too. */
  lemma FailedStopKeepsFiles(s: System, p: Pid, w: Pid, op: Op, g: Gen)
    requires p in s.procs && w in s.procs
    requires s.procs[p] == Caller(op, Signal(w), g) || s.procs[p] == Caller(op, AwaitExit(w), g)
    ensures Leads(Next(s, Step(p, Fail)), p, 1, Returned(s, p, op, false, g))
  {
    var s0 := Next(s, Step(p, Fail));
    NoStep(s0, p);
    Returns(s0, p, 0, s, s.disk, op, false, g);
  }

  /** So does a marker that cannot be written, except that it may be there all the same. */
  lemma FailedMarkKeepsFiles(s: System, p: Pid, choice: Choice, g: Gen)
    requires p in s.procs && s.procs[p] == Caller(Confirm, MarkConfirmed, g) && (choice == Fail || choice == Dirty)
    ensures var d := if choice == Dirty then s.disk.(confirm := Some(g)) else s.disk;
            Leads(Next(s, Step(p, choice)), p, 1, Returned(s.(disk := d), p, Confirm, false, g))
  {
    var s0 := Next(s, Step(p, choice));
    NoStep(s0, p);
    Returns(s0, p, 0, s, s0.disk, Confirm, false, g);
  }

  /** While somebody holds the lock Confirm and Cancel give up, and SaveAndStartWatcher waits. */
  lemma LockedOut(s: System, p: Pid, op: Op, g: Gen)
    requires s.lock.Some? && p in s.procs && s.procs[p] == Caller(op, Waiting, g)
    ensures Next(s, Step(p, Go)) == if op == Save then s else Move(s, p, Caller(op, Idle, g))
  {
  }

  /** Confirm with nothing to confirm, and SaveAndStartWatcher with something pending, change nothing. */
  lemma NothingDone(s: System, p: Pid, op: Op, g: Gen)
    requires s.lock.None? && p in s.procs && s.procs[p] == Caller(op, Waiting, g)
    requires (op == Confirm && s.disk.state.None?) || (op == Save && s.disk.state.Some?)
    ensures Leads(s, p, 3, Move(s, p, Caller(op, Idle, g)))
  {
    var s', d := s.(lock := Some(p)), s.disk;
    Enters(s, p, op, g);
    CallerDoes(s, p, 1, s', d, Caller(op, if op == Save then CheckPending else CheckConfirmable, g),
               d, Caller(op, Release(false), g));
    Returns(s, p, 2, s', d, op, false, g);
  }

  // -- SaveAndStartWatcher

  /** With the lock free, nothing pending and no watcher on record, whatever else is left in the files, a capture puts
      the next generation and the configuration on file, neither confirmed nor armed, and its watcher on record. */
  lemma SaveSucceeds(s: System, p: Pid, g: Gen)
    requires s.lock.None? && p < s.nextPid && p in s.procs && s.procs[p] == Caller(Save, Waiting, g)
    requires s.disk.state.None? && s.disk.pid.None?
    ensures var n, w := s.nextGen, s.nextPid;
            Leads(s, p, 17,
                  Move(s.(disk := Disk(Some(n), Some(n), None, None, Some(w)), nextGen := n + 1, nextPid := w + 1,
                          prepared := s.prepared + {p}, procs := s.procs[w := Watcher(n, p, UnarmedState)]),
                       p, Caller(Save, Idle, n)))
  {
    SaveClears(s, p, g);
    SaveCaptures(s, p, g);
    SaveStarts(s, p, 14, s.(lock := Some(p), nextGen := s.nextGen + 1),
               Empty.(state := Some(s.nextGen), config := Some(s.nextGen)), s.nextGen);
  }

  lemma SaveClears(s: System, p: Pid, g: Gen)
    requires s.lock.None? && p in s.procs && s.procs[p] == Caller(Save, Waiting, g)
    requires s.disk.state.None? && s.disk.pid.None?
    ensures Leads(s, p, 11, Doing(s.(lock := Some(p)), p, Empty, Caller(Save, WriteState, g)))
  {
    var s', d := s.(lock := Some(p)), s.disk;
    Enters(s, p, Save, g);
    CallerDoes(s, p, 1, s', d, Caller(Save, CheckPending, g), d, Caller(Save, ReadPid, g));
    CallerDoes(s, p, 2, s', d, Caller(Save, ReadPid, g), d, Caller(Save, DropPid, g));
    Cleans(s, p, 3, s', d, Save, g);
    CallerDoes(s, p, 9, s', Empty, Caller(Save, DropConfirm, g), Empty, Caller(Save, DropArm, g));
    CallerDoes(s, p, 10, s', Empty, Caller(Save, DropArm, g), Empty, Caller(Save, WriteState, g));
  }

  lemma SaveCaptures(s: System, p: Pid, g: Gen)
    requires Leads(s, p, 11, Doing(s.(lock := Some(p)), p, Empty, Caller(Save, WriteState, g)))
    ensures var n := s.nextGen;
            Leads(s, p, 14, Doing(s.(lock := Some(p), nextGen := n + 1), p,
                                  Empty.(state := Some(n), config := Some(n)), Caller(Save, Spawn, n)))
  {
    var n := s.nextGen;
    var s' := s.(lock := Some(p), nextGen := n + 1);
    var d := Empty.(state := Some(n));
    var d' := d.(config := Some(n));
    OneMoreStep(s, p, 11, Doing(s.(lock := Some(p)), p, Empty, Caller(Save, WriteState, g)));
    MoveTwice(s'.(disk := d), p, Caller(Save, WriteState, g), Caller(Save, CopyConfig, n));
    CallerDoes(s, p, 12, s', d, Caller(Save, CopyConfig, n), d', Caller(Save, RecordSelf, n));
    CallerDoes(s, p, 13, s', d', Caller(Save, RecordSelf, n), d', Caller(Save, Spawn, n));
  }

  lemma SaveStarts(s0: System, p: Pid, k: nat, s: System, d: Disk, g: Gen)
    requires p < s.nextPid && Leads(s0, p, k, Doing(s, p, d, Caller(Save, Spawn, g)))
    ensures var w := s.nextPid;
            Leads(s0, p, k + 3,
                  Returned(s.(disk := d.(pid := Some(w)), nextPid := w + 1,
                              procs := s.procs[w := Watcher(g, p, UnarmedState)]), p, Save, true, g))
  {
    var w := s.nextPid;
    var s' := s.(nextPid := w + 1, procs := s.procs[w := Watcher(g, p, UnarmedState)]);
    OneMoreStep(s0, p, k, Doing(s, p, d, Caller(Save, Spawn, g)));
    assert Next(Doing(s, p, d, Caller(Save, Spawn, g)), Step(p, Go)).procs
           == Doing(s', p, d, Caller(Save, RecordWatcher(w), g)).procs;
    OneMoreStep(s0, p, k + 1, Doing(s', p, d, Caller(Save, RecordWatcher(w), g)));
    MoveTwice(s'.(disk := d.(pid := Some(w))), p, Caller(Save, RecordWatcher(w), g), Caller(Save, Release(true), g));
    Returns(s0, p, k + 2, s', d.(pid := Some(w)), Save, true, g);
  }

  /** A capture that cannot write the state fails with nothing written. */
  lemma FailedWriteLeavesNothing(s: System, p: Pid, g: Gen)
    requires p in s.procs && s.procs[p] == Caller(Save, WriteState, g)
    ensures Leads(Next(s, Step(p, Fail)), p, 1, Returned(s, p, Save, false, g))
  {
    var s0 := Next(s, Step(p, Fail));
    NoStep(s0, p);
    Returns(s0, p, 0, s, s.disk, Save, false, g);
  }

  /** A capture that fails once the state is written takes it back: when the configuration cannot be copied, */
  lemma FailedCopyUndoes(s: System, p: Pid, g: Gen)
    requires p in s.procs && s.procs[p] == Caller(Save, CopyConfig, g)
    ensures Leads(Next(s, Step(p, Fail)), p, 2, Returned(s.(disk := s.disk.(state := None)), p, Save, false, g))
  {
    var s0, d := Next(s, Step(p, Fail)), s.disk;
    NoStep(s0, p);
    CallerDoes(s0, p, 0, s, d, Caller(Save, UndoState(false), g), d.(state := None), Caller(Save, Release(false), g));
    Returns(s0, p, 1, s, d.(state := None), Save, false, g);
  }

  /** when the applier cannot be identified, with whatever else is on file, */
  lemma FailedRecordUndoes(s: System, p: Pid, g: Gen)
    requires p in s.procs && s.procs[p] == Caller(Save, RecordSelf, g)
    ensures Leads(Next(s, Step(p, Fail)), p, 6, Returned(s.(disk := Empty), p, Save, false, g))
  {
    var s0 := Next(s, Step(p, Fail));
    var d1 := s.disk.(state := None);
    var d2 := d1.(config := None);
    var d3 := d2.(confirm := None);
    var d4 := d3.(arm := None);
    NoStep(s0, p);
    CallerDoes(s0, p, 0, s, s.disk, Caller(Save, AbortClean(StateFile), g),
               d1, Caller(Save, AbortClean(ConfigFile), g));
    CallerDoes(s0, p, 1, s, d1, Caller(Save, AbortClean(ConfigFile), g), d2, Caller(Save, AbortClean(ConfirmFile), g));
    CallerDoes(s0, p, 2, s, d2, Caller(Save, AbortClean(ConfirmFile), g), d3, Caller(Save, AbortClean(ArmFile), g));
    CallerDoes(s0, p, 3, s, d3, Caller(Save, AbortClean(ArmFile), g), d4, Caller(Save, AbortClean(PidFile), g));
    CallerDoes(s0, p, 4, s, d4, Caller(Save, AbortClean(PidFile), g), Empty, Caller(Save, Release(false), g));
    Returns(s0, p, 5, s, Empty, Save, false, g);
  }

  /** when the watcher cannot be started, with the configuration, */
  lemma FailedSpawnUndoes(s: System, p: Pid, g: Gen)
    requires p in s.procs && s.procs[p] == Caller(Save, Spawn, g)
    ensures Leads(Next(s, Step(p, Fail)), p, 3,
                  Returned(s.(disk := s.disk.(state := None, config := None)), p, Save, false, g))
  {
    NoStep(Next(s, Step(p, Fail)), p);
    Undoes(Next(s, Step(p, Fail)), p, s, g);
  }

  /** and when the watcher cannot be recorded, with the configuration and the watcher. */
  lemma FailedSaveUndoes(s: System, p: Pid, w: Pid, g: Gen)
    requires p in s.procs && s.procs[p] == Caller(Save, RecordWatcher(w), g) && w != p
    ensures Leads(Next(s, Step(p, Fail)), p, 3,
                  Returned(s.(disk := s.disk.(state := None, config := None), procs := s.procs - {w}),
                           p, Save, false, g))
  {
    NoStep(Next(s, Step(p, Fail)), p);
    Undoes(Next(s, Step(p, Fail)), p, Vanish(s, w), g);
  }

  lemma Undoes(s0: System, p: Pid, s: System, g: Gen)
    requires Leads(s0, p, 0, Doing(s, p, s.disk, Caller(Save, UndoState(true), g)))
    ensures Leads(s0, p, 3, Returned(s.(disk := s.disk.(state := None, config := None)), p, Save, false, g))
  {
    var d := s.disk.(state := None);
    var d' := d.(config := None);
    CallerDoes(s0, p, 0, s, s.disk, Caller(Save, UndoState(true), g), d, Caller(Save, UndoConfig, g));
    CallerDoes(s0, p, 1, s, d, Caller(Save, UndoConfig, g), d', Caller(Save, Release(false), g));
    Returns(s0, p, 2, s, d', Save, false, g);
  }

  // -- Arm

  /** Arm writes the marker when something is pending, and nothing otherwise. */
  lemma ArmMarks(s: System, p: Pid)
    requires p in s.procs && s.procs[p].Caller? && s.procs[p].at == Idle
    ensures var c, g := s.procs[p], s.disk.state;
            if g.Some?
            then Leads(Next(s, BeginArm(p)), p, 2, Doing(s, p, s.disk.(arm := g), c.(gen := g.value)))
            else Leads(Next(s, BeginArm(p)), p, 1, s)
  {
    var s0, d, op := Next(s, BeginArm(p)), s.disk, s.procs[p].op;
    NoStep(s0, p);
    if d.state.Some? {
      var g := d.state.value;
      CallerDoes(s0, p, 0, s, d, Caller(op, ArmCheck, s.procs[p].gen), d, Caller(op, ArmWrite, g));
      CallerDoes(s0, p, 1, s, d, Caller(op, ArmWrite, g), d.(arm := Some(g)), Caller(op, Idle, g));
    } else {
      CallerDoes(s0, p, 0, s, d, Caller(op, ArmCheck, s.procs[p].gen), d, s.procs[p]);
      MoveNowhere(s, p);
    }
  }
}
