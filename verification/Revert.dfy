/**
The pending-revert protocol. Callers (`nic restart`, `nic reload`, `nic confirm`, the daemon) and
detached watchers share five files under /run/nic and one flock. Every process runs one file
operation per step, any process may die at any step (which also covers a delivered SIGTERM), and
death frees the flock. Each captured state carries a generation number that the files themselves do
not hold: it only exists to say whose files a watcher touches.
*/
module PendingRevert {
  import opened Wrappers

  type Pid = nat
  type Gen = nat

  /** The files in the order in which cleanupPendingFiles removes them. */
  datatype File = StateFile | ConfigFile | ConfirmFile | ArmFile | PidFile

  /** The four marker files hold the generation they were written for; the pid record names a process. */
  datatype Disk = Disk(
    state: Option<Gen>,
    config: Option<Gen>,
    confirm: Option<Gen>,
    arm: Option<Gen>,
    pid: Option<Pid>)

  /** The three operations that run under the lock. */
  datatype Op = Save | Cancel | Confirm

  datatype CallerPc =
    | Idle
    | Waiting
    | CheckPending
    | CheckConfirmable
    | MarkConfirmed
    | ReadPid
    | Signal(target: Pid)
    | AwaitExit(target: Pid)
    | DropPid
    | Clean(file: File)
    | DropConfirm
    | DropArm
    | WriteState
    | CopyConfig
    | RecordSelf
    | Spawn
    | RecordWatcher(watcher: Pid)
    | UndoState(configToo: bool)
    | UndoConfig
    | AbortClean(file: File)
    | Release(ok: bool)
    | ArmCheck
    | ArmWrite

  datatype WatcherPc =
    | UnarmedState | UnarmedConfirm | UnarmedArm | UnarmedParent
    | ArmedState | ArmedConfirm
    | Lock
    | LockedState | LockedConfirm
    | Restoring(snapshot: Option<Gen>, previous: Option<Gen>)
    | CleanUp(file: File)
    | Exit

  datatype Process =
    | Caller(op: Op, at: CallerPc, gen: Gen)
    | Watcher(own: Gen, parent: Pid, pc: WatcherPc)

  /** `confirmed` holds the generations for which Confirm has returned success, `prepared` the callers whose own Save
      has, and who have called neither Save nor Cancel since. */
  datatype System = System(
    disk: Disk,
    lock: Option<Pid>,
    procs: map<Pid, Process>,
    nextPid: Pid,
    nextGen: Gen,
    confirmed: set<Gen>,
    prepared: set<Pid>)

  /** How an operation turns out. Dirty is an error that left its file behind; Other is the third
      way out where there is one: no applied configuration to copy, or a deadline that has passed. */
  datatype Choice = Go | Fail | Other | Dirty

  datatype Label =
    | Launch
    | Begin(p: Pid, op: Op)
    | BeginArm(p: Pid)
    | Step(p: Pid, choice: Choice)
    | Die(p: Pid)

  const Initial: System := System(Disk(None, None, None, None, None), None, map[], 0, 0, {}, {})

  function Holds(d: Disk, f: File): Option<Gen>
    requires f != PidFile
  {
    match f
    case StateFile => d.state
    case ConfigFile => d.config
    case ConfirmFile => d.confirm
    case ArmFile => d.arm
  }

  function Remove(d: Disk, f: File): Disk {
    match f
    case StateFile => d.(state := None)
    case ConfigFile => d.(config := None)
    case ConfirmFile => d.(confirm := None)
    case ArmFile => d.(arm := None)
    case PidFile => d.(pid := None)
  }

  function NextFile(f: File): File
    requires f != PidFile
  {
    match f
    case StateFile => ConfigFile
    case ConfigFile => ConfirmFile
    case ConfirmFile => ArmFile
    case ArmFile => PidFile
  }

  // ---------------------------------------------------------------- steps

  /** What a step that only concerns the files and the stepping process leaves behind. */
  datatype Local = Local(disk: Disk, proc: Process)

  /** Caller steps that spawn or kill nobody and leave the lock alone. */
  predicate IsLocal(at: CallerPc) {
    !(at.Idle? || at.Waiting? || at.AwaitExit? || at.WriteState? || at.Spawn? || at.RecordWatcher? || at.Release?)
  }

  function CallerLocal(d: Disk, c: Process, choice: Choice): Local
    requires c.Caller? && IsLocal(c.at)
  {
    match c.at
    case CheckPending =>
      // IsPending answers "no" when the stat itself fails.
      Local(d, c.(at := if d.state.Some? && choice != Fail then Release(false) else ReadPid))
    case CheckConfirmable =>
      Local(d, if d.state.Some? && choice != Fail then c.(gen := d.state.value, at := MarkConfirmed)
               else c.(at := Release(false)))
    case MarkConfirmed =>
      Local(if choice == Fail then d else d.(confirm := Some(c.gen)),
            c.(at := if choice == Fail || choice == Dirty then Release(false) else ReadPid))
    // stopWatcher: signal the recorded watcher, wait until it is gone, only then drop its record.
    // A record that cannot be read is taken for no watcher.
    case ReadPid => Local(d, c.(at := if d.pid.Some? && choice != Fail then Signal(d.pid.value) else DropPid))
    case Signal(w) => Local(d, c.(at := if choice == Fail then Release(false) else AwaitExit(w)))
    case DropPid => Local(Remove(d, PidFile), c.(at := Clean(StateFile)))
    case Clean(f) =>
      Local(Remove(d, f), c.(at := if f != PidFile then Clean(NextFile(f))
                                   else if c.op == Save then DropConfirm else Release(true)))
    case DropConfirm => Local(Remove(d, ConfirmFile), c.(at := DropArm))
    case DropArm => Local(Remove(d, ArmFile), c.(at := WriteState))
    case CopyConfig =>
      Local(if choice == Go || choice == Dirty then d.(config := Some(c.gen)) else d,
            c.(at := if choice == Go || choice == Other then RecordSelf else UndoState(false)))
    case RecordSelf => Local(d, c.(at := if choice == Fail then AbortClean(StateFile) else Spawn))
    case UndoState(configToo) =>
      Local(Remove(d, StateFile), c.(at := if configToo then UndoConfig else Release(false)))
    case UndoConfig => Local(Remove(d, ConfigFile), c.(at := Release(false)))
    case AbortClean(f) =>
      Local(Remove(d, f), c.(at := if f != PidFile then AbortClean(NextFile(f)) else Release(false)))
    case ArmCheck =>
      Local(d, if d.state.Some? && choice != Fail then c.(gen := d.state.value, at := ArmWrite) else c.(at := Idle))
    case ArmWrite => Local(if choice == Fail then d else d.(arm := Some(c.gen)), c.(at := Idle))
  }

  function WatcherLocal(d: Disk, x: Process, choice: Choice): Local
    requires x.Watcher? && !(x.pc.UnarmedParent? || x.pc.Lock? || x.pc.Exit?)
  {
    match x.pc
    case UnarmedState =>
      Local(d, x.(pc := if d.state.None? && choice != Fail then CleanUp(StateFile) else UnarmedConfirm))
    case UnarmedConfirm =>
      Local(d, x.(pc := if d.confirm.Some? && choice != Fail then CleanUp(StateFile) else UnarmedArm))
    case UnarmedArm => Local(d, x.(pc := if d.arm.Some? && choice != Fail then ArmedState else UnarmedParent))
    case ArmedState =>
      // The confirmation deadline is looked at before the files.
      Local(d, x.(pc := if choice == Other then Lock
                        else if d.state.None? && choice != Fail then CleanUp(StateFile) else ArmedConfirm))
    case ArmedConfirm =>
      Local(d, x.(pc := if d.confirm.Some? && choice != Fail then CleanUp(StateFile) else ArmedState))
    case LockedState =>
      Local(d, x.(pc := if choice == Fail then Exit else if d.state.None? then CleanUp(StateFile) else LockedConfirm))
    case LockedConfirm =>
      Local(d, x.(pc := if choice == Fail then Exit else if d.confirm.Some? then CleanUp(StateFile)
                        else Restoring(d.state, d.config)))
    case Restoring(_, _) => Local(d, x.(pc := if choice == Fail then Exit else CleanUp(StateFile)))
    case CleanUp(f) => Local(Remove(d, f), x.(pc := if f != PidFile then CleanUp(NextFile(f)) else Exit))
  }

  function Apply(s: System, p: Pid, r: Local): System {
    s.(disk := r.disk, procs := s.procs[p := r.proc])
  }

  function Move(s: System, p: Pid, x: Process): System {
    s.(procs := s.procs[p := x])
  }

  /** The process is gone; its flock, if it holds one, is free. */
  function Vanish(s: System, p: Pid): System {
    s.(procs := s.procs - {p}, lock := if s.lock == Some(p) then None else s.lock)
  }

  /** Entering the lock: Save blocks, Cancel and Confirm give up when it is taken. */
  function Acquire(s: System, p: Pid, c: Process, choice: Choice): System
    requires c.Caller?
  {
    if choice == Fail || (s.lock.Some? && c.op != Save) then Move(s, p, c.(at := Idle))
    else if s.lock.Some? then s
    else Move(s.(lock := Some(p)), p,
              c.(at := match c.op case Save => CheckPending case Cancel => ReadPid case Confirm => CheckConfirmable))
  }

  function CallerStep(s: System, p: Pid, c: Process, choice: Choice): System
    requires c.Caller?
  {
    if IsLocal(c.at) then Apply(s, p, CallerLocal(s.disk, c, choice)) else
    match c.at
    case Idle => s
    case Waiting => Acquire(s, p, c, choice)
    case AwaitExit(w) =>
      if w !in s.procs then Move(s, p, c.(at := DropPid))
      else if choice == Fail then Move(s, p, c.(at := Release(false)))
      else s
    case WriteState =>
      if choice == Fail then Move(s, p, c.(at := Release(false)))
      else Move(s.(disk := s.disk.(state := Some(s.nextGen)), nextGen := s.nextGen + 1), p,
                c.(gen := s.nextGen, at := CopyConfig))
    case Spawn =>
      if choice == Fail then Move(s, p, c.(at := UndoState(true)))
      else Move(s.(procs := s.procs[s.nextPid := Watcher(c.gen, p, UnarmedState)], nextPid := s.nextPid + 1), p,
                c.(at := RecordWatcher(s.nextPid)))
    case RecordWatcher(w) =>
      // A record that cannot be made or saved ends with SIGKILL, which stops the watcher at once.
      if choice == Fail then Move(Vanish(s, w), p, c.(at := UndoState(true)))
      else Move(s.(disk := s.disk.(pid := Some(w))), p, c.(at := Release(true)))
    case Release(ok) =>
      Move(s.(lock := None,
              confirmed := if c.op == Confirm && ok then s.confirmed + {c.gen} else s.confirmed,
              prepared := if c.op == Save && ok then s.prepared + {p} else s.prepared),
           p, c.(at := Idle))
  }

  function WatcherStep(s: System, w: Pid, x: Process, choice: Choice): System
    requires x.Watcher?
  {
    match x.pc
    case UnarmedParent => Move(s, w, x.(pc := if x.parent in s.procs then UnarmedState else Lock))
    case Lock =>
      if choice == Fail then Vanish(s, w)
      else if s.lock.Some? then s
      else Move(s.(lock := Some(w)), w, x.(pc := LockedState))
    case Exit => Vanish(s, w)
    case _ => Apply(s, w, WatcherLocal(s.disk, x, choice))
  }

  function Next(s: System, l: Label): System {
    match l
    case Launch => Move(s.(nextPid := s.nextPid + 1), s.nextPid, Caller(Save, Idle, 0))
    case Begin(p, op) =>
      if p in s.procs && s.procs[p].Caller? && s.procs[p].at == Idle
      then Move(s.(prepared := if op == Confirm then s.prepared else s.prepared - {p}),
                p, s.procs[p].(op := op, at := Waiting))
      else s
    case BeginArm(p) =>
      if p in s.procs && s.procs[p].Caller? && s.procs[p].at == Idle
      then Move(s, p, s.procs[p].(at := ArmCheck)) else s
    case Step(p, choice) =>
      if p !in s.procs then s
      else if s.procs[p].Caller? then CallerStep(s, p, s.procs[p], choice)
      else WatcherStep(s, p, s.procs[p], choice)
    case Die(p) => if p in s.procs then Vanish(s, p) else s
  }

  /** The system after a run, the last label acting last. */
  function Run(labels: seq<Label>): System {
    if labels == [] then Initial else Next(Run(labels[..|labels| - 1]), labels[|labels| - 1])
  }

  // ---------------------------------------------------------------- mutual exclusion

  predicate InLock(x: Process) {
    if x.Caller?
    then !(x.at.Idle? || x.at.Waiting? || x.at.ArmCheck? || x.at.ArmWrite?)
    else x.pc.LockedState? || x.pc.LockedConfirm? || x.pc.Restoring?
  }

  predicate OnlySave(at: CallerPc) {
    || at.CheckPending? || at.DropConfirm? || at.DropArm? || at.WriteState? || at.CopyConfig? || at.RecordSelf?
    || at.Spawn? || at.RecordWatcher? || at.UndoState? || at.UndoConfig? || at.AbortClean?
  }

  predicate OpFits(x: Process) {
    x.Caller? ==>
      && (OnlySave(x.at) ==> x.op == Save)
      && (x.at.CheckConfirmable? || x.at.MarkConfirmed? ==> x.op == Confirm)
  }

  ghost predicate LockProc(s: System, p: Pid, x: Process) {
    && p < s.nextPid
    && OpFits(x)
    && (InLock(x) ==> s.lock == Some(p))
    && (x.Caller? && x.at.RecordWatcher? ==>
          x.at.watcher < s.nextPid && (x.at.watcher in s.procs ==> s.procs[x.at.watcher].Watcher?))
  }

  ghost predicate LockInv(s: System) {
    && (s.lock.Some? ==> s.lock.value in s.procs)
    && (forall p | p in s.procs :: LockProc(s, p, s.procs[p]))
  }

  lemma LocalKeepsLock(d: Disk, c: Process, choice: Choice)
    requires c.Caller? && IsLocal(c.at) && OpFits(c)
    ensures var r := CallerLocal(d, c, choice).proc;
            OpFits(r) && (InLock(r) == InLock(c)) && r.Caller? && !r.at.RecordWatcher?
  {
  }

  lemma LockStep(s: System, l: Label)
    requires LockInv(s)
    ensures LockInv(Next(s, l))
  {
    var s' := Next(s, l);
    forall q | q in s'.procs ensures LockProc(s', q, s'.procs[q]) {
      assert q in s.procs ==> LockProc(s, q, s.procs[q]);
      if l.Step? && l.p in s.procs {
        assert LockProc(s, l.p, s.procs[l.p]);
        if s.procs[l.p].Caller? {
          LockCallerStep(s, l.p, s.procs[l.p], l.choice, q);
        } else {
          LockWatcherStep(s, l.p, s.procs[l.p], l.choice, q);
        }
      }
    }
  }

  lemma LockCallerStep(s: System, p: Pid, c: Process, choice: Choice, q: Pid)
    requires LockInv(s) && p in s.procs && s.procs[p] == c && c.Caller?
    requires q in CallerStep(s, p, c, choice).procs
    ensures var s' := CallerStep(s, p, c, choice); LockProc(s', q, s'.procs[q])
  {
    assert LockProc(s, p, c);
    assert q in s.procs ==> LockProc(s, q, s.procs[q]);
    if IsLocal(c.at) {
      LocalKeepsLock(s.disk, c, choice);
    }
  }

  lemma LockWatcherStep(s: System, w: Pid, x: Process, choice: Choice, q: Pid)
    requires LockInv(s) && w in s.procs && s.procs[w] == x && x.Watcher?
    requires q in WatcherStep(s, w, x, choice).procs
    ensures var s' := WatcherStep(s, w, x, choice); LockProc(s', q, s'.procs[q])
  {
    assert LockProc(s, w, x);
    assert q in s.procs ==> LockProc(s, q, s.procs[q]);
  }

  // ---------------------------------------------------------------- confirmation is final

  /** Confirm has seen its generation pending and has not yet removed the state file. */
  predicate Confirming(x: Process) {
    x.Caller? && x.op == Confirm &&
    (x.at.MarkConfirmed? || x.at.ReadPid? || x.at.Signal? || x.at.AwaitExit? || x.at.DropPid?
     || x.at == Clean(StateFile))
  }

  /** Confirm has removed the state file and has not returned yet. */
  predicate Clearing(x: Process) {
    x.Caller? && x.op == Confirm && ((x.at.Clean? && x.at.file != StateFile) || x.at == Release(true))
  }

  ghost predicate ConfirmProc(s: System, x: Process) {
    && (Confirming(x) ==> x.gen < s.nextGen && (s.disk.state.None? || s.disk.state == Some(x.gen)))
    && (Clearing(x) ==> x.gen < s.nextGen && s.disk.state.None?)
    && (x.Watcher? && x.pc.Restoring? && x.pc.snapshot.Some? ==> x.pc.snapshot.value !in s.confirmed)
  }

  ghost predicate ConfirmInv(s: System) {
    && (s.disk.state.Some? ==> s.disk.state.value < s.nextGen && s.disk.state.value !in s.confirmed)
    && (forall g | g in s.confirmed :: g < s.nextGen)
    && (forall p | p in s.procs :: ConfirmProc(s, s.procs[p]))
  }

  predicate Kept<T(==)>(before: Option<T>, after: Option<T>) {
    after == None || after == before
  }

  /** No caller but one that captures a new state ever creates the state file. */
  lemma CallerKeepsState(d: Disk, c: Process, choice: Choice)
    requires c.Caller? && IsLocal(c.at) && OpFits(c)
    ensures var r := CallerLocal(d, c, choice);
            && Kept(d.state, r.disk.state)
            && (Confirming(r.proc) ==> (Confirming(c) && r.proc.gen == c.gen) || d.state == Some(r.proc.gen))
            && (Clearing(r.proc) ==> r.proc.gen == c.gen && (Clearing(c) || (Confirming(c) && r.disk.state.None?)))
  {
  }

  lemma WatcherOnlyRemoves(d: Disk, x: Process, choice: Choice)
    requires x.Watcher? && !(x.pc.UnarmedParent? || x.pc.Lock? || x.pc.Exit?)
    ensures var r := WatcherLocal(d, x, choice);
            && Kept(d.state, r.disk.state) && Kept(d.config, r.disk.config) && Kept(d.confirm, r.disk.confirm)
            && Kept(d.pid, r.disk.pid)
            && r.proc.Watcher? && r.proc.own == x.own
            && (r.proc.pc.Restoring? ==>
                  x.pc.LockedConfirm? && r.proc.pc == Restoring(d.state, d.config) && d.confirm.None?)
  {
  }

  lemma ConfirmStep(s: System, l: Label)
    requires LockInv(s) && ConfirmInv(s)
    ensures ConfirmInv(Next(s, l))
  {
    var s' := Next(s, l);
    if l.Step? && l.p in s.procs {
      assert LockProc(s, l.p, s.procs[l.p]) && ConfirmProc(s, s.procs[l.p]);
      if s.procs[l.p].Caller? {
        ConfirmCallerStep(s, l.p, s.procs[l.p], l.choice);
      } else {
        ConfirmWatcherStep(s, l.p, s.procs[l.p], l.choice);
      }
    } else {
      forall q | q in s'.procs ensures ConfirmProc(s', s'.procs[q]) {
        assert q in s.procs ==> ConfirmProc(s, s.procs[q]);
      }
    }
  }

  lemma ConfirmCallerStep(s: System, p: Pid, c: Process, choice: Choice)
    requires LockInv(s) && ConfirmInv(s) && p in s.procs && s.procs[p] == c && c.Caller?
    ensures ConfirmInv(CallerStep(s, p, c, choice))
  {
    if IsLocal(c.at) {
      ConfirmLocalStep(s, p, c, choice);
    } else if c.at.Spawn? || c.at.RecordWatcher? || c.at.WriteState? {
      ConfirmSaveStep(s, p, c, choice);
    } else {
      ConfirmLockingStep(s, p, c, choice);
    }
  }

  lemma ConfirmSaveStep(s: System, p: Pid, c: Process, choice: Choice)
    requires LockInv(s) && ConfirmInv(s) && p in s.procs && s.procs[p] == c && c.Caller?
    requires c.at.Spawn? || c.at.RecordWatcher? || c.at.WriteState?
    ensures ConfirmInv(CallerStep(s, p, c, choice))
  {
    var s' := CallerStep(s, p, c, choice);
    assert LockProc(s, p, c) && ConfirmProc(s, c);
    forall q | q in s'.procs ensures ConfirmProc(s', s'.procs[q]) {
      assert q in s.procs ==> ConfirmProc(s, s.procs[q]) && LockProc(s, q, s.procs[q]);
    }
  }

  lemma ConfirmLockingStep(s: System, p: Pid, c: Process, choice: Choice)
    requires LockInv(s) && ConfirmInv(s) && p in s.procs && s.procs[p] == c && c.Caller?
    requires c.at.Idle? || c.at.Waiting? || c.at.AwaitExit? || c.at.Release?
    ensures ConfirmInv(CallerStep(s, p, c, choice))
  {
    var s' := CallerStep(s, p, c, choice);
    assert LockProc(s, p, c) && ConfirmProc(s, c);
    forall q | q in s'.procs ensures ConfirmProc(s', s'.procs[q]) {
      assert ConfirmProc(s, s.procs[q]) && LockProc(s, q, s.procs[q]);
    }
  }

  lemma ConfirmLocalStep(s: System, p: Pid, c: Process, choice: Choice)
    requires LockInv(s) && ConfirmInv(s) && p in s.procs && s.procs[p] == c && c.Caller? && IsLocal(c.at)
    ensures ConfirmInv(Apply(s, p, CallerLocal(s.disk, c, choice)))
  {
    var r := CallerLocal(s.disk, c, choice);
    var s' := Apply(s, p, r);
    assert LockProc(s, p, c) && ConfirmProc(s, c);
    CallerKeepsState(s.disk, c, choice);
    assert r.proc.Caller? by { LocalKeepsLock(s.disk, c, choice); }
    forall q | q in s'.procs ensures ConfirmProc(s', s'.procs[q]) {
      assert q in s.procs && ConfirmProc(s, s.procs[q]);
    }
  }

  lemma ConfirmWatcherStep(s: System, w: Pid, x: Process, choice: Choice)
    requires LockInv(s) && ConfirmInv(s) && w in s.procs && s.procs[w] == x && x.Watcher?
    ensures ConfirmInv(WatcherStep(s, w, x, choice))
  {
    if x.pc.UnarmedParent? || x.pc.Lock? || x.pc.Exit? {
      var s' := WatcherStep(s, w, x, choice);
      assert LockProc(s, w, x) && ConfirmProc(s, x);
      forall q | q in s'.procs ensures ConfirmProc(s', s'.procs[q]) {
        assert q in s.procs ==> ConfirmProc(s, s.procs[q]);
      }
    } else {
      ConfirmLocalWatcherStep(s, w, x, choice);
    }
  }

  lemma ConfirmLocalWatcherStep(s: System, w: Pid, x: Process, choice: Choice)
    requires LockInv(s) && ConfirmInv(s) && w in s.procs && s.procs[w] == x && x.Watcher?
    requires !(x.pc.UnarmedParent? || x.pc.Lock? || x.pc.Exit?)
    ensures ConfirmInv(Apply(s, w, WatcherLocal(s.disk, x, choice)))
  {
    var s' := Apply(s, w, WatcherLocal(s.disk, x, choice));
    assert LockProc(s, w, x) && ConfirmProc(s, x);
    WatcherOnlyRemoves(s.disk, x, choice);
    forall q | q in s'.procs ensures ConfirmProc(s', s'.procs[q]) {
      assert q in s.procs ==> ConfirmProc(s, s.procs[q]);
    }
  }

  lemma {:induction false} RunKeepsInvariants(labels: seq<Label>)
    ensures LockInv(Run(labels)) && ConfirmInv(Run(labels))
  {
    if labels != [] {
      var before := labels[..|labels| - 1];
      RunKeepsInvariants(before);
      LockStep(Run(before), labels[|labels| - 1]);
      ConfirmStep(Run(before), labels[|labels| - 1]);
    }
  }

  // ---------------------------------------------------------------- a watcher keeps to its own generation

  /** A watcher that may still touch a file: the pid record is its last removal. */
  predicate Active(x: Process) {
    x.Watcher? && x.pc != Exit
  }

  ghost predicate NoActive(s: System) {
    forall w | w in s.procs :: !Active(s.procs[w])
  }

  /** From the moment stopWatcher has succeeded until the next watcher is started. */
  predicate Quieted(c: Process) {
    c.Caller? &&
    (|| c.at.DropPid? || c.at.Clean? || c.at.DropConfirm? || c.at.DropArm? || c.at.WriteState? || c.at.CopyConfig?
     || c.at.RecordSelf? || c.at.Spawn? || c.at.UndoState? || c.at.UndoConfig? || c.at.AbortClean?
     || (c.at == Release(true) && c.op != Save))
  }

  predicate Only(f: Option<Gen>, g: Gen) {
    f == None || f == Some(g)
  }

  /** Every file in front of f in the removal order, the arm marker aside, is gone. */
  predicate Gone(d: Disk, f: File) {
    && (f != StateFile ==> d.state.None?)
    && (f != StateFile && f != ConfigFile ==> d.config.None?)
    && (f.ArmFile? || f.PidFile? ==> d.confirm.None?)
  }

  /** What a caller inside the lock may rely on about the files. */
  predicate CallerFiles(d: Disk, c: Process) {
    c.Caller? ==>
      match c.at
      case Signal(t) => Only(d.pid, t)
      case AwaitExit(t) => Only(d.pid, t)
      case Clean(f) => Gone(d, f) && d.pid.None?
      case DropConfirm => Gone(d, PidFile) && d.pid.None?
      case DropArm => Gone(d, PidFile) && d.pid.None?
      case WriteState => Gone(d, PidFile) && d.pid.None?
      case CopyConfig => Only(d.state, c.gen) && d.config.None? && d.confirm.None? && d.pid.None?
      case RecordSelf => Only(d.state, c.gen) && Only(d.config, c.gen) && d.confirm.None? && d.pid.None?
      case Spawn => Only(d.state, c.gen) && Only(d.config, c.gen) && d.confirm.None? && d.pid.None?
      case RecordWatcher(_) => Only(d.state, c.gen) && Only(d.config, c.gen) && d.confirm.None? && d.pid.None?
      case UndoState(_) => d.pid.None?
      case UndoConfig => d.state.None? && d.pid.None?
      case AbortClean(f) => Gone(d, f) && d.pid.None?
      case Release(ok) => ok && c.op != Save ==> Gone(d, PidFile) && d.pid.None?
      case _ => true
  }

  /** What an active watcher may rely on: every file it can meet is of its own generation. */
  predicate WatcherFiles(d: Disk, x: Process) {
    Active(x) ==>
      && Only(d.state, x.own) && Only(d.config, x.own) && Only(d.confirm, x.own)
      && (x.pc.LockedConfirm? ==> d.state == Some(x.own))
      && (x.pc.Restoring? ==> x.pc.snapshot == Some(x.own) && Only(x.pc.previous, x.own))
      && (x.pc.CleanUp? && x.pc.file != StateFile ==> d.state.None?)
  }

  ghost predicate Recorded(s: System, w: Pid) {
    || s.disk.pid == Some(w)
    || (s.lock.Some? && s.lock.value in s.procs && s.procs[s.lock.value].Caller?
        && s.procs[s.lock.value].at == RecordWatcher(w))
  }

  ghost predicate Follows(s: System, c: Process) {
    && (Quieted(c) ==> NoActive(s))
    && (c.Caller? && c.at.RecordWatcher? ==>
          forall v | v in s.procs && Active(s.procs[v]) :: v == c.at.watcher && s.procs[v].own == c.gen)
    && (c.Caller? && (c.at.MarkConfirmed? || (c.at == Release(true) && c.op == Save)) ==>
          forall v | v in s.procs && Active(s.procs[v]) :: s.procs[v].own == c.gen)
  }

  ghost predicate OwnProc(s: System, p: Pid, x: Process) {
    && CallerFiles(s.disk, x)
    && WatcherFiles(s.disk, x)
    && Follows(s, x)
    && (Active(x) ==> Recorded(s, p))
  }

  ghost predicate OwnInv(s: System) {
    forall p | p in s.procs :: OwnProc(s, p, s.procs[p])
  }

  /** A step that leaves an active watcher without a record: its applier dies before recording it, or the record cannot
      be read and is thrown away. */
  predicate Strays(s: System, l: Label) {
    && (l.Die? || (l.Step? && l.choice == Fail)) && l.p in s.procs && s.procs[l.p].Caller?
    && var at := s.procs[l.p].at;
    if l.Die? then at.RecordWatcher? && at.watcher in s.procs && Active(s.procs[at.watcher])
    else at.ReadPid? && s.disk.pid.Some? && s.disk.pid.value in s.procs && Active(s.procs[s.disk.pid.value])
  }

  // -- files alone

  lemma LocalCallerFiles(d: Disk, c: Process, choice: Choice)
    requires c.Caller? && IsLocal(c.at) && OpFits(c) && CallerFiles(d, c)
    ensures var r := CallerLocal(d, c, choice);
            && r.proc.Caller?
            && CallerFiles(r.disk, r.proc)
            && (Quieted(r.proc) ==> Quieted(c) || (c.at.ReadPid? && (d.pid.None? || choice == Fail)))
            && (r.proc.at.MarkConfirmed? ==> d.state == Some(r.proc.gen))
            && !(r.proc.at == Release(true) && c.op == Save)
  {
  }

  /** A caller that has not stopped the watcher yet only ever adds a confirmation or an arm marker. */
  lemma UnquietCallerFiles(d: Disk, c: Process, choice: Choice)
    requires c.Caller? && IsLocal(c.at) && !Quieted(c)
    ensures var r := CallerLocal(d, c, choice).disk;
            && r.state == d.state && r.config == d.config && r.pid == d.pid
            && (r.confirm == d.confirm || (c.at.MarkConfirmed? && r.confirm == Some(c.gen)))
  {
  }

  lemma ArmFiles(d: Disk, c: Process, choice: Choice, x: Process)
    requires c.Caller? && IsLocal(c.at) && !InLock(c) && CallerFiles(d, x)
    ensures CallerFiles(CallerLocal(d, c, choice).disk, x)
  {
  }

  lemma RemovalKeepsCallerFiles(d: Disk, d': Disk, x: Process)
    requires CallerFiles(d, x)
    requires Kept(d.state, d'.state) && Kept(d.config, d'.config) && Kept(d.confirm, d'.confirm) && Kept(d.pid, d'.pid)
    ensures CallerFiles(d', x)
  {
  }

  lemma LocalWatcherFiles(d: Disk, x: Process, choice: Choice)
    requires x.Watcher? && !(x.pc.UnarmedParent? || x.pc.Lock? || x.pc.Exit?) && WatcherFiles(d, x)
    ensures var r := WatcherLocal(d, x, choice);
            && WatcherFiles(r.disk, r.proc)
            && (Active(r.proc) ==> r.disk.pid == d.pid)
  {
  }

  // -- steps

  lemma OwnLocalCallerStep(s: System, p: Pid, c: Process, choice: Choice)
    requires LockInv(s) && OwnInv(s) && p in s.procs && s.procs[p] == c && c.Caller? && IsLocal(c.at)
    requires !Strays(s, Step(p, choice))
    ensures OwnInv(Apply(s, p, CallerLocal(s.disk, c, choice)))
  {
    var r := CallerLocal(s.disk, c, choice);
    var s' := Apply(s, p, r);
    assert LockProc(s, p, c) && OwnProc(s, p, c);
    LocalCallerFiles(s.disk, c, choice);
    LocalKeepsLock(s.disk, c, choice);
    forall q | q in s'.procs ensures OwnProc(s', q, s'.procs[q]) {
      assert LockProc(s, q, s.procs[q]) && OwnProc(s, q, s.procs[q]);
      if q == p {
        OwnLocalCallerSelf(s, p, c, choice);
      } else if s.procs[q].Caller? {
        if !InLock(c) { ArmFiles(s.disk, c, choice, s.procs[q]); }
      } else if !Quieted(c) {
        UnquietCallerFiles(s.disk, c, choice);
      }
    }
  }

  lemma OwnLocalCallerSelf(s: System, p: Pid, c: Process, choice: Choice)
    requires LockInv(s) && OwnInv(s) && p in s.procs && s.procs[p] == c && c.Caller? && IsLocal(c.at)
    requires !Strays(s, Step(p, choice))
    ensures var r := CallerLocal(s.disk, c, choice); OwnProc(Apply(s, p, r), p, r.proc)
  {
    var r := CallerLocal(s.disk, c, choice);
    var s' := Apply(s, p, r);
    assert LockProc(s, p, c) && OwnProc(s, p, c);
    LocalCallerFiles(s.disk, c, choice);
    LocalKeepsLock(s.disk, c, choice);
    forall v | v in s.procs && Active(s.procs[v])
      ensures v in s'.procs && s'.procs[v] == s.procs[v]
      ensures WatcherFiles(s.disk, s.procs[v]) && Recorded(s, v)
    {
      assert OwnProc(s, v, s.procs[v]);
    }
  }

  lemma OwnLocalWatcherStep(s: System, w: Pid, x: Process, choice: Choice)
    requires LockInv(s) && OwnInv(s) && w in s.procs && s.procs[w] == x && x.Watcher?
    requires !(x.pc.UnarmedParent? || x.pc.Lock? || x.pc.Exit?)
    ensures OwnInv(Apply(s, w, WatcherLocal(s.disk, x, choice)))
  {
    var r := WatcherLocal(s.disk, x, choice);
    var s' := Apply(s, w, r);
    assert LockProc(s, w, x) && OwnProc(s, w, x);
    WatcherOnlyRemoves(s.disk, x, choice);
    LocalWatcherFiles(s.disk, x, choice);
    forall q | q in s'.procs ensures OwnProc(s', q, s'.procs[q]) {
      assert LockProc(s, q, s.procs[q]) && OwnProc(s, q, s.procs[q]);
      if q != w {
        RemovalKeepsCallerFiles(s.disk, r.disk, s.procs[q]);
      }
    }
  }

  lemma OwnCallerStep(s: System, p: Pid, c: Process, choice: Choice)
    requires LockInv(s) && OwnInv(s) && p in s.procs && s.procs[p] == c && c.Caller?
    requires !Strays(s, Step(p, choice))
    ensures OwnInv(CallerStep(s, p, c, choice))
  {
    if IsLocal(c.at) {
      OwnLocalCallerStep(s, p, c, choice);
    } else if c.at.Spawn? {
      OwnSpawnStep(s, p, c, choice);
    } else if c.at.RecordWatcher? {
      OwnRecordStep(s, p, c, choice);
    } else if c.at.AwaitExit? {
      OwnAwaitStep(s, p, c, choice);
    } else if c.at.WriteState? {
      OwnWriteStep(s, p, c, choice);
    } else {
      OwnPlainStep(s, p, c, choice);
    }
  }

  lemma OwnPlainStep(s: System, p: Pid, c: Process, choice: Choice)
    requires LockInv(s) && OwnInv(s) && p in s.procs && s.procs[p] == c && c.Caller?
    requires c.at.Idle? || c.at.Waiting? || c.at.Release?
    ensures OwnInv(CallerStep(s, p, c, choice))
  {
    var s' := CallerStep(s, p, c, choice);
    assert LockProc(s, p, c) && OwnProc(s, p, c);
    forall q | q in s'.procs ensures OwnProc(s', q, s'.procs[q]) {
      assert LockProc(s, q, s.procs[q]) && OwnProc(s, q, s.procs[q]);
    }
  }

  lemma OwnWriteStep(s: System, p: Pid, c: Process, choice: Choice)
    requires LockInv(s) && OwnInv(s) && p in s.procs && s.procs[p] == c && c.Caller? && c.at.WriteState?
    ensures OwnInv(CallerStep(s, p, c, choice))
  {
    var s' := CallerStep(s, p, c, choice);
    assert LockProc(s, p, c) && OwnProc(s, p, c);
    forall q | q in s'.procs ensures OwnProc(s', q, s'.procs[q]) {
      assert LockProc(s, q, s.procs[q]) && OwnProc(s, q, s.procs[q]);
    }
  }

  /** The watcher is gone, and nobody else is on record: no active watcher is left. */
  lemma OwnAwaitStep(s: System, p: Pid, c: Process, choice: Choice)
    requires LockInv(s) && OwnInv(s) && p in s.procs && s.procs[p] == c && c.Caller? && c.at.AwaitExit?
    ensures OwnInv(CallerStep(s, p, c, choice))
  {
    var s' := CallerStep(s, p, c, choice);
    assert LockProc(s, p, c) && OwnProc(s, p, c);
    forall v | v in s.procs && Active(s.procs[v]) ensures v == c.at.target {
      assert OwnProc(s, v, s.procs[v]);
    }
    forall q | q in s'.procs ensures OwnProc(s', q, s'.procs[q]) {
      assert OwnProc(s, q, s.procs[q]);
    }
  }

  lemma OwnSpawnStep(s: System, p: Pid, c: Process, choice: Choice)
    requires LockInv(s) && OwnInv(s) && p in s.procs && s.procs[p] == c && c.Caller? && c.at.Spawn?
    ensures OwnInv(CallerStep(s, p, c, choice))
  {
    var s' := CallerStep(s, p, c, choice);
    assert LockProc(s, p, c) && OwnProc(s, p, c);
    forall q | q in s'.procs ensures OwnProc(s', q, s'.procs[q]) {
      assert q in s.procs ==> LockProc(s, q, s.procs[q]) && OwnProc(s, q, s.procs[q]);
    }
  }

  lemma OwnRecordStep(s: System, p: Pid, c: Process, choice: Choice)
    requires LockInv(s) && OwnInv(s) && p in s.procs && s.procs[p] == c && c.Caller? && c.at.RecordWatcher?
    ensures OwnInv(CallerStep(s, p, c, choice))
  {
    var s' := CallerStep(s, p, c, choice);
    assert LockProc(s, p, c) && OwnProc(s, p, c);
    forall q | q in s'.procs ensures OwnProc(s', q, s'.procs[q]) {
      assert LockProc(s, q, s.procs[q]) && OwnProc(s, q, s.procs[q]);
    }
  }

  lemma OwnWatcherStep(s: System, w: Pid, x: Process, choice: Choice)
    requires LockInv(s) && OwnInv(s) && w in s.procs && s.procs[w] == x && x.Watcher?
    ensures OwnInv(WatcherStep(s, w, x, choice))
  {
    if !(x.pc.UnarmedParent? || x.pc.Lock? || x.pc.Exit?) {
      OwnLocalWatcherStep(s, w, x, choice);
    } else {
      var s' := WatcherStep(s, w, x, choice);
      assert LockProc(s, w, x) && OwnProc(s, w, x);
      forall q | q in s'.procs ensures OwnProc(s', q, s'.procs[q]) {
        assert LockProc(s, q, s.procs[q]) && OwnProc(s, q, s.procs[q]);
      }
    }
  }

  lemma OwnKept(s: System, l: Label)
    requires LockInv(s) && OwnInv(s) && !Strays(s, l)
    ensures OwnInv(Next(s, l))
  {
    if l.Step? && l.p in s.procs {
      if s.procs[l.p].Caller? {
        OwnCallerStep(s, l.p, s.procs[l.p], l.choice);
      } else {
        OwnWatcherStep(s, l.p, s.procs[l.p], l.choice);
      }
    } else {
      OwnOther(s, l);
    }
  }

  lemma OwnOther(s: System, l: Label)
    requires LockInv(s) && OwnInv(s) && !Strays(s, l) && !(l.Step? && l.p in s.procs)
    ensures OwnInv(Next(s, l))
  {
    if l.Die? && l.p in s.procs {
      OwnDeath(s, l.p);
    } else {
      var s' := Next(s, l);
      forall q | q in s'.procs ensures OwnProc(s', q, s'.procs[q]) {
        assert q in s.procs ==> LockProc(s, q, s.procs[q]) && OwnProc(s, q, s.procs[q]);
      }
    }
  }

  lemma OwnDeath(s: System, p: Pid)
    requires LockInv(s) && OwnInv(s) && p in s.procs && !Strays(s, Die(p))
    ensures OwnInv(Vanish(s, p))
  {
    var s' := Vanish(s, p);
    assert LockProc(s, p, s.procs[p]) && OwnProc(s, p, s.procs[p]);
    forall q | q in s'.procs ensures OwnProc(s', q, s'.procs[q]) {
      assert LockProc(s, q, s.procs[q]) && OwnProc(s, q, s.procs[q]);
    }
  }

  lemma OwnLost(s: System, l: Label)
    requires LockInv(s) && OwnInv(s) && Strays(s, l)
    ensures !OwnInv(Next(s, l))
  {
    var s' := Next(s, l);
    assert LockProc(s, l.p, s.procs[l.p]) && OwnProc(s, l.p, s.procs[l.p]);
    if l.Die? {
      var w := s.procs[l.p].at.watcher;
      assert w in s'.procs && !OwnProc(s', w, s'.procs[w]);
    } else {
      var w := s.disk.pid.value;
      assert w in s'.procs && Active(s'.procs[w]) && Quieted(s'.procs[l.p]);
      assert !OwnProc(s', l.p, s'.procs[l.p]);
    }
  }

  /** Exactly the steps that leave an active watcher without a record break the invariant. */
  lemma OwnStep(s: System, l: Label)
    requires LockInv(s) && OwnInv(s)
    ensures OwnInv(Next(s, l)) <==> !Strays(s, l)
  {
    if Strays(s, l) {
      OwnLost(s, l);
    } else {
      OwnKept(s, l);
    }
  }

  /** No applier dies between starting its watcher and recording it, and no recorded watcher goes unread, while the
      watcher is active. */
  ghost predicate Orderly(labels: seq<Label>) {
    labels == [] ||
    (Orderly(labels[..|labels| - 1]) && !Strays(Run(labels[..|labels| - 1]), labels[|labels| - 1]))
  }

  /** The invariant holds throughout a run exactly when the run is orderly. */
  lemma {:induction false} OrderlyRunKeepsOwn(labels: seq<Label>)
    ensures Orderly(labels) <==> forall n | 0 <= n <= |labels| :: OwnInv(Run(labels[..n]))
    ensures Orderly(labels) ==> OwnInv(Run(labels))
  {
    assert labels[..|labels|] == labels;
    if labels == [] {
      assert OwnInv(Initial);
    } else {
      var before := labels[..|labels| - 1];
      OrderlyRunKeepsOwn(before);
      RunKeepsInvariants(before);
      assert forall n | 0 <= n < |labels| :: before[..n] == labels[..n];
      assert before[..|before|] == before;
      if OwnInv(Run(before)) {
        OwnStep(Run(before), labels[|labels| - 1]);
      }
    }
  }

  // ---------------------------------------------------------------- the arm marker

  /** Whether x will look at the arm marker as one for another generation than g: a watcher of another generation, or a
      caller that has removed old markers and is about to start such a watcher. */
  predicate Elsewhere(x: Process, g: Gen) {
    if x.Watcher? then Active(x) && x.own != g
    else x.at.WriteState?
         || ((x.at.CopyConfig? || x.at.RecordSelf? || x.at.Spawn? || x.at.RecordWatcher?) && x.gen != g)
  }

  /** Arm takes no lock: between its look at the state file and its write anything may happen. A write is late when
      somebody is busy with another generation by then. */
  predicate LateArm(s: System, l: Label) {
    && l.Step? && l.p in s.procs && s.procs[l.p].Caller? && s.procs[l.p].at.ArmWrite? && l.choice != Fail
    && exists q | q in s.procs :: Elsewhere(s.procs[q], s.procs[l.p].gen)
  }

  ghost predicate Timely(labels: seq<Label>) {
    labels == [] ||
    (Timely(labels[..|labels| - 1]) && !LateArm(Run(labels[..|labels| - 1]), labels[|labels| - 1]))
  }

  /** Who relies on the marker, and for which generation. */
  predicate ArmProc(d: Disk, x: Process) {
    && (Active(x) ==> Only(d.arm, x.own))
    && (x.Caller? && x.at.WriteState? ==> d.arm.None?)
    && (x.Caller? && (x.at.CopyConfig? || x.at.RecordSelf? || x.at.Spawn? || x.at.RecordWatcher?) ==>
          Only(d.arm, x.gen))
  }

  ghost predicate ArmInv(s: System) {
    forall p | p in s.procs :: ArmProc(s.disk, s.procs[p])
  }

  /** Every other step of a caller leaves the marker alone or removes it. */
  lemma CallerArmStep(d: Disk, c: Process, choice: Choice)
    requires c.Caller? && IsLocal(c.at) && !c.at.ArmWrite? && ArmProc(d, c)
    ensures var r := CallerLocal(d, c, choice); Kept(d.arm, r.disk.arm) && ArmProc(r.disk, r.proc) && r.proc.Caller?
  {
  }

  lemma WatcherArmStep(d: Disk, x: Process, choice: Choice)
    requires x.Watcher? && !(x.pc.UnarmedParent? || x.pc.Lock? || x.pc.Exit?) && ArmProc(d, x)
    ensures var r := WatcherLocal(d, x, choice); Kept(d.arm, r.disk.arm) && ArmProc(r.disk, r.proc)
  {
  }

  lemma ArmWriteStep(s: System, p: Pid, choice: Choice)
    requires ArmInv(s) && p in s.procs && s.procs[p].Caller? && s.procs[p].at.ArmWrite?
    ensures ArmInv(Next(s, Step(p, choice))) <==> !LateArm(s, Step(p, choice))
  {
    var s' := Next(s, Step(p, choice));
    var g := s.procs[p].gen;
    forall q | q in s.procs
      ensures q in s'.procs
      ensures ArmProc(s'.disk, s'.procs[q]) <==> choice == Fail || !Elsewhere(s.procs[q], g)
    {
      assert ArmProc(s.disk, s.procs[q]);
    }
  }

  lemma ArmLocalStep(s: System, p: Pid, c: Process, choice: Choice)
    requires ArmInv(s) && p in s.procs && s.procs[p] == c && c.Caller? && IsLocal(c.at) && !c.at.ArmWrite?
    ensures ArmInv(Apply(s, p, CallerLocal(s.disk, c, choice)))
  {
    var r := CallerLocal(s.disk, c, choice);
    assert ArmProc(s.disk, c);
    CallerArmStep(s.disk, c, choice);
    forall q | q in s.procs && q != p ensures ArmProc(r.disk, s.procs[q]) {
      assert ArmProc(s.disk, s.procs[q]);
    }
  }

  lemma ArmOtherStep(s: System, p: Pid, choice: Choice)
    requires LockInv(s) && ArmInv(s) && p in s.procs && !(s.procs[p].Caller? && IsLocal(s.procs[p].at))
    ensures ArmInv(Next(s, Step(p, choice)))
  {
    var s' := Next(s, Step(p, choice));
    var x := s.procs[p];
    assert LockProc(s, p, x) && ArmProc(s.disk, x);
    if x.Watcher? && !(x.pc.UnarmedParent? || x.pc.Lock? || x.pc.Exit?) {
      WatcherArmStep(s.disk, x, choice);
    }
    forall q | q in s'.procs ensures ArmProc(s'.disk, s'.procs[q]) {
      assert q in s.procs ==> ArmProc(s.disk, s.procs[q]);
    }
  }

  /** Exactly the late writes break what is relied on. */
  lemma ArmStep(s: System, l: Label)
    requires LockInv(s) && ArmInv(s)
    ensures ArmInv(Next(s, l)) <==> !LateArm(s, l)
  {
    if !(l.Step? && l.p in s.procs) {
      var s' := Next(s, l);
      forall q | q in s'.procs ensures ArmProc(s'.disk, s'.procs[q]) {
        assert q in s.procs ==> ArmProc(s.disk, s.procs[q]);
      }
    } else if !(s.procs[l.p].Caller? && IsLocal(s.procs[l.p].at)) {
      ArmOtherStep(s, l.p, l.choice);
    } else if s.procs[l.p].at.ArmWrite? {
      ArmWriteStep(s, l.p, l.choice);
    } else {
      ArmLocalStep(s, l.p, s.procs[l.p], l.choice);
    }
  }

  /** Whoever relies on the marker finds only his own generation's throughout a run exactly when the run is timely. */
  lemma {:induction false} TimelyRunKeepsArm(labels: seq<Label>)
    ensures Timely(labels) <==> forall n | 0 <= n <= |labels| :: ArmInv(Run(labels[..n]))
    ensures Timely(labels) ==> ArmInv(Run(labels))
  {
    assert labels[..|labels|] == labels;
    if labels == [] {
      assert ArmInv(Initial);
    } else {
      var before := labels[..|labels| - 1];
      TimelyRunKeepsArm(before);
      RunKeepsInvariants(before);
      assert forall n | 0 <= n < |labels| :: before[..n] == labels[..n];
      assert before[..|before|] == before;
      if ArmInv(Run(before)) {
        ArmStep(Run(before), labels[|labels| - 1]);
      }
    }
  }

  /** A marker of another generation is in front of a watcher that can still act. */
  ghost predicate Crossed(s: System, w: Pid) {
    w in s.procs && Active(s.procs[w]) && s.disk.arm.Some? && s.disk.arm != Some(s.procs[w].own)
  }

  /** While a state is on file, the test that Arm made decides: its marker crosses every active watcher if the state on
      file is no longer the one it saw, and none otherwise. */
  lemma StateDecidesCrossing(s: System, p: Pid, w: Pid)
    requires OwnInv(s) && p in s.procs && s.procs[p].Caller? && s.procs[p].at.ArmWrite? && s.disk.state.Some?
    requires w in s.procs && Active(s.procs[w])
    ensures Crossed(Next(s, Step(p, Go)), w) <==> s.disk.state != Some(s.procs[p].gen)
    ensures LateArm(s, Step(p, Go)) <==> s.disk.state != Some(s.procs[p].gen)
  {
    assert OwnProc(s, w, s.procs[w]);
    forall q | q in s.procs && Elsewhere(s.procs[q], s.procs[p].gen)
      ensures s.disk.state != Some(s.procs[p].gen)
    {
      assert OwnProc(s, q, s.procs[q]);
    }
    assert s.disk.state != Some(s.procs[p].gen) ==> Elsewhere(s.procs[w], s.procs[p].gen);
  }

  // ---------------------------------------------------------------- main results

  /** The same system, reached by letting `more` happen from s on. */
  function Continue(s: System, more: seq<Label>): System
    decreases |more|
  {
    if more == [] then s else Continue(Next(s, more[0]), more[1..])
  }

  lemma {:induction false} RunAppend(labels: seq<Label>, more: seq<Label>)
    ensures Run(labels + more) == Continue(Run(labels), more)
    decreases |more|
  {
    if more == [] {
      assert labels + more == labels;
    } else {
      assert labels + more == (labels + [more[0]]) + more[1..];
      RunAppend(labels + [more[0]], more[1..]);
      assert (labels + [more[0]])[..|labels|] == labels;
    }
  }

  lemma {:induction false} ConfirmedGrows(s: System, more: seq<Label>)
    ensures s.confirmed <= Continue(s, more).confirmed
    decreases |more|
  {
    if more != [] {
      ConfirmedGrows(Next(s, more[0]), more[1..]);
    }
  }

  /** Once Confirm has returned success for a generation, no watcher ever restores it, whatever dies and
      in whatever order the processes run. */
  lemma ConfirmIsFinal(labels: seq<Label>, more: seq<Label>, g: Gen, w: Pid)
    requires g in Run(labels).confirmed
    requires var s := Run(labels + more); w in s.procs && s.procs[w].Watcher? && s.procs[w].pc.Restoring?
    ensures Run(labels + more).procs[w].pc.snapshot != Some(g)
  {
    var s := Run(labels + more);
    RunAppend(labels, more);
    ConfirmedGrows(Run(labels), more);
    RunKeepsInvariants(labels + more);
    assert ConfirmProc(s, s.procs[w]);
  }

  /** Confirm never succeeds, nor even begins to mark its generation, while a watcher is restoring. */
  lemma ConfirmExcludesRestore(labels: seq<Label>, p: Pid, w: Pid)
    requires var s := Run(labels); p in s.procs && (Confirming(s.procs[p]) || Clearing(s.procs[p]))
    requires w in Run(labels).procs && Run(labels).procs[w].Watcher?
    ensures !Run(labels).procs[w].pc.Restoring?
  {
    var s := Run(labels);
    RunKeepsInvariants(labels);
    assert LockProc(s, p, s.procs[p]) && LockProc(s, w, s.procs[w]);
  }

  /** While appliers record the watchers they start, a watcher restores its own generation only, and what
      its cleanup removes is its own too, with or without the lock. */
  lemma WatcherKeepsToItsGeneration(labels: seq<Label>, w: Pid)
    requires Orderly(labels)
    requires w in Run(labels).procs && Run(labels).procs[w].Watcher?
    ensures var s := Run(labels); var x := s.procs[w];
            && (x.pc.Restoring? ==> x.pc.snapshot == Some(x.own) && Only(x.pc.previous, x.own))
            && (x.pc.CleanUp? && !x.pc.file.ArmFile? && !x.pc.file.PidFile? ==> Only(Holds(s.disk, x.pc.file), x.own))
            && (x.pc == CleanUp(PidFile) ==> Only(s.disk.pid, w))
  {
    var s := Run(labels);
    OrderlyRunKeepsOwn(labels);
    assert OwnProc(s, w, s.procs[w]);
    if s.lock.Some? && s.lock.value in s.procs {
      assert OwnProc(s, s.lock.value, s.procs[s.lock.value]);
    }
  }

  /** When no arm marker is written late, a watcher is only ever armed by, and only ever removes, a marker of its own
      generation. */
  lemma WatcherKeepsToItsMarker(labels: seq<Label>, w: Pid)
    requires Timely(labels)
    requires w in Run(labels).procs && Active(Run(labels).procs[w])
    ensures Only(Run(labels).disk.arm, Run(labels).procs[w].own)
  {
    TimelyRunKeepsArm(labels);
  }

  /** When Confirm or Cancel returns success, its four files are gone and no watcher can touch a file again. */
  lemma StoppedForGood(labels: seq<Label>, p: Pid)
    requires Orderly(labels)
    requires
      var s := Run(labels);
      p in s.procs && s.procs[p].Caller? && s.procs[p].at == Release(true) && s.procs[p].op != Save
    ensures var d := Run(labels).disk; d.state.None? && d.config.None? && d.confirm.None? && d.pid.None?
    ensures NoActive(Run(labels))
  {
    OrderlyRunKeepsOwn(labels);
    assert OwnProc(Run(labels), p, Run(labels).procs[p]);
  }

  /** When SaveAndStartWatcher returns success, the only watcher that can still act is the one on record,
      and it guards the generation just captured. */
  lemma OneWatcherAfterSave(labels: seq<Label>, p: Pid, v: Pid)
    requires Orderly(labels)
    requires
      var s := Run(labels);
      p in s.procs && s.procs[p].Caller? && s.procs[p].at == Release(true) && s.procs[p].op == Save
    requires v in Run(labels).procs && Active(Run(labels).procs[v])
    ensures Run(labels).disk.pid == Some(v) && Run(labels).procs[v].own == Run(labels).procs[p].gen
  {
    var s := Run(labels);
    OrderlyRunKeepsOwn(labels);
    RunKeepsInvariants(labels);
    assert OwnProc(s, p, s.procs[p]) && OwnProc(s, v, s.procs[v]) && LockProc(s, p, s.procs[p]);
  }

  // -- where the guarantees end

  /** What the program makes of the operations: only a caller whose own Save has succeeded arms or cancels, and anyone
      may save or confirm. */
  predicate Fits(s: System, l: Label) {
    l.BeginArm? || (l.Begin? && l.op == Cancel) ==> l.p in s.prepared
  }

  ghost predicate Proper(labels: seq<Label>) {
    labels == [] ||
    (Proper(labels[..|labels| - 1]) && Fits(Run(labels[..|labels| - 1]), labels[|labels| - 1]))
  }

  /** Some run that the program can make, orderly if asked for, ends in s. */
  ghost predicate Reachable(s: System, orderly: bool) {
    exists labels :: Run(labels) == s && Proper(labels) && (orderly ==> Orderly(labels))
  }

  lemma ReachInitial(orderly: bool)
    ensures Reachable(Initial, orderly)
  {
    assert Run([]) == Initial && Proper([]) && Orderly([]);
  }

  lemma ReachNext(s: System, l: Label, orderly: bool)
    requires Reachable(s, orderly) && Fits(s, l) && !(orderly && Strays(s, l))
    ensures Reachable(Next(s, l), orderly)
  {
    var labels :| Run(labels) == s && Proper(labels) && (orderly ==> Orderly(labels));
    assert (labels + [l])[..|labels|] == labels;
    assert Run(labels + [l]) == Next(s, l);
  }

  const Empty: Disk := Disk(None, None, None, None, None)

  lemma MoveTwice(s: System, p: Pid, c: Process, c': Process)
    ensures Move(Move(s, p, c), p, c') == Move(s, p, c')
  {
    assert Move(Move(s, p, c), p, c').procs == Move(s, p, c').procs;
  }

  lemma MoveNowhere(s: System, p: Pid)
    requires p in s.procs
    ensures Move(s, p, s.procs[p]) == s
  {
    assert Move(s, p, s.procs[p]).procs == s.procs;
  }

  /** One local step of p, as a fact about what can be reached. */
  lemma MoveStep(s: System, p: Pid, c: Process, choice: Choice, d': Disk, c': Process, o: bool)
    requires c.Caller? && IsLocal(c.at) && CallerLocal(s.disk, c, choice) == Local(d', c')
    requires !(o && c.at.ReadPid? && choice == Fail)
    ensures Reachable(Move(s, p, c), o) ==> Reachable(Move(s.(disk := d'), p, c'), o)
  {
    if Reachable(Move(s, p, c), o) {
      ReachNext(Move(s, p, c), Step(p, choice), o);
      MoveTwice(s.(disk := d'), p, c, c');
    }
  }

  lemma Launches(s: System, o: bool)
    requires Reachable(s, o)
    ensures Reachable(Move(s.(nextPid := s.nextPid + 1), s.nextPid, Caller(Save, Idle, 0)), o)
  {
    ReachNext(s, Launch, o);
  }

  lemma Begins(s: System, p: Pid, op: Op, o: bool)
    requires Reachable(s, o) && p in s.procs && s.procs[p].Caller? && s.procs[p].at == Idle
    requires op != Cancel && p !in s.prepared
    ensures Reachable(Move(s, p, s.procs[p].(op := op, at := Waiting)), o)
  {
    assert s.prepared - {p} == s.prepared;
    ReachNext(s, Begin(p, op), o);
  }

  // A capture and its watcher.

  lemma Enters(s: System, p: Pid, o: bool)
    requires Reachable(s, o) && s.lock.None? && p in s.procs
    requires s.procs[p].Caller? && s.procs[p].at == Waiting && s.procs[p].op != Cancel
    ensures Reachable(Move(s.(lock := Some(p)), p,
                           s.procs[p].(at := if s.procs[p].op == Save then CheckPending else CheckConfirmable)), o)
  {
    ReachNext(s, Step(p, Go), o);
  }

  lemma StopReached(s: System, p: Pid, g: Gen, o: bool)
    requires s.disk == Empty && Reachable(Move(s, p, Caller(Save, CheckPending, g)), o)
    ensures Reachable(Move(s, p, Caller(Save, Clean(StateFile), g)), o)
  {
    MoveStep(s, p, Caller(Save, CheckPending, g), Go, Empty, Caller(Save, ReadPid, g), o);
    MoveStep(s, p, Caller(Save, ReadPid, g), Go, Empty, Caller(Save, DropPid, g), o);
    MoveStep(s, p, Caller(Save, DropPid, g), Go, Empty, Caller(Save, Clean(StateFile), g), o);
  }

  lemma CleanReached(s: System, p: Pid, f: File, c: Process, o: bool)
    requires f != PidFile && c.Caller? && c.at == Clean(f)
    requires f != StateFile ==> s.disk.state.None?
    requires f == ConfirmFile || f == ArmFile ==> s.disk.config.None?
    requires f == ArmFile ==> s.disk.confirm.None?
    requires Reachable(Move(s, p, c), o)
    ensures Reachable(Move(s.(disk := Empty.(pid := s.disk.pid)), p, c.(at := Clean(PidFile))), o)
    decreases f.StateFile?, f.ConfigFile?, f.ConfirmFile?
  {
    var s' := s.(disk := Remove(s.disk, f));
    MoveStep(s, p, c, Go, s'.disk, c.(at := Clean(NextFile(f))), o);
    if NextFile(f) != PidFile {
      CleanReached(s', p, NextFile(f), c.(at := Clean(NextFile(f))), o);
    }
  }

  lemma WriteReached(s: System, p: Pid, g: Gen, o: bool)
    requires s.disk == Empty && Reachable(Move(s, p, Caller(Save, Clean(PidFile), g)), o)
    ensures Reachable(Move(s.(disk := Empty.(state := Some(s.nextGen)), nextGen := s.nextGen + 1), p,
                           Caller(Save, CopyConfig, s.nextGen)), o)
  {
    MoveStep(s, p, Caller(Save, Clean(PidFile), g), Go, Empty, Caller(Save, DropConfirm, g), o);
    MoveStep(s, p, Caller(Save, DropConfirm, g), Go, Empty, Caller(Save, DropArm, g), o);
    MoveStep(s, p, Caller(Save, DropArm, g), Go, Empty, Caller(Save, WriteState, g), o);
    StateReached(s, p, g, o);
  }

  lemma StateReached(s: System, p: Pid, g: Gen, o: bool)
    requires s.disk == Empty && Reachable(Move(s, p, Caller(Save, WriteState, g)), o)
    ensures Reachable(Move(s.(disk := Empty.(state := Some(s.nextGen)), nextGen := s.nextGen + 1), p,
                           Caller(Save, CopyConfig, s.nextGen)), o)
  {
    var c, c' := Caller(Save, WriteState, g), Caller(Save, CopyConfig, s.nextGen);
    ReachNext(Move(s, p, c), Step(p, Go), o);
    MoveTwice(s.(disk := Empty.(state := Some(s.nextGen)), nextGen := s.nextGen + 1), p, c, c');
  }

  /** s with the next generation captured by p, which has got to c. */
  function Capturing(s: System, p: Pid, at: CallerPc): System {
    Move(s.(lock := Some(p), disk := Empty.(state := Some(s.nextGen)), nextGen := s.nextGen + 1), p,
         Caller(Save, at, s.nextGen))
  }

  lemma Captures(s: System, p: Pid, o: bool)
    requires Reachable(s, o) && s.lock.None? && s.disk == Empty
    requires p in s.procs && s.procs[p].Caller? && s.procs[p].at == Waiting && s.procs[p].op == Save
    ensures Reachable(Capturing(s, p, Spawn), o)
  {
    var g, s0 := s.procs[p].gen, s.(lock := Some(p));
    Enters(s, p, o);
    StopReached(s0, p, g, o);
    CleanReached(s0, p, StateFile, Caller(Save, Clean(StateFile), g), o);
    WriteReached(s0, p, g, o);
    Readies(s, p, o);
  }

  lemma Readies(s: System, p: Pid, o: bool)
    requires Reachable(Capturing(s, p, CopyConfig), o)
    ensures Reachable(Capturing(s, p, Spawn), o)
  {
    var n := s.nextGen;
    var d := Empty.(state := Some(n));
    var s1 := s.(lock := Some(p), disk := d, nextGen := n + 1);
    MoveStep(s1, p, Caller(Save, CopyConfig, n), Other, d, Caller(Save, RecordSelf, n), o);
    MoveStep(s1, p, Caller(Save, RecordSelf, n), Go, d, Caller(Save, Spawn, n), o);
  }

  /** s with a watcher for p's generation started and not recorded. */
  function Spawned(s: System, p: Pid): System
    requires p in s.procs && s.procs[p].Caller?
  {
    var c := s.procs[p];
    Move(s.(procs := s.procs[s.nextPid := Watcher(c.gen, p, UnarmedState)], nextPid := s.nextPid + 1), p,
         c.(at := RecordWatcher(s.nextPid)))
  }

  lemma Spawns(s: System, p: Pid, o: bool)
    requires Reachable(s, o) && p in s.procs && s.procs[p].Caller? && s.procs[p].at == Spawn
    ensures Reachable(Spawned(s, p), o)
  {
    ReachNext(s, Step(p, Go), o);
  }

  /** s with Save returned successfully to p. */
  function Saved(s: System, p: Pid, w: Pid): System
    requires p in s.procs && s.procs[p].Caller?
  {
    Move(s.(disk := s.disk.(pid := Some(w)), lock := None, prepared := s.prepared + {p}), p, s.procs[p].(at := Idle))
  }

  lemma Saves(s: System, p: Pid, w: Pid, o: bool)
    requires Reachable(s, o) && p in s.procs && s.procs[p].Caller? && s.procs[p].op == Save
    requires s.procs[p].at == RecordWatcher(w)
    ensures Reachable(Saved(s, p, w), o)
  {
    var s1 := s.(disk := s.disk.(pid := Some(w)));
    ReachNext(s, Step(p, Go), o);
    SaveReturns(s1, p, s.procs[p].(at := Release(true)), o);
  }

  lemma SaveReturns(s: System, p: Pid, c: Process, o: bool)
    requires c.Caller? && c.op == Save && c.at == Release(true) && Reachable(Move(s, p, c), o)
    ensures Reachable(Move(s.(lock := None, prepared := s.prepared + {p}), p, c.(at := Idle)), o)
  {
    ReachNext(Move(s, p, c), Step(p, Go), o);
    MoveTwice(s.(lock := None, prepared := s.prepared + {p}), p, c, c.(at := Idle));
  }

  // A confirmation.

  /** s with p about to read the watcher's record, having marked generation g confirmed. */
  function Marked(s: System, p: Pid, g: Gen): System {
    Move(s.(lock := Some(p), disk := s.disk.(confirm := Some(g))), p, Caller(Confirm, ReadPid, g))
  }

  lemma Marks(s: System, p: Pid, g: Gen, o: bool)
    requires Reachable(s, o) && s.lock.None? && s.disk.state == Some(g)
    requires p in s.procs && s.procs[p].Caller? && s.procs[p].at == Waiting && s.procs[p].op == Confirm
    ensures Reachable(Marked(s, p, g), o)
  {
    var c, s0 := s.procs[p], s.(lock := Some(p));
    Enters(s, p, o);
    MoveStep(s0, p, c.(at := CheckConfirmable), Go, s.disk, Caller(Confirm, MarkConfirmed, g), o);
    MoveStep(s0, p, Caller(Confirm, MarkConfirmed, g), Go, s.disk.(confirm := Some(g)), Caller(Confirm, ReadPid, g), o);
  }

  /** s with p having removed the pid record and the state file. */
  function Uncovered(s: System, p: Pid, g: Gen): System {
    Move(s.(disk := s.disk.(pid := None, state := None)), p, Caller(Confirm, Clean(ConfigFile), g))
  }

  lemma Uncovers(s: System, p: Pid, g: Gen, o: bool)
    requires Reachable(s, o) && p in s.procs && s.procs[p] == Caller(Confirm, DropPid, g)
    ensures Reachable(Uncovered(s, p, g), o)
  {
    MoveNowhere(s, p);
    var s1 := s.(disk := s.disk.(pid := None));
    MoveStep(s, p, Caller(Confirm, DropPid, g), Go, s1.disk, Caller(Confirm, Clean(StateFile), g), o);
    MoveStep(s1, p, Caller(Confirm, Clean(StateFile), g), Go, s1.disk.(state := None),
             Caller(Confirm, Clean(ConfigFile), g), o);
  }

  /** s with the files gone and p about to return success. */
  function Cleared(s: System, p: Pid, g: Gen): System {
    Move(s.(disk := Empty), p, Caller(Confirm, Release(true), g))
  }

  lemma Clears(s: System, p: Pid, g: Gen, o: bool)
    requires Reachable(s, o) && p in s.procs && s.procs[p] == Caller(Confirm, Clean(ConfigFile), g)
    requires s.disk.state.None? && s.disk.pid.None?
    ensures Reachable(Cleared(s, p, g), o)
  {
    MoveNowhere(s, p);
    CleanReached(s, p, ConfigFile, s.procs[p], o);
    MoveStep(s.(disk := Empty), p, Caller(Confirm, Clean(PidFile), g), Go, Empty, Caller(Confirm, Release(true), g), o);
  }

  /** s with Confirm returned successfully to p. */
  function Confirmed(s: System, p: Pid, g: Gen): System {
    Move(s.(lock := None, confirmed := s.confirmed + {g}), p, Caller(Confirm, Idle, g))
  }

  lemma Confirms(s: System, p: Pid, g: Gen, o: bool)
    requires Reachable(s, o) && p in s.procs && s.procs[p] == Caller(Confirm, Release(true), g)
    ensures Reachable(Confirmed(s, p, g), o)
  {
    ReachNext(s, Step(p, Go), o);
  }

  // The runs.

  /** A new process p begins the operation op. */
  lemma Newcomer(s: System, op: Op, o: bool) returns (r: System)
    requires Reachable(s, o) && op != Cancel && s.nextPid !in s.prepared
    ensures Reachable(r, o)
    ensures r == Move(s.(nextPid := s.nextPid + 1), s.nextPid, Caller(op, Waiting, 0))
  {
    Launches(s, o);
    r := Move(s.(nextPid := s.nextPid + 1), s.nextPid, Caller(Save, Idle, 0));
    Begins(r, s.nextPid, op, o);
    MoveTwice(s.(nextPid := s.nextPid + 1), s.nextPid, Caller(Save, Idle, 0), Caller(op, Waiting, 0));
    r := Move(s.(nextPid := s.nextPid + 1), s.nextPid, Caller(op, Waiting, 0));
  }

  /** The first process saves: generation 0 is captured and watcher 1 started, but not recorded. */
  function FirstSpawned(): System {
    System(Empty.(state := Some(0)), Some(0),
           map[0 := Caller(Save, RecordWatcher(1), 0), 1 := Watcher(0, 0, UnarmedState)], 2, 1, {}, {})
  }

  lemma FirstSpawns(o: bool)
    ensures Reachable(FirstSpawned(), o)
  {
    ReachInitial(o);
    var s := Newcomer(Initial, Save, o);
    Captures(s, 0, o);
    Spawns(Capturing(s, 0, Spawn), 0, o);
    FirstIs(s);
  }

  lemma FirstIs(s: System)
    requires s == Move(Initial.(nextPid := 1), 0, Caller(Save, Waiting, 0))
    ensures Spawned(Capturing(s, 0, Spawn), 0) == FirstSpawned()
  {
    assert Spawned(Capturing(s, 0, Spawn), 0).procs == FirstSpawned().procs;
  }

  // -- an unread record

  /** Confirm or Cancel has succeeded for p while the watcher w can still act. */
  ghost predicate StoppedInVain(s: System, p: Pid, w: Pid) {
    && p in s.procs && s.procs[p].Caller? && s.procs[p].at == Release(true) && s.procs[p].op != Save
    && w in s.procs && Active(s.procs[w])
  }

  /** The first part of the proviso is needed: when the watcher's record cannot be read, Confirm succeeds and the
      watcher goes on. */
  lemma UnreadRecordSurvives()
    ensures exists labels, p, w :: Proper(labels) && StoppedInVain(Run(labels), p, w)
  {
    FirstSpawns(false);
    Saves(FirstSpawned(), 0, 1, false);
    var s := Newcomer(Saved(FirstSpawned(), 0, 1), Confirm, false);
    var r := ConfirmsUnread(s, 2, 0, 1);
    var labels :| Run(labels) == r && Proper(labels);
    assert StoppedInVain(Run(labels), 2, 1);
  }

  lemma ConfirmsUnread(s: System, p: Pid, g: Gen, w: Pid) returns (r: System)
    requires Reachable(s, false) && s.lock.None? && s.disk.state == Some(g) && s.disk.pid == Some(w)
    requires p in s.procs && s.procs[p].Caller? && s.procs[p].at == Waiting && s.procs[p].op == Confirm
    requires w in s.procs && Active(s.procs[w])
    ensures Reachable(r, false) && StoppedInVain(r, p, w)
  {
    Marks(s, p, g, false);
    var s1 := s.(lock := Some(p), disk := s.disk.(confirm := Some(g)));
    MoveStep(s1, p, Caller(Confirm, ReadPid, g), Fail, s1.disk, Caller(Confirm, DropPid, g), false);
    r := Move(s1, p, Caller(Confirm, DropPid, g));
    Uncovers(r, p, g, false);
    r := Uncovered(r, p, g);
    Clears(r, p, g, false);
    r := Cleared(r, p, g);
  }

  // -- an orphan

  /** A watcher about to remove the state file of another generation. */
  ghost predicate BreaksIn(s: System, w: Pid) {
    && w in s.procs && s.procs[w].Watcher? && s.procs[w].pc == CleanUp(StateFile)
    && s.disk.state.Some? && s.disk.state != Some(s.procs[w].own)
  }

  /** So is the second: an applier that dies before recording its watcher leaves one behind. The user confirms, the
      orphan sees the state file gone, and by the time it removes it a new one stands there. */
  lemma OrphanBreaksIn()
    ensures exists labels, w :: Proper(labels) && BreaksIn(Run(labels), w)
  {
    var s := OrphanIsLeft();
    s := Newcomer(s, Confirm, false);
    s := OrphanSeesConfirmation(s, 2, 1);
    Clears(s, 2, 0, false);
    s := Cleared(s, 2, 0);
    Confirms(s, 2, 0, false);
    s := Newcomer(Confirmed(s, 2, 0), Save, false);
    Captures(s, 3, false);
    var labels :| Run(labels) == Capturing(s, 3, Spawn) && Proper(labels);
    assert BreaksIn(Run(labels), 1);
  }

  lemma OrphanIsLeft() returns (s: System)
    ensures Reachable(s, false) && s.lock.None? && s.disk == Empty.(state := Some(0)) && s.prepared == {}
    ensures s.nextPid == 2 && s.nextGen == 1 && 1 in s.procs && s.procs[1] == Watcher(0, 0, UnarmedState)
  {
    FirstSpawns(false);
    ReachNext(FirstSpawned(), Die(0), false);
    s := Next(FirstSpawned(), Die(0));
  }

  lemma OrphanSeesConfirmation(s: System, p: Pid, w: Pid) returns (r: System)
    requires Reachable(s, false) && s.lock.None? && s.disk == Empty.(state := Some(0)) && s.prepared == {}
    requires p in s.procs && s.procs[p] == Caller(Confirm, Waiting, 0) && w in s.procs
    requires s.procs[w] == Watcher(0, 0, UnarmedState)
    ensures Reachable(r, false) && r.disk == Empty.(confirm := Some(0)) && r.prepared == {}
    ensures r.nextPid == s.nextPid && r.nextGen == s.nextGen
    ensures p in r.procs && r.procs[p] == Caller(Confirm, Clean(ConfigFile), 0)
    ensures w in r.procs && r.procs[w] == Watcher(0, 0, CleanUp(StateFile))
  {
    Marks(s, p, 0, false);
    var s1 := s.(lock := Some(p), disk := s.disk.(confirm := Some(0)));
    MoveStep(s1, p, Caller(Confirm, ReadPid, 0), Go, s1.disk, Caller(Confirm, DropPid, 0), false);
    r := Move(s1, p, Caller(Confirm, DropPid, 0));
    Uncovers(r, p, 0, false);
    r := Uncovered(r, p, 0);
    SeesStateGone(r, w);
    r := Move(r, w, Watcher(0, 0, CleanUp(StateFile)));
  }

  lemma SeesStateGone(s: System, w: Pid)
    requires Reachable(s, false) && s.disk.state.None? && w in s.procs && s.procs[w] == Watcher(0, 0, UnarmedState)
    ensures Reachable(Move(s, w, Watcher(0, 0, CleanUp(StateFile))), false)
  {
    ReachNext(s, Step(w, Go), false);
  }

  // -- a late arm marker

  /** The proviso for the marker is needed: B saves and its Arm finds its state on file; the user confirms; A saves; and
      B's marker arms A's watcher, in an orderly run. */
  lemma LateArmCrosses()
    ensures exists labels, w :: Proper(labels) && Orderly(labels) && Crossed(Run(labels), w)
  {
    var s := ArmIsDecided();
    s := Newcomer(s, Confirm, true);
    s := ConfirmStopsWatcher(s, 2, 1, 0);
    s := Newcomer(s, Save, true);
    s := SavesNext(s, 3, 0);
    MarkerIsWritten(s, 0, 4);
  }

  lemma MarkerIsWritten(s: System, b: Pid, w: Pid)
    requires Reachable(s, true) && b in s.procs && s.procs[b] == Caller(Save, ArmWrite, 0)
    requires w in s.procs && Active(s.procs[w]) && s.procs[w].own != 0
    ensures exists labels, v :: Proper(labels) && Orderly(labels) && Crossed(Run(labels), v)
  {
    var r := Move(s.(disk := s.disk.(arm := Some(0))), b, Caller(Save, Idle, 0));
    MoveNowhere(s, b);
    MoveStep(s, b, Caller(Save, ArmWrite, 0), Go, r.disk, Caller(Save, Idle, 0), true);
    var labels :| Run(labels) == r && Proper(labels) && Orderly(labels);
    assert Crossed(Run(labels), w);
  }

  lemma ArmIsDecided() returns (s: System)
    ensures Reachable(s, true) && s.lock.None? && s.disk == Empty.(state := Some(0), pid := Some(1))
    ensures s.nextPid == 2 && s.nextGen == 1 && s.prepared == {0}
    ensures 0 in s.procs && s.procs[0] == Caller(Save, ArmWrite, 0) && 1 in s.procs && s.procs[1].Watcher?
  {
    FirstSpawns(true);
    Saves(FirstSpawned(), 0, 1, true);
    s := Saved(FirstSpawned(), 0, 1);
    assert s.disk == Empty.(state := Some(0), pid := Some(1)) && s.prepared == {0};
    ArmDecides(s, 0);
    s := Move(s, 0, Caller(Save, ArmWrite, 0));
  }

  lemma ArmDecides(s: System, p: Pid)
    requires Reachable(s, true) && p in s.prepared && p in s.procs && s.procs[p].Caller? && s.procs[p].at == Idle
    requires s.disk.state.Some?
    ensures Reachable(Move(s, p, s.procs[p].(at := ArmWrite, gen := s.disk.state.value)), true)
  {
    var c := s.procs[p];
    ReachNext(s, BeginArm(p), true);
    MoveStep(s, p, c.(at := ArmCheck), Go, s.disk, c.(at := ArmWrite, gen := s.disk.state.value), true);
  }

  /** p confirms and w, which it signals, dies. */
  lemma ConfirmStopsWatcher(s: System, p: Pid, w: Pid, b: Pid) returns (r: System)
    requires Reachable(s, true) && s.lock.None? && s.disk == Empty.(state := Some(0), pid := Some(w))
    requires p in s.procs && s.procs[p] == Caller(Confirm, Waiting, 0) && w in s.procs && s.procs[w].Watcher?
    requires b in s.procs && s.procs[b].Caller? && b != p
    ensures Reachable(r, true) && r.lock.None? && r.disk == Empty && r.prepared == s.prepared
    ensures r.nextPid == s.nextPid && r.nextGen == s.nextGen && b in r.procs && r.procs[b] == s.procs[b]
  {
    r := WatcherIsStopped(s, p, w, b);
    Uncovers(r, p, 0, true);
    r := Uncovered(r, p, 0);
    Clears(r, p, 0, true);
    r := Cleared(r, p, 0);
    Confirms(r, p, 0, true);
    r := Confirmed(r, p, 0);
  }

  lemma WatcherIsStopped(s: System, p: Pid, w: Pid, b: Pid) returns (r: System)
    requires Reachable(s, true) && s.lock.None? && s.disk == Empty.(state := Some(0), pid := Some(w))
    requires p in s.procs && s.procs[p] == Caller(Confirm, Waiting, 0) && w in s.procs && s.procs[w].Watcher?
    requires b in s.procs && s.procs[b].Caller? && b != p
    ensures Reachable(r, true) && r.lock == Some(p) && r.prepared == s.prepared
    ensures r.disk == Empty.(state := Some(0), confirm := Some(0), pid := Some(w))
    ensures r.nextPid == s.nextPid && r.nextGen == s.nextGen && b in r.procs && r.procs[b] == s.procs[b]
    ensures p in r.procs && r.procs[p] == Caller(Confirm, DropPid, 0)
  {
    Marks(s, p, 0, true);
    var s1 := s.(lock := Some(p), disk := s.disk.(confirm := Some(0)));
    MoveStep(s1, p, Caller(Confirm, ReadPid, 0), Go, s1.disk, Caller(Confirm, Signal(w), 0), true);
    MoveStep(s1, p, Caller(Confirm, Signal(w), 0), Go, s1.disk, Caller(Confirm, AwaitExit(w), 0), true);
    r := WatcherExits(Move(s1, p, Caller(Confirm, AwaitExit(w), 0)), p, w);
  }

  lemma WatcherExits(s: System, p: Pid, w: Pid) returns (r: System)
    requires Reachable(s, true) && p in s.procs && s.procs[p] == Caller(Confirm, AwaitExit(w), 0)
    requires w in s.procs && s.procs[w].Watcher? && s.lock == Some(p)
    ensures Reachable(r, true) && r == s.(procs := (s.procs - {w})[p := Caller(Confirm, DropPid, 0)])
  {
    ReachNext(s, Die(w), true);
    r := Next(s, Die(w));
    ReachNext(r, Step(p, Go), true);
    r := Next(r, Step(p, Go));
  }

  /** p captures the next generation and starts its watcher. */
  lemma SavesNext(s: System, p: Pid, b: Pid) returns (r: System)
    requires Reachable(s, true) && s.lock.None? && s.disk == Empty && p < s.nextPid && b < s.nextPid
    requires p in s.procs && s.procs[p] == Caller(Save, Waiting, 0) && b in s.procs && s.procs[b].Caller? && b != p
    ensures Reachable(r, true) && b in r.procs && r.procs[b] == s.procs[b]
    ensures s.nextPid in r.procs && r.procs[s.nextPid] == Watcher(s.nextGen, p, UnarmedState)
  {
    Captures(s, p, true);
    r := Capturing(s, p, Spawn);
    assert r.procs[p] == Caller(Save, Spawn, s.nextGen) && r.procs[b] == s.procs[b] && r.nextPid == s.nextPid;
    r := SpawnsAndSaves(r, p, b);
  }

  lemma SpawnsAndSaves(s: System, p: Pid, b: Pid) returns (r: System)
    requires Reachable(s, true) && p < s.nextPid && b < s.nextPid && b in s.procs && b != p
    requires p in s.procs && s.procs[p].Caller? && s.procs[p].op == Save && s.procs[p].at == Spawn
    ensures Reachable(r, true) && b in r.procs && r.procs[b] == s.procs[b]
    ensures s.nextPid in r.procs && r.procs[s.nextPid] == Watcher(s.procs[p].gen, p, UnarmedState)
  {
    Spawns(s, p, true);
    r := Spawned(s, p);
    Saves(r, p, s.nextPid, true);
    r := Saved(r, p, s.nextPid);
  }
}
