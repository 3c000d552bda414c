/**
Crash-consistent reconciliation. Three files, each replaced atomically, record what nic must undo: the
state of the machine before nic touched it, the configuration in force and the configuration being
applied. A step may succeed, fail having done part of its work, or be the one the process dies in.
*/
module Reconcile {
  import opened Wrappers

  /** What a configuration does to the machine: the links (and whatever else only teardown can undo) that it
      creates, and the settings that a restore from the baseline overwrites. */
  datatype Config = Config(links: set<string>, settings: map<string, string>)

  datatype Kernel = Kernel(links: set<string>, rest: map<string, string>)

  /** cfg applied on top of k. */
  function AppliedOn(cfg: Config, k: Kernel): Kernel {
    Kernel(k.links + cfg.links, k.rest + cfg.settings)
  }

  function Links(c: Option<Config>): set<string> {
    if c.Some? then c.value.links else {}
  }

  function OnBaseline(c: Option<Config>, base: Kernel): Kernel {
    if c.Some? then AppliedOn(c.value, base) else base
  }

  datatype Step = Success | Failure | Crash

  /** The single steps, and one that went wrong. */
  datatype Stage =
    | Capturing | Reading
    | TearingDown(cfg: Config) | Restoring
    | Applying(cfg: Config)
    | SavingPending(cfg: Config) | SavingApplied(cfg: Config)
    | RemovingPending | RemovingApplied | RemovingBaseline

  datatype Fault = Fault(stage: Stage, step: Step)

  /** How many steps have gone wrong, and which one last. */
  datatype Faults = Faults(count: nat, last: Option<Fault>)

  function Noted(faults: Faults, stage: Stage, step: Step): Faults {
    if step == Success then faults else Faults(faults.count + 1, Some(Fault(stage, step)))
  }

  /** Something has gone wrong since `before`, and the last of it is the process dying. */
  predicate Died(before: Faults, faults: Faults) {
    before.count < faults.count && faults.last.Some? && faults.last.value.step == Crash
  }

  /** Nothing has gone wrong since, or something has. */
  predicate Since(before: Faults, faults: Faults) {
    faults == before || before.count < faults.count
  }

  /** Nothing but this has gone wrong since. */
  predicate OnlyFailed(before: Faults, faults: Faults, stage: Stage) {
    faults == Noted(before, stage, Failure)
  }

  /** RolledBack is an error return after a rollback without errors; Failed is any other error return. */
  datatype Outcome = Done | RolledBack | Failed | Crashed

  /** The configuration file that `nic stop` falls back to. */
  datatype Fallback = NoPath | Unreadable | Loaded(cfg: Config)

  /** What may happen to the machine. */
  datatype Command = Start(cfg: Config) | Stop(fallback: Fallback) | Change

  class Machine {
    var baseline: Option<Kernel>
    var applied: Option<Config>
    var pending: Option<Config>
    var kernel: Kernel

    ghost var faults: Faults

    /** Whatever only teardown can undo was created by a configuration on file; a configuration is only on
        file beside a baseline; and nothing of the baseline has been lost. */
    ghost predicate Valid()
      reads this
    {
      && (baseline.None? ==> applied.None? && pending.None?)
      && (baseline.Some? ==>
            && baseline.value.links <= kernel.links <= baseline.value.links + Links(applied) + Links(pending)
            && Links(applied) !! baseline.value.links
            && Links(pending) !! baseline.value.links)
    }

    /** The links cfg creates are not there before nic touches the machine. */
    predicate Fresh(cfg: Config)
      reads this
    {
      cfg.links !! (if baseline.Some? then baseline.value.links else kernel.links)
    }

    constructor (k: Kernel)
      ensures Valid() && baseline.None? && kernel == k && faults == Faults(0, None)
    {
      baseline, applied, pending, kernel := None, None, None, k;
      faults := Faults(0, None);
    }

    // ---------------------------------------------------------------- single steps

    /** applyConfig: all of it, or some of the links and whatever settings it got to. */
    method Apply(cfg: Config) returns (step: Step)
      modifies this`kernel, this`faults
      ensures faults == Noted(old(faults), Applying(cfg), step)
      ensures old(kernel.links) <= kernel.links <= old(kernel.links) + cfg.links
      ensures step == Success ==> kernel == AppliedOn(cfg, old(kernel))
    {
      var whole: bool := *;
      var died: bool := *;
      if whole {
        kernel := AppliedOn(cfg, kernel);
        step := if died then Crash else Success;
      } else {
        var made: set<string> := *;
        var rest: map<string, string> := *;
        kernel := Kernel(kernel.links + made * cfg.links, rest);
        step := if died then Crash else Failure;
      }
      faults := Noted(faults, Applying(cfg), step);
    }

    /** teardownConfig: all of cfg's links, or some of them; the settings may be touched on the way. */
    method Teardown(cfg: Config) returns (step: Step)
      modifies this`kernel, this`faults
      ensures faults == Noted(old(faults), TearingDown(cfg), step)
      ensures old(kernel.links) - cfg.links <= kernel.links <= old(kernel.links)
      ensures step == Success ==> kernel.links == old(kernel.links) - cfg.links
    {
      var kept: set<string> := *;
      var rest: map<string, string> := *;
      step := *;
      kernel := Kernel(if step == Success then kernel.links - cfg.links else kernel.links - (cfg.links - kept), rest);
      faults := Noted(faults, TearingDown(cfg), step);
    }

    /** state.RestoreState: rewrites everything but the links from the baseline. */
    method Restore() returns (step: Step)
      requires baseline.Some?
      modifies this`kernel, this`faults
      ensures faults == Noted(old(faults), Restoring, step)
      ensures kernel.links == old(kernel.links)
      ensures step == Success ==> kernel.rest == baseline.value.rest
    {
      var rest: map<string, string> := *;
      step := *;
      kernel := kernel.(rest := if step == Success then baseline.value.rest else rest);
      faults := Noted(faults, Restoring, step);
    }

    /** config.SaveSnapshot on the pending file, which a rename makes all or nothing. */
    method SavePending(cfg: Config) returns (step: Step)
      modifies this`pending, this`faults
      ensures faults == Noted(old(faults), SavingPending(cfg), step)
      ensures pending == old(pending) || pending == Some(cfg)
      ensures step == Success ==> pending == Some(cfg)
      ensures step == Failure ==> pending == old(pending)
    {
      var died: bool := *;
      var renamed: bool := *;
      if renamed { pending := Some(cfg); }
      step := if died then Crash else if renamed then Success else Failure;
      faults := Noted(faults, SavingPending(cfg), step);
    }

    method SaveApplied(cfg: Config) returns (step: Step)
      modifies this`applied, this`faults
      ensures faults == Noted(old(faults), SavingApplied(cfg), step)
      ensures applied == old(applied) || applied == Some(cfg)
      ensures step == Success ==> applied == Some(cfg)
      ensures step == Failure ==> applied == old(applied)
    {
      var died: bool := *;
      var renamed: bool := *;
      if renamed { applied := Some(cfg); }
      step := if died then Crash else if renamed then Success else Failure;
      faults := Noted(faults, SavingApplied(cfg), step);
    }

    method RemovePending() returns (step: Step)
      modifies this`pending, this`faults
      ensures faults == Noted(old(faults), RemovingPending, step)
      ensures step == Success || step == Crash
      ensures pending == None || (step == Crash && pending == old(pending))
    {
      var early: bool := *;
      var late: bool := *;
      if !early { pending := None; }
      step := if early || late then Crash else Success;
      faults := Noted(faults, RemovingPending, step);
    }

    method RemoveApplied() returns (step: Step)
      modifies this`applied, this`faults
      ensures faults == Noted(old(faults), RemovingApplied, step)
      ensures step == Success || step == Crash
      ensures applied == None || (step == Crash && applied == old(applied))
    {
      var early: bool := *;
      var late: bool := *;
      if !early { applied := None; }
      step := if early || late then Crash else Success;
      faults := Noted(faults, RemovingApplied, step);
    }

    /** The baseline goes last of all. */
    method RemoveBaseline() returns (step: Step)
      requires applied.None? && pending.None?
      modifies this`baseline, this`faults
      ensures faults == Noted(old(faults), RemovingBaseline, step)
      ensures step == Success || step == Crash
      ensures baseline == if step == Success then None else old(baseline)
    {
      var early: bool := *;
      step := if early then Crash else Success;
      if step == Success { baseline := None; }
      faults := Noted(faults, RemovingBaseline, step);
    }

    /** Loading a snapshot, which can fail; nothing has been changed by then. */
    method Read() returns (step: Step)
      modifies this`faults
      ensures faults == Noted(old(faults), Reading, step) && step != Crash
    {
      var unreadable: bool := *;
      step := if unreadable then Failure else Success;
      faults := Noted(faults, Reading, step);
    }

    // ---------------------------------------------------------------- operations

    /** ensureBaseline, which refuses to take a machine with a configuration on file for a pristine one. */
    method EnsureBaseline() returns (step: Step, created: bool)
      modifies this`baseline, this`faults
      ensures faults == if old(baseline).None? && applied.None? && pending.None?
                        then Noted(old(faults), Capturing, step) else old(faults)
      ensures old(baseline).Some? ==> baseline == old(baseline) && step == Success && !created
      ensures old(baseline).None? && (applied.Some? || pending.Some?) ==> baseline.None? && step == Failure
      ensures baseline == old(baseline) || baseline == Some(kernel)
      ensures old(baseline).None? && step == Success ==> created && baseline == Some(kernel)
    {
      created := false;
      if baseline.Some? {
        return Success, false;
      }
      if applied.Some? || pending.Some? {
        return Failure, false;
      }
      var died: bool := *;
      var renamed: bool := *;
      if renamed { baseline := Some(kernel); }
      step := if died then Crash else if renamed then Success else Failure;
      faults := Noted(faults, Capturing, step);
      created := step == Success;
    }

    /** The first half of reconcileConfig: back to the baseline from whatever the files record. A failed teardown does
        not keep the rest from being restored. */
    method ReturnToBaseline(created: bool) returns (step: Step)
      requires Valid() && baseline.Some?
      requires created ==> applied.None? && pending.None? && kernel == baseline.value
      modifies this`kernel, this`pending, this`faults
      ensures Valid()
      ensures step == Success ==> kernel == baseline.value && pending == None
      ensures step == Success <==> faults == old(faults)
      ensures step == Crash <==> Died(old(faults), faults)
      ensures old(faults).count <= faults.count
      ensures (exists c :: OnlyFailed(old(faults), faults, TearingDown(c))) ==> kernel.rest == baseline.value.rest
      ensures OnlyFailed(old(faults), faults, Restoring) ==> kernel.links == baseline.value.links
      ensures step != Success ==>
                old(faults).count < faults.count && faults.last.Some?
                && !faults.last.value.stage.Applying? && !faults.last.value.stage.SavingApplied?
    {
      if applied.Some? || pending.Some? {
        var torn1, torn2 := Success, Success;
        if pending.Some? {
          torn1 := Teardown(pending.value);
          if torn1 == Crash { return Crash; }
        }
        if applied.Some? {
          torn2 := Teardown(applied.value);
          if torn2 == Crash { return Crash; }
        }
        var restored := Restore();
        if restored == Crash { return Crash; }
        if torn1 != Success || torn2 != Success || restored != Success { return Failure; }
        assert kernel.links == baseline.value.links;
        step := RemovePending();
      } else if !created {
        step := Restore();
      } else {
        step := Success;
      }
    }

    /** rollbackFailedApply: every step is tried, and any error, and nothing else, makes the rollback a failed one. */
    method RollBack(attempted: Config) returns (step: Step)
      requires Valid() && baseline.Some? && pending == Some(attempted)
      requires kernel.links <= baseline.value.links + attempted.links
      modifies this`kernel, this`applied, this`faults
      ensures Valid()
      ensures step == Success <==> faults == old(faults)
      ensures step != Success ==> old(faults).count < faults.count
      ensures step == Crash <==> Died(old(faults), faults)
      ensures step == Success ==> kernel == OnBaseline(old(applied), baseline.value) && applied == old(applied)
      ensures OnlyFailed(old(faults), faults, TearingDown(attempted)) ==>
                kernel.rest == OnBaseline(old(applied), baseline.value).rest && applied == old(applied)
                && Links(applied) <= kernel.links
      ensures OnlyFailed(old(faults), faults, Restoring) ==>
                kernel.links == OnBaseline(old(applied), baseline.value).links && applied == old(applied)
    {
      var torn := Teardown(attempted);
      if torn == Crash { return Crash; }
      var restored := Restore();
      if restored == Crash { return Crash; }
      if applied.Some? {
        var previous := applied.value;
        step := Apply(previous);
        if step == Success {
          step := SaveApplied(previous);
        }
      } else {
        step := RemoveApplied();
      }
      if step == Success && (torn != Success || restored != Success) {
        step := Failure;
      }
    }

    /** reconcileConfig. A successful one ends with cfg applied on the baseline, whatever came before; one that
        rolled back ends with the previous configuration on the baseline, or with the bare baseline. It succeeds
        exactly when nothing goes wrong, rolls back exactly when nothing but applying cfg or saving it fails, and
        stops short only where the process dies. */
    method ReconcileConfig(cfg: Config) returns (outcome: Outcome)
      requires Valid() && Fresh(cfg)
      modifies this
      ensures Valid()
      ensures old(baseline).Some? ==> baseline == old(baseline)
      ensures old(baseline).None? ==> baseline == None || baseline == Some(old(kernel))
      ensures Since(old(faults), faults)
      ensures outcome == Done <==> faults == old(faults)
      ensures outcome == RolledBack <==>
                OnlyFailed(old(faults), faults, Applying(cfg)) || OnlyFailed(old(faults), faults, SavingApplied(cfg))
      ensures outcome == Crashed <==> Died(old(faults), faults)
      ensures outcome == Done ==>
                baseline.Some? && kernel == AppliedOn(cfg, baseline.value) && applied == Some(cfg) && pending == None
      ensures outcome == RolledBack ==>
                baseline.Some? && kernel == OnBaseline(old(applied), baseline.value)
                && applied == old(applied) && pending == None
    {
      var step, created := EnsureBaseline();
      if step != Success { return if step == Crash then Crashed else Failed; }
      step := Read();
      if step != Success { return Failed; }

      step := ReturnToBaseline(created);
      if step != Success { return if step == Crash then Crashed else Failed; }

      // Intent goes on file before the first change.
      step := SavePending(cfg);
      if step != Success { return if step == Crash then Crashed else Failed; }
      step := Apply(cfg);
      if step == Success {
        step := SaveApplied(cfg);
      }
      if step == Crash { return Crashed; }
      if step == Failure {
        var rollback := RollBack(cfg);
        if rollback == Crash { return Crashed; }
        if rollback == Failure { return Failed; }
        step := RemovePending();
        return if step == Crash then Crashed else RolledBack;
      }
      step := RemovePending();
      return if step == Crash then Crashed else Done;
    }

    /** The middle of stopManagedConfig: what is being applied and cfg are torn down, and the baseline, if there is one,
        is restored, whatever fails before. */
    method UndoAll(cfg: Option<Config>) returns (step: Step)
      requires Valid() && (applied.Some? ==> cfg == applied)
      requires cfg.Some? && baseline.Some? ==> cfg.value.links !! baseline.value.links
      modifies this`kernel, this`faults
      ensures Valid() && Since(old(faults), faults)
      ensures step == Success <==> faults == old(faults)
      ensures step == Crash <==> Died(old(faults), faults)
      ensures baseline.Some? && (exists c :: OnlyFailed(old(faults), faults, TearingDown(c)))
              ==> kernel.rest == baseline.value.rest
      ensures baseline.Some? && OnlyFailed(old(faults), faults, Restoring) ==> kernel.links == baseline.value.links
      ensures step == Success && baseline.Some? ==> kernel == baseline.value
      ensures step == Success && baseline.None? ==> kernel.links == old(kernel).links - Links(cfg)
    {
      var torn1, torn2, restored := Success, Success, Success;
      if pending.Some? {
        torn1 := Teardown(pending.value);
        if torn1 == Crash { return Crash; }
      }
      if cfg.Some? {
        torn2 := Teardown(cfg.value);
        if torn2 == Crash { return Crash; }
      }
      if baseline.Some? {
        restored := Restore();
        if restored == Crash { return Crash; }
      }
      return if torn1 != Success || torn2 != Success || restored != Success then Failure else Success;
    }

    /** stopManagedConfig: tears down what is on file, or the fallback configuration when nothing is, and gives
        the machine back as it was. It succeeds exactly when nothing goes wrong and the fallback, if called for, can be
        read. */
    method StopManagedConfig(fallback: Fallback) returns (outcome: Outcome)
      requires Valid()
      requires fallback.Loaded? && baseline.Some? ==> fallback.cfg.links !! baseline.value.links
      modifies this
      ensures Valid()
      ensures Since(old(faults), faults)
      ensures outcome == Done <==> faults == old(faults) && !(old(applied).None? && fallback.Unreadable?)
      ensures outcome != RolledBack && (outcome == Crashed <==> Died(old(faults), faults))
      ensures outcome != Done ==> baseline == old(baseline)
      ensures baseline.Some? && (exists c :: OnlyFailed(old(faults), faults, TearingDown(c)))
              ==> kernel.rest == baseline.value.rest
      ensures baseline.Some? && OnlyFailed(old(faults), faults, Restoring) ==> kernel.links == baseline.value.links
      ensures outcome == Done ==> baseline == None && applied == None && pending == None
      ensures outcome == Done && old(baseline).Some? ==> kernel == old(baseline).value
      ensures outcome == Done && old(baseline).None? ==>
                kernel.links == old(kernel).links - (if fallback.Loaded? then fallback.cfg.links else {})
    {
      var step := Read();
      if step != Success { return Failed; }
      var cfg := applied;
      if cfg.None? {
        match fallback
        case NoPath =>
        case Unreadable => return Failed;
        case Loaded(c) => cfg := Some(c);
      }
      step := UndoAll(cfg);
      if step != Success { return if step == Crash then Crashed else Failed; }
      step := RemoveApplied();
      if step == Crash { return Crashed; }
      step := RemovePending();
      if step == Crash { return Crashed; }
      step := RemoveBaseline();
      return if step == Crash then Crashed else Done;
    }

    /** Anything else that touches the machine: settings at any time, links while nic is not in charge. */
    method Drift()
      requires Valid()
      modifies this`kernel
      ensures Valid()
    {
      var links: set<string> := *;
      var rest: map<string, string> := *;
      kernel := Kernel(if baseline.Some? then kernel.links else links, rest);
    }

    /** A start of a configuration whose links do not exist before nic, and a stop with such a fallback; anything may
        change at any time. */
    predicate Allowed(c: Command)
      reads this
    {
      match c
      case Start(cfg) => Fresh(cfg)
      case Stop(fallback) => fallback.Loaded? && baseline.Some? ==> Fresh(fallback.cfg)
      case Change => true
    }

    /** Any number of commands, up to one that is not allowed, each of which may fail or crash at any of its steps.
        `origin` is the machine as it was when nic last took charge. A start that succeeded or rolled back leaves
        exactly the configuration on file applied on it, and nothing else; a successful stop of a machine in nic's
        charge gives it back. And when nothing goes wrong every start succeeds, whatever came before, and so does every
        stop. */
    method History(plan: seq<Command>)
      returns (n: nat, last: Outcome, ghost origin: Kernel, ghost inCharge: bool)
      requires Valid() && baseline.None?
      modifies this
      ensures Valid() && n <= |plan| && (n < |plan| ==> !Allowed(plan[n]))
      ensures baseline.Some? ==> baseline.value == origin
      ensures n > 0 && plan[n - 1].Start? && (last == Done || last == RolledBack) ==>
                baseline.Some? && pending.None? && kernel == OnBaseline(applied, origin)
      ensures n > 0 && plan[n - 1].Start? && last == Done ==> applied == Some(plan[n - 1].cfg)
      ensures n > 0 && plan[n - 1].Stop? && last == Done ==>
                baseline.None? && applied.None? && pending.None? && (inCharge ==> kernel == origin)
      ensures n > 0 && faults == old(faults) && !plan[n - 1].Change? ==>
                last == Done || (plan[n - 1].Stop? && plan[n - 1].fallback.Unreadable?)
    {
      n, last, origin, inCharge := 0, Failed, kernel, false;
      while n < |plan| && Allowed(plan[n])
        invariant Valid() && n <= |plan| && Since(old(faults), faults)
        invariant baseline.Some? ==> baseline.value == origin
        invariant n > 0 && plan[n - 1].Start? && (last == Done || last == RolledBack) ==>
                    baseline.Some? && pending.None? && kernel == OnBaseline(applied, origin)
        invariant n > 0 && plan[n - 1].Start? && last == Done ==> applied == Some(plan[n - 1].cfg)
        invariant n > 0 && plan[n - 1].Stop? && last == Done ==>
                    baseline.None? && applied.None? && pending.None? && (inCharge ==> kernel == origin)
        invariant n > 0 && faults == old(faults) && !plan[n - 1].Change? ==>
                    last == Done || (plan[n - 1].Stop? && plan[n - 1].fallback.Unreadable?)
        decreases |plan| - n
      {
        if baseline.None? { origin := kernel; }
        inCharge := baseline.Some?;
        match plan[n] {
          case Start(cfg) => last := ReconcileConfig(cfg);
          case Stop(fallback) => last := StopManagedConfig(fallback);
          case Change => Drift();
        }
        n := n + 1;
      }
    }
  }
}
