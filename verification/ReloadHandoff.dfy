/**
Handing a reload from a client to the daemon. A client saves the configuration the user reviewed, writes a
request that names it, signals the daemon and polls for a response; the daemon reads the request, removes it,
loads the configuration and answers. The two sides share a request file, a response file and the saved
configurations, one file operation per step, and either may die at any of them. The daemon may look at the
request file at any time, which covers raw, early, late and coalesced hang-up signals. Request identifiers
are unique, and at most one daemon lives at a time.
*/
module ReloadHandoff {
  import opened Wrappers

  type Id = nat
  type DaemonId = nat

  datatype Config = Config(commands: seq<seq<string>>)

  datatype Request = Request(id: Id, snapshot: Id, daemon: DaemonId)
  datatype Response = Response(id: Id, ok: bool)

  datatype ClientPc =
    | Begin
    | FindDaemon
    | SaveSnapshot(target: DaemonId)
    | ClearResponse(target: DaemonId)
    | WriteRequest(target: DaemonId)
    | SignalDaemon
    | Poll
    | TakeResponse(ok: bool)
    | TimedOut
    | DropRequest
    | DropSnapshot
    | Release(ok: bool)

  datatype Client = Client(cfg: Config, pc: ClientPc)

  datatype DaemonPc =
    | Discarding
    | Booting
    | Waiting
    | Found(request: Request, booting: bool)
    | Dispatch(request: Request)
    | Loaded(request: Request, loaded: Option<Config>)
    | Change(request: Request, cfg: Config)
    | Reject(request: Request, booting: bool)
    | Answer(response: Response, booting: bool)

  datatype Daemon = Daemon(id: DaemonId, pc: DaemonPc)

  datatype Holder = ByClient(id: Id) | ByDaemon

  /** One call of changeConfigurationLoaded. */
  datatype Applied = Applied(id: Id, cfg: Config, ok: bool)

  /** Besides the files: `reviewed` is what each client was started with, `issued` the requests ever written,
      `history` the changes made, `succeeded` the clients that returned success and `begun` the requests for which a
      change was begun, finished or not. */
  datatype System = System(
    lock: Option<Holder>,
    clients: map<Id, Client>,
    nextId: Id,
    daemon: Option<Daemon>,
    nextDaemon: DaemonId,
    snapshots: map<Id, Config>,
    request: Option<Request>,
    response: Option<Response>,
    reviewed: map<Id, Config>,
    issued: set<Id>,
    history: seq<Applied>,
    succeeded: set<Id>,
    begun: seq<Id>)

  datatype Label =
    | Launch(cfg: Config)
    | ClientStep(c: Id, fail: bool)
    | StartDaemon
    | DaemonStep(fail: bool)
    | ClientDies(c: Id)
    | DaemonDies

  const Initial: System := System(None, map[], 0, None, 0, map[], None, None, map[], {}, [], {}, [])

  // ---------------------------------------------------------------- the client

  function To(s: System, c: Id, x: Client, pc: ClientPc): System {
    s.(clients := s.clients[c := x.(pc := pc)])
  }

  function ClientNext(s: System, c: Id, x: Client, fail: bool): System {
    match x.pc
    case Begin =>
      if fail || s.lock.Some? then s.(clients := s.clients - {c})
      else To(s.(lock := Some(ByClient(c))), c, x, FindDaemon)
    case FindDaemon =>
      if fail || s.daemon.None? then To(s, c, x, Release(false)) else To(s, c, x, SaveSnapshot(s.daemon.value.id))
    case SaveSnapshot(d) =>
      if fail then To(s, c, x, Release(false)) else To(s.(snapshots := s.snapshots[c := x.cfg]), c, x, ClearResponse(d))
    case ClearResponse(d) => To(s.(response := None), c, x, WriteRequest(d))
    case WriteRequest(d) =>
      if fail then To(s, c, x, DropSnapshot)
      else To(s.(request := Some(Request(c, c, d)), issued := s.issued + {c}), c, x, SignalDaemon)
    case SignalDaemon => To(s, c, x, if fail then DropRequest else Poll)
    // WaitResponse: an answer to another request is left alone; fail is the deadline.
    case Poll =>
      if fail then To(s, c, x, TimedOut)
      else if s.response.Some? && s.response.value.id == c then To(s, c, x, TakeResponse(s.response.value.ok))
      else s
    case TakeResponse(ok) => To(s.(response := None), c, x, Release(ok))
    // A timed-out client withdraws the request if it still reads it as its own, and leaves the snapshot.
    case TimedOut =>
      To(if s.request.Some? && s.request.value.id == c then s.(request := None) else s, c, x, Release(false))
    case DropRequest => To(s.(request := None), c, x, DropSnapshot)
    case DropSnapshot => To(s.(snapshots := s.snapshots - {c}), c, x, Release(false))
    case Release(ok) =>
      s.(clients := s.clients - {c}, lock := None, succeeded := if ok then s.succeeded + {c} else s.succeeded)
  }

  // ---------------------------------------------------------------- the daemon

  function At(s: System, d: Daemon, pc: DaemonPc): System {
    s.(daemon := Some(d.(pc := pc)))
  }

  function DaemonNext(s: System, d: Daemon, fail: bool): System {
    match d.pc
    // discardStaleReloadArtifacts: the lock keeps clients out and no other daemon is left, so nobody else
    // touches these files meanwhile.
    case Discarding =>
      var keep := s.request.Some? && s.request.value.daemon == d.id;
      At(s.(request := if keep then s.request else None,
            snapshots := if keep && s.request.value.snapshot in s.snapshots
                         then map[s.request.value.snapshot := s.snapshots[s.request.value.snapshot]] else map[],
            response := None,
            lock := None), d, Booting)
    case Booting =>
      if fail then At(s, d, Waiting) // startup is over
      else if s.request.Some? then At(s, d, Found(s.request.value, true)) else s
    case Waiting => if s.request.Some? then At(s, d, Found(s.request.value, false)) else s
    case Found(r, booting) =>
      At(s.(request := None), d, if booting then Reject(r, true) else Dispatch(r))
    case Dispatch(r) =>
      if r.daemon != d.id then At(s, d, Reject(r, false))
      else At(s, d, Loaded(r, if r.snapshot in s.snapshots && !fail then Some(s.snapshots[r.snapshot]) else None))
    case Loaded(r, cfg) =>
      var dropped := s.(snapshots := s.snapshots - {r.snapshot});
      if cfg.None? then At(dropped, d, Answer(Response(r.id, false), false))
      else At(dropped.(begun := s.begun + [r.id]), d, Change(r, cfg.value))
    case Change(r, cfg) =>
      At(s.(history := s.history + [Applied(r.id, cfg, !fail)]), d, Answer(Response(r.id, !fail), false))
    case Reject(r, booting) =>
      At(s.(snapshots := s.snapshots - {r.snapshot}), d, Answer(Response(r.id, false), booting))
    case Answer(a, booting) =>
      At(if fail then s else s.(response := Some(a)), d, if booting then Booting else Waiting)
  }

  function Next(s: System, l: Label): System {
    match l
    case Launch(cfg) =>
      s.(clients := s.clients[s.nextId := Client(cfg, Begin)],
         reviewed := s.reviewed[s.nextId := cfg], nextId := s.nextId + 1)
    case ClientStep(c, fail) => if c in s.clients then ClientNext(s, c, s.clients[c], fail) else s
    case StartDaemon =>
      if s.daemon.None? && s.lock.None?
      then s.(daemon := Some(Daemon(s.nextDaemon, Discarding)), nextDaemon := s.nextDaemon + 1, lock := Some(ByDaemon))
      else s
    case DaemonStep(fail) => if s.daemon.Some? then DaemonNext(s, s.daemon.value, fail) else s
    case ClientDies(c) =>
      if c in s.clients
      then s.(clients := s.clients - {c}, lock := if s.lock == Some(ByClient(c)) then None else s.lock)
      else s
    case DaemonDies => s.(daemon := None, lock := if s.lock == Some(ByDaemon) then None else s.lock)
  }

  function Run(labels: seq<Label>): System {
    if labels == [] then Initial else Next(Run(labels[..|labels| - 1]), labels[|labels| - 1])
  }

  // ---------------------------------------------------------------- invariant

  predicate Unsent(pc: ClientPc) {
    pc.Begin? || pc.FindDaemon? || pc.SaveSnapshot? || pc.ClearResponse? || pc.WriteRequest?
  }

  ghost predicate ClientInv(s: System, c: Id, x: Client) {
    && c < s.nextId
    && c in s.reviewed && s.reviewed[c] == x.cfg
    && (Unsent(x.pc) ==> c !in s.issued)
    && (!x.pc.Begin? <==> s.lock == Some(ByClient(c)))
    && (x.pc == TakeResponse(true) || x.pc == Release(true) ==> Applied(c, x.cfg, true) in s.history)
  }

  ghost predicate ClientsInv(s: System) {
    && (forall c | c in s.clients :: ClientInv(s, c, s.clients[c]))
    && (s.lock.Some? && s.lock.value.ByClient? ==> s.lock.value.id in s.clients)
    && (s.lock == Some(ByDaemon) ==> s.daemon.Some?)
  }

  ghost predicate IdInv(reviewed: map<Id, Config>, issued: set<Id>, nextId: Id) {
    (forall id | id in reviewed :: id < nextId) && issued <= reviewed.Keys
  }

  ghost predicate SnapshotInv(snapshots: map<Id, Config>, reviewed: map<Id, Config>) {
    forall id | id in snapshots :: id in reviewed && snapshots[id] == reviewed[id]
  }

  ghost predicate HistoryInv(history: seq<Applied>, begun: seq<Id>, reviewed: map<Id, Config>) {
    && (forall a | a in history :: a.id in begun && a.id in reviewed && a.cfg == reviewed[a.id])
    && (forall i, j | 0 <= i < j < |history| :: history[i].id != history[j].id)
  }

  ghost predicate BegunInv(begun: seq<Id>, issued: set<Id>) {
    && (forall id | id in begun :: id in issued)
    && (forall i, j | 0 <= i < j < |begun| :: begun[i] != begun[j])
  }

  ghost predicate SucceededInv(succeeded: set<Id>, reviewed: map<Id, Config>, history: seq<Applied>) {
    forall id | id in succeeded :: id in reviewed && Applied(id, reviewed[id], true) in history
  }

  /** A request nobody has acted on yet. */
  ghost predicate Fresh(r: Request, issued: set<Id>, begun: seq<Id>) {
    r.id in issued && r.snapshot == r.id && r.id !in begun
  }

  ghost predicate Answered(a: Response, reviewed: map<Id, Config>, history: seq<Applied>) {
    a.id in reviewed && (a.ok ==> Applied(a.id, reviewed[a.id], true) in history)
  }

  /** The request the daemon has taken is not on file any more. */
  predicate Taken(r: Request, request: Option<Request>) {
    request.Some? ==> request.value.id != r.id
  }

  ghost predicate DaemonInv(d: DaemonPc, lock: Option<Holder>, request: Option<Request>, issued: set<Id>,
                            reviewed: map<Id, Config>, history: seq<Applied>, begun: seq<Id>)
  {
    match d
    case Discarding => lock == Some(ByDaemon)
    case Booting => true
    case Waiting => true
    case Found(r, _) => Fresh(r, issued, begun)
    case Dispatch(r) => Fresh(r, issued, begun) && Taken(r, request)
    case Loaded(r, cfg) =>
      && Fresh(r, issued, begun) && Taken(r, request)
      && (cfg.Some? ==> r.id in reviewed && reviewed[r.id] == cfg.value)
    case Change(r, cfg) =>
      && r.id in begun && (forall a | a in history :: a.id != r.id)
      && r.id in reviewed && reviewed[r.id] == cfg
    case Reject(r, _) => r.id in issued
    case Answer(a, _) => Answered(a, reviewed, history)
  }

  ghost predicate FileInv(s: System) {
    && IdInv(s.reviewed, s.issued, s.nextId)
    && SnapshotInv(s.snapshots, s.reviewed)
    && BegunInv(s.begun, s.issued)
    && HistoryInv(s.history, s.begun, s.reviewed)
    && SucceededInv(s.succeeded, s.reviewed, s.history)
    && (s.request.Some? ==> Fresh(s.request.value, s.issued, s.begun))
    && (s.response.Some? ==> Answered(s.response.value, s.reviewed, s.history))
    && (s.daemon.Some? ==>
          DaemonInv(s.daemon.value.pc, s.lock, s.request, s.issued, s.reviewed, s.history, s.begun))
  }

  ghost predicate Inv(s: System) {
    ClientsInv(s) && FileInv(s)
  }

  lemma ClientsAfterClient(s: System, c: Id, fail: bool)
    requires ClientsInv(s) && c in s.clients && (s.response.Some? ==> Answered(s.response.value, s.reviewed, s.history))
    ensures ClientsInv(ClientNext(s, c, s.clients[c], fail))
  {
    var s' := ClientNext(s, c, s.clients[c], fail);
    OneAtATime(s, c, fail);
    forall q | q in s'.clients ensures ClientInv(s', q, s'.clients[q]) {
      assert q in s.clients && ClientInv(s, q, s.clients[q]) && ClientInv(s, c, s.clients[c]);
      if q == c { SelfAfterClient(s, c, fail); } else { OtherAfterClient(s, c, fail, q); }
    }
  }

  lemma OneAtATime(s: System, c: Id, fail: bool)
    requires ClientsInv(s) && c in s.clients
    ensures var s' := ClientNext(s, c, s.clients[c], fail);
            && (s'.lock.Some? && s'.lock.value.ByClient? ==> s'.lock.value.id in s'.clients)
            && (s'.lock == Some(ByDaemon) ==> s'.daemon.Some?)
  {
    assert ClientInv(s, c, s.clients[c]);
  }

  lemma SelfAfterClient(s: System, c: Id, fail: bool)
    requires c in s.clients && c in ClientNext(s, c, s.clients[c], fail).clients
    requires ClientInv(s, c, s.clients[c]) && (s.response.Some? ==> Answered(s.response.value, s.reviewed, s.history))
    ensures var s' := ClientNext(s, c, s.clients[c], fail); ClientInv(s', c, s'.clients[c])
  {
    if Unsent(s.clients[c].pc) {
      SelfBeforeSending(s, c, fail);
    } else {
      SelfAfterwards(s, c, fail);
    }
  }

  lemma SelfBeforeSending(s: System, c: Id, fail: bool)
    requires c in s.clients && c in ClientNext(s, c, s.clients[c], fail).clients && Unsent(s.clients[c].pc)
    requires ClientInv(s, c, s.clients[c])
    ensures var s' := ClientNext(s, c, s.clients[c], fail); ClientInv(s', c, s'.clients[c])
  {
  }

  lemma SelfAfterwards(s: System, c: Id, fail: bool)
    requires c in s.clients && c in ClientNext(s, c, s.clients[c], fail).clients && !Unsent(s.clients[c].pc)
    requires ClientInv(s, c, s.clients[c]) && (s.response.Some? ==> Answered(s.response.value, s.reviewed, s.history))
    ensures var s' := ClientNext(s, c, s.clients[c], fail); ClientInv(s', c, s'.clients[c])
  {
  }

  lemma OtherAfterClient(s: System, c: Id, fail: bool, q: Id)
    requires c in s.clients && q in s.clients && q != c
    requires ClientInv(s, c, s.clients[c]) && ClientInv(s, q, s.clients[q])
    ensures var s' := ClientNext(s, c, s.clients[c], fail);
            q in s'.clients && s'.clients[q] == s.clients[q] && ClientInv(s', q, s'.clients[q])
  {
  }

  lemma FilesAfterClient(s: System, c: Id, fail: bool)
    requires Inv(s) && c in s.clients && !s.clients[c].pc.WriteRequest?
    ensures FileInv(ClientNext(s, c, s.clients[c], fail))
  {
    assert ClientInv(s, c, s.clients[c]);
    var pc := s.clients[c].pc;
    if pc.Begin? || pc.FindDaemon? || pc.SaveSnapshot? || pc.ClearResponse? {
      FilesBeforeSending(s, c, fail);
    } else {
      FilesAfterwards(s, c, fail);
    }
  }

  lemma FilesBeforeSending(s: System, c: Id, fail: bool)
    requires Inv(s) && c in s.clients && ClientInv(s, c, s.clients[c])
    requires var pc := s.clients[c].pc; pc.Begin? || pc.FindDaemon? || pc.SaveSnapshot? || pc.ClearResponse?
    ensures FileInv(ClientNext(s, c, s.clients[c], fail))
  {
  }

  lemma FilesAfterwards(s: System, c: Id, fail: bool)
    requires Inv(s) && c in s.clients && ClientInv(s, c, s.clients[c])
    requires !Unsent(s.clients[c].pc)
    ensures FileInv(ClientNext(s, c, s.clients[c], fail))
  {
    ClientLeaves(s, c, s.clients[c], fail);
    ClientLeavesSnapshots(s, c, s.clients[c], fail);
    ClientLeavesLog(s, c, s.clients[c], fail);
    ClientLeavesLock(s, c, s.clients[c], fail);
    ClientLeavesSuccesses(s, c, s.clients[c], fail);
  }

  /** After its request is out, a client only ever removes files. */
  lemma ClientLeaves(s: System, c: Id, x: Client, fail: bool)
    requires !Unsent(x.pc)
    ensures var s' := ClientNext(s, c, x, fail);
            && (s'.request == s.request || s'.request.None?)
            && (s'.response == s.response || s'.response.None?)
  {
  }

  lemma ClientLeavesSnapshots(s: System, c: Id, x: Client, fail: bool)
    requires !Unsent(x.pc)
    ensures var s' := ClientNext(s, c, x, fail);
            s'.snapshots == s.snapshots || s'.snapshots == s.snapshots - {c}
  {
  }

  lemma ClientLeavesLog(s: System, c: Id, x: Client, fail: bool)
    requires !Unsent(x.pc)
    ensures var s' := ClientNext(s, c, x, fail);
            && s'.history == s.history && s'.issued == s.issued && s'.reviewed == s.reviewed && s'.daemon == s.daemon
            && s'.nextId == s.nextId && s'.begun == s.begun
  {
  }

  lemma ClientLeavesLock(s: System, c: Id, x: Client, fail: bool)
    requires !Unsent(x.pc)
    ensures var s' := ClientNext(s, c, x, fail); s'.lock == s.lock || s'.lock.None?
  {
  }

  lemma ClientLeavesSuccesses(s: System, c: Id, x: Client, fail: bool)
    requires !Unsent(x.pc)
    ensures var s' := ClientNext(s, c, x, fail);
            s'.succeeded == s.succeeded || (x.pc == Release(true) && s'.succeeded == s.succeeded + {c})
  {
  }

  lemma FilesAfterSending(s: System, c: Id, fail: bool)
    requires Inv(s) && c in s.clients && s.clients[c].pc.WriteRequest?
    ensures FileInv(ClientNext(s, c, s.clients[c], fail))
  {
    assert ClientInv(s, c, s.clients[c]);
  }

  lemma InvDaemonStep(s: System, fail: bool)
    requires Inv(s) && s.daemon.Some? && !s.daemon.value.pc.Change?
    ensures Inv(DaemonNext(s, s.daemon.value, fail))
  {
    ClientsAfterDaemon(s, fail);
    var pc := s.daemon.value.pc;
    if pc.Discarding? || pc.Booting? || pc.Waiting? {
      FilesBeforeFound(s, fail);
    } else if pc.Found? || pc.Dispatch? {
      FilesWhileTaking(s, fail);
    } else if pc.Loaded? {
      FilesAtBeginning(s, fail);
    } else {
      FilesWhileAnswering(s, fail);
    }
  }

  predicate Early(pc: DaemonPc) {
    pc.Discarding? || pc.Booting? || pc.Waiting? || pc.Found?
  }

  /** Short of a change, a daemon step leaves alone what the clients rely on. */
  lemma DaemonLeaves(s: System, d: Daemon, fail: bool)
    requires !d.pc.Change? && s.daemon == Some(d) && (d.pc.Discarding? ==> s.lock == Some(ByDaemon))
    ensures var s' := DaemonNext(s, d, fail);
            && s'.clients == s.clients && s'.nextId == s.nextId && s'.history == s.history && s'.issued == s.issued
            && s'.reviewed == s.reviewed
            && s'.daemon.Some? && (s'.lock == s.lock || (s.lock == Some(ByDaemon) && s'.lock.None?))
  {
    if Early(d.pc) {
      EarlyDaemonLeaves(s, d, fail);
    } else {
      LateDaemonLeaves(s, d, fail);
    }
  }

  lemma EarlyDaemonLeaves(s: System, d: Daemon, fail: bool)
    requires Early(d.pc) && s.daemon == Some(d) && (d.pc.Discarding? ==> s.lock == Some(ByDaemon))
    ensures var s' := DaemonNext(s, d, fail);
            && s'.clients == s.clients && s'.nextId == s.nextId && s'.history == s.history && s'.issued == s.issued
            && s'.reviewed == s.reviewed
            && s'.daemon.Some? && (s'.lock == s.lock || (s.lock == Some(ByDaemon) && s'.lock.None?))
  {
  }

  lemma LateDaemonLeaves(s: System, d: Daemon, fail: bool)
    requires !Early(d.pc) && !d.pc.Change?
    ensures var s' := DaemonNext(s, d, fail);
            && s'.clients == s.clients && s'.nextId == s.nextId && s'.history == s.history && s'.issued == s.issued
            && s'.reviewed == s.reviewed && s'.daemon.Some? && s'.lock == s.lock
  {
  }

  lemma ClientsAfterDaemon(s: System, fail: bool)
    requires ClientsInv(s) && s.daemon.Some? && !s.daemon.value.pc.Change?
    requires s.daemon.value.pc.Discarding? ==> s.lock == Some(ByDaemon)
    ensures ClientsInv(DaemonNext(s, s.daemon.value, fail))
  {
    DaemonLeaves(s, s.daemon.value, fail);
    var s' := DaemonNext(s, s.daemon.value, fail);
    forall q | q in s'.clients ensures ClientInv(s', q, s'.clients[q]) {
      assert ClientInv(s, q, s.clients[q]);
    }
  }

  lemma FilesBeforeFound(s: System, fail: bool)
    requires Inv(s) && s.daemon.Some?
    requires var pc := s.daemon.value.pc; pc.Discarding? || pc.Booting? || pc.Waiting?
    ensures FileInv(DaemonNext(s, s.daemon.value, fail))
  {
  }

  lemma FilesWhileTaking(s: System, fail: bool)
    requires Inv(s) && s.daemon.Some? && (s.daemon.value.pc.Found? || s.daemon.value.pc.Dispatch?)
    ensures FileInv(DaemonNext(s, s.daemon.value, fail))
  {
  }

  lemma FilesAtBeginning(s: System, fail: bool)
    requires Inv(s) && s.daemon.Some? && s.daemon.value.pc.Loaded?
    ensures FileInv(DaemonNext(s, s.daemon.value, fail))
  {
    var r := s.daemon.value.pc.request;
    if s.daemon.value.pc.loaded.Some? {
      OneMoreBegun(s.begun, s.issued, s.history, s.reviewed, r);
    }
  }

  /** The request that is begun was never begun before; nothing that was recorded changes by it. */
  lemma OneMoreBegun(begun: seq<Id>, issued: set<Id>, history: seq<Applied>, reviewed: map<Id, Config>, r: Request)
    requires BegunInv(begun, issued) && HistoryInv(history, begun, reviewed) && Fresh(r, issued, begun)
    ensures BegunInv(begun + [r.id], issued) && HistoryInv(history, begun + [r.id], reviewed)
    ensures r.id in begun + [r.id] && forall a | a in history :: a.id != r.id
    ensures forall q: Request :: Fresh(q, issued, begun) && q.id != r.id ==> Fresh(q, issued, begun + [r.id])
  {
    var longer := begun + [r.id];
    assert longer[|begun|] == r.id;
    assert forall id :: id in longer <==> id in begun || id == r.id;
  }

  lemma FilesWhileAnswering(s: System, fail: bool)
    requires Inv(s) && s.daemon.Some? && (s.daemon.value.pc.Reject? || s.daemon.value.pc.Answer?)
    ensures FileInv(DaemonNext(s, s.daemon.value, fail))
  {
  }

  lemma InvChange(s: System, fail: bool)
    requires Inv(s) && s.daemon.Some? && s.daemon.value.pc.Change?
    ensures Inv(DaemonNext(s, s.daemon.value, fail))
  {
    var d := s.daemon.value;
    var s' := DaemonNext(s, d, fail);
    assert s'.history[|s.history|] == Applied(d.pc.request.id, d.pc.cfg, !fail);
    forall q | q in s'.clients ensures ClientInv(s', q, s'.clients[q]) {
      assert ClientInv(s, q, s.clients[q]);
    }
    forall i | 0 <= i < |s.history| ensures s.history[i].id != d.pc.request.id {
      assert s.history[i] in s.history;
    }
  }

  lemma InvStep(s: System, l: Label)
    requires Inv(s)
    ensures Inv(Next(s, l))
  {
    match l
    case ClientStep(c, fail) =>
      if c in s.clients {
        ClientsAfterClient(s, c, fail);
        if s.clients[c].pc.WriteRequest? { FilesAfterSending(s, c, fail); } else { FilesAfterClient(s, c, fail); }
      }
    case DaemonStep(fail) =>
      if s.daemon.Some? {
        if s.daemon.value.pc.Change? { InvChange(s, fail); } else { InvDaemonStep(s, fail); }
      }
    case _ => InvOther(s, l);
  }

  lemma InvOther(s: System, l: Label)
    requires Inv(s) && !l.ClientStep? && !l.DaemonStep?
    ensures Inv(Next(s, l))
  {
    match l
    case Launch(cfg) => InvLaunch(s, cfg);
    case ClientDies(c) => InvClientDies(s, c);
    case _ => InvDaemonComesOrGoes(s, l);
  }

  lemma InvLaunch(s: System, cfg: Config)
    requires Inv(s)
    ensures Inv(Next(s, Launch(cfg)))
  {
    var s' := Next(s, Launch(cfg));
    forall q | q in s'.clients ensures ClientInv(s', q, s'.clients[q]) {
      assert q in s.clients ==> ClientInv(s, q, s.clients[q]);
    }
  }

  lemma InvClientDies(s: System, c: Id)
    requires Inv(s)
    ensures Inv(Next(s, ClientDies(c)))
  {
    var s' := Next(s, ClientDies(c));
    forall q | q in s'.clients ensures ClientInv(s', q, s'.clients[q]) {
      assert ClientInv(s, q, s.clients[q]);
    }
  }

  lemma InvDaemonComesOrGoes(s: System, l: Label)
    requires Inv(s) && (l.StartDaemon? || l.DaemonDies?)
    ensures Inv(Next(s, l))
  {
    var s' := Next(s, l);
    forall q | q in s'.clients ensures ClientInv(s', q, s'.clients[q]) {
      assert ClientInv(s, q, s.clients[q]);
    }
  }

  lemma {:induction false} InvRun(labels: seq<Label>)
    ensures Inv(Run(labels))
  {
    if labels != [] {
      InvRun(labels[..|labels| - 1]);
      InvStep(Run(labels[..|labels| - 1]), labels[|labels| - 1]);
    }
  }
}
