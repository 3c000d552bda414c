/**
What the reload hand-off promises over whole runs, and what it does get done: success means that the configuration was
applied, no request is acted on twice, and none after it was withdrawn in time; an undisturbed exchange reaches its end,
and one that fails is reported or taken back.
*/
module ReloadProgress {
  import opened Wrappers
  import opened ReloadHandoff

  // ---------------------------------------------------------------- main results

  /** A client that returned success had exactly the configuration the user reviewed applied, without error. */
  lemma SuccessMeansApplied(labels: seq<Label>, id: Id)
    requires id in Run(labels).succeeded
    ensures var s := Run(labels); id in s.reviewed && Applied(id, s.reviewed[id], true) in s.history
  {
    InvRun(labels);
  }

  /** Every change the daemon makes is one that a client asked for, with the configuration reviewed there, and no
      request leads to a second change. */
  lemma AppliedAtMostOnce(labels: seq<Label>, i: nat, j: nat)
    requires i < |Run(labels).history| && j < |Run(labels).history|
    ensures var h := Run(labels).history;
            && h[i].id in Run(labels).reviewed && h[i].cfg == Run(labels).reviewed[h[i].id]
            && (h[i].id == h[j].id ==> i == j)
  {
    InvRun(labels);
    var s := Run(labels);
    assert HistoryInv(s.history, s.begun, s.reviewed);
    assert s.history[i] in s.history;
  }

  /** Nor does any request lead to a second beginning, even of a change that the daemon did not live to finish: a
      change is begun at most once, with the configuration reviewed, and nothing is in the history that was not. */
  lemma BegunAtMostOnce(labels: seq<Label>, i: nat, j: nat)
    requires i < |Run(labels).begun| && j < |Run(labels).begun|
    ensures Run(labels).begun[i] == Run(labels).begun[j] ==> i == j
    ensures Run(labels).begun[i] in Run(labels).reviewed
    ensures forall a | a in Run(labels).history :: a.id in Run(labels).begun
    ensures var d := Run(labels).daemon;
            d.Some? && d.value.pc.Change? ==>
              && d.value.pc.request.id in Run(labels).begun && d.value.pc.request.id in Run(labels).reviewed
              && d.value.pc.cfg == Run(labels).reviewed[d.value.pc.request.id]
  {
    InvRun(labels);
    var s := Run(labels);
    assert BegunInv(s.begun, s.issued) && IdInv(s.reviewed, s.issued, s.nextId);
    assert s.begun[i] in s.begun;
  }

  // ---------------------------------------------------------------- what an undisturbed exchange does

  function ClientAlone(s: System, c: Id, n: nat): System {
    if n == 0 then s else Next(ClientAlone(s, c, n - 1), ClientStep(c, false))
  }

  function DaemonAlone(s: System, n: nat): System {
    if n == 0 then s else Next(DaemonAlone(s, n - 1), DaemonStep(false))
  }

  /** Six steps take a new client to polling with its request and its configuration on file. */
  lemma ClientSends(s: System, c: Id, cfg: Config)
    requires s.lock.None? && c in s.clients && s.clients[c] == Client(cfg, Begin) && s.daemon.Some?
    ensures ClientAlone(s, c, 6) ==
            To(s.(lock := Some(ByClient(c)), snapshots := s.snapshots[c := cfg], response := None,
                  request := Some(Request(c, c, s.daemon.value.id)), issued := s.issued + {c}), c, s.clients[c], Poll)
  {
    var x := s.clients[c];
    var d := s.daemon.value.id;
    var s1 := s.(lock := Some(ByClient(c)));
    assert ClientAlone(s, c, 1) == To(s1, c, x, FindDaemon);
    assert ClientAlone(s, c, 2).clients == To(s1, c, x, SaveSnapshot(d)).clients;
    var s2 := s1.(snapshots := s.snapshots[c := cfg]);
    assert ClientAlone(s, c, 3).clients == To(s2, c, x, ClearResponse(d)).clients;
    var s3 := s2.(response := None);
    assert ClientAlone(s, c, 4).clients == To(s3, c, x, WriteRequest(d)).clients;
    var s4 := s3.(request := Some(Request(c, c, d)), issued := s.issued + {c});
    assert ClientAlone(s, c, 5).clients == To(s4, c, x, SignalDaemon).clients;
    assert ClientAlone(s, c, 6).clients == To(s4, c, x, Poll).clients;
  }

  /** Six steps take a waiting daemon that finds a request addressed to it through the change to the answer. */
  lemma DaemonServes(s: System, r: Request)
    requires s.daemon.Some? && s.daemon.value.pc.Waiting?
    requires s.request == Some(r) && r.daemon == s.daemon.value.id && r.snapshot in s.snapshots
    ensures DaemonAlone(s, 6) ==
            s.(request := None, snapshots := s.snapshots - {r.snapshot}, response := Some(Response(r.id, true)),
               history := s.history + [Applied(r.id, s.snapshots[r.snapshot], true)], begun := s.begun + [r.id])
  {
    var d := s.daemon.value;
    var cfg := s.snapshots[r.snapshot];
    assert DaemonAlone(s, 1) == At(s, d, Found(r, false));
    var s1 := s.(request := None);
    assert DaemonAlone(s, 2) == At(s1, d, Dispatch(r));
    assert DaemonAlone(s, 3) == At(s1, d, Loaded(r, Some(cfg)));
    var s2 := s1.(snapshots := s.snapshots - {r.snapshot}, begun := s.begun + [r.id]);
    assert DaemonAlone(s, 4) == At(s2, d, Change(r, cfg));
    assert DaemonAlone(s, 5)
           == At(s2.(history := s.history + [Applied(r.id, cfg, true)]), d, Answer(Response(r.id, true), false));
  }

  /** s after the request r was answered without a change. */
  function Refused(s: System, r: Request): System {
    s.(request := None, snapshots := s.snapshots - {r.snapshot}, response := Some(Response(r.id, false)))
  }

  /** A request for another daemon, and one whose configuration is gone, is refused without a change. */
  lemma DaemonRefuses(s: System, r: Request)
    requires s.daemon.Some? && s.daemon.value.pc.Waiting? && s.request == Some(r)
    requires r.daemon != s.daemon.value.id || r.snapshot !in s.snapshots
    ensures DaemonAlone(s, 5) == Refused(s, r)
  {
    var d := s.daemon.value;
    assert DaemonAlone(s, 1) == At(s, d, Found(r, false));
    var s1 := s.(request := None);
    assert DaemonAlone(s, 2) == At(s1, d, Dispatch(r));
    var pc := if r.daemon != d.id then Reject(r, false) else Loaded(r, None);
    assert DaemonAlone(s, 3) == At(s1, d, pc);
    var s2 := s1.(snapshots := s.snapshots - {r.snapshot});
    assert DaemonAlone(s, 4) == At(s2, d, Answer(Response(r.id, false), false));
  }

  /** So is any request during startup. */
  lemma StartupRefuses(s: System, r: Request)
    requires s.daemon.Some? && s.daemon.value.pc.Booting? && s.request == Some(r)
    ensures DaemonAlone(s, 4) == Refused(s, r)
  {
    var d := s.daemon.value;
    assert DaemonAlone(s, 1) == At(s, d, Found(r, true));
    var s1 := s.(request := None);
    assert DaemonAlone(s, 2) == At(s1, d, Reject(r, true));
    var s2 := s1.(snapshots := s.snapshots - {r.snapshot});
    assert DaemonAlone(s, 3) == At(s2, d, Answer(Response(r.id, false), true));
  }

  /** A change that fails is reported as failed. */
  lemma FailedChangeIsReported(s: System, r: Request, cfg: Config)
    requires s.daemon.Some? && s.daemon.value.pc == Change(r, cfg)
    ensures DaemonAlone(Next(s, DaemonStep(true)), 1) ==
            At(s.(history := s.history + [Applied(r.id, cfg, false)], response := Some(Response(r.id, false))),
               s.daemon.value, Waiting)
  {
    var s0 := Next(s, DaemonStep(true));
    assert DaemonAlone(s0, 0) == s0;
  }

  /** An answer that cannot be written is lost, and the daemon goes on where it was. */
  lemma LostAnswer(s: System, a: Response, booting: bool)
    requires s.daemon.Some? && s.daemon.value.pc == Answer(a, booting)
    ensures Next(s, DaemonStep(true)) == At(s, s.daemon.value, if booting then Booting else Waiting)
  {
  }

  /** When startup is over the daemon waits for requests. */
  lemma StartupEnds(s: System)
    requires s.daemon.Some? && s.daemon.value.pc.Booting?
    ensures Next(s, DaemonStep(true)) == At(s, s.daemon.value, Waiting)
  {
  }

  /** No daemon starts beside another, nor while a client is at work. */
  lemma StartWaits(s: System)
    requires s.daemon.Some? || s.lock.Some?
    ensures Next(s, StartDaemon) == s
  {
  }

  /** A starting daemon keeps a request addressed to it, with its configuration, and nothing else. */
  lemma StartDiscards(s: System)
    requires s.daemon.Some? && s.daemon.value.pc.Discarding?
    ensures var s' := Next(s, DaemonStep(false));
            && s'.response.None? && s'.lock.None? && s'.daemon.value.pc == Booting
            && (forall r: Request :: s'.request == Some(r) <==> s.request == Some(r) && r.daemon == s.daemon.value.id)
            && (forall id :: id in s'.snapshots <==> id in s.snapshots && s'.request.Some?
                                                     && id == s'.request.value.snapshot)
            && (forall id | id in s'.snapshots :: s'.snapshots[id] == s.snapshots[id])
  {
  }

  /** A client that does not get the reload lock gives up at once. */
  lemma LockedOut(s: System, c: Id, fail: bool)
    requires c in s.clients && s.clients[c].pc.Begin? && (fail || s.lock.Some?)
    ensures Next(s, ClientStep(c, fail)) == s.(clients := s.clients - {c})
  {
  }

  /** s after the client c has returned without success. */
  function GivenUp(s: System, c: Id): System {
    s.(lock := None, clients := s.clients - {c})
  }

  /** A client that finds no daemon, or cannot save its configuration, leaves nothing; */
  lemma UnsavedLeavesNothing(s: System, c: Id)
    requires c in s.clients && (s.clients[c].pc.FindDaemon? || s.clients[c].pc.SaveSnapshot?)
    ensures ClientAlone(Next(s, ClientStep(c, true)), c, 1) == GivenUp(s, c)
  {
    assert Next(s, ClientStep(c, true)) == To(s, c, s.clients[c], Release(false));
    ReleaseGivesUp(s, c, s.clients[c]);
  }

  lemma ReleaseGivesUp(s: System, c: Id, x: Client)
    ensures ClientAlone(To(s, c, x, Release(false)), c, 1) == GivenUp(s, c)
  {
    var s0 := To(s, c, x, Release(false));
    assert ClientAlone(s0, c, 0) == s0;
    assert s0.clients - {c} == s.clients - {c};
  }

  /** one that cannot write its request takes its configuration back; */
  lemma UnwrittenIsTakenBack(s: System, c: Id)
    requires c in s.clients && s.clients[c].pc.WriteRequest?
    ensures ClientAlone(Next(s, ClientStep(c, true)), c, 2) == GivenUp(s.(snapshots := s.snapshots - {c}), c)
  {
    var x, s0 := s.clients[c], Next(s, ClientStep(c, true));
    assert ClientAlone(s0, c, 0).clients == To(s, c, x, DropSnapshot).clients;
    assert ClientAlone(s0, c, 1).clients == To(s, c, x, Release(false)).clients;
    assert ClientAlone(s0, c, 2).clients == s.clients - {c};
  }

  /** one that cannot signal the daemon takes its request and its configuration back; */
  lemma UnsentIsTakenBack(s: System, c: Id)
    requires c in s.clients && s.clients[c].pc.SignalDaemon?
    ensures ClientAlone(Next(s, ClientStep(c, true)), c, 3) ==
            GivenUp(s.(request := None, snapshots := s.snapshots - {c}), c)
  {
    var x, s0 := s.clients[c], Next(s, ClientStep(c, true));
    var s1 := s.(request := None);
    assert ClientAlone(s0, c, 0).clients == To(s, c, x, DropRequest).clients;
    assert ClientAlone(s0, c, 1).clients == To(s1, c, x, DropSnapshot).clients;
    assert ClientAlone(s0, c, 2).clients == To(s1, c, x, Release(false)).clients;
    assert ClientAlone(s0, c, 3).clients == s.clients - {c};
  }

  /** and one whose deadline passes withdraws its request, if it is still there, and leaves another's and its own
      configuration alone. */
  lemma DeadlineWithdraws(s: System, c: Id)
    requires c in s.clients && s.clients[c].pc.Poll?
    ensures var own := s.request.Some? && s.request.value.id == c;
            ClientAlone(Next(s, ClientStep(c, true)), c, 2) ==
            GivenUp(s.(request := if own then None else s.request), c)
  {
    var x, s0 := s.clients[c], Next(s, ClientStep(c, true));
    assert ClientAlone(s0, c, 0).clients == To(s, c, x, TimedOut).clients;
    assert ClientAlone(s0, c, 1).clients == To(s, c, x, Release(false)).clients;
    assert ClientAlone(s0, c, 2).clients == s.clients - {c};
  }

  /** An answer to another request is left alone. */
  lemma OtherAnswersAreLeft(s: System, c: Id)
    requires c in s.clients && s.clients[c].pc.Poll?
    requires s.response.None? || s.response.value.id != c
    ensures Next(s, ClientStep(c, false)) == s
  {
  }

  /** Three steps take a polling client from its answer to its return, and every answer is taken for what it says. */
  lemma ClientReturns(s: System, c: Id, ok: bool)
    requires c in s.clients && s.clients[c].pc.Poll? && s.response == Some(Response(c, ok))
    ensures ClientAlone(s, c, 3) ==
            s.(response := None, lock := None, clients := s.clients - {c},
               succeeded := if ok then s.succeeded + {c} else s.succeeded)
  {
    var x := s.clients[c];
    assert ClientAlone(s, c, 1) == To(s, c, x, TakeResponse(ok));
    assert ClientAlone(s, c, 2).clients == To(s, c, x, Release(ok)).clients;
    assert ClientAlone(s, c, 3).clients == s.clients - {c};
  }

  /** An undisturbed exchange: six steps of a new client, six of a waiting daemon and three more of the client end with
      the configuration applied, the client's success and no trace in the files. */
  lemma ReloadSucceeds(s: System, c: Id, cfg: Config)
    requires s.lock.None? && c in s.clients && s.clients[c] == Client(cfg, Begin)
    requires s.daemon.Some? && s.daemon.value.pc.Waiting?
    ensures var r := ClientAlone(DaemonAlone(ClientAlone(s, c, 6), 6), c, 3);
            && c in r.succeeded && r.history == s.history + [Applied(c, cfg, true)]
            && r.request.None? && r.response.None? && r.lock.None? && r.snapshots == s.snapshots - {c}
            && r.clients == s.clients - {c} && r.daemon == s.daemon
  {
    ClientSends(s, c, cfg);
    var s1 := ClientAlone(s, c, 6);
    DaemonServes(s1, s1.request.value);
    var s2 := DaemonAlone(s1, 6);
    ClientReturns(s2, c, true);
    assert s1.snapshots - {c} == s.snapshots - {c};
    assert s2.clients - {c} == s.clients - {c};
  }

  // ---------------------------------------------------------------- a withdrawn request

  /** The daemon has read a request of c and not yet begun the change. */
  predicate InHand(pc: DaemonPc, c: Id) {
    (pc.Found? || pc.Dispatch? || pc.Loaded?) && pc.request.id == c
  }

  /** c has not been begun, and nobody is left who could hand its request on. */
  ghost predicate Withdrawn(s: System, c: Id) {
    && c < s.nextId && c !in s.begun
    && (c in s.clients ==> !Unsent(s.clients[c].pc))
    && (s.request.Some? ==> s.request.value.id != c)
    && (s.daemon.Some? ==> !InHand(s.daemon.value.pc, c))
  }

  lemma WithdrawnStep(s: System, l: Label, c: Id)
    requires Withdrawn(s, c)
    ensures Withdrawn(Next(s, l), c)
  {
    if l.ClientStep? && l.c in s.clients {
      WithdrawnClientStep(s, l.c, l.fail, c);
    } else if l.DaemonStep? && s.daemon.Some? {
      WithdrawnDaemonStep(s, l.fail, c);
    }
  }

  lemma WithdrawnClientStep(s: System, q: Id, fail: bool, c: Id)
    requires Withdrawn(s, c) && q in s.clients
    ensures Withdrawn(ClientNext(s, q, s.clients[q], fail), c)
  {
    if Unsent(s.clients[q].pc) {
      WithdrawnOtherSends(s, q, fail, c);
    } else {
      ClientLeaves(s, q, s.clients[q], fail);
      ClientLeavesLog(s, q, s.clients[q], fail);
      SentStaysSent(s, q, fail, c);
    }
  }

  lemma WithdrawnOtherSends(s: System, q: Id, fail: bool, c: Id)
    requires Withdrawn(s, c) && q in s.clients && Unsent(s.clients[q].pc)
    ensures Withdrawn(ClientNext(s, q, s.clients[q], fail), c)
  {
  }

  lemma SentStaysSent(s: System, q: Id, fail: bool, c: Id)
    requires q in s.clients && !Unsent(s.clients[q].pc) && (c in s.clients ==> !Unsent(s.clients[c].pc))
    ensures var s' := ClientNext(s, q, s.clients[q], fail); c in s'.clients ==> !Unsent(s'.clients[c].pc)
  {
    if q == c { SelfStaysSent(s, c, fail); } else { OtherStays(s, q, fail, c); }
  }

  lemma SelfStaysSent(s: System, c: Id, fail: bool)
    requires c in s.clients && !Unsent(s.clients[c].pc)
    ensures var s' := ClientNext(s, c, s.clients[c], fail); c in s'.clients ==> !Unsent(s'.clients[c].pc)
  {
  }

  lemma OtherStays(s: System, q: Id, fail: bool, c: Id)
    requires q in s.clients && !Unsent(s.clients[q].pc) && q != c
    ensures var s' := ClientNext(s, q, s.clients[q], fail);
            c in s'.clients ==> c in s.clients && s'.clients[c] == s.clients[c]
  {
  }

  lemma WithdrawnDaemonStep(s: System, fail: bool, c: Id)
    requires Withdrawn(s, c) && s.daemon.Some?
    ensures Withdrawn(DaemonNext(s, s.daemon.value, fail), c)
  {
    if Early(s.daemon.value.pc) {
      WithdrawnEarly(s, fail, c);
    } else {
      WithdrawnLate(s, fail, c);
    }
  }

  lemma WithdrawnEarly(s: System, fail: bool, c: Id)
    requires Withdrawn(s, c) && s.daemon.Some? && Early(s.daemon.value.pc)
    ensures Withdrawn(DaemonNext(s, s.daemon.value, fail), c)
  {
  }

  lemma WithdrawnLate(s: System, fail: bool, c: Id)
    requires Withdrawn(s, c) && s.daemon.Some? && !Early(s.daemon.value.pc)
    ensures Withdrawn(DaemonNext(s, s.daemon.value, fail), c)
  {
  }

  lemma {:induction false} WithdrawnForGood(labels: seq<Label>, more: seq<Label>, c: Id)
    ensures Withdrawn(Run(labels), c) ==> Withdrawn(Run(labels + more), c)
  {
    if more == [] {
      assert labels + more == labels;
    } else if Withdrawn(Run(labels), c) {
      var n := |more| - 1;
      WithdrawnForGood(labels, more[..n], c);
      assert (labels + more)[..|labels + more| - 1] == labels + more[..n];
      WithdrawnStep(Run(labels + more[..n]), more[n], c);
    }
  }

  /** c has run into its deadline and the daemon has not read its request. */
  ghost predicate Unread(s: System, c: Id) {
    && c in s.clients && s.clients[c].pc.TimedOut? && c !in s.begun
    && (s.daemon.Some? ==> !InHand(s.daemon.value.pc, c))
  }

  /** A client that times out before the daemon has read its request withdraws it: whatever happens afterwards, its
      configuration is never applied, nor even begun. */
  lemma TimedOutNeverBegins(labels: seq<Label>, more: seq<Label>, c: Id, fail: bool)
    ensures var r := Run(labels + [ClientStep(c, fail)] + more);
            Unread(Run(labels), c) ==> c !in r.begun && forall a | a in r.history :: a.id != c
  {
    if Unread(Run(labels), c) {
      var before := labels + [ClientStep(c, fail)];
      assert before[..|labels|] == labels;
      InvRun(labels);
      assert ClientInv(Run(labels), c, Run(labels).clients[c]);
      assert Withdrawn(Run(before), c);
      WithdrawnForGood(before, more, c);
      InvRun(before + more);
    }
  }

  /** Once the daemon has read it, the withdrawal comes too late. */
  lemma ReadRequestIsBegun(s: System, c: Id, r: Request, fail: bool)
    requires c in s.clients && s.clients[c].pc.TimedOut? && r.id == c
    requires s.daemon.Some? && s.daemon.value.pc == Found(r, false)
    requires r.daemon == s.daemon.value.id && r.snapshot in s.snapshots
    ensures DaemonAlone(Next(s, ClientStep(c, fail)), 3).begun == s.begun + [c]
  {
    var d, cfg := s.daemon.value, s.snapshots[r.snapshot];
    var s0 := Next(s, ClientStep(c, fail));
    var s1 := s0.(request := None);
    assert DaemonAlone(s0, 1) == At(s1, d, Dispatch(r));
    assert DaemonAlone(s0, 2) == At(s1, d, Loaded(r, Some(cfg)));
    assert DaemonAlone(s0, 3)
           == At(s1.(snapshots := s.snapshots - {r.snapshot}, begun := s.begun + [c]), d, Change(r, cfg));
  }
}
