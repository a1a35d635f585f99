/** Why the application has to keep the type of an item: one set that changes it, racing with a set
    on the client, leaves the two peers apart for good. */
module TypeChange {
  import opened ItemModel
  import opened Options
  import opened Peers
  import opened Replication
  import opened ReplicationProofs
  import opened Runs
  import opened Variants

  /** The worker takes up a change job, the only one pending, and sends the item if there is one. */
  lemma ChangeSent(s: System, id: Id, order: seq<string>)
    requires s.linkUp && s.srv.connected && s.srv.batch == [] && s.srv.pending == [ChangeJob(id)]
    requires Consistent(s.srv.model) && IsWalk(s.srv.model, order)
    ensures Reaches(s, [SrvPull, SrvJob(order)],
                    s.(srv := s.srv.(pending := []),
                       s2c := s.s2c + if id in s.srv.model.items then [Change(id, s.srv.model.items[id].current)]
                                      else []))
  {
    TwoSteps(s, SrvPull, SrvJob(order));
  }

  /** What the client's item becomes when a change comes in between the check and the write. */
  function Overwritten(c: Mirror, id: Id, v1: Variant, v2: Variant): Mirror
    requires id in c.model.items
  {
    var m := Receive(c, Change(id, v2));
    if id in m.model.items then m.(model := SetCurrent(m.model, id, v1)) else m
  }

  lemma WriteOver(s: System, id: Id, v1: Variant, v2: Variant)
    requires s.cli.connected && s.cli.app == Checked(id, v1) && !s.cli.mirror.halted && id in s.cli.mirror.model.items
    requires s.cli.mirror.model.items[id].current == v2 != v1 && Supported(s.cli.mirror.vectors, TypeOf(v2))
    ensures var m := s.cli.mirror.(model := SetCurrent(s.cli.mirror.model, id, v1));
            Takes(s, CliCommit, s.(cli := s.cli.(mirror := m, app := Pushing(id))))
  {
  }

  /** The client's application checks a value against the old type and writes it over the new one. */
  lemma StaleWrite(s: System, id: Id, v1: Variant, v2: Variant)
    requires s.cli.connected && s.cli.app == Idle && !s.cli.mirror.halted && id in s.cli.mirror.model.items
    requires Compatible(s.cli.mirror.model.items[id].current, v1) && v1 != v2
    requires s.s2c == [Change(id, v2)] && Supported(s.cli.mirror.vectors, TypeOf(v2))
    requires s.cliTold && s.cli.rxPush == None
    ensures Reaches(s, [CliCheck(id, v1), CliReceive, CliCommit],
                    s.(cli := s.cli.(mirror := Overwritten(s.cli.mirror, id, v1, v2), app := Pushing(id)), s2c := []))
  {
    var s1 := s.(cli := s.cli.(app := Checked(id, v1)));
    var s2 := s1.(cli := s1.cli.(mirror := Receive(s.cli.mirror, Change(id, v2))), s2c := []);
    WriteOver(s2, id, v1, v2);
    ThreeSteps(s, CliCheck(id, v1), s1, CliReceive, s2, CliCommit,
               s2.(cli := s2.cli.(mirror := Overwritten(s.cli.mirror, id, v1, v2), app := Pushing(id))));
  }

  lemma RequestSent(s: System, id: Id)
    requires s.linkUp && s.cli.connected && s.cli.app == Pushing(id) && id in s.cli.mirror.model.items
    requires s.cli.batch == [] && s.cli.pending == [] && s.c2s == []
    ensures Reaches(s, [CliPush, CliPull, CliJob],
                    s.(cli := s.cli.(app := Idle), c2s := [Request(id, s.cli.mirror.model.items[id].current)]))
  {
    var s1 := s.(cli := s.cli.(app := Idle, pending := [ChangeRequest(id)]));
    var s2 := s1.(cli := s1.cli.(batch := [ChangeRequest(id)], pending := []));
    ThreeSteps(s, CliPush, s1, CliPull, s2, CliJob,
               s.(cli := s.cli.(app := Idle), c2s := [Request(id, s.cli.mirror.model.items[id].current)]));
  }

  /** The server refuses the value, and the job that should send its own back names no item. */
  lemma RequestRefused(s: System, id: Id, v: Variant)
    requires s.c2s == [Request(id, v)] && s.srvTold && s.srv.rxPush == None && s.srv.pending == []
    requires id in s.srv.model.items && !Compatible(s.srv.model.items[id].current, v)
    ensures Reaches(s, [SrvReceive, SrvRxPush], s.(srv := s.srv.(pending := [ChangeJob(INVALID_ID)]), c2s := []))
  {
    TwoSteps(s, SrvReceive, SrvRxPush);
  }

  /** Two peers at rest that hold the same item. */
  ghost predicate AtRest(s: System, id: Id) {
    && Quiescent(s) && s.srv.connected && s.cli.connected && !s.cli.mirror.halted
    && Consistent(s.srv.model) && id in s.srv.model.items && id in s.cli.mirror.model.items
    && s.srv.model.items[id].current == s.cli.mirror.model.items[id].current
  }

  /** The server's application sets a value of another type, the client's one of the old type. */
  ghost predicate Race(s: System, id: Id, v1: Variant, v2: Variant) {
    && id in s.srv.model.items && Compatible(s.srv.model.items[id].current, v1) && !Compatible(v2, v1)
    && Supported(s.srv.vectors, TypeOf(v1)) && Supported(s.cli.mirror.vectors, TypeOf(v2))
  }

  lemma NotAllowed(s: System, id: Id, v1: Variant, v2: Variant)
    requires Race(s, id, v1, v2)
    ensures v1 != v2 && !Allowed(s.srv, s.born, SetValue(id, v2))
  {
  }

  /** The server after the set, with its job pushed. */
  function Retyped(s: System, id: Id, v2: Variant): System {
    s.(srv := AppFlushed(ServerCalled(s.srv, SetValue(id, v2)), false))
  }

  lemma RetypedState(s: System, id: Id, v1: Variant, v2: Variant)
    requires AtRest(s, id) && Race(s, id, v1, v2)
    ensures Retyped(s, id, v2)
         == s.(srv := s.srv.(model := SetCurrent(s.srv.model, id, v2), pending := [ChangeJob(id)]))
  {
  }

  function FirstSteps(id: Id, v1: Variant, order: seq<string>): seq<Step> {
    [SrvPull, SrvJob(order)] + [CliCheck(id, v1), CliReceive, CliCommit]
  }

  function LastSteps(order: seq<string>): seq<Step> {
    [CliPush, CliPull, CliJob] + ([SrvReceive, SrvRxPush] + [SrvPull, SrvJob(order)])
  }

  /** The server with its new value, and the client with its own about to be sent. */
  function Crossed(s: System, id: Id, v1: Variant, v2: Variant): System
    requires id in s.srv.model.items && id in s.cli.mirror.model.items
  {
    s.(srv := s.srv.(model := SetCurrent(s.srv.model, id, v2)),
       cli := s.cli.(mirror := Overwritten(s.cli.mirror, id, v1, v2), app := Pushing(id)))
  }

  lemma CrossedApart(s: System, id: Id, v1: Variant, v2: Variant)
    requires AtRest(s, id)
    ensures var t := Crossed(s, id, v1, v2);
            && id in t.srv.model.items && t.srv.model.items[id].current == v2
            && id in t.cli.mirror.model.items && t.cli.mirror.model.items[id].current == v1
            && t.srv.model.index == s.srv.model.index && Consistent(t.srv.model)
  {
    SetCurrentConsistent(s.srv.model, id, v2);
  }

  lemma Crosses(s: System, id: Id, v1: Variant, v2: Variant, order: seq<string>)
    requires AtRest(s, id) && Race(s, id, v1, v2) && IsWalk(s.srv.model, order)
    ensures Reaches(Retyped(s, id, v2), FirstSteps(id, v1, order), Crossed(s, id, v1, v2))
  {
    RetypedState(s, id, v1, v2);
    var s0 := Retyped(s, id, v2);
    SetCurrentConsistent(s.srv.model, id, v2);
    ChangeSent(s0, id, order);
    var s1 := s.(srv := s.srv.(model := SetCurrent(s.srv.model, id, v2)), s2c := [Change(id, v2)]);
    assert s0.s2c + [Change(id, v2)] == [Change(id, v2)];
    StaleWrite(s1, id, v1, v2);
    Continues(s0, [SrvPull, SrvJob(order)], s1, [CliCheck(id, v1), CliReceive, CliCommit], Crossed(s, id, v1, v2));
  }

  /** The second half of the race: from the stale write to rest. */
  lemma SettlesApart(s: System, id: Id, order: seq<string>)
    requires s.linkUp && s.srvTold && s.srv.connected
    requires s.srv.batch == [] && s.srv.pending == [] && s.srv.rxPush == None
    requires Consistent(s.srv.model) && IsWalk(s.srv.model, order) && id in s.srv.model.items
    requires s.cli.connected && s.cli.app == Pushing(id) && id in s.cli.mirror.model.items
    requires s.cli.batch == [] && s.cli.pending == [] && s.c2s == [] && s.s2c == []
    requires !Compatible(s.srv.model.items[id].current, s.cli.mirror.model.items[id].current)
    ensures Reaches(s, LastSteps(order), s.(cli := s.cli.(app := Idle)))
  {
    var v := s.cli.mirror.model.items[id].current;
    RequestSent(s, id);
    var s1 := s.(cli := s.cli.(app := Idle), c2s := [Request(id, v)]);
    RequestRefused(s1, id, v);
    var s2 := s1.(srv := s1.srv.(pending := [ChangeJob(INVALID_ID)]), c2s := []);
    ChangeSent(s2, INVALID_ID, order);
    var end := s.(cli := s.cli.(app := Idle));
    assert s2.s2c + [] == s2.s2c;
    Continues(s1, [SrvReceive, SrvRxPush], s2, [SrvPull, SrvJob(order)], end);
    Continues(s, [CliPush, CliPull, CliJob], s1, [SrvReceive, SrvRxPush] + [SrvPull, SrvJob(order)], end);
  }

  lemma RestsApart(s: System, id: Id, v1: Variant, v2: Variant)
    requires AtRest(s, id) && v1 != v2
    ensures Quiescent(Settled(s, id, v1, v2)) && !Converged(Settled(s, id, v1, v2))
  {
    CrossedApart(s, id, v1, v2);
  }

  /** The state in which nothing is left to do. */
  function Settled(s: System, id: Id, v1: Variant, v2: Variant): System
    requires id in s.srv.model.items && id in s.cli.mirror.model.items
  {
    var t := Crossed(s, id, v1, v2);
    t.(cli := t.cli.(app := Idle))
  }

  lemma CrossesAndSettles(s: System, id: Id, v1: Variant, v2: Variant, order: seq<string>)
    requires AtRest(s, id) && Race(s, id, v1, v2) && IsWalk(s.srv.model, order)
    ensures Reaches(Retyped(s, id, v2), FirstSteps(id, v1, order) + LastSteps(order), Settled(s, id, v1, v2))
  {
    Crosses(s, id, v1, v2, order);
    CrossedSettles(s, id, v1, v2, order);
    Continues(Retyped(s, id, v2), FirstSteps(id, v1, order), Crossed(s, id, v1, v2),
              LastSteps(order), Settled(s, id, v1, v2));
  }

  lemma CrossedSettles(s: System, id: Id, v1: Variant, v2: Variant, order: seq<string>)
    requires AtRest(s, id) && !Compatible(v2, v1) && IsWalk(s.srv.model, order)
    ensures Reaches(Crossed(s, id, v1, v2), LastSteps(order), Settled(s, id, v1, v2))
  {
    CrossedApart(s, id, v1, v2);
    SettlesApart(Crossed(s, id, v1, v2), id, order);
  }

  /** Were it allowed to change a type, convergence would fail: from any two peers at rest with an
      item in common there is a run, of nothing but ordinary steps after that one call, to a state
      in which nothing is left to do and the client holds another value than the server. */
  lemma TypeChangeDiverges(s: System, id: Id, v1: Variant, v2: Variant, order: seq<string>) returns (end: System)
    requires AtRest(s, id) && Race(s, id, v1, v2) && IsWalk(s.srv.model, order)
    ensures !Allowed(s.srv, s.born, SetValue(id, v2))
    ensures Reaches(Retyped(s, id, v2), FirstSteps(id, v1, order) + LastSteps(order), end)
    ensures Quiescent(end) && !Converged(end)
    ensures id in end.srv.model.items && end.srv.model.items[id].current == v2
    ensures id in end.cli.mirror.model.items && end.cli.mirror.model.items[id].current == v1
  {
    end := Settled(s, id, v1, v2);
    NotAllowed(s, id, v1, v2);
    CrossesAndSettles(s, id, v1, v2, order);
    CrossedApart(s, id, v1, v2);
    RestsApart(s, id, v1, v2);
  }
}
