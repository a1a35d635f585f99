/** The handlers of a peer as runs of the protocol: what a thread does between its entry and its
    return is a few steps of the transition system. */
module Runs {
  import opened ItemModel
  import opened Peers
  import opened Replication
  import opened Variants

  /** A call that decided on a job has pushed it by the time it returns, unless the queue is full:
      then its thread waits with the job. */
  function AppFlushed(s: Server, waits: bool): Server {
    if s.appPush.Some? && !waits then ServerAppPush(s) else s
  }

  function RxFlushed(s: Server, waits: bool): Server {
    if s.rxPush.Some? && !waits then ServerRxPush(s) else s
  }

  lemma OneStep(s: System, step: Step)
    requires Enabled(s, step)
    ensures Reaches(s, [step], Next(s, step))
  {
    assert [step][1..] == [];
    assert Reaches(Next(s, step), [step][1..], Next(s, step));
  }

  lemma {:induction false} Continues(s: System, steps: seq<Step>, mid: System, more: seq<Step>, end: System)
    requires Reaches(s, steps, mid) && Reaches(mid, more, end)
    ensures Reaches(s, steps + more, end)
    decreases |steps|
  {
    if steps == [] {
      assert steps + more == more;
    } else {
      assert (steps + more)[1..] == steps[1..] + more;
      Continues(Next(s, steps[0]), steps[1..], mid, more, end);
    }
  }

  lemma TwoSteps(s: System, first: Step, second: Step)
    requires Enabled(s, first) && Enabled(Next(s, first), second)
    ensures Reaches(s, [first, second], Next(Next(s, first), second))
  {
    OneStep(s, first);
    OneStep(Next(s, first), second);
    Continues(s, [first], Next(s, first), [second], Next(Next(s, first), second));
    assert [first] + [second] == [first, second];
  }

  /** One step with a given outcome. */
  ghost predicate Takes(s: System, step: Step, after: System) {
    Enabled(s, step) && Next(s, step) == after
  }

  lemma ThreeSteps(s: System, first: Step, s1: System, second: Step, s2: System, third: Step, end: System)
    requires Takes(s, first, s1) && Takes(s1, second, s2) && Takes(s2, third, end)
    ensures Reaches(s, [first, second, third], end)
  {
    TwoSteps(s, first, second);
    OneStep(s2, third);
    Continues(s, [first, second], s2, [third], end);
    assert [first, second] + [third] == [first, second, third];
  }

  // ---- Server -----------------------------------------------------------------------

  /** A call and, unless its thread is left waiting, the push of its job. */
  function CallSteps(s: Server, call: ServerCall, waits: bool): seq<Step> {
    [SrvCall(call)] + if ServerCalled(s, call).appPush.Some? && !waits then [SrvAppPush] else []
  }

  lemma CallRun(s: System, call: ServerCall, waits: bool)
    requires Enabled(s, SrvCall(call))
    ensures Reaches(s, CallSteps(s.srv, call, waits),
                    s.(srv := AppFlushed(ServerCalled(s.srv, call), waits), born := Recorded(s.born, call)))
  {
    if ServerCalled(s.srv, call).appPush.Some? && !waits {
      TwoSteps(s, SrvCall(call), SrvAppPush);
      assert [SrvCall(call)] + [SrvAppPush] == [SrvCall(call), SrvAppPush];
    } else {
      OneStep(s, SrvCall(call));
      assert [SrvCall(call)] + [] == [SrvCall(call)];
    }
  }

  /** The server after a call, which is a run if the protocol allows the call. */
  ghost predicate Called(s: System, call: ServerCall, after: Server, waits: bool) {
    && after == AppFlushed(ServerCalled(s.srv, call), waits)
    && (Enabled(s, SrvCall(call)) ==>
          Reaches(s, CallSteps(s.srv, call, waits), s.(srv := after, born := Recorded(s.born, call))))
  }

  lemma CalledRun(s: System, call: ServerCall, after: Server, waits: bool)
    requires after == AppFlushed(ServerCalled(s.srv, call), waits)
    ensures Called(s, call, after, waits)
  {
    if Enabled(s, SrvCall(call)) {
      CallRun(s, call, waits);
    }
  }

  /** A message and, unless the receive thread is left waiting, the push of its job. */
  function ReceiveSteps(s: Server, m: ClientMsg, waits: bool): seq<Step> {
    [SrvReceive] + if ServerReceive(s, m).rxPush.Some? && !waits then [SrvRxPush] else []
  }

  lemma ReceiveRun(s: System, m: ClientMsg, waits: bool)
    requires Enabled(s, SrvReceive) && s.c2s[0] == m
    ensures Reaches(s, ReceiveSteps(s.srv, m, waits),
                    s.(srv := RxFlushed(ServerReceive(s.srv, m), waits), c2s := s.c2s[1..]))
  {
    if ServerReceive(s.srv, m).rxPush.Some? && !waits {
      TwoSteps(s, SrvReceive, SrvRxPush);
      assert [SrvReceive] + [SrvRxPush] == [SrvReceive, SrvRxPush];
    } else {
      OneStep(s, SrvReceive);
      assert [SrvReceive] + [] == [SrvReceive];
    }
  }

  /** The server after a message, which is a run if the message was next in the channel. */
  ghost predicate Received(s: System, m: ClientMsg, after: Server, waits: bool) {
    && after == RxFlushed(ServerReceive(s.srv, m), waits)
    && (Enabled(s, SrvReceive) && s.c2s[0] == m ==>
          Reaches(s, ReceiveSteps(s.srv, m, waits), s.(srv := after, c2s := s.c2s[1..])))
  }

  lemma ReceivedRun(s: System, m: ClientMsg, after: Server, waits: bool)
    requires after == RxFlushed(ServerReceive(s.srv, m), waits)
    ensures Received(s, m, after, waits)
  {
    if Enabled(s, SrvReceive) && s.c2s[0] == m {
      ReceiveRun(s, m, waits);
    }
  }

  // ---- Client -----------------------------------------------------------------------

  /** What the receive thread decided on has been pushed, unless the thread is left waiting. */
  function CliRxFlushed(c: Client, waits: bool): Client {
    if c.rxPush.Some? && !waits then ClientRxPush(c) else c
  }

  /** A new connection and, unless the receive thread is left waiting, the push of the subscription. */
  function ConnectSteps(order: seq<string>, waits: bool): seq<Step> {
    [CliConnect(order)] + if !waits then [CliRxPush] else []
  }

  lemma ConnectRun(s: System, order: seq<string>, waits: bool)
    requires Enabled(s, CliConnect(order))
    ensures Reaches(s, ConnectSteps(order, waits),
                    s.(cli := CliRxFlushed(ClientConnect(s.cli, order), waits), cliTold := true))
  {
    if waits {
      OneStep(s, CliConnect(order));
      assert [CliConnect(order)] + [] == [CliConnect(order)];
    } else {
      TwoSteps(s, CliConnect(order), CliRxPush);
      assert [CliConnect(order)] + [CliRxPush] == [CliConnect(order), CliRxPush];
    }
  }

  lemma LinkedUp(s: System) returns (s1: System)
    requires Enabled(s, LinkUp)
    ensures Takes(s, LinkUp, s1) && Enabled(s1, SrvConnect) && s1.srv == s.srv && s1.cli == s.cli
    ensures s1 == s.(linkUp := true, srvTold := false, cliTold := false)
  {
    s1 := Next(s, LinkUp);
  }

  lemma ReadyToConnect(s: System, s2: System, order: seq<string>)
    requires Enabled(s, LinkUp) && IsWalk(s.cli.mirror.model, order)
    requires s2 == s.(srv := s2.srv, linkUp := true, srvTold := true, cliTold := false)
    ensures Enabled(s2, CliConnect(order))
  {
  }

  lemma MeetRun(s: System, s1: System, end: System)
    requires Takes(s, LinkUp, s1) && Reaches(s1, [SrvConnect], end)
    ensures Reaches(s, [LinkUp, SrvConnect], end)
  {
    OneStep(s, LinkUp);
    Continues(s, [LinkUp], s1, [SrvConnect], end);
    assert [LinkUp] + [SrvConnect] == [LinkUp, SrvConnect];
  }

  /** A set on the client: nothing after a failed check, and no push for an equal value or when the
      thread is left waiting. */
  function ClientSet(c: Client, id: Id, v: Variant, waits: bool): Client
    requires c.app.Idle?
  {
    var checked := ClientCheck(c, id, v);
    if checked.app.Idle? then checked else Written(checked, waits)
  }

  function Written(c: Client, waits: bool): Client
    requires c.app.Checked?
  {
    var committed := ClientCommit(c);
    if committed.app.Pushing? && !waits then ClientPush(committed) else committed
  }

  function SetSteps(c: Client, id: Id, v: Variant, waits: bool): seq<Step>
    requires c.app.Idle?
  {
    var checked := ClientCheck(c, id, v);
    if checked.app.Idle? then [CliCheck(id, v)]
    else if ClientCommit(checked).app.Pushing? && !waits then [CliCheck(id, v), CliCommit, CliPush]
    else [CliCheck(id, v), CliCommit]
  }

  lemma SetRun(s: System, id: Id, v: Variant, waits: bool)
    requires Enabled(s, CliCheck(id, v))
    ensures Reaches(s, SetSteps(s.cli, id, v, waits), s.(cli := ClientSet(s.cli, id, v, waits)))
  {
    OneStep(s, CliCheck(id, v));
    var s1 := Next(s, CliCheck(id, v));
    if !s1.cli.app.Idle? {
      TwoSteps(s, CliCheck(id, v), CliCommit);
      var s2 := Next(s1, CliCommit);
      if s2.cli.app.Pushing? && !waits {
        OneStep(s2, CliPush);
        Continues(s, [CliCheck(id, v), CliCommit], s2, [CliPush], Next(s2, CliPush));
        assert [CliCheck(id, v), CliCommit] + [CliPush] == [CliCheck(id, v), CliCommit, CliPush];
      }
    }
  }

  lemma SetToRun(s: System, id: Id, v: Variant, after: Client, waits: bool)
    requires Enabled(s, CliCheck(id, v)) && after == ClientSet(s.cli, id, v, waits)
    ensures Reaches(s, SetSteps(s.cli, id, v, waits), s.(cli := after))
  {
    SetRun(s, id, v, waits);
  }
}
