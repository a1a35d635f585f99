/** A value set on the client takes effect on the server: between two peers at rest there is only one
    way for it to go, and it ends with both of them holding the value. */
module ClientChanges {
  import opened Variants
  import opened ItemModel
  import opened Options
  import opened Peers
  import opened Replication
  import opened ReplicationProofs
  import opened Settling
  import opened Runs
  import opened History

  /** Two live peers at rest hold an item, and the value is another one it may have. */
  ghost predicate Settable(s: System, id: Id, v: Variant) {
    && Quiescent(s) && s.srv.connected && s.cli.connected && !s.cli.mirror.halted
    && Consistent(s.srv.model) && Consistent(s.cli.mirror.model)
    && id in s.cli.mirror.model.items && id in s.srv.model.items
    && var held := s.cli.mirror.model.items[id].current;
       && s.srv.model.items[id].current == held && Replaces(held, v) && held != v
       && Supported(s.cli.mirror.vectors, TypeOf(held))
  }

  lemma RestSettable(s: System, id: Id, v: Variant)
    requires Inv(s) && Quiescent(s) && id in s.cli.mirror.model.items
    requires Replaces(s.cli.mirror.model.items[id].current, v) && s.cli.mirror.model.items[id].current != v
    ensures Settable(s, id, v)
  {
    QuiescentConverged(s);
    assert Live(s) && s.cli.mirror.vectors;
  }

  /** The eight states after the client has written the value, up to rest. */
  function Stage(s: System, id: Id, v: Variant, k: nat): System
    requires id in s.cli.mirror.model.items && id in s.srv.model.items
  {
    var cli := s.cli.(mirror := s.cli.mirror.(model := SetCurrent(s.cli.mirror.model, id, v)));
    var srv := s.srv.(model := SetCurrent(s.srv.model, id, v));
    if k == 0 then s.(cli := cli.(app := Pushing(id)))
    else if k == 1 then s.(cli := cli.(pending := [ChangeRequest(id)]))
    else if k == 2 then s.(cli := cli.(batch := [ChangeRequest(id)]))
    else if k == 3 then s.(cli := cli, c2s := [Request(id, v)])
    else if k == 4 then s.(cli := cli, srv := srv.(rxPush := Some(ChangeJob(id))))
    else if k == 5 then s.(cli := cli, srv := srv.(pending := [ChangeJob(id)]))
    else if k == 6 then s.(cli := cli, srv := srv.(batch := [ChangeJob(id)]))
    else if k == 7 then s.(cli := cli, srv := srv, s2c := [Change(id, v)])
    else s.(cli := cli, srv := srv)
  }

  /** The one internal step that can be taken there. */
  predicate IsStep(k: nat, step: Step) {
    match k
    case 0 => step.CliPush?
    case 1 => step.CliPull?
    case 2 => step.CliJob?
    case 3 => step.SrvReceive?
    case 4 => step.SrvRxPush?
    case 5 => step.SrvPull?
    case 6 => step.SrvJob?
    case 7 => step.CliReceive?
    case _ => false
  }

  lemma OnlyStep(s: System, id: Id, v: Variant, k: nat, step: Step)
    requires Settable(s, id, v) && Internal(step) && Enabled(Stage(s, id, v, k), step)
    ensures IsStep(k, step)
  {
  }

  lemma ClientStages(s: System, id: Id, v: Variant, k: nat)
    requires Settable(s, id, v) && k < 3
    ensures var step := if k == 0 then CliPush else if k == 1 then CliPull else CliJob;
            Takes(Stage(s, id, v, k), step, Stage(s, id, v, k + 1))
  {
  }

  lemma ServerAccepts(s: System, id: Id, v: Variant)
    requires Settable(s, id, v)
    ensures Takes(Stage(s, id, v, 3), SrvReceive, Stage(s, id, v, 4))
  {
    ReplacesExactly(s.srv.model.items[id].current, v);
  }

  lemma ServerStages(s: System, id: Id, v: Variant, k: nat)
    requires Settable(s, id, v) && 4 <= k < 6
    ensures Takes(Stage(s, id, v, k), if k == 4 then SrvRxPush else SrvPull, Stage(s, id, v, k + 1))
  {
  }

  lemma ServerEchoes(s: System, id: Id, v: Variant, order: seq<string>)
    requires Settable(s, id, v) && Enabled(Stage(s, id, v, 6), SrvJob(order))
    ensures Takes(Stage(s, id, v, 6), SrvJob(order), Stage(s, id, v, 7))
  {
  }

  /** A value that is there already is taken without a word. */
  lemma SameValue(c: Mirror, id: Id, v: Variant)
    requires id in c.model.items && c.model.items[id].current == v && v != Null
    ensures Receive(c, Change(id, v)) == c
  {
    assert SetCurrent(c.model, id, v) == c.model;
    assert c.trace + [] == c.trace;
  }

  lemma EchoHeard(s: System, id: Id, v: Variant)
    requires Settable(s, id, v)
    ensures Takes(Stage(s, id, v, 7), CliReceive, Stage(s, id, v, 8))
  {
    SameValue(Stage(s, id, v, 7).cli.mirror, id, v);
  }

  lemma EarlyStage(s: System, id: Id, v: Variant, k: nat, step: Step)
    requires Settable(s, id, v) && k < 4 && IsStep(k, step)
    ensures Takes(Stage(s, id, v, k), step, Stage(s, id, v, k + 1))
  {
    if k < 3 {
      ClientStages(s, id, v, k);
    } else {
      ServerAccepts(s, id, v);
    }
  }

  lemma LateStage(s: System, id: Id, v: Variant, k: nat, step: Step)
    requires Settable(s, id, v) && 4 <= k && IsStep(k, step) && Enabled(Stage(s, id, v, k), step)
    ensures Takes(Stage(s, id, v, k), step, Stage(s, id, v, k + 1))
  {
    match k
    case 6 => ServerEchoes(s, id, v, step.order);
    case 7 => EchoHeard(s, id, v);
    case _ => ServerStages(s, id, v, k);
  }

  lemma NextStage(s: System, id: Id, v: Variant, k: nat, step: Step)
    requires Settable(s, id, v) && Internal(step) && Enabled(Stage(s, id, v, k), step)
    ensures k < 8 && Takes(Stage(s, id, v, k), step, Stage(s, id, v, k + 1))
  {
    OnlyStep(s, id, v, k, step);
    if k < 4 {
      EarlyStage(s, id, v, k, step);
    } else {
      LateStage(s, id, v, k, step);
    }
  }

  /** States of which each has only the next one to go on to, if any. */
  ghost predicate IsChain(xs: seq<System>) {
    forall k, step :: 0 <= k < |xs| && Internal(step) && Enabled(xs[k], step)
                      ==> k + 1 < |xs| && Takes(xs[k], step, xs[k + 1])
  }

  lemma {:induction false} RunChain(xs: seq<System>, k: nat, steps: seq<Step>, end: System)
    requires IsChain(xs) && k < |xs| && Reaches(xs[k], steps, end)
    requires forall i :: 0 <= i < |steps| ==> Internal(steps[i])
    ensures k + |steps| < |xs| && end == xs[k + |steps|]
    decreases |steps|
  {
    if steps != [] {
      assert Internal(steps[0]) && Enabled(xs[k], steps[0]);
      RunChain(xs, k + 1, steps[1..], end);
    }
  }

  lemma RunStages(s: System, id: Id, v: Variant, k: nat, steps: seq<Step>, end: System)
    requires Settable(s, id, v) && k <= 8 && Reaches(Stage(s, id, v, k), steps, end)
    requires forall i :: 0 <= i < |steps| ==> Internal(steps[i])
    ensures k + |steps| <= 8 && end == Stage(s, id, v, k + |steps|)
  {
    var xs := seq(9, n requires 0 <= n < 9 => Stage(s, id, v, n));
    forall n, step | 0 <= n < |xs| && Internal(step) && Enabled(xs[n], step)
      ensures n + 1 < |xs| && Takes(xs[n], step, xs[n + 1])
    {
      NextStage(s, id, v, n, step);
    }
    RunChain(xs, k, steps, end);
  }

  lemma LastStage(s: System, id: Id, v: Variant, k: nat)
    requires Settable(s, id, v) && k <= 8
    ensures Quiescent(Stage(s, id, v, k)) <==> k == 8
  {
  }

  lemma CheckedAndWritten(s: System, id: Id, v: Variant)
    requires Settable(s, id, v)
    ensures Reaches(s, [CliCheck(id, v), CliCommit], Stage(s, id, v, 0))
  {
    ReplacesExactly(s.cli.mirror.model.items[id].current, v);
    TwoSteps(s, CliCheck(id, v), CliCommit);
  }

  /** Only the value of this item differs. */
  ghost predicate OnlySet(before: map<Id, Item>, after: map<Id, Item>, id: Id, v: Variant) {
    id in before && after == before[id := before[id].(current := v)]
  }

  lemma EndStage(s: System, id: Id, v: Variant)
    requires Settable(s, id, v)
    ensures OnlySet(s.srv.model.items, Stage(s, id, v, 8).srv.model.items, id, v)
    ensures OnlySet(s.cli.mirror.model.items, Stage(s, id, v, 8).cli.mirror.model.items, id, v)
  {
  }

  /** All steps are internal, and they lead to rest. */
  ghost predicate Rests(s: System, steps: seq<Step>, end: System) {
    Reaches(s, steps, end) && (forall i :: 0 <= i < |steps| ==> Internal(steps[i])) && Quiescent(end)
  }

  lemma RestsAtEnd(s: System, id: Id, v: Variant, k: nat, steps: seq<Step>, end: System)
    requires Settable(s, id, v) && k <= 8 && Rests(Stage(s, id, v, k), steps, end)
    ensures end == Stage(s, id, v, 8)
  {
    RunStages(s, id, v, k, steps, end);
    LastStage(s, id, v, k + |steps|);
  }

  lemma SetSettles(s: System, id: Id, v: Variant, written: System, more: seq<Step>, end: System)
    requires Settable(s, id, v) && Reaches(s, [CliCheck(id, v), CliCommit], written) && Rests(written, more, end)
    ensures end == Stage(s, id, v, 8)
  {
    CheckedAndWritten(s, id, v);
    SameEnd(s, [CliCheck(id, v), CliCommit], written, Stage(s, id, v, 0));
    RestsAtEnd(s, id, v, 0, more, end);
  }

  /** Whatever the peers do by themselves after the client has set a value an item may have, they come
      to rest with both holding that value, and nothing else has changed on either side. */
  lemma ClientSetTakesEffect(s: System, id: Id, v: Variant, written: System, more: seq<Step>, end: System)
    requires Inv(s) && Quiescent(s) && id in s.cli.mirror.model.items
    requires Replaces(s.cli.mirror.model.items[id].current, v) && s.cli.mirror.model.items[id].current != v
    requires Reaches(s, [CliCheck(id, v), CliCommit], written) && Rests(written, more, end)
    ensures OnlySet(s.srv.model.items, end.srv.model.items, id, v)
    ensures OnlySet(s.cli.mirror.model.items, end.cli.mirror.model.items, id, v)
  {
    RestSettable(s, id, v);
    SetSettles(s, id, v, written, more, end);
    EndStage(s, id, v);
  }

  lemma {:induction false} SameEnd(s: System, steps: seq<Step>, a: System, b: System)
    requires Reaches(s, steps, a) && Reaches(s, steps, b)
    ensures a == b
    decreases |steps|
  {
    if steps != [] {
      SameEnd(Next(s, steps[0]), steps[1..], a, b);
    }
  }

  /** A set as the client's thread makes it, with its request pushed or left waiting. */
  lemma SetStage(s: System, id: Id, v: Variant, waits: bool, written: System)
    requires Settable(s, id, v) && Reaches(s, SetSteps(s.cli, id, v, waits), written)
    ensures written == Stage(s, id, v, if waits then 0 else 1)
  {
    ReplacesExactly(s.cli.mirror.model.items[id].current, v);
    SetRun(s, id, v, waits);
    SameEnd(s, SetSteps(s.cli, id, v, waits), written, s.(cli := ClientSet(s.cli, id, v, waits)));
  }
}
