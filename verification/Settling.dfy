/** Left to themselves, two connected peers come to rest: every internal step uses up some of a
    finite measure, and a pair that is not at rest can always take one. */
module Settling {
  import opened ItemModel
  import opened JobQueue
  import opened Options
  import opened Peers
  import opened Replication
  import opened ReplicationProofs

  /** Steps that need no application call and no change of the link. */
  predicate Internal(step: Step) {
    match step
    case SrvAppPush => true
    case SrvRxPush => true
    case SrvPull => true
    case SrvJob(_) => true
    case SrvReceive => true
    case CliCommit => true
    case CliPush => true
    case CliRxPush => true
    case CliPull => true
    case CliJob => true
    case CliReceive => true
    case SrvConnect => true
    case CliConnect(_) => true
    case _ => false
  }

  // ---- The measure: each entry weighs more than all that can come of it ----------------

  function JobWeight(j: ServerJob, n: nat): nat { if j.SubscribeJob? then n + 2 else 2 }

  function JobsWeight(q: seq<ServerJob>, n: nat): nat {
    if q == [] then 0 else JobsWeight(q[..|q| - 1], n) + JobWeight(q[|q| - 1], n)
  }

  function MsgWeight(m: ClientMsg, n: nat): nat {
    match m
    case Announce(_) => 1
    case Subscribe => n + 5
    case Request(_, _) => 5
  }

  function MsgsWeight(q: seq<ClientMsg>, n: nat): nat {
    if q == [] then 0 else MsgsWeight(q[..|q| - 1], n) + MsgWeight(q[|q| - 1], n)
  }

  function RequestWeight(j: ClientJob, n: nat): nat { if j.SubscribeRequest? then n + 7 else 6 }

  function RequestsWeight(q: seq<ClientJob>, n: nat): nat {
    if q == [] then 0 else RequestsWeight(q[..|q| - 1], n) + RequestWeight(q[|q| - 1], n)
  }

  function PushWeight(p: Option<ServerJob>, n: nat): nat {
    if p.Some? then JobWeight(p.value, n) + 2 else 0
  }

  function ServerWeight(v: Server, n: nat): nat {
    JobsWeight(v.batch, n) + JobsWeight(v.pending, n) + |v.pending| + PushWeight(v.appPush, n) + PushWeight(v.rxPush, n)
  }

  function ClientWeight(c: Client, n: nat): nat {
    RequestsWeight(c.batch, n) + RequestsWeight(c.pending, n) + |c.pending|
    + (if c.rxPush.Some? then RequestWeight(c.rxPush.value, n) + 2 else 0)
    + match c.app
      case Idle => 0
      case Pushing(_) => 8
      case Checked(_, _) => 9
  }

  function Measure(s: System): nat {
    var n := |s.srv.model.index|;
    ServerWeight(s.srv, n) + ClientWeight(s.cli, n) + MsgsWeight(s.c2s, n) + |s.s2c| + UntoldWeight(s, n)
  }

  /** A peer that is not told of the connection yet; the client will subscribe when it is. */
  function UntoldWeight(s: System, n: nat): nat {
    (if s.srvTold then 0 else 1) + if s.cliTold then 0 else n + 10
  }

  lemma {:induction false} JobsWeightHead(q: seq<ServerJob>, n: nat)
    requires q != []
    ensures JobsWeight(q, n) == JobWeight(q[0], n) + JobsWeight(q[1..], n)
  {
    if |q| > 1 {
      JobsWeightHead(q[..|q| - 1], n);
      assert q[..|q| - 1][1..] == q[1..][..|q| - 2];
    }
  }

  lemma {:induction false} MsgsWeightHead(q: seq<ClientMsg>, n: nat)
    requires q != []
    ensures MsgsWeight(q, n) == MsgWeight(q[0], n) + MsgsWeight(q[1..], n)
  {
    if |q| > 1 {
      MsgsWeightHead(q[..|q| - 1], n);
      assert q[..|q| - 1][1..] == q[1..][..|q| - 2];
    }
  }

  lemma {:induction false} RequestsWeightHead(q: seq<ClientJob>, n: nat)
    requires q != []
    ensures RequestsWeight(q, n) == RequestWeight(q[0], n) + RequestsWeight(q[1..], n)
  {
    if |q| > 1 {
      RequestsWeightHead(q[..|q| - 1], n);
      assert q[..|q| - 1][1..] == q[1..][..|q| - 2];
    }
  }

  lemma MsgsWeightAppend(q: seq<ClientMsg>, m: ClientMsg, n: nat)
    ensures MsgsWeight(q + [m], n) == MsgsWeight(q, n) + MsgWeight(m, n)
  {
    assert (q + [m])[..|q|] == q;
  }

  lemma EnqueueWeight(q: seq<ServerJob>, j: ServerJob, n: nat)
    ensures JobsWeight(Enqueue(q, j), n) + |Enqueue(q, j)| <= JobsWeight(q, n) + |q| + JobWeight(j, n) + 1
  {
    assert (q + [j])[..|q|] == q;
  }

  lemma EnqueueRequestWeight(q: seq<ClientJob>, j: ClientJob, n: nat)
    ensures RequestsWeight(Enqueue(q, j), n) + |Enqueue(q, j)| <= RequestsWeight(q, n) + |q| + RequestWeight(j, n) + 1
  {
    assert (q + [j])[..|q|] == q;
  }

  /** A walk visits each uri once. */
  lemma {:induction false} WalkLength(order: seq<string>, keys: set<string>)
    requires NoDuplicates(order) && (forall u :: u in order ==> u in keys)
    ensures |order| <= |keys|
  {
    if order != [] {
      var n := |order| - 1;
      var u := order[n];
      assert u in order;
      assert order == order[..n] + [u];
      WalkLength(order[..n], keys - {u});
    }
  }

  lemma {:induction false} SnapshotLength(m: Model, vectors: bool, order: seq<string>)
    requires Consistent(m) && forall u :: u in order ==> u in m.index
    ensures |Snapshot(m, vectors, order)| <= |order|
  {
    if order != [] {
      SnapshotLength(m, vectors, order[..|order| - 1]);
    }
  }

  // ---- Every internal step uses some of it ------------------------------------------

  lemma ServerStepDecreases(s: System, step: Step)
    requires Enabled(s, step) && (step.SrvAppPush? || step.SrvRxPush? || step.SrvPull?)
    ensures Measure(Next(s, step)) < Measure(s)
  {
    var n := |s.srv.model.index|;
    match step
    case SrvAppPush => EnqueueWeight(s.srv.pending, s.srv.appPush.value, n);
    case SrvRxPush => EnqueueWeight(s.srv.pending, s.srv.rxPush.value, n);
    case SrvPull =>
  }

  lemma ServerJobLight(v: Server, order: seq<string>)
    requires v.batch != [] && Consistent(v.model) && IsWalk(v.model, order)
    ensures |ServerJobOut(v, order)| < JobWeight(v.batch[0], |v.model.index|)
  {
    WalkLength(order, v.model.index.Keys);
    SnapshotLength(v.model, v.vectors, order);
  }

  lemma ServerJobNextLight(v: Server, order: seq<string>)
    requires v.batch != [] && Consistent(v.model) && IsWalk(v.model, order)
    ensures ServerJobNext(v, order, true).model == v.model
    ensures forall n: nat ::
              ServerWeight(ServerJobNext(v, order, true), n) + JobWeight(v.batch[0], n) == ServerWeight(v, n)
  {
    forall n: nat {
      JobsWeightHead(v.batch, n);
    }
  }

  lemma SrvJobDecreases(s: System, order: seq<string>)
    requires s.srv.batch != [] && Consistent(s.srv.model) && IsWalk(s.srv.model, order)
    ensures Measure(s.(srv := ServerJobNext(s.srv, order, true), s2c := s.s2c + ServerJobOut(s.srv, order)))
          < Measure(s)
  {
    ServerJobLight(s.srv, order);
    ServerJobNextLight(s.srv, order);
  }

  lemma ServerReceiveLight(v: Server, m: ClientMsg, n: nat)
    requires v.rxPush.None?
    ensures ServerReceive(v, m).model.index == v.model.index
    ensures ServerWeight(ServerReceive(v, m), n) < ServerWeight(v, n) + MsgWeight(m, n)
  {
  }

  lemma SrvReceiveDecreases(s: System)
    requires s.c2s != [] && s.srv.rxPush.None?
    ensures Measure(s.(srv := ServerReceive(s.srv, s.c2s[0]), c2s := s.c2s[1..])) < Measure(s)
  {
    MsgsWeightHead(s.c2s, |s.srv.model.index|);
    ServerReceiveLight(s.srv, s.c2s[0], |s.srv.model.index|);
  }

  lemma CommitDecreases(s: System)
    requires s.cli.app.Checked?
    ensures Measure(s.(cli := ClientCommit(s.cli))) < Measure(s)
  {
  }

  lemma PushDecreases(s: System)
    requires s.cli.app.Pushing?
    ensures Measure(s.(cli := ClientPush(s.cli))) < Measure(s)
  {
    EnqueueRequestWeight(s.cli.pending, ChangeRequest(s.cli.app.id), |s.srv.model.index|);
  }

  lemma PullDecreases(s: System)
    requires s.cli.batch == [] && s.cli.pending != []
    ensures Measure(s.(cli := ClientPull(s.cli))) < Measure(s)
  {
  }

  lemma CliReceiveDecreases(s: System)
    requires s.s2c != []
    ensures Measure(s.(cli := s.cli.(mirror := Receive(s.cli.mirror, s.s2c[0])), s2c := s.s2c[1..])) < Measure(s)
  {
  }

  lemma ClientJobLight(c: Client, c2s: seq<ClientMsg>, n: nat)
    requires c.batch != []
    ensures MsgsWeight(c2s + ClientJobOut(c), n) < MsgsWeight(c2s, n) + RequestWeight(c.batch[0], n)
  {
    var out := ClientJobOut(c);
    if c.batch[0].SubscribeRequest? {
      MsgsWeightAppend(c2s, out[0], n);
      MsgsWeightAppend(c2s + [out[0]], out[1], n);
      assert c2s + out == c2s + [out[0]] + [out[1]];
    } else if out != [] {
      MsgsWeightAppend(c2s, out[0], n);
    } else {
      assert c2s + out == c2s;
    }
  }

  lemma CliJobDecreases(s: System)
    requires s.cli.batch != []
    ensures Measure(s.(cli := s.cli.(batch := s.cli.batch[1..]),
                       c2s := if s.linkUp then s.c2s + ClientJobOut(s.cli) else s.c2s)) < Measure(s)
  {
    var n := |s.srv.model.index|;
    RequestsWeightHead(s.cli.batch, n);
    ClientJobLight(s.cli, s.c2s, n);
  }

  lemma ConnectDecreases(s: System, step: Step)
    requires Enabled(s, step) && (step.CliRxPush? || step.SrvConnect? || step.CliConnect?)
    ensures Measure(Next(s, step)) < Measure(s)
  {
    if step.CliRxPush? {
      EnqueueRequestWeight(s.cli.pending, s.cli.rxPush.value, |s.srv.model.index|);
    }
  }

  lemma InternalDecreases(s: System, step: Step)
    requires Enabled(s, step) && Internal(step) && s.linkUp
    ensures Next(s, step).linkUp && Measure(Next(s, step)) < Measure(s)
  {
    match step
    case SrvJob(order) => SrvJobDecreases(s, order);
    case SrvReceive => SrvReceiveDecreases(s);
    case CliJob => CliJobDecreases(s);
    case SrvAppPush => ServerStepDecreases(s, step);
    case SrvRxPush => ServerStepDecreases(s, step);
    case SrvPull => ServerStepDecreases(s, step);
    case CliCommit => CommitDecreases(s);
    case CliPush => PushDecreases(s);
    case CliPull => PullDecreases(s);
    case CliReceive => CliReceiveDecreases(s);
    case CliRxPush => ConnectDecreases(s, step);
    case SrvConnect => ConnectDecreases(s, step);
    case CliConnect(_) => ConnectDecreases(s, step);
  }

  // ---- A pair that is not at rest can take an internal step ---------------------------

  lemma {:induction false} WalkExists(keys: set<string>) returns (order: seq<string>)
    ensures (forall u :: u in order <==> u in keys) && NoDuplicates(order)
  {
    if keys == {} {
      order := [];
    } else {
      var u :| u in keys;
      order := WalkExists(keys - {u});
      order := order + [u];
    }
  }

  lemma Progress(s: System) returns (step: Step)
    requires Inv(s) && s.linkUp && !Quiescent(s)
    ensures Internal(step) && Enabled(s, step)
  {
    if !s.srvTold {
      step := SrvConnect;
    } else if !s.cliTold {
      var order := WalkExists(s.cli.mirror.model.index.Keys);
      step := CliConnect(order);
    } else if s.cli.rxPush.Some? {
      step := CliRxPush;
    } else if s.srv.batch != [] {
      var order := WalkExists(s.srv.model.index.Keys);
      step := SrvJob(order);
    } else if s.srv.pending != [] {
      step := SrvPull;
    } else if s.srv.appPush.Some? {
      step := SrvAppPush;
    } else if s.srv.rxPush.Some? {
      step := SrvRxPush;
    } else if s.c2s != [] {
      step := SrvReceive;
    } else if s.s2c != [] {
      step := CliReceive;
    } else if s.cli.batch != [] {
      step := CliJob;
    } else if s.cli.pending != [] {
      step := CliPull;
    } else if s.cli.app.Pushing? {
      step := CliPush;
    } else {
      step := CliCommit;
    }
  }

  /** From any reachable connected state, internal steps alone lead to a converged state. */
  lemma {:induction false} Settles(s: System) returns (steps: seq<Step>, end: System)
    requires Inv(s) && s.linkUp
    ensures Reaches(s, steps, end) && (forall i :: 0 <= i < |steps| ==> Internal(steps[i]))
    ensures Quiescent(end) && Converged(end)
    decreases Measure(s)
  {
    if Quiescent(s) {
      QuiescentConverged(s);
      steps, end := [], s;
    } else {
      var step := Progress(s);
      InternalDecreases(s, step);
      KeepStep(s, step);
      var rest;
      rest, end := Settles(Next(s, step));
      steps := [step] + rest;
      assert steps[1..] == rest;
    }
  }

  /** No schedule of internal steps is longer than the measure. */
  lemma {:induction false} InternalRunIsBounded(s: System, steps: seq<Step>, end: System)
    requires s.linkUp && Reaches(s, steps, end) && (forall i :: 0 <= i < |steps| ==> Internal(steps[i]))
    ensures |steps| + Measure(end) <= Measure(s)
    decreases |steps|
  {
    if steps != [] {
      InternalDecreases(s, steps[0]);
      InternalRunIsBounded(Next(s, steps[0]), steps[1..], end);
    }
  }

  /** Eventual convergence: after any run that leaves the link up, every way of letting the
      peers work on without new calls ends within a bounded number of steps, and can only end
      with the client mirroring the server. */
  lemma EventualConvergence(start: System, steps: seq<Step>, mid: System, more: seq<Step>, end: System)
    requires Init(start) && Reaches(start, steps, mid) && mid.linkUp
    requires Reaches(mid, more, end) && (forall i :: 0 <= i < |more| ==> Internal(more[i]))
    ensures |more| <= Measure(mid)
    ensures Converged(end) || exists step :: Internal(step) && Enabled(end, step)
  {
    RunKeepsInv(start, steps, mid);
    RunKeepsInv(mid, more, end);
    InternalRunIsBounded(mid, more, end);
    LinkStaysUp(mid, more, end);
    if Quiescent(end) {
      QuiescentConverged(end);
    } else {
      var step := Progress(end);
    }
  }

  lemma {:induction false} LinkStaysUp(s: System, steps: seq<Step>, end: System)
    requires s.linkUp && Reaches(s, steps, end) && (forall i :: 0 <= i < |steps| ==> Internal(steps[i]))
    ensures end.linkUp
    decreases |steps|
  {
    if steps != [] {
      InternalDecreases(s, steps[0]);
      LinkStaysUp(Next(s, steps[0]), steps[1..], end);
    }
  }
}
