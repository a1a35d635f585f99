/** The two peers joined by a pair of FIFO channels, as a transition system over their critical
    sections, jobs, message deliveries and link events. */
module Replication {
  import opened Variants
  import opened ItemModel
  import opened Options
  import opened Peers

  /** `born` records every item the server ever created; `srvTold` and `cliTold` say whether a
      peer has been told that the link is up, or that it is down. */
  datatype System = System(srv: Server, cli: Client, c2s: seq<ClientMsg>, s2c: seq<ServerMsg>,
                           linkUp: bool, srvTold: bool, cliTold: bool, born: map<Id, Item>)

  datatype Step =
    | SrvCall(call: ServerCall)
    | SrvAppPush
    | SrvRxPush
    | SrvPull
    | SrvJob(order: seq<string>)
    | SrvReceive
    | CliCheck(id: Id, value: Variant)
    | CliCommit
    | CliPush
    | CliRxPush
    | CliPull
    | CliJob
    | CliReceive
    | LinkUp
    | SrvConnect
    | CliConnect(order: seq<string>)
    | LinkDown
    | SrvLoss
    | CliLoss

  ghost predicate Init(s: System) {
    && s.srv == Server(EMPTY_MODEL, false, false, false, [], [], None, None)
    && s.cli == Client(Mirror(EMPTY_MODEL, false, [], false), false, [], [], Idle, None, s.cli.supports)
    && s.c2s == [] && s.s2c == [] && !s.linkUp && s.srvTold && s.cliTold && s.born == map[]
  }

  /** All queues are empty and no thread is in the middle of a call. */
  predicate QueuesIdle(s: System) {
    && s.srv.batch == [] && s.srv.pending == [] && s.srv.appPush.None? && s.srv.rxPush.None?
    && s.cli.batch == [] && s.cli.pending == [] && s.cli.app.Idle? && s.cli.rxPush.None?
  }

  /** New items get fresh ids, and the application keeps the type and size of an item when it
      sets its value. */
  ghost predicate Allowed(v: Server, born: map<Id, Item>, call: ServerCall) {
    match call
    case AddItem(id, _, _, _, _) => id != INVALID_ID && id !in born
    case RemoveItem(_) => true
    case SetValue(id, x) => id in v.model.items ==> Compatible(v.model.items[id].current, x)
  }

  function Recorded(born: map<Id, Item>, call: ServerCall): map<Id, Item> {
    if call.AddItem? then
      born[call.id := NewItem(call.id, call.uri, call.description, call.meta, call.value, call.value)]
    else born
  }

  ghost predicate Enabled(s: System, step: Step) {
    match step
    case SrvCall(call) => s.srv.appPush.None? && Allowed(s.srv, s.born, call)
    case SrvAppPush => s.srv.appPush.Some?
    case SrvRxPush => s.srv.rxPush.Some?
    case SrvPull => s.srv.batch == [] && s.srv.pending != []
    case SrvJob(order) => s.srv.batch != [] && Consistent(s.srv.model) && IsWalk(s.srv.model, order)
    case SrvReceive => s.c2s != [] && s.srv.rxPush.None? && s.srvTold
    case CliCheck(_, _) => s.cli.app.Idle? && !s.cli.mirror.halted
    case CliCommit => s.cli.app.Checked? && !s.cli.mirror.halted
    case CliPush => s.cli.app.Pushing?
    case CliRxPush => s.cli.rxPush.Some?
    case CliPull => s.cli.batch == [] && s.cli.pending != []
    case CliJob => s.cli.batch != []
    case CliReceive => s.s2c != [] && s.cli.rxPush.None? && s.cliTold
    case LinkUp => !s.linkUp && s.srvTold && s.cliTold && QueuesIdle(s)
    case SrvConnect => s.linkUp && !s.srvTold
    case CliConnect(order) => s.linkUp && !s.cliTold && s.cli.rxPush.None? && IsWalk(s.cli.mirror.model, order)
    case LinkDown => s.linkUp
    case SrvLoss => !s.linkUp && !s.srvTold
    case CliLoss => !s.linkUp && !s.cliTold
  }

  function Next(s: System, step: Step): System
    requires Enabled(s, step)
  {
    match step
    case SrvCall(call) => s.(srv := ServerCalled(s.srv, call), born := Recorded(s.born, call))
    case SrvAppPush => s.(srv := ServerAppPush(s.srv))
    case SrvRxPush => s.(srv := ServerRxPush(s.srv))
    case SrvPull => s.(srv := ServerPull(s.srv))
    case SrvJob(order) =>
      s.(srv := ServerJobNext(s.srv, order, s.linkUp),
         s2c := if s.linkUp then s.s2c + ServerJobOut(s.srv, order) else s.s2c)
    case SrvReceive => s.(srv := ServerReceive(s.srv, s.c2s[0]), c2s := s.c2s[1..])
    case CliCheck(id, v) => s.(cli := ClientCheck(s.cli, id, v))
    case CliCommit => s.(cli := ClientCommit(s.cli))
    case CliPush => s.(cli := ClientPush(s.cli))
    case CliRxPush => s.(cli := ClientRxPush(s.cli))
    case CliPull => s.(cli := ClientPull(s.cli))
    case CliJob =>
      s.(cli := s.cli.(batch := s.cli.batch[1..]),
         c2s := if s.linkUp then s.c2s + ClientJobOut(s.cli) else s.c2s)
    case CliReceive => s.(cli := s.cli.(mirror := Receive(s.cli.mirror, s.s2c[0])), s2c := s.s2c[1..])
    case LinkUp => s.(linkUp := true, srvTold := false, cliTold := false)
    case SrvConnect => s.(srv := ServerConnect(s.srv), srvTold := true)
    case CliConnect(order) => s.(cli := ClientConnect(s.cli, order), cliTold := true)
    case LinkDown => s.(linkUp := false, srvTold := false, cliTold := false, c2s := [], s2c := [])
    case SrvLoss => s.(srv := s.srv.(connected := false), srvTold := true)
    case CliLoss => s.(cli := s.cli.(connected := false), cliTold := true)
  }

  /** The state after a run of enabled steps from an initial state. */
  ghost predicate Reaches(start: System, steps: seq<Step>, end: System)
    decreases |steps|
  {
    if steps == [] then start == end
    else Enabled(start, steps[0]) && Reaches(Next(start, steps[0]), steps[1..], end)
  }

  // ---- The drained client -----------------------------------------------------------

  /** The client once it has processed every message in the channel. */
  function Drain(c: Mirror, msgs: seq<ServerMsg>): Mirror
    decreases |msgs|
  {
    if msgs == [] then c else Drain(Receive(c, msgs[0]), msgs[1..])
  }

  lemma {:induction false} DrainAppend(c: Mirror, msgs: seq<ServerMsg>, m: ServerMsg)
    ensures Drain(c, msgs + [m]) == Receive(Drain(c, msgs), m)
    decreases |msgs|
  {
    if msgs == [] {
      assert Drain(c, [m]) == Drain(Receive(c, m), []);
    } else {
      assert (msgs + [m])[1..] == msgs[1..] + [m];
      DrainAppend(Receive(c, msgs[0]), msgs[1..], m);
    }
  }

  // ---- Invariant --------------------------------------------------------------------

  /** The server's jobs in the order they will run. */
  function Jobs(v: Server): seq<ServerJob> {
    v.batch + v.pending + (if v.appPush.Some? then [v.appPush.value] else [])
  }

  /** An item with the attributes recorded at creation and a current value of the same shape. */
  ghost predicate Descends(born: map<Id, Item>, it: Item) {
    && it.id in born && SameStatic(it, born[it.id])
    && it.kind == TypeOf(it.defaultValue) && SameShape(it.defaultValue, it.current)
  }

  ghost predicate ModelDescends(born: map<Id, Item>, m: Model) {
    Consistent(m) && forall id :: id in m.items ==> Descends(born, m.items[id])
  }

  ghost predicate AllSupported(sup: bool, m: Model) {
    forall id :: id in m.items ==> Supported(sup, m.items[id].kind)
  }

  ghost predicate MirrorOk(born: map<Id, Item>, sup: bool, c: Mirror) {
    ModelDescends(born, c.model) && AllSupported(sup, c.model) && !c.halted
  }

  ghost predicate DownMsgOk(born: map<Id, Item>, sup: bool, live: map<Id, Item>, m: ServerMsg) {
    match m
    case Features(v) => v == Some(true)
    case Add(a) => Descends(born, a) && Supported(sup, a.kind)
    case Change(id, v) => id in born && SameShape(born[id].defaultValue, v)
    case Remove(id) => id in born && id !in live
  }

  ghost predicate DownOk(born: map<Id, Item>, sup: bool, live: map<Id, Item>, msgs: seq<ServerMsg>) {
    forall m :: m in msgs ==> DownMsgOk(born, sup, live, m)
  }

  ghost predicate UpOk(born: map<Id, Item>, msgs: seq<ClientMsg>) {
    forall m :: m in msgs ==> m.Request? && m.id in born && Compatible(born[m.id].defaultValue, m.value)
  }

  ghost predicate JobOk(born: map<Id, Item>, sup: bool, live: map<Id, Item>, j: ServerJob) {
    match j
    case SubscribeJob => false
    case AppendJob(id) => id in born && Supported(sup, born[id].kind)
    case ChangeJob(_) => true
    case RemoveJob(id) => id in born && id !in live
  }

  ghost predicate JobsOk(born: map<Id, Item>, sup: bool, live: map<Id, Item>, q: seq<ServerJob>) {
    forall j :: j in q ==> JobOk(born, sup, live, j)
  }

  /** Adding a live item before removing another item of the same uri would clash. */
  ghost predicate Clash(born: map<Id, Item>, live: map<Id, Item>, first: ServerJob, second: ServerJob) {
    && first.AppendJob? && second.RemoveJob?
    && first.id in live && first.id in born && second.id in born
    && born[first.id].uri == born[second.id].uri
  }

  ghost predicate Ordered(born: map<Id, Item>, live: map<Id, Item>, q: seq<ServerJob>) {
    forall i, j :: 0 <= i < j < |q| ==> !Clash(born, live, q[i], q[j])
  }

  ghost predicate LocalChange(c: Client, id: Id) {
    ChangeRequest(id) in c.batch || ChangeRequest(id) in c.pending || c.app == Pushing(id)
  }

  /** A change made on the client that the server has not yet seen. */
  ghost predicate InFlight(c: Client, c2s: seq<ClientMsg>, id: Id) {
    LocalChange(c, id) || exists v :: Request(id, v) in c2s
  }

  /** The client's threads and jobs: a job for an item the client no longer has is only left
      over from an item the server no longer has. */
  ghost predicate ClientOk(born: map<Id, Item>, live: map<Id, Item>, c: Client) {
    && (c.app.Checked? ==> c.app.id in born && Compatible(born[c.app.id].defaultValue, c.app.value))
    && (forall j :: j in c.batch || j in c.pending ==> j.ChangeRequest?)
    && (forall id :: LocalChange(c, id) ==> id in born && (id in c.mirror.model.items || id !in live))
  }

  /** The server still has a job to send the current value of `id`. */
  ghost predicate Dirty(v: Server, id: Id) {
    AppendJob(id) in Jobs(v) || ChangeJob(id) in Jobs(v) || v.rxPush == Some(ChangeJob(id))
  }

  /** The drained client `d` agrees with the server about `id`, up to jobs and changes under way. */
  ghost predicate Agrees(v: Server, c: Client, c2s: seq<ClientMsg>, d: Mirror, id: Id) {
    var live := v.model.items;
    && (id in d.model.items && id !in live ==> RemoveJob(id) in Jobs(v))
    && (id in live && id !in d.model.items && Supported(c.supports, live[id].kind) ==> AppendJob(id) in Jobs(v))
    && (id in live && id in d.model.items ==>
          d.model.items[id].current == live[id].current || Dirty(v, id) || InFlight(c, c2s, id))
  }

  ghost predicate AllAgree(v: Server, c: Client, c2s: seq<ClientMsg>, d: Mirror) {
    forall id :: Agrees(v, c, c2s, d, id)
  }

  ghost predicate BornOk(born: map<Id, Item>) {
    && INVALID_ID !in born
    && forall id :: id in born ==> born[id].id == id && born[id].kind == TypeOf(born[id].defaultValue)
  }

  /** What holds whether or not the link is up. */
  ghost predicate Base(s: System) {
    && BornOk(s.born)
    && ModelDescends(s.born, s.srv.model)
    && Consistent(s.cli.mirror.model) && !s.cli.mirror.halted
    && (s.cli.mirror.vectors || s.cli.mirror.model == EMPTY_MODEL)
    && (SubscribeJob in Jobs(s.srv) || s.srv.rxPush == Some(SubscribeJob) ==> s.srv.announced)
    && if s.linkUp then s.cli.connected == s.cliTold
       else s.c2s == [] && s.s2c == [] && (s.srvTold ==> !s.srv.connected) && (s.cliTold ==> !s.cli.connected)
  }

  /** The server has nothing to do, and will be asked for all it supports. */
  ghost predicate ServerWaits(s: System) {
    s.srv.batch + s.srv.pending == [] && s.srv.rxPush == None && (s.srvTold ==> s.srv.vectors)
  }

  /** The client is not told of the connection yet, or its subscription is on its way to the server. */
  ghost predicate SubscriptionLeaves(s: System) {
    var jobs := s.cli.batch + s.cli.pending;
    if !s.cliTold then s.cli.rxPush == None && jobs == [] && s.c2s == []
    else if s.cli.rxPush == Some(SubscribeRequest) then jobs == [] && s.c2s == []
    else
      && s.cli.rxPush == None
      && ((jobs == [SubscribeRequest] && s.c2s == [])
          || (jobs == [] && s.c2s == [Announce(Some(s.cli.supports)), Subscribe]))
  }

  /** The server knows the client's features, and has the subscription or is about to get it. */
  ghost predicate SubscriptionArrives(s: System) {
    var jobs := s.srv.batch + s.srv.pending;
    && s.cliTold && s.srvTold && s.cli.rxPush == None && s.cli.batch + s.cli.pending == []
    && s.srv.announced && s.srv.vectors == s.cli.supports
    && ((s.c2s == [Subscribe] && jobs == [] && s.srv.rxPush == None)
        || (s.c2s == [] && jobs == [] && s.srv.rxPush == Some(SubscribeJob))
        || (s.c2s == [] && jobs == [SubscribeJob] && s.srv.rxPush == None))
  }

  /** The link is up and the server has not yet walked its model for this client: the
      subscription is somewhere on its way and nothing else is happening. */
  ghost predicate Subscribing(s: System) {
    && !s.srv.connected && s.s2c == [] && s.cli.app == Idle && s.srv.appPush == None
    && (s.cliTold ==> s.cli.mirror.model == EMPTY_MODEL && !s.cli.mirror.vectors)
    && ((ServerWaits(s) && SubscriptionLeaves(s)) || SubscriptionArrives(s))
  }

  /** The client learns the server's features before it holds any item. */
  ghost predicate FeaturesFirst(c: Mirror, msgs: seq<ServerMsg>) {
    c.vectors || (c.model == EMPTY_MODEL && msgs != [] && msgs[0] == Features(Some(true)))
  }

  /** The link is up and the server propagates its updates. */
  ghost predicate Live(s: System) {
    && s.srvTold && s.cliTold && s.srv.connected && s.srv.vectors == s.cli.supports && s.cli.rxPush == None
    && (s.srv.rxPush.Some? ==> s.srv.rxPush.value.ChangeJob?)
    && MirrorOk(s.born, s.cli.supports, s.cli.mirror)
    && FeaturesFirst(s.cli.mirror, s.s2c)
    && DownOk(s.born, s.cli.supports, s.srv.model.items, s.s2c)
    && UpOk(s.born, s.c2s)
    && JobsOk(s.born, s.cli.supports, s.srv.model.items, Jobs(s.srv))
    && Ordered(s.born, s.srv.model.items, Jobs(s.srv))
    && ClientOk(s.born, s.srv.model.items, s.cli)
    && MirrorOk(s.born, s.cli.supports, Drain(s.cli.mirror, s.s2c))
    && AllAgree(s.srv, s.cli, s.c2s, Drain(s.cli.mirror, s.s2c))
  }

  ghost predicate Inv(s: System) {
    Base(s) && (s.linkUp ==> Subscribing(s) || Live(s))
  }
}
