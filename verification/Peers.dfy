/** What each critical section, job and message handler of the two peers does to that peer's
    state, and which messages it sends. A call that updates the model and then pushes a job is
    two steps here, as the model lock is released in between. */
module Peers {
  import opened Options
  import opened Variants
  import opened ItemModel
  import opened JobQueue

  // Messages from the server to the client and back. An unparseable feature list is None.
  datatype ServerMsg =
    | Features(vectors: Option<bool>)
    | Add(item: Item)
    | Change(id: Id, value: Variant)
    | Remove(id: Id)

  datatype ClientMsg =
    | Announce(vectors: Option<bool>)
    | Subscribe
    | Request(id: Id, value: Variant)

  // ---- Server -----------------------------------------------------------------------

  datatype ServerJob = SubscribeJob | AppendJob(id: Id) | ChangeJob(id: Id) | RemoveJob(id: Id)

  /** `appPush` and `rxPush` are jobs that the application thread and the receive thread have
      decided on but not yet pushed. */
  datatype Server = Server(model: Model, connected: bool, vectors: bool, announced: bool,
                           batch: seq<ServerJob>, pending: seq<ServerJob>,
                           appPush: Option<ServerJob>, rxPush: Option<ServerJob>)

  function ServerAdd(s: Server, id: Id, uri: string, description: string, meta: string, v: Variant): Server {
    if uri in s.model.index then s
    else
      s.(model := Insert(s.model, NewItem(id, uri, description, meta, v, v)),
         appPush := if Supported(s.vectors, TypeOf(v)) && s.connected then Some(AppendJob(id)) else None)
  }

  function ServerRemove(s: Server, id: Id): Server {
    if id !in s.model.items then s
    else
      s.(model := Delete(s.model, id),
         appPush := if Supported(s.vectors, s.model.items[id].kind) && s.connected
                    then Some(RemoveJob(id)) else None)
  }

  function ServerSet(s: Server, id: Id, v: Variant): Server {
    if id !in s.model.items || Equal(s.model.items[id].current, v) then s
    else
      s.(model := SetCurrent(s.model, id, v),
         appPush := if Supported(s.vectors, TypeOf(s.model.items[id].current)) && s.connected
                    then Some(ChangeJob(id)) else None)
  }

  /** The calls an application may make on the server; a new item gets a fresh id. */
  datatype ServerCall =
    | AddItem(id: Id, uri: string, description: string, meta: string, value: Variant)
    | RemoveItem(id: Id)
    | SetValue(id: Id, value: Variant)

  function ServerCalled(s: Server, call: ServerCall): Server {
    match call
    case AddItem(id, uri, description, meta, v) => ServerAdd(s, id, uri, description, meta, v)
    case RemoveItem(id) => ServerRemove(s, id)
    case SetValue(id, v) => ServerSet(s, id, v)
  }

  function ServerReceive(s: Server, m: ClientMsg): Server {
    match m
    case Announce(vectors) =>
      s.(vectors := s.vectors && (vectors.Some? ==> vectors.value), announced := vectors.Some?)
    case Subscribe =>
      s.(rxPush := Some(SubscribeJob))
    case Request(id, v) =>
      if id in s.model.items && Compatible(s.model.items[id].current, v)
      then s.(model := SetCurrent(s.model, id, v), rxPush := Some(ChangeJob(id)))
      else s.(rxPush := Some(ChangeJob(INVALID_ID)))
  }

  function ServerAppPush(s: Server): Server
    requires s.appPush.Some?
  {
    s.(pending := Enqueue(s.pending, s.appPush.value), appPush := None)
  }

  function ServerRxPush(s: Server): Server
    requires s.rxPush.Some?
  {
    s.(pending := Enqueue(s.pending, s.rxPush.value), rxPush := None)
  }

  function ServerPull(s: Server): Server
    requires s.batch == []
  {
    s.(batch := s.pending, pending := [])
  }

  /** A new connection: until the client says otherwise, it supports all the server does. */
  function ServerConnect(s: Server): Server {
    s.(vectors := true)
  }

  /** The order in which a hash table is walked is any enumeration of its keys. */
  ghost predicate IsWalk(m: Model, order: seq<string>) {
    (forall u :: u in order <==> u in m.index) && NoDuplicates(order)
  }

  function Snapshot(m: Model, vectors: bool, order: seq<string>): seq<ServerMsg>
    requires Consistent(m) && forall u :: u in order ==> u in m.index
  {
    if order == [] then []
    else
      var rest := Snapshot(m, vectors, order[..|order| - 1]);
      assert order[|order| - 1] in order;
      var it := m.items[m.index[order[|order| - 1]]];
      if Supported(vectors, it.kind) then rest + [Add(it)] else rest
  }

  /** What a client is sent: booleans and numbers always, strings and vectors if it takes them. */
  predicate IsSent(vectors: bool, kind: VariantType) {
    kind.TBool? || kind.TScalar? || (vectors && (kind.TString? || kind.TVector?))
  }

  lemma {:induction false} SnapshotSends(m: Model, vectors: bool, order: seq<string>)
    requires Consistent(m) && forall u :: u in order ==> u in m.index
    ensures forall u :: u in order ==>
              (Add(m.items[m.index[u]]) in Snapshot(m, vectors, order) <==> IsSent(vectors, m.items[m.index[u]].kind))
    ensures forall msg :: msg in Snapshot(m, vectors, order) ==>
              msg.Add? && msg.item.uri in order && msg.item == m.items[m.index[msg.item.uri]]
  {
    if order != [] {
      var n := |order| - 1;
      var rest := Snapshot(m, vectors, order[..n]);
      SnapshotSends(m, vectors, order[..n]);
      assert order == order[..n] + [order[n]];
      assert order[n] in order;
    }
  }

  /** Runs the next job of the batch; `linkUp` says whether sends succeed. */
  function ServerJobOut(s: Server, order: seq<string>): seq<ServerMsg>
    requires s.batch != [] && Consistent(s.model) && forall u :: u in order ==> u in s.model.index
  {
    match s.batch[0]
    case SubscribeJob =>
      (if s.announced then [Features(Some(true))] else []) + Snapshot(s.model, s.vectors, order)
    case AppendJob(id) =>
      if id in s.model.items then [Add(s.model.items[id])] else []
    case ChangeJob(id) =>
      if id in s.model.items && s.connected then [Change(id, s.model.items[id].current)] else []
    case RemoveJob(id) =>
      [Remove(id)]
  }

  function ServerJobNext(s: Server, order: seq<string>, linkUp: bool): Server
    requires s.batch != [] && Consistent(s.model) && forall u :: u in order ==> u in s.model.index
  {
    var s' := s.(batch := s.batch[1..]);
    if !s.batch[0].SubscribeJob? then s'
    else if linkUp then s'.(announced := false, connected := true)
    else if s.announced then s'
    else s'.(connected := s.connected || Snapshot(s.model, s.vectors, order) == [])
  }

  // ---- Client -----------------------------------------------------------------------

  datatype Event = ItemAdded(id: Id) | ItemRemoved(id: Id) | ValueChanged(id: Id, value: Variant)

  /** The part of the client that server messages act on. `halted` is the fatal error branch;
      `trace` is the sequence of item callbacks made so far. */
  datatype Mirror = Mirror(model: Model, vectors: bool, trace: seq<Event>, halted: bool)

  datatype ClientJob = SubscribeRequest | ChangeRequest(id: Id)

  /** A client-side set first checks the value under a read lock, then writes it under the write
      lock, then pushes a job. */
  datatype AppThread = Idle | Checked(id: Id, value: Variant) | Pushing(id: Id)

  /** `rxPush` is a job that the receive thread has decided on but not yet pushed. */
  datatype Client = Client(mirror: Mirror, connected: bool, batch: seq<ClientJob>, pending: seq<ClientJob>,
                           app: AppThread, rxPush: Option<ClientJob>, supports: bool)

  predicate AddMatches(a: Item, it: Item) {
    && it.id == a.id && it.uri == a.uri && it.description == a.description && it.meta == a.meta
    && Equal(it.defaultValue, a.defaultValue)
  }

  /** A changed value is announced unless it equals the previous one. */
  function ChangeEvents(it: Item, v: Variant): seq<Event> {
    if Equal(v, it.current) then [] else [ValueChanged(it.id, v)]
  }

  function Receive(c: Mirror, m: ServerMsg): Mirror {
    if c.halted then c else
    match m
    case Features(vectors) =>
      if vectors.Some? then c.(vectors := vectors.value) else c
    case Add(a) =>
      if a.uri in c.model.index then
        var id := c.model.index[a.uri];
        if id !in c.model.items || !AddMatches(a, c.model.items[id]) then c.(halted := true)
        else if Equal(c.model.items[id].current, a.current) then c
        else c.(model := SetCurrent(c.model, id, a.current), trace := c.trace + [ValueChanged(id, a.current)])
      else if a.id in c.model.items || a.id == INVALID_ID then c.(halted := true)
      else c.(model := Insert(c.model, NewItem(a.id, a.uri, a.description, a.meta, a.defaultValue, a.current)),
              trace := c.trace + [ItemAdded(a.id)])
    case Change(id, v) =>
      if id !in c.model.items then c
      else c.(model := SetCurrent(c.model, id, v), trace := c.trace + ChangeEvents(c.model.items[id], v))
    case Remove(id) =>
      if id in c.model.items
      then c.(model := Delete(c.model, id), trace := c.trace + [ItemRemoved(id)])
      else c
  }

  function ClientCheck(c: Client, id: Id, v: Variant): Client {
    if id in c.mirror.model.items && Compatible(c.mirror.model.items[id].current, v) && c.connected
    then c.(app := Checked(id, v))
    else c
  }

  function ClientCommit(c: Client): Client
    requires c.app.Checked?
  {
    var Checked(id, v) := c.app;
    var m := c.mirror.model;
    if id !in m.items || Equal(m.items[id].current, v) then c.(app := Idle)
    else
      c.(mirror := c.mirror.(model := SetCurrent(m, id, v)),
         app := if Supported(c.mirror.vectors, TypeOf(m.items[id].current)) && c.connected
                then Pushing(id) else Idle)
  }

  function ClientPush(c: Client): Client
    requires c.app.Pushing?
  {
    c.(pending := Enqueue(c.pending, ChangeRequest(c.app.id)), app := Idle)
  }

  function ClientRxPush(c: Client): Client
    requires c.rxPush.Some?
  {
    c.(pending := Enqueue(c.pending, c.rxPush.value), rxPush := None)
  }

  function ClientPull(c: Client): Client
    requires c.batch == []
  {
    c.(batch := c.pending, pending := [])
  }

  function ClientJobOut(c: Client): seq<ClientMsg>
    requires c.batch != []
  {
    match c.batch[0]
    case SubscribeRequest => [Announce(Some(c.supports)), Subscribe]
    case ChangeRequest(id) =>
      if id in c.mirror.model.items && c.connected
      then [Request(id, c.mirror.model.items[id].current)] else []
  }

  /** All items leave with a callback each, in the order the uri index is walked. */
  function RemovalEvents(m: Model, order: seq<string>): seq<Event>
    requires forall u :: u in order ==> u in m.index
  {
    if order == [] then []
    else
      assert order[|order| - 1] in order;
      RemovalEvents(m, order[..|order| - 1]) + [ItemRemoved(m.index[order[|order| - 1]])]
  }

  function ClientConnect(c: Client, order: seq<string>): Client
    requires forall u :: u in order ==> u in c.mirror.model.index
  {
    c.(mirror := Mirror(EMPTY_MODEL, false, c.mirror.trace + RemovalEvents(c.mirror.model, order), c.mirror.halted),
       connected := true,
       rxPush := Some(SubscribeRequest))
  }
}
