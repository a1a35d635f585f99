/** The server and client contexts as the program runs them: objects whose handlers update their
    tables in place and hand jobs to a queue. Between two handlers the tables are consistent. What a
    context shows of itself is a peer of the protocol model, and every handler is a run of the
    protocol, whatever system `s` the context is part of. */
module Contexts {
  import History
  import opened ItemModel
  import opened JobQueue
  import opened Options
  import opened Peers
  import opened Replication
  import opened Runs
  import opened Variants

  datatype ErrorCode = Success | ItemNotFound | TypeMismatch | PeerDisconnected

  /** What a client is told about a change it asks for: the first of the three reasons against it that
      applies, or success. */
  function SetCode(items: map<Id, Item>, connected: bool, id: Id, v: Variant): ErrorCode {
    if id !in items then ItemNotFound
    else if !History.Replaces(items[id].current, v) then TypeMismatch
    else if !connected then PeerDisconnected
    else Success
  }

  const QUEUE_SIZE := 100

  class ServerContext {
    var items: map<Id, Item>
    var index: map<string, Id>
    var connected: bool
    var vectors: bool
    var announced: bool
    const queue: Queue<ServerJob>
    var executed: nat
    var appPush: Option<ServerJob>
    var rxPush: Option<ServerJob>

    ghost predicate Valid()
      reads this, queue, queue.Repr()
    {
      && queue.Valid() && queue.maxSize == QUEUE_SIZE && executed <= |queue.Buffered().executing|
      && Consistent(Model(items, index))
    }

    ghost function Repr(): set<object>
      reads this, queue
    {
      {this} + queue.Repr()
    }

    ghost function View(): Server
      requires Valid()
      reads this, queue, queue.Repr()
    {
      var jobs := queue.Buffered();
      Server(Model(items, index), connected, vectors, announced, jobs.executing[executed..], jobs.filling,
             appPush, rxPush)
    }

    /** The tables and the decisions of the threads are those of a peer. */
    predicate Changed(s: Server)
      reads this
    {
      && Model(items, index) == s.model && vectors == s.vectors && announced == s.announced
      && appPush == s.appPush && rxPush == s.rxPush
    }

    constructor ()
      ensures Valid() && fresh(Repr())
      ensures View() == Server(EMPTY_MODEL, false, false, false, [], [], None, None)
    {
      items, index := map[], map[];
      connected, vectors, announced := false, false, false;
      appPush, rxPush := None, None;
      executed := 0;
      queue := new Queue(QUEUE_SIZE);
    }

    /** Pushes the job the application thread has decided on in a call, if there is room for it. */
    method PushApp(ghost s: System, ghost call: ServerCall)
      requires Valid() && View() == ServerCalled(s.srv, call)
      modifies this`appPush, queue, queue.jobs0, queue.jobs1
      ensures Valid() && fresh(Repr() - old(Repr())) && (appPush.Some? ==> queue.Full())
      ensures Called(s, call, View(), appPush.Some?)
    {
      FlushApp();
      CalledRun(s, call, View(), appPush.Some?);
    }

    method FlushApp()
      requires Valid()
      modifies this`appPush, queue, queue.jobs0, queue.jobs1
      ensures Valid() && fresh(Repr() - old(Repr())) && (appPush.Some? ==> queue.Full())
      ensures View() == AppFlushed(old(View()), appPush.Some?)
    {
      if appPush.Some? {
        var done := queue.Push(appPush.value);
        if done {
          appPush := None;
        }
      }
    }

    /** Pushes the job the receive thread has decided on for a message, if there is room for it. */
    method PushRx(ghost s: System, ghost m: ClientMsg)
      requires Valid() && View() == ServerReceive(s.srv, m)
      modifies this`rxPush, queue, queue.jobs0, queue.jobs1
      ensures Valid() && fresh(Repr() - old(Repr())) && (rxPush.Some? ==> queue.Full())
      ensures Received(s, m, View(), rxPush.Some?)
    {
      FlushRx();
      ReceivedRun(s, m, View(), rxPush.Some?);
    }

    method FlushRx()
      requires Valid()
      modifies this`rxPush, queue, queue.jobs0, queue.jobs1
      ensures Valid() && fresh(Repr() - old(Repr())) && (rxPush.Some? ==> queue.Full())
      ensures View() == RxFlushed(old(View()), rxPush.Some?)
    {
      if rxPush.Some? {
        var done := queue.Push(rxPush.value);
        if done {
          rxPush := None;
        }
      }
    }

    // Each call and each message has a critical section, in which the tables change and the
    // thread decides on a job, and then pushes that job outside the lock.

    /** `freshId` is what the id generator yields. Returns INVALID_ID when the uri is taken. */
    method AddItem(uri: string, description: string, meta: string, initial: Variant, freshId: Id, ghost s: System)
      returns (id: Id)
      requires Valid() && appPush.None? && freshId != INVALID_ID && freshId !in items && s.srv == View()
      modifies this`items, this`index, this`appPush, queue, queue.jobs0, queue.jobs1
      ensures Valid() && fresh(Repr() - old(Repr())) && (appPush.Some? ==> queue.Full())
      ensures id == if uri in old(index) then INVALID_ID else freshId
      ensures Called(s, ServerCall.AddItem(freshId, uri, description, meta, initial), View(), appPush.Some?)
    {
      id := AddLocked(uri, description, meta, initial, freshId);
      PushApp(s, ServerCall.AddItem(freshId, uri, description, meta, initial));
    }

    method AddLocked(uri: string, description: string, meta: string, initial: Variant, freshId: Id) returns (id: Id)
      requires Valid() && appPush.None? && freshId != INVALID_ID && freshId !in items
      modifies this`items, this`index, this`appPush
      ensures Valid() && Changed(ServerAdd(old(View()), freshId, uri, description, meta, initial))
      ensures id == if uri in old(index) then INVALID_ID else freshId
    {
      var compatible := Supported(vectors, TypeOf(initial));
      if uri in index {
        return INVALID_ID;
      }
      id := freshId;
      var item := NewItem(id, uri, description, meta, initial, initial);
      InsertConsistent(Model(items, index), item);
      items := items[id := item];
      index := index[uri := id];
      if compatible && connected {
        appPush := Some(AppendJob(id));
      }
    }

    method RemoveItem(id: Id, ghost s: System) returns (found: bool)
      requires Valid() && appPush.None? && s.srv == View()
      modifies this`items, this`index, this`appPush, queue, queue.jobs0, queue.jobs1
      ensures Valid() && fresh(Repr() - old(Repr())) && (appPush.Some? ==> queue.Full())
      ensures found <==> id in old(items)
      ensures Called(s, ServerCall.RemoveItem(id), View(), appPush.Some?)
    {
      found := RemoveLocked(id);
      PushApp(s, ServerCall.RemoveItem(id));
    }

    method RemoveLocked(id: Id) returns (found: bool)
      requires Valid() && appPush.None?
      modifies this`items, this`index, this`appPush
      ensures Valid() && Changed(ServerRemove(old(View()), id))
      ensures found <==> id in old(items)
    {
      found := id in items;
      if found {
        DeleteConsistent(Model(items, index), id);
        var compatible := Supported(vectors, items[id].kind);
        index := index - {items[id].uri};
        items := items - {id};
        if compatible && connected {
          appPush := Some(RemoveJob(id));
        }
      }
    }

    method ReplaceCurrentValue(id: Id, v: Variant, ghost s: System) returns (code: ErrorCode)
      requires Valid() && appPush.None? && s.srv == View()
      modifies this`items, this`appPush, queue, queue.jobs0, queue.jobs1
      ensures Valid() && fresh(Repr() - old(Repr())) && (appPush.Some? ==> queue.Full())
      ensures code == if id in old(items) then Success else ItemNotFound
      ensures Called(s, SetValue(id, v), View(), appPush.Some?)
    {
      code := ReplaceLocked(id, v);
      PushApp(s, SetValue(id, v));
    }

    method ReplaceLocked(id: Id, v: Variant) returns (code: ErrorCode)
      requires Valid() && appPush.None?
      modifies this`items, this`appPush
      ensures Valid() && Changed(ServerSet(old(View()), id, v))
      ensures code == if id in old(items) then Success else ItemNotFound
    {
      if id !in items {
        return ItemNotFound;
      }
      var previous := items[id].current;
      if !Equal(previous, v) {
        SetCurrentConsistent(Model(items, index), id, v);
        items := items[id := items[id].(current := v)];
        if Supported(vectors, TypeOf(previous)) && connected {
          appPush := Some(ChangeJob(id));
        }
      }
      code := Success;
    }

    /** A client's message: its features, its subscription, or a change. A refused change pushes a
        job that names no item. */
    method OnMessage(m: ClientMsg, ghost s: System)
      requires Valid() && rxPush.None? && s.srv == View()
      modifies this`items, this`vectors, this`announced, this`rxPush, queue, queue.jobs0, queue.jobs1
      ensures Valid() && fresh(Repr() - old(Repr())) && (rxPush.Some? ==> queue.Full())
      ensures Received(s, m, View(), rxPush.Some?)
    {
      ReceiveLocked(m);
      PushRx(s, m);
    }

    method ReceiveLocked(m: ClientMsg)
      requires Valid() && rxPush.None?
      modifies this`items, this`vectors, this`announced, this`rxPush
      ensures Valid() && Changed(ServerReceive(old(View()), m))
    {
      match m {
        case Announce(features) =>
          var parsed := if features.Some? then features.value else true;
          vectors := vectors && parsed;
          announced := features.Some?;
        case Subscribe =>
          rxPush := Some(SubscribeJob);
        case Request(id, v) =>
          ChangeLocked(id, v);
      }
    }

    method ChangeLocked(id: Id, v: Variant)
      requires Valid() && rxPush.None?
      modifies this`items, this`rxPush
      ensures Valid() && Changed(ServerReceive(old(View()), Request(id, v)))
      ensures if id in old(items) && History.Replaces(old(items)[id].current, v)
              then items == old(items)[id := old(items)[id].(current := v)] && rxPush == Some(ChangeJob(id))
              else items == old(items) && rxPush == Some(ChangeJob(INVALID_ID))
    {
      var echo := INVALID_ID;
      if id in items {
        History.ReplacesExactly(items[id].current, v);
      }
      if id in items && Compatible(items[id].current, v) {
        SetCurrentConsistent(Model(items, index), id, v);
        items := items[id := items[id].(current := v)];
        echo := id;
      }
      rxPush := Some(ChangeJob(echo));
    }

    /** Sends every supported item, stopping at the first send that fails. */
    method Walk(order: seq<string>, linkUp: bool) returns (complete: bool, out: seq<ServerMsg>)
      requires Valid() && forall u :: u in order ==> u in index
      ensures var snapshot := Snapshot(Model(items, index), vectors, order);
              complete == (linkUp || snapshot == []) && out == if linkUp then snapshot else []
      ensures linkUp ==> forall u :: u in order ==>
                (Add(items[index[u]]) in out <==> IsSent(vectors, items[index[u]].kind))
    {
      var i := 0;
      complete, out := true, [];
      while i < |order|
        invariant 0 <= i <= |order| && complete
        invariant out == Snapshot(Model(items, index), vectors, order[..i]) && (!linkUp ==> out == [])
      {
        assert order[i] in order && order[..i + 1][..i] == order[..i];
        var item := items[index[order[i]]];
        if Supported(vectors, item.kind) {
          if !linkUp {
            SnapshotGrows(Model(items, index), vectors, order, i + 1);
            return false, [];
          }
          out := out + [Add(item)];
        }
        i := i + 1;
      }
      assert order[..i] == order;
      SnapshotSends(Model(items, index), vectors, order);
    }

    static lemma {:induction false} SnapshotGrows(m: Model, vectors: bool, order: seq<string>, i: nat)
      requires Consistent(m) && (forall u :: u in order ==> u in m.index) && i <= |order|
      requires Snapshot(m, vectors, order[..i]) != []
      ensures Snapshot(m, vectors, order) != []
    {
      if i < |order| {
        var n := |order| - 1;
        assert order[..n][..i] == order[..i];
        SnapshotGrows(m, vectors, order[..n], i);
      } else {
        assert order[..i] == order;
      }
    }

    /** Announces the server's features if asked to, sends the snapshot and goes live. */
    method Subscribed(order: seq<string>, linkUp: bool) returns (out: seq<ServerMsg>)
      requires Valid() && forall u :: u in order ==> u in index
      modifies this`connected, this`announced
      ensures var snapshot := Snapshot(Model(items, index), vectors, order);
              var first := if old(announced) then [Features(Some(true))] else [];
              && out == (if linkUp then first + snapshot else [])
              && announced == (old(announced) && !linkUp)
              && connected == (old(connected) || linkUp || (!old(announced) && snapshot == []))
    {
      out := [];
      if announced {
        if !linkUp {
          return;
        }
        out := [Features(Some(true))];
        announced := false;
      }
      var complete, items := Walk(order, linkUp);
      out := out + items;
      if complete {
        connected := true;
      }
    }

    /** Whether the worker has a job left in its batch, and whether there are pending ones. */
    method HasJobs() returns (batch: bool, pending: bool)
      requires Valid()
      ensures (batch <==> View().batch != []) && (pending <==> View().pending != [])
    {
      batch := executed < (if queue.current then queue.size0 else queue.size1);
      pending := (if queue.current then queue.size1 else queue.size0) > 0;
    }

    /** The worker takes the pending jobs as its next batch. */
    method Pull(ghost s: System)
      requires Valid() && View().batch == [] && View().pending != [] && s.srv == View()
      modifies this`executed, queue
      ensures Valid() && Repr() == old(Repr())
      ensures Reaches(s, [SrvPull], s.(srv := View()))
    {
      var _, _ := queue.Pull();
      executed := 0;
      OneStep(s, SrvPull);
    }

    /** The worker runs the next job of its batch. */
    method RunJob(order: seq<string>, linkUp: bool, ghost s: System) returns (out: seq<ServerMsg>)
      requires Valid() && View().batch != [] && IsWalk(Model(items, index), order)
      requires s.srv == View() && s.linkUp == linkUp
      modifies this`executed, this`connected, this`announced
      ensures Valid() && Reaches(s, [SrvJob(order)], s.(srv := View(), s2c := s.s2c + out))
    {
      out := Execute(order, linkUp);
      OneStep(s, SrvJob(order));
      assert !linkUp ==> s.s2c + out == s.s2c;
    }

    method Execute(order: seq<string>, linkUp: bool) returns (out: seq<ServerMsg>)
      requires Valid() && View().batch != [] && forall u :: u in order ==> u in index
      modifies this`executed, this`connected, this`announced
      ensures Valid()
      ensures View() == ServerJobNext(old(View()), order, linkUp)
      ensures out == if linkUp then ServerJobOut(old(View()), order) else []
    {
      var job := queue.JobAt(executed);
      if job.SubscribeJob? {
        out := Subscribed(order, linkUp);
      } else {
        out := Update(job, linkUp, order);
      }
      executed := executed + 1;
    }

    /** Runs a job about one item, which is read now and not when the job was pushed. */
    method Update(job: ServerJob, linkUp: bool, ghost order: seq<string>) returns (out: seq<ServerMsg>)
      requires Valid() && View().batch != [] && job == View().batch[0] && !job.SubscribeJob?
      requires forall u :: u in order ==> u in index
      ensures out == if linkUp then ServerJobOut(View(), order) else []
    {
      out := [];
      match job {
        case AppendJob(id) =>
          if id in items && linkUp {
            out := [Add(items[id])];
          }
        case ChangeJob(id) =>
          if id in items && connected && linkUp {
            out := [Change(id, items[id].current)];
          }
        case RemoveJob(id) =>
          if linkUp {
            out := [Remove(id)];
          }
      }
    }

    /** A client has connected. */
    method OnConnected(ghost s: System)
      requires Valid() && s.srv == View() && Enabled(s, SrvConnect)
      modifies this`vectors
      ensures Valid() && Reaches(s, [SrvConnect], s.(srv := View(), srvTold := true))
    {
      vectors := true;
      OneStep(s, SrvConnect);
    }

    /** The application thread goes on with a push it had to wait with. */
    method WakeApp(ghost s: System)
      requires Valid() && s.srv == View() && appPush.Some?
      modifies this`appPush, queue, queue.jobs0, queue.jobs1
      ensures Valid() && fresh(Repr() - old(Repr()))
      ensures if appPush.None? then Reaches(s, [SrvAppPush], s.(srv := View()))
              else View() == old(View()) && queue.Full()
    {
      FlushApp();
      OneStep(s, SrvAppPush);
    }

    /** The receive thread goes on with a push it had to wait with. */
    method WakeRx(ghost s: System)
      requires Valid() && s.srv == View() && rxPush.Some?
      modifies this`rxPush, queue, queue.jobs0, queue.jobs1
      ensures Valid() && fresh(Repr() - old(Repr()))
      ensures if rxPush.None? then Reaches(s, [SrvRxPush], s.(srv := View())) else View() == old(View()) && queue.Full()
    {
      FlushRx();
      OneStep(s, SrvRxPush);
    }

    /** The connection is lost. */
    method OnLost(ghost s: System)
      requires Valid() && s.srv == View() && Enabled(s, SrvLoss)
      modifies this`connected
      ensures Valid() && Reaches(s, [SrvLoss], s.(srv := View(), srvTold := true))
    {
      connected := false;
      OneStep(s, SrvLoss);
    }
  }

  class ClientContext {
    var items: map<Id, Item>
    var index: map<string, Id>
    var vectors: bool
    var trace: seq<Event>
    var halted: bool
    var connected: bool
    const queue: Queue<ClientJob>
    var executed: nat
    var app: AppThread
    var rxPush: Option<ClientJob>
    const supports: bool

    ghost predicate Valid()
      reads this, queue, queue.Repr()
    {
      && queue.Valid() && queue.maxSize == QUEUE_SIZE && executed <= |queue.Buffered().executing|
      && Consistent(Model(items, index))
    }

    ghost function Repr(): set<object>
      reads this, queue
    {
      {this} + queue.Repr()
    }

    ghost function Mirrored(): Mirror
      reads this
    {
      Mirror(Model(items, index), vectors, trace, halted)
    }

    ghost function View(): Client
      requires Valid()
      reads this, queue, queue.Repr()
    {
      var jobs := queue.Buffered();
      Client(Mirrored(), connected, jobs.executing[executed..], jobs.filling, app, rxPush, supports)
    }

    constructor (supports: bool)
      ensures Valid() && fresh(Repr()) && this.supports == supports
      ensures View() == Client(Mirror(EMPTY_MODEL, false, [], false), false, [], [], Idle, None, supports)
    {
      items, index := map[], map[];
      vectors, trace, halted, connected := false, [], false, false;
      app, rxPush := Idle, None;
      executed := 0;
      queue := new Queue(QUEUE_SIZE);
      this.supports := supports;
    }

    /** A server's message: features, a new or known item, a change, or a removal. */
    method OnMessage(m: ServerMsg, ghost s: System)
      requires Valid() && !halted && s.cli == View() && Enabled(s, CliReceive) && s.s2c[0] == m
      modifies this`items, this`index, this`vectors, this`trace, this`halted
      ensures Valid() && Reaches(s, [CliReceive], s.(cli := View(), s2c := s.s2c[1..]))
    {
      Handle(m);
      OneStep(s, CliReceive);
    }

    method Handle(m: ServerMsg)
      requires Valid() && !halted
      modifies this`items, this`index, this`vectors, this`trace, this`halted
      ensures Valid() && Mirrored() == Receive(old(Mirrored()), m)
    {
      match m {
        case Features(features) =>
          if features.Some? {
            vectors := features.value;
          }
        case Add(a) => OnAddItem(a);
        case Change(id, v) => OnChangeItem(id, v);
        case Remove(id) => OnRemoveItem(id);
      }
    }

    method OnAddItem(a: Item)
      requires Valid() && !halted
      modifies this`items, this`index, this`trace, this`halted
      ensures Valid() && Mirrored() == Receive(old(Mirrored()), Add(a))
    {
      if a.uri in index {
        var id := index[a.uri];
        if id !in items || !AddMatches(a, items[id]) {
          halted := true;
          return;
        }
        if !Equal(items[id].current, a.current) {
          SetCurrentConsistent(Model(items, index), id, a.current);
          items := items[id := items[id].(current := a.current)];
          trace := trace + [ValueChanged(id, a.current)];
        }
      } else if a.id in items || a.id == INVALID_ID {
        halted := true;
      } else {
        var item := NewItem(a.id, a.uri, a.description, a.meta, a.defaultValue, a.current);
        InsertConsistent(Model(items, index), item);
        items := items[a.id := item];
        index := index[a.uri := a.id];
        trace := trace + [ItemAdded(a.id)];
      }
    }

    method OnChangeItem(id: Id, v: Variant)
      requires Valid() && !halted
      modifies this`items, this`trace
      ensures Valid() && Mirrored() == Receive(old(Mirrored()), Change(id, v))
      ensures id !in old(items) ==> items == old(items) && trace == old(trace)
      ensures id in old(items) ==> items == old(items)[id := old(items)[id].(current := v)]
      ensures id in old(items) ==>
                trace == old(trace) + if v == old(items)[id].current && v != Null then [] else [ValueChanged(id, v)]
    {
      if id in items {
        SetCurrentConsistent(Model(items, index), id, v);
        var previous := items[id].current;
        items := items[id := items[id].(current := v)];
        if !Equal(v, previous) {
          trace := trace + [ValueChanged(id, v)];
        }
      }
    }

    method OnRemoveItem(id: Id)
      requires Valid() && !halted
      modifies this`items, this`index, this`trace
      ensures Valid() && Mirrored() == Receive(old(Mirrored()), Remove(id))
    {
      if id in items {
        DeleteConsistent(Model(items, index), id);
        index := index - {items[id].uri};
        items := items - {id};
        trace := trace + [ItemRemoved(id)];
      }
    }

    /** A new connection: forget the features and all items, tell the application, subscribe. */
    method OnConnected(order: seq<string>, ghost s: System)
      requires Valid() && s.cli == View() && Enabled(s, CliConnect(order))
      modifies this`items, this`index, this`vectors, this`trace, this`connected, this`rxPush
      modifies queue, queue.jobs0, queue.jobs1
      ensures Valid() && fresh(Repr() - old(Repr())) && (rxPush.Some? ==> queue.Full())
      ensures Reaches(s, ConnectSteps(order, rxPush.Some?), s.(cli := View(), cliTold := true))
    {
      Reconnect(order);
      FlushRx();
      ConnectRun(s, order, rxPush.Some?);
    }

    method Reconnect(order: seq<string>)
      requires Valid() && rxPush.None? && forall u :: u in order ==> u in index
      modifies this`items, this`index, this`vectors, this`trace, this`connected, this`rxPush
      ensures Valid() && View() == ClientConnect(old(View()), order)
    {
      Withdraw(order);
      connected := true;
      rxPush := Some(SubscribeRequest);
    }

    method FlushRx()
      requires Valid()
      modifies this`rxPush, queue, queue.jobs0, queue.jobs1
      ensures Valid() && fresh(Repr() - old(Repr())) && (rxPush.Some? ==> queue.Full())
      ensures View() == CliRxFlushed(old(View()), rxPush.Some?)
    {
      if rxPush.Some? {
        var done := queue.Push(rxPush.value);
        if done {
          rxPush := None;
        }
      }
    }

    method Withdraw(order: seq<string>)
      requires Valid() && forall u :: u in order ==> u in index
      modifies this`items, this`index, this`vectors, this`trace
      ensures Valid()
      ensures Mirrored() == Mirror(EMPTY_MODEL, false,
                                   old(trace) + RemovalEvents(old(Mirrored().model), order), old(halted))
    {
      vectors := false;
      var oldIndex := index;
      items, index := map[], map[];
      var i := 0;
      while i < |order|
        modifies this`trace
        invariant 0 <= i <= |order|
        invariant trace == old(trace) + RemovalEvents(old(Mirrored().model), order[..i])
      {
        assert order[i] in order && order[..i + 1][..i] == order[..i];
        trace := trace + [ItemRemoved(oldIndex[order[i]])];
        i := i + 1;
      }
      assert order[..i] == order;
    }

    /** Sets a value: a check under the read lock, a write under the write lock, and a push. */
    method ReplaceCurrentValue(id: Id, v: Variant, ghost s: System) returns (code: ErrorCode)
      requires Valid() && app.Idle? && !halted && s.cli == View()
      modifies this`app, this`items, queue, queue.jobs0, queue.jobs1
      ensures Valid() && fresh(Repr() - old(Repr())) && !app.Checked? && (app.Pushing? ==> queue.Full())
      ensures code == SetCode(old(items), connected, id, v)
      ensures Reaches(s, SetSteps(s.cli, id, v, app.Pushing?), s.(cli := View()))
    {
      code := Set(id, v);
      SetToRun(s, id, v, View(), app.Pushing?);
    }

    method Set(id: Id, v: Variant) returns (code: ErrorCode)
      requires Valid() && app.Idle?
      modifies this`app, this`items, queue, queue.jobs0, queue.jobs1
      ensures Valid() && fresh(Repr() - old(Repr())) && !app.Checked? && (app.Pushing? ==> queue.Full())
      ensures code == SetCode(old(items), connected, id, v)
      ensures View() == ClientSet(old(View()), id, v, app.Pushing?)
    {
      code := Check(id, v);
      if app.Checked? {
        Write();
      }
    }

    method Write()
      requires Valid() && app.Checked?
      modifies this`app, this`items, queue, queue.jobs0, queue.jobs1
      ensures Valid() && fresh(Repr() - old(Repr())) && !app.Checked? && (app.Pushing? ==> queue.Full())
      ensures View() == Written(old(View()), app.Pushing?)
    {
      Commit();
      if app.Pushing? {
        Push();
      }
    }

    method Check(id: Id, v: Variant) returns (code: ErrorCode)
      requires Valid() && app.Idle?
      modifies this`app
      ensures Valid() && View() == ClientCheck(old(View()), id, v)
      ensures code == SetCode(items, connected, id, v) && (code.Success? <==> app.Checked?)
    {
      if id !in items {
        return ItemNotFound;
      }
      History.ReplacesExactly(items[id].current, v);
      if !Compatible(items[id].current, v) {
        return TypeMismatch;
      }
      if !connected {
        return PeerDisconnected;
      }
      app := Checked(id, v);
      code := Success;
    }

    method Commit()
      requires Valid() && app.Checked?
      modifies this`app, this`items
      ensures Valid() && View() == ClientCommit(old(View()))
    {
      CommitLocked();
    }

    method CommitLocked()
      requires Valid() && app.Checked?
      modifies this`app, this`items
      ensures Valid() && Mirrored() == ClientCommit(old(View())).mirror && app == ClientCommit(old(View())).app
    {
      var id, v := app.id, app.value;
      app := Idle;
      if id in items && !Equal(items[id].current, v) {
        var previous := items[id].current;
        SetCurrentConsistent(Model(items, index), id, v);
        items := items[id := items[id].(current := v)];
        if Supported(vectors, TypeOf(previous)) && connected {
          app := Pushing(id);
        }
      }
    }

    method Push()
      requires Valid() && app.Pushing?
      modifies this`app, queue, queue.jobs0, queue.jobs1
      ensures Valid() && fresh(Repr() - old(Repr()))
      ensures View() == (if app.Idle? then ClientPush(old(View())) else old(View())) && !app.Checked?
      ensures app.Pushing? ==> queue.Full()
    {
      var done := queue.Push(ChangeRequest(app.id));
      if done {
        app := Idle;
      }
    }

    /** Whether the worker has a job left in its batch, and whether there are pending ones. */
    method HasJobs() returns (batch: bool, pending: bool)
      requires Valid()
      ensures (batch <==> View().batch != []) && (pending <==> View().pending != [])
    {
      batch := executed < (if queue.current then queue.size0 else queue.size1);
      pending := (if queue.current then queue.size1 else queue.size0) > 0;
    }

    /** The worker takes the pending jobs as its next batch. */
    method Pull(ghost s: System)
      requires Valid() && View().batch == [] && View().pending != [] && s.cli == View()
      modifies this`executed, queue
      ensures Valid() && Repr() == old(Repr())
      ensures Reaches(s, [CliPull], s.(cli := View()))
    {
      var _, _ := queue.Pull();
      executed := 0;
      OneStep(s, CliPull);
    }

    method RunJob(linkUp: bool, ghost s: System) returns (out: seq<ClientMsg>)
      requires Valid() && View().batch != [] && s.cli == View() && s.linkUp == linkUp
      modifies this`executed
      ensures Valid() && Reaches(s, [CliJob], s.(cli := View(), c2s := s.c2s + out))
    {
      out := Execute(linkUp);
      OneStep(s, CliJob);
      assert !linkUp ==> s.c2s + out == s.c2s;
    }

    method Execute(linkUp: bool) returns (out: seq<ClientMsg>)
      requires Valid() && View().batch != []
      modifies this`executed
      ensures Valid() && View() == old(View()).(batch := old(View()).batch[1..])
      ensures out == if linkUp then ClientJobOut(old(View())) else []
    {
      var job := queue.JobAt(executed);
      out := [];
      match job {
        case SubscribeRequest =>
          if linkUp {
            out := [Announce(Some(supports)), Subscribe];
          }
        case ChangeRequest(id) =>
          if id in items && connected && linkUp {
            out := [Request(id, items[id].current)];
          }
      }
      executed := executed + 1;
    }

    /** The application thread goes on with a push it had to wait with. */
    method WakeApp(ghost s: System)
      requires Valid() && s.cli == View() && app.Pushing?
      modifies this`app, queue, queue.jobs0, queue.jobs1
      ensures Valid() && fresh(Repr() - old(Repr()))
      ensures if app.Idle? then Reaches(s, [CliPush], s.(cli := View())) else View() == old(View()) && queue.Full()
    {
      Push();
      OneStep(s, CliPush);
    }

    /** The receive thread goes on with a push it had to wait with. */
    method WakeRx(ghost s: System)
      requires Valid() && s.cli == View() && rxPush.Some?
      modifies this`rxPush, queue, queue.jobs0, queue.jobs1
      ensures Valid() && fresh(Repr() - old(Repr()))
      ensures if rxPush.None? then Reaches(s, [CliRxPush], s.(cli := View())) else View() == old(View()) && queue.Full()
    {
      FlushRx();
      OneStep(s, CliRxPush);
    }

    method OnLost(ghost s: System)
      requires Valid() && s.cli == View() && Enabled(s, CliLoss)
      modifies this`connected
      ensures Valid() && Reaches(s, [CliLoss], s.(cli := View(), cliTold := true))
    {
      connected := false;
      OneStep(s, CliLoss);
    }
  }
}
