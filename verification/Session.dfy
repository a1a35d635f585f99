/** A server object and a client object that share nothing but a link: what the handlers of the two
    do together is a run of the protocol, and working off what there is to do ends in agreement. */
module Session {
  import opened ItemModel
  import opened JobQueue
  import opened Peers
  import opened Replication
  import opened ReplicationProofs
  import opened Settling
  import opened Runs
  import opened Contexts
  import opened Variants
  import opened History
  import opened ClientChanges

  /** Two objects that share nothing are the peers of a system. */
  ghost predicate ArePeers(server: ServerContext, client: ClientContext, s: System)
    reads server, server.queue, server.queue.Repr(), client, client.queue, client.queue.Repr()
  {
    && server.Valid() && client.Valid() && server.Repr() !! client.Repr()
    && s.srv == server.View() && s.cli == client.View()
  }

  method TellServer(server: ServerContext, client: ClientContext, ghost s: System) returns (ghost end: System)
    requires ArePeers(server, client, s) && Enabled(s, SrvConnect)
    modifies server`vectors
    ensures ArePeers(server, client, end) && Reaches(s, [SrvConnect], end)
    ensures end == s.(srv := end.srv, srvTold := true)
    ensures server.Repr() == old(server.Repr()) && client.Repr() == old(client.Repr())
  {
    server.OnConnected(s);
    end := s.(srv := server.View(), srvTold := true);
  }

  method ConnectClient(client: ClientContext, order: seq<string>, ghost s: System)
    returns (ghost end: System, waits: bool)
    requires client.Valid() && s.cli == client.View() && Enabled(s, CliConnect(order))
    modifies client.Repr()
    ensures client.Valid() && end.cli == client.View() && fresh(client.Repr() - old(client.Repr()))
    ensures Reaches(s, ConnectSteps(order, waits), end)
    ensures end == s.(cli := end.cli, cliTold := true) && end.cli.app == s.cli.app
    ensures waits ==> client.queue.Full()
  {
    client.OnConnected(order, s);
    waits := client.rxPush.Some?;
    end := s.(cli := client.View(), cliTold := true);
  }

  method TellClient(server: ServerContext, client: ClientContext, order: seq<string>, ghost s: System)
    returns (ghost end: System, waits: bool)
    requires ArePeers(server, client, s) && Enabled(s, CliConnect(order))
    modifies client.Repr()
    ensures ArePeers(server, client, end) && Reaches(s, ConnectSteps(order, waits), end)
    ensures end == s.(cli := end.cli, cliTold := true) && end.cli.app == s.cli.app
    ensures waits ==> client.queue.Full()
    ensures fresh(client.Repr() - old(client.Repr())) && server.Repr() == old(server.Repr())
  {
    end, waits := ConnectClient(client, order, s);
  }

  /** Both peers have been told that the link is up. */
  ghost predicate Met(s: System, end: System) {
    && end == s.(srv := end.srv, cli := end.cli, linkUp := true, srvTold := true, cliTold := true)
    && end.cli.app == s.cli.app
  }

  method MeetServer(server: ServerContext, client: ClientContext, ghost order: seq<string>, ghost s: System)
    returns (ghost end: System)
    requires ArePeers(server, client, s) && Enabled(s, LinkUp) && IsWalk(s.cli.mirror.model, order)
    modifies server`vectors
    ensures ArePeers(server, client, end) && Reaches(s, [LinkUp, SrvConnect], end)
    ensures end == s.(srv := end.srv, linkUp := true, srvTold := true, cliTold := false)
    ensures Enabled(end, CliConnect(order))
    ensures server.Repr() == old(server.Repr()) && client.Repr() == old(client.Repr())
  {
    ghost var s1 := LinkedUp(s);
    end := TellServer(server, client, s1);
    ReadyToConnect(s, end, order);
    MeetRun(s, s1, end);
  }

  /** The link comes up, and each peer is told of it: the step of the one object takes the run up
      where that of the other left it. */
  method Meet(server: ServerContext, client: ClientContext, order: seq<string>, ghost s: System)
    returns (ghost end: System, waits: bool)
    requires ArePeers(server, client, s) && Enabled(s, LinkUp) && IsWalk(s.cli.mirror.model, order)
    modifies server`vectors, client.Repr()
    ensures ArePeers(server, client, end)
    ensures Met(s, end)
    ensures Reaches(s, [LinkUp, SrvConnect] + ConnectSteps(order, waits), end)
    ensures fresh(client.Repr() - old(client.Repr())) && server.Repr() == old(server.Repr())
  {
    ghost var owned := client.Repr();
    ghost var s2 := MeetServer(server, client, order, s);
    assert client.Repr() == owned;
    end, waits := TellClient(server, client, order, s2);
    assert fresh(client.Repr() - owned);
    Continues(s, [LinkUp, SrvConnect], s2, ConnectSteps(order, waits), end);
  }

  // ---- Working off what there is to do ------------------------------------------------

  /** Both peers know that the link is up, and no thread is between a check and a write. */
  ghost predicate Working(s: System) {
    Inv(s) && s.linkUp && s.srvTold && s.cliTold && !s.cli.app.Checked?
  }

  /** One or two internal steps. */
  ghost predicate Moves(s: System, steps: seq<Step>, end: System) {
    steps != [] && Reaches(s, steps, end) && forall i :: 0 <= i < |steps| ==> Internal(steps[i])
  }

  lemma MovedOn(s: System, steps: seq<Step>, end: System)
    requires Inv(s) && s.linkUp && Moves(s, steps, end)
    ensures Inv(end) && end.linkUp && Measure(end) < Measure(s)
  {
    RunKeepsInv(s, steps, end);
    InternalRunIsBounded(s, steps, end);
    LinkStaysUp(s, steps, end);
  }

  /** The server has done something, and the messages are in these channels now. */
  ghost predicate ServerMoved(s: System, steps: seq<Step>, end: System) {
    Moves(s, steps, end) && end == s.(srv := end.srv, c2s := end.c2s, s2c := end.s2c)
  }

  lemma ServerStepped(s: System, step: Step, end: System)
    requires Reaches(s, [step], end) && Internal(step) && end == s.(srv := end.srv, c2s := end.c2s, s2c := end.s2c)
    ensures ServerMoved(s, [step], end)
  {
  }

  lemma ServerHeard(s: System, m: ClientMsg, v: Server, waits: bool, end: System)
    requires Enabled(s, SrvReceive) && s.c2s[0] == m && Received(s, m, v, waits)
    requires end == s.(srv := v, c2s := s.c2s[1..])
    ensures ServerMoved(s, ReceiveSteps(s.srv, m, waits), end)
  {
  }

  method ServerPulls(server: ServerContext, ghost s: System) returns (ghost end: System)
    requires server.Valid() && s.srv == server.View() && s.srv.batch == [] && s.srv.pending != []
    modifies server`executed, server.queue
    ensures server.Valid() && end.srv == server.View() && fresh(server.Repr() - old(server.Repr()))
    ensures ServerMoved(s, [SrvPull], end) && end.c2s == s.c2s && end.s2c == s.s2c
  {
    server.Pull(s);
    end := s.(srv := server.View());
    ServerStepped(s, SrvPull, end);
  }

  /** Some order in which a table can be walked. */
  method WalkOf(index: map<string, Id>) returns (order: seq<string>)
    ensures (forall u :: u in order <==> u in index) && NoDuplicates(order)
  {
    order := [];
    var keys := index.Keys;
    while keys != {}
      invariant keys <= index.Keys && NoDuplicates(order)
      invariant forall u :: u in order <==> u in index && u !in keys
      decreases |keys|
    {
      var u :| u in keys;
      order, keys := order + [u], keys - {u};
    }
  }

  method ServerRuns(server: ServerContext, ghost s: System)
    returns (out: seq<ServerMsg>, ghost steps: seq<Step>, ghost end: System)
    requires server.Valid() && s.srv == server.View() && s.srv.batch != [] && s.linkUp
    modifies server`executed, server`connected, server`announced
    ensures server.Valid() && end.srv == server.View() && fresh(server.Repr() - old(server.Repr()))
    ensures ServerMoved(s, steps, end) && end.c2s == s.c2s && end.s2c == s.s2c + out
  {
    var order := WalkOf(server.index);
    out := server.RunJob(order, true, s);
    steps, end := [SrvJob(order)], s.(srv := server.View(), s2c := s.s2c + out);
    ServerStepped(s, SrvJob(order), end);
  }

  method ServerAppPushes(server: ServerContext, ghost s: System) returns (ghost end: System)
    requires server.Valid() && s.srv == server.View() && s.srv.pending == [] && s.srv.appPush.Some?
    modifies server`appPush, server.queue, server.queue.jobs0, server.queue.jobs1
    ensures server.Valid() && end.srv == server.View() && fresh(server.Repr() - old(server.Repr()))
    ensures ServerMoved(s, [SrvAppPush], end) && end.c2s == s.c2s && end.s2c == s.s2c
  {
    server.WakeApp(s);
    end := s.(srv := server.View());
    ServerStepped(s, SrvAppPush, end);
  }

  method ServerRxPushes(server: ServerContext, ghost s: System) returns (ghost end: System)
    requires server.Valid() && s.srv == server.View() && s.srv.pending == [] && s.srv.rxPush.Some?
    modifies server`rxPush, server.queue, server.queue.jobs0, server.queue.jobs1
    ensures server.Valid() && end.srv == server.View() && fresh(server.Repr() - old(server.Repr()))
    ensures ServerMoved(s, [SrvRxPush], end) && end.c2s == s.c2s && end.s2c == s.s2c
  {
    server.WakeRx(s);
    end := s.(srv := server.View());
    ServerStepped(s, SrvRxPush, end);
  }

  method ServerHears(server: ServerContext, m: ClientMsg, ghost s: System)
    returns (ghost steps: seq<Step>, ghost end: System)
    requires server.Valid() && s.srv == server.View() && Enabled(s, SrvReceive) && s.c2s[0] == m
    modifies server, server.queue, server.queue.jobs0, server.queue.jobs1
    ensures server.Valid() && end.srv == server.View() && fresh(server.Repr() - old(server.Repr()))
    ensures ServerMoved(s, steps, end) && end.c2s == s.c2s[1..] && end.s2c == s.s2c
  {
    server.OnMessage(m, s);
    steps, end := ReceiveSteps(s.srv, m, server.rxPush.Some?), s.(srv := server.View(), c2s := s.c2s[1..]);
    ServerHeard(s, m, server.View(), server.rxPush.Some?, end);
  }

  /** The client has done something, and no thread of it is between a check and a write. */
  ghost predicate ClientMoved(s: System, steps: seq<Step>, end: System) {
    Moves(s, steps, end) && end == s.(cli := end.cli, c2s := end.c2s, s2c := end.s2c) && !end.cli.app.Checked?
  }

  lemma ClientStepped(s: System, step: Step, end: System)
    requires Reaches(s, [step], end) && Internal(step) && end == s.(cli := end.cli, c2s := end.c2s, s2c := end.s2c)
    requires end.cli.app.Idle? || end.cli.app.Pushing?
    ensures ClientMoved(s, [step], end)
  {
  }

  method ClientPulls(client: ClientContext, ghost s: System) returns (ghost end: System)
    requires client.Valid() && s.cli == client.View() && s.cli.batch == [] && s.cli.pending != [] && !s.cli.app.Checked?
    modifies client`executed, client.queue
    ensures client.Valid() && end.cli == client.View() && fresh(client.Repr() - old(client.Repr()))
    ensures ClientMoved(s, [CliPull], end) && end.c2s == s.c2s && end.s2c == s.s2c
  {
    client.Pull(s);
    end := s.(cli := client.View());
    ClientStepped(s, CliPull, end);
  }

  method ClientRuns(client: ClientContext, ghost s: System)
    returns (out: seq<ClientMsg>, ghost end: System)
    requires client.Valid() && s.cli == client.View() && s.cli.batch != [] && s.linkUp && !s.cli.app.Checked?
    modifies client`executed
    ensures client.Valid() && end.cli == client.View() && fresh(client.Repr() - old(client.Repr()))
    ensures ClientMoved(s, [CliJob], end) && end.c2s == s.c2s + out && end.s2c == s.s2c
  {
    out := client.RunJob(true, s);
    end := s.(cli := client.View(), c2s := s.c2s + out);
    ClientStepped(s, CliJob, end);
  }

  method ClientAppPushes(client: ClientContext, ghost s: System) returns (ghost end: System)
    requires client.Valid() && s.cli == client.View() && s.cli.pending == [] && s.cli.app.Pushing?
    modifies client`app, client.queue, client.queue.jobs0, client.queue.jobs1
    ensures client.Valid() && end.cli == client.View() && fresh(client.Repr() - old(client.Repr()))
    ensures ClientMoved(s, [CliPush], end) && end.c2s == s.c2s && end.s2c == s.s2c
  {
    client.WakeApp(s);
    end := s.(cli := client.View());
    ClientStepped(s, CliPush, end);
  }

  method ClientRxPushes(client: ClientContext, ghost s: System) returns (ghost end: System)
    requires client.Valid() && s.cli == client.View() && s.cli.pending == [] && s.cli.rxPush.Some?
    requires !s.cli.app.Checked?
    modifies client`rxPush, client.queue, client.queue.jobs0, client.queue.jobs1
    ensures client.Valid() && end.cli == client.View() && fresh(client.Repr() - old(client.Repr()))
    ensures ClientMoved(s, [CliRxPush], end) && end.c2s == s.c2s && end.s2c == s.s2c
  {
    client.WakeRx(s);
    end := s.(cli := client.View());
    ClientStepped(s, CliRxPush, end);
  }

  method ClientHears(client: ClientContext, m: ServerMsg, ghost s: System)
    returns (ghost end: System)
    requires client.Valid() && s.cli == client.View() && Enabled(s, CliReceive) && s.s2c[0] == m
    requires !s.cli.mirror.halted && !s.cli.app.Checked?
    modifies client`items, client`index, client`vectors, client`trace, client`halted
    ensures client.Valid() && end.cli == client.View() && fresh(client.Repr() - old(client.Repr()))
    ensures ClientMoved(s, [CliReceive], end) && end.c2s == s.c2s && end.s2c == s.s2c[1..]
  {
    client.OnMessage(m, s);
    end := s.(cli := client.View(), s2c := s.s2c[1..]);
    ClientStepped(s, CliReceive, end);
  }

  /** The server's worker does something. */
  method ServerWorks(server: ServerContext, s2c: seq<ServerMsg>, ghost s: System)
    returns (down: seq<ServerMsg>, ghost steps: seq<Step>, ghost end: System)
    requires server.Valid() && s.srv == server.View() && s.s2c == s2c && s.linkUp
    requires (s.srv.batch != [] || s.srv.pending != [])
    modifies server.Repr()
    ensures server.Valid() && end.srv == server.View() && fresh(server.Repr() - old(server.Repr()))
    ensures end.c2s == s.c2s && end.s2c == down && ServerMoved(s, steps, end)
  {
    var batch, _ := server.HasJobs();
    if batch {
      var out;
      out, steps, end := ServerRuns(server, s);
      down := s2c + out;
    } else {
      end := ServerPulls(server, s);
      down, steps := s2c, [SrvPull];
    }
  }

  /** A thread of the server that waits with a push goes on. */
  method ServerThreads(server: ServerContext, ghost s: System)
    returns (ghost steps: seq<Step>, ghost end: System)
    requires server.Valid() && s.srv == server.View() && s.srv.pending == []
    requires (s.srv.appPush.Some? || s.srv.rxPush.Some?)
    modifies server.Repr()
    ensures server.Valid() && end.srv == server.View() && fresh(server.Repr() - old(server.Repr()))
    ensures end.c2s == s.c2s && end.s2c == s.s2c && ServerMoved(s, steps, end)
  {
    if server.appPush.Some? {
      end := ServerAppPushes(server, s);
      steps := [SrvAppPush];
    } else {
      end := ServerRxPushes(server, s);
      steps := [SrvRxPush];
    }
  }

  /** The server does something of what it has to do: the worker first, then a thread that waits with
      a push, then the next message. */
  method ServerMoves(server: ServerContext, c2s: seq<ClientMsg>, s2c: seq<ServerMsg>,
                     ghost s: System)
    returns (moved: bool, up: seq<ClientMsg>, down: seq<ServerMsg>, ghost steps: seq<Step>, ghost end: System)
    requires server.Valid() && s.srv == server.View() && s.c2s == c2s && s.s2c == s2c && s.linkUp && s.srvTold
    modifies server.Repr()
    ensures server.Valid() && end.srv == server.View() && fresh(server.Repr() - old(server.Repr()))
    ensures end.c2s == up && end.s2c == down
    ensures if moved then ServerMoved(s, steps, end) else end == s && ServerDone(s)
  {
    var batch, pending := server.HasJobs();
    moved, up, down, steps, end := true, c2s, s2c, [], s;
    if batch || pending {
      down, steps, end := ServerWorks(server, s2c, s);
    } else if server.appPush.Some? || server.rxPush.Some? {
      steps, end := ServerThreads(server, s);
    } else if c2s != [] {
      steps, end := ServerHears(server, c2s[0], s);
      up := c2s[1..];
    } else {
      moved := false;
    }
  }

  ghost predicate ServerDone(s: System) {
    && s.srv.batch == [] && s.srv.pending == [] && s.srv.appPush.None? && s.srv.rxPush.None? && s.c2s == []
  }

  method ClientWorks(client: ClientContext, c2s: seq<ClientMsg>, ghost s: System)
    returns (up: seq<ClientMsg>, ghost steps: seq<Step>, ghost end: System)
    requires client.Valid() && s.cli == client.View() && s.c2s == c2s && s.linkUp
    requires (s.cli.batch != [] || s.cli.pending != [])
    requires !s.cli.app.Checked?
    modifies client.Repr()
    ensures client.Valid() && end.cli == client.View() && fresh(client.Repr() - old(client.Repr()))
    ensures end.c2s == up && end.s2c == s.s2c && ClientMoved(s, steps, end)
  {
    var batch, _ := client.HasJobs();
    if batch {
      var out;
      out, end := ClientRuns(client, s);
      up, steps := c2s + out, [CliJob];
    } else {
      end := ClientPulls(client, s);
      up, steps := c2s, [CliPull];
    }
  }

  method ClientThreads(client: ClientContext, ghost s: System)
    returns (ghost steps: seq<Step>, ghost end: System)
    requires client.Valid() && s.cli == client.View() && s.cli.pending == []
    requires (s.cli.rxPush.Some? || s.cli.app.Pushing?)
    requires !s.cli.app.Checked?
    modifies client.Repr()
    ensures client.Valid() && end.cli == client.View() && fresh(client.Repr() - old(client.Repr()))
    ensures end.c2s == s.c2s && end.s2c == s.s2c && ClientMoved(s, steps, end)
  {
    if client.rxPush.Some? {
      end := ClientRxPushes(client, s);
      steps := [CliRxPush];
    } else {
      end := ClientAppPushes(client, s);
      steps := [CliPush];
    }
  }

  /** The same for the client. */
  method ClientMoves(client: ClientContext, c2s: seq<ClientMsg>, s2c: seq<ServerMsg>,
                     ghost s: System)
    returns (moved: bool, up: seq<ClientMsg>, down: seq<ServerMsg>, ghost steps: seq<Step>, ghost end: System)
    requires client.Valid() && s.cli == client.View() && s.c2s == c2s && s.s2c == s2c && s.linkUp && s.cliTold
    requires !s.cli.app.Checked? && !s.cli.mirror.halted
    modifies client.Repr()
    ensures client.Valid() && end.cli == client.View() && fresh(client.Repr() - old(client.Repr()))
    ensures end.c2s == up && end.s2c == down
    ensures if moved then ClientMoved(s, steps, end) else end == s && ClientDone(s)
  {
    var batch, pending := client.HasJobs();
    moved, up, down, steps, end := true, c2s, s2c, [], s;
    if batch || pending {
      up, steps, end := ClientWorks(client, c2s, s);
    } else if client.rxPush.Some? || client.app.Pushing? {
      steps, end := ClientThreads(client, s);
    } else if s2c != [] {
      end := ClientHears(client, s2c[0], s);
      down, steps := s2c[1..], [CliReceive];
    } else {
      moved := false;
    }
  }

  ghost predicate ClientDone(s: System) {
    && s.cli.batch == [] && s.cli.pending == [] && s.cli.rxPush.None? && s.cli.app.Idle? && s.s2c == []
  }

  ghost predicate Advanced(s: System, steps: seq<Step>, end: System) {
    Moves(s, steps, end) && Working(end) && Measure(end) < Measure(s)
  }

  lemma ServerMovedOn(s: System, steps: seq<Step>, end: System)
    requires Working(s) && ServerMoved(s, steps, end)
    ensures Advanced(s, steps, end)
  {
    MovedOn(s, steps, end);
  }

  lemma ClientMovedOn(s: System, steps: seq<Step>, end: System)
    requires Working(s) && ClientMoved(s, steps, end)
    ensures Advanced(s, steps, end)
  {
    MovedOn(s, steps, end);
  }

  lemma BothDone(s: System)
    requires Working(s) && ServerDone(s) && ClientDone(s)
    ensures Quiescent(s)
  {
  }

  /** What the one object does leaves the other alone. */
  method TryServer(server: ServerContext, client: ClientContext, c2s: seq<ClientMsg>, s2c: seq<ServerMsg>,
                   ghost s: System)
    returns (moved: bool, up: seq<ClientMsg>, down: seq<ServerMsg>, ghost steps: seq<Step>, ghost end: System)
    requires ArePeers(server, client, s) && s.c2s == c2s && s.s2c == s2c && s.linkUp && s.srvTold
    modifies server.Repr()
    ensures ArePeers(server, client, end) && fresh(server.Repr() - old(server.Repr()))
    ensures client.Repr() == old(client.Repr())
    ensures end.c2s == up && end.s2c == down
    ensures if moved then ServerMoved(s, steps, end) else end == s && ServerDone(s)
  {
    moved, up, down, steps, end := ServerMoves(server, c2s, s2c, s);
  }

  method TryClient(server: ServerContext, client: ClientContext, c2s: seq<ClientMsg>, s2c: seq<ServerMsg>,
                   ghost s: System)
    returns (moved: bool, up: seq<ClientMsg>, down: seq<ServerMsg>, ghost steps: seq<Step>, ghost end: System)
    requires ArePeers(server, client, s) && s.c2s == c2s && s.s2c == s2c && s.linkUp && s.cliTold
    requires !s.cli.app.Checked? && !s.cli.mirror.halted
    modifies client.Repr()
    ensures ArePeers(server, client, end) && fresh(client.Repr() - old(client.Repr()))
    ensures server.Repr() == old(server.Repr())
    ensures end.c2s == up && end.s2c == down
    ensures if moved then ClientMoved(s, steps, end) else end == s && ClientDone(s)
  {
    moved, up, down, steps, end := ClientMoves(client, c2s, s2c, s);
  }

  /** One move of either object. */
  method TryEither(server: ServerContext, client: ClientContext, c2s: seq<ClientMsg>, s2c: seq<ServerMsg>,
                   ghost s: System)
    returns (moved: bool, up: seq<ClientMsg>, down: seq<ServerMsg>, ghost steps: seq<Step>, ghost end: System)
    requires ArePeers(server, client, s) && s.c2s == c2s && s.s2c == s2c && s.linkUp && s.srvTold && s.cliTold
    requires !s.cli.app.Checked? && !s.cli.mirror.halted
    modifies server.Repr(), client.Repr()
    ensures ArePeers(server, client, end)
    ensures fresh(server.Repr() - old(server.Repr())) && fresh(client.Repr() - old(client.Repr()))
    ensures end.c2s == up && end.s2c == down
    ensures if moved then ServerMoved(s, steps, end) || ClientMoved(s, steps, end)
            else end == s && ServerDone(s) && ClientDone(s)
  {
    moved, up, down, steps, end := TryServer(server, client, c2s, s2c, s);
    if !moved {
      moved, up, down, steps, end := TryClient(server, client, c2s, s2c, s);
    }
  }

  /** In a state that a run has led to, this comes closer to rest, or the two are at rest. */
  method Move(server: ServerContext, client: ClientContext, c2s: seq<ClientMsg>, s2c: seq<ServerMsg>, ghost s: System)
    returns (moved: bool, up: seq<ClientMsg>, down: seq<ServerMsg>, ghost steps: seq<Step>, ghost end: System)
    requires ArePeers(server, client, s) && s.c2s == c2s && s.s2c == s2c && Working(s)
    modifies server.Repr(), client.Repr()
    ensures ArePeers(server, client, end)
    ensures fresh(server.Repr() - old(server.Repr())) && fresh(client.Repr() - old(client.Repr()))
    ensures end.c2s == up && end.s2c == down
    ensures if moved then Advanced(s, steps, end) else end == s && Quiescent(s)
  {
    moved, up, down, steps, end := TryEither(server, client, c2s, s2c, s);
    if !moved {
      BothDone(s);
    } else if ServerMoved(s, steps, end) {
      ServerMovedOn(s, steps, end);
    } else {
      ClientMovedOn(s, steps, end);
    }
  }

  /** The tables of the two objects agree, up to what the client supports. */
  ghost predicate Agree(server: ServerContext, client: ClientContext)
    reads server, client
  {
    && (forall id :: id in client.items ==> id in server.items && client.items[id] == server.items[id])
    && (forall id :: id in server.items ==> HeldByType(id in client.items, client.supports, server.items[id].current))
    && (forall u :: u in client.index ==> u in server.index && client.index[u] == server.index[u])
  }

  lemma RestsLater(s: System, steps: seq<Step>, next: System, run: seq<Step>, end: System)
    requires Moves(s, steps, next) && Rests(next, run, end)
    ensures Rests(s, steps + run, end)
  {
    Continues(s, steps, next, run, end);
  }

  /** Working off what there is to do comes to an end, whatever state the two objects have come to in
      a run, and then their tables agree. */
  method Settle(server: ServerContext, client: ClientContext, c2s: seq<ClientMsg>, s2c: seq<ServerMsg>, ghost s: System)
    returns (ghost run: seq<Step>, ghost end: System)
    requires ArePeers(server, client, s) && s.c2s == c2s && s.s2c == s2c && Working(s)
    modifies server.Repr(), client.Repr()
    ensures ArePeers(server, client, end) && Rests(s, run, end) && Agree(server, client)
    decreases Measure(s)
  {
    var moved, up, down, steps, next := Move(server, client, c2s, s2c, s);
    if moved {
      run, end := Settle(server, client, up, down, next);
      RestsLater(s, steps, next, run, end);
      run := steps + run;
    } else {
      run, end := [], s;
      RestAgrees(server, client, s);
    }
  }

  lemma RestAgrees(server: ServerContext, client: ClientContext, s: System)
    requires ArePeers(server, client, s) && Inv(s) && Quiescent(s)
    ensures Agree(server, client)
  {
    QuiescentConverged(s);
    assert forall u :: u in client.index ==> client.items[client.index[u]].uri == u;
  }

  lemma Reached(start: System, run: seq<Step>, s: System)
    requires Init(start) && Reaches(start, run, s)
    ensures Inv(s)
  {
    RunKeepsInv(start, run, s);
  }

  /** Two objects that any run has brought to rest hold the same items with the same values, up to what
      the client supports. */
  lemma AtRestTheyAgree(server: ServerContext, client: ClientContext, start: System, run: seq<Step>, s: System)
    requires ArePeers(server, client, s) && Init(start) && Reaches(start, run, s) && Quiescent(s)
    ensures Agree(server, client)
  {
    Reached(start, run, s);
    RestAgrees(server, client, s);
  }

  lemma MetWorking(s: System, run: seq<Step>, end: System)
    requires Inv(s) && Enabled(s, LinkUp) && Reaches(s, run, end) && Met(s, end)
    ensures end.c2s == [] && end.s2c == [] && Working(end)
  {
    RunKeepsInv(s, run, end);
  }

  /** A connection between any two objects that can have one: from the link coming up to rest, with the
      tables in agreement. */
  method Connect(server: ServerContext, client: ClientContext, order: seq<string>, ghost s: System)
    returns (ghost run: seq<Step>, ghost end: System)
    requires ArePeers(server, client, s) && Inv(s) && Enabled(s, LinkUp) && IsWalk(s.cli.mirror.model, order)
    modifies server.Repr(), client.Repr()
    ensures ArePeers(server, client, end) && Reaches(s, run, end) && Quiescent(end) && Agree(server, client)
  {
    ghost var met;
    var waits;
    met, waits := Meet(server, client, order, s);
    ghost var first := [LinkUp] + ([SrvConnect] + ConnectSteps(order, waits));
    MetWorking(s, first, met);
    run, end := Settle(server, client, [], [], met);
    Continues(s, first, met, run, end);
    run := first + run;
  }

  lemma SetWorking(s: System, id: Id, v: Variant, steps: seq<Step>, written: System, waits: bool)
    requires Inv(s) && Settable(s, id, v) && steps == SetSteps(s.cli, id, v, waits) && Reaches(s, steps, written)
    ensures Working(written) && written.c2s == [] && written.s2c == []
    ensures written == Stage(s, id, v, if waits then 0 else 1)
  {
    RunKeepsInv(s, steps, written);
    SetStage(s, id, v, waits, written);
  }

  /** A client that is idle and live may be told to set the value. */
  ghost predicate MaySet(c: Client, id: Id, v: Variant) {
    && c.app.Idle? && c.connected && !c.mirror.halted
    && id in c.mirror.model.items && Replaces(c.mirror.model.items[id].current, v)
  }

  lemma SettableMaySet(s: System, id: Id, v: Variant)
    requires Settable(s, id, v)
    ensures MaySet(s.cli, id, v)
  {
  }

  method WriteClient(client: ClientContext, id: Id, v: Variant, ghost s: System)
    returns (code: ErrorCode, ghost written: System, ghost waits: bool)
    requires client.Valid() && s.cli == client.View() && MaySet(s.cli, id, v)
    modifies client.Repr()
    ensures client.Valid() && fresh(client.Repr() - old(client.Repr()))
    ensures code.Success? && written.cli == client.View() && written == s.(cli := written.cli)
    ensures Reaches(s, SetSteps(s.cli, id, v, waits), written)
  {
    code := client.ReplaceCurrentValue(id, v, s);
    written, waits := s.(cli := client.View()), client.app.Pushing?;
  }

  method WriteOnClient(server: ServerContext, client: ClientContext, id: Id, v: Variant, ghost s: System)
    returns (code: ErrorCode, ghost written: System, ghost waits: bool)
    requires ArePeers(server, client, s) && MaySet(s.cli, id, v)
    modifies client.Repr()
    ensures ArePeers(server, client, written) && code.Success?
    ensures fresh(client.Repr() - old(client.Repr())) && server.Repr() == old(server.Repr())
    ensures Reaches(s, SetSteps(s.cli, id, v, waits), written)
  {
    code, written, waits := WriteClient(client, id, v, s);
  }

  /** A set on the client, and what comes of it: the call succeeds, and when there is nothing left to do
      both tables hold the value and are otherwise as they were. */
  method SetOnClient(server: ServerContext, client: ClientContext, id: Id, v: Variant, ghost s: System)
    returns (code: ErrorCode, ghost end: System)
    requires ArePeers(server, client, s) && Inv(s) && Quiescent(s) && id in client.items
    requires Replaces(client.items[id].current, v) && client.items[id].current != v
    modifies server.Repr(), client.Repr()
    ensures code.Success? && ArePeers(server, client, end) && Quiescent(end)
    ensures OnlySet(old(server.items), server.items, id, v) && OnlySet(old(client.items), client.items, id, v)
  {
    RestSettable(s, id, v);
    SettableMaySet(s, id, v);
    ghost var written, waits, run;
    code, written, waits := WriteOnClient(server, client, id, v, s);
    SetWorking(s, id, v, SetSteps(s.cli, id, v, waits), written, waits);
    run, end := Settle(server, client, [], [], written);
    RestsAtEnd(s, id, v, if waits then 0 else 1, run, end);
    EndStage(s, id, v);
  }
}
