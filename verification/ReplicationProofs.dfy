/** Every step keeps the replication invariant; convergence follows. */
module ReplicationProofs {
  import opened Variants
  import opened ItemModel
  import opened JobQueue
  import opened Options
  import opened Peers
  import opened Replication

  // ---- What one message does to a mirror --------------------------------------------

  lemma {:induction false} HaltedSticks(c: Mirror, msgs: seq<ServerMsg>)
    requires c.halted
    ensures Drain(c, msgs) == c
    decreases |msgs|
  {
    if msgs != [] {
      HaltedSticks(Receive(c, msgs[0]), msgs[1..]);
    }
  }

  lemma DescendsInsert(born: map<Id, Item>, m: Model, it: Item)
    requires BornOk(born) && ModelDescends(born, m) && Descends(born, it) && it.id !in m.items && it.uri !in m.index
    ensures ModelDescends(born, Insert(m, it))
  {
    InsertConsistent(m, it);
  }

  lemma DescendsDelete(born: map<Id, Item>, m: Model, id: Id)
    requires ModelDescends(born, m) && id in m.items
    ensures ModelDescends(born, Delete(m, id))
  {
    DeleteConsistent(m, id);
  }

  lemma DescendsSet(born: map<Id, Item>, m: Model, id: Id, v: Variant)
    requires ModelDescends(born, m) && id in m.items && SameShape(born[id].defaultValue, v)
    ensures ModelDescends(born, SetCurrent(m, id, v))
  {
    SetCurrentConsistent(m, id, v);
  }

  /** A well-formed message that does not halt the mirror keeps it well formed. */
  lemma ReceiveOk(born: map<Id, Item>, sup: bool, live: map<Id, Item>, c: Mirror, m: ServerMsg)
    requires BornOk(born) && MirrorOk(born, sup, c) && DownMsgOk(born, sup, live, m) && !Receive(c, m).halted
    ensures ModelDescends(born, Receive(c, m).model)
    ensures AllSupported(sup, Receive(c, m).model)
  {
    match m
    case Features(_) =>
    case Add(a) =>
      if a.uri !in c.model.index {
        assert NewItem(a.id, a.uri, a.description, a.meta, a.defaultValue, a.current) == a;
        DescendsInsert(born, c.model, a);
      } else {
        DescendsSet(born, c.model, c.model.index[a.uri], a.current);
      }
    case Change(id, v) =>
      if id in c.model.items {
        DescendsSet(born, c.model, id, v);
      }
    case Remove(id) =>
      if id in c.model.items {
        DescendsDelete(born, c.model, id);
      }
  }

  /** No other item of the model has this item's uri. */
  ghost predicate NoRival(m: Model, it: Item) {
    forall k :: k in m.items && m.items[k].uri == it.uri ==> k == it.id
  }

  /** An addition halts the mirror only if its uri is held by another item. */
  lemma AddOk(born: map<Id, Item>, sup: bool, c: Mirror, a: Item)
    requires BornOk(born) && MirrorOk(born, sup, c) && Descends(born, a) && Supported(sup, a.kind)
    requires NoRival(c.model, a)
    ensures !Receive(c, Add(a)).halted
    ensures Receive(c, Add(a)).model.items == c.model.items[a.id := a]
  {
    if a.uri in c.model.index {
      assert c.model.items[c.model.index[a.uri]].uri == a.uri;
    }
  }

  /** Two models that differ at most in the current value of one item. */
  ghost predicate SimilarModels(m: Model, m': Model, id: Id) {
    && m.index == m'.index
    && m.items.Keys == m'.items.Keys
    && (forall k :: k in m.items ==> SameStatic(m.items[k], m'.items[k]))
    && (forall k :: k in m.items && k != id ==> m.items[k] == m'.items[k])
  }

  ghost predicate Similar(c: Mirror, c': Mirror, id: Id) {
    SimilarModels(c.model, c'.model, id) && c.halted == c'.halted
  }

  lemma SimilarSet(m: Model, m': Model, id: Id, k: Id, v: Variant)
    requires SimilarModels(m, m', id) && k in m.items
    ensures SimilarModels(SetCurrent(m, k, v), SetCurrent(m', k, v), id)
  {
  }

  lemma SimilarInsert(m: Model, m': Model, id: Id, it: Item)
    requires SimilarModels(m, m', id)
    ensures SimilarModels(Insert(m, it), Insert(m', it), id)
  {
  }

  lemma SimilarDelete(m: Model, m': Model, id: Id, k: Id)
    requires SimilarModels(m, m', id) && k in m.items
    ensures SimilarModels(Delete(m, k), Delete(m', k), id)
  {
    assert Delete(m, k).items.Keys == m.items.Keys - {k};
    assert Delete(m', k).items.Keys == m'.items.Keys - {k};
  }

  lemma ReceiveAddSimilar(c: Mirror, c': Mirror, id: Id, a: Item)
    requires Similar(c, c', id)
    ensures Similar(Receive(c, Add(a)), Receive(c', Add(a)), id)
  {
    var m, m' := c.model, c'.model;
    if a.uri in m.index {
      var k := m.index[a.uri];
      assert k in m.items <==> k in m'.items;
      if k in m.items && AddMatches(a, m.items[k]) {
        SimilarSet(m, m', id, k, a.current);
        assert SetCurrent(m, k, m.items[k].current) == m;
        assert SetCurrent(m', k, m'.items[k].current) == m';
      }
    } else {
      assert a.id in m.items <==> a.id in m'.items;
      SimilarInsert(m, m', id, NewItem(a.id, a.uri, a.description, a.meta, a.defaultValue, a.current));
    }
  }

  lemma ReceiveSimilar(c: Mirror, c': Mirror, id: Id, m: ServerMsg)
    requires Similar(c, c', id)
    ensures Similar(Receive(c, m), Receive(c', m), id)
  {
    match m
    case Features(_) =>
    case Add(a) => ReceiveAddSimilar(c, c', id, a);
    case Change(k, v) =>
      assert k in c.model.items <==> k in c'.model.items;
      if k in c.model.items {
        SimilarSet(c.model, c'.model, id, k, v);
      }
    case Remove(k) =>
      assert k in c.model.items <==> k in c'.model.items;
      if k in c.model.items {
        SimilarDelete(c.model, c'.model, id, k);
      }
  }

  lemma {:induction false} DrainSimilar(c: Mirror, c': Mirror, id: Id, msgs: seq<ServerMsg>)
    requires Similar(c, c', id)
    ensures Similar(Drain(c, msgs), Drain(c', msgs), id)
    decreases |msgs|
  {
    if msgs != [] {
      ReceiveSimilar(c, c', id, msgs[0]);
      DrainSimilar(Receive(c, msgs[0]), Receive(c', msgs[0]), id, msgs[1..]);
    }
  }

  // ---- How the invariant's parts survive a change of the server's model ----------------

  /** Items are only ever created under new ids, and a deleted id never comes back. */
  ghost predicate Evolves(born: map<Id, Item>, live: map<Id, Item>, born': map<Id, Item>, live': map<Id, Item>) {
    && (forall id :: id in born ==> id in born' && born'[id] == born[id])
    && (forall id :: id in born && id in live' ==> id in live)
  }

  lemma DescendsEvolves(born: map<Id, Item>, born': map<Id, Item>, m: Model)
    requires Evolves(born, map[], born', map[]) && ModelDescends(born, m)
    ensures ModelDescends(born', m)
  {
  }

  lemma PartsEvolve(s: System, s': System)
    requires Live(s) && Evolves(s.born, s.srv.model.items, s'.born, s'.srv.model.items)
    requires s'.cli == s.cli && s'.s2c == s.s2c
    ensures MirrorOk(s'.born, s.cli.supports, s'.cli.mirror)
    ensures DownOk(s'.born, s.cli.supports, s'.srv.model.items, s.s2c)
    ensures UpOk(s'.born, s.c2s)
    ensures ClientOk(s'.born, s'.srv.model.items, s.cli)
    ensures MirrorOk(s'.born, s.cli.supports, Drain(s.cli.mirror, s.s2c))
  {
  }

  lemma JobsEvolve(born: map<Id, Item>, live: map<Id, Item>,
                   born': map<Id, Item>, live': map<Id, Item>, sup: bool, q: seq<ServerJob>)
    requires JobsOk(born, sup, live, q) && Ordered(born, live, q) && Evolves(born, live, born', live')
    ensures JobsOk(born', sup, live', q) && Ordered(born', live', q)
  {
    forall i, j | 0 <= i < j < |q|
      ensures !Clash(born', live', q[i], q[j])
    {
      assert !Clash(born, live, q[i], q[j]);
      assert q[i] in q && q[j] in q;
      assert JobOk(born, sup, live, q[i]) && JobOk(born, sup, live, q[j]);
    }
  }

  lemma JobPushed(born: map<Id, Item>, live: map<Id, Item>, sup: bool, q: seq<ServerJob>, j: ServerJob)
    requires JobsOk(born, sup, live, q) && Ordered(born, live, q) && JobOk(born, sup, live, j)
    requires forall i :: 0 <= i < |q| ==> !Clash(born, live, q[i], j)
    ensures JobsOk(born, sup, live, q + [j]) && Ordered(born, live, q + [j])
  {
  }

  // ---- Server application calls -----------------------------------------------------

  lemma CallModel(v: Server, born: map<Id, Item>, call: ServerCall)
    requires BornOk(born) && ModelDescends(born, v.model) && Allowed(v, born, call)
    ensures BornOk(Recorded(born, call)) && ModelDescends(Recorded(born, call), ServerCalled(v, call).model)
  {
    match call
    case AddItem(id, uri, description, meta, x) =>
      DescendsEvolves(born, Recorded(born, call), v.model);
      if uri !in v.model.index {
        DescendsInsert(Recorded(born, call), v.model, NewItem(id, uri, description, meta, x, x));
      }
    case RemoveItem(id) =>
      if id in v.model.items {
        DescendsDelete(born, v.model, id);
      }
    case SetValue(id, x) =>
      if id in v.model.items {
        DescendsSet(born, v.model, id, x);
      }
  }

  lemma CallEvolves(v: Server, born: map<Id, Item>, call: ServerCall)
    requires Allowed(v, born, call)
    ensures Evolves(born, v.model.items, Recorded(born, call), ServerCalled(v, call).model.items)
  {
  }

  lemma CallFrame(v: Server, call: ServerCall)
    requires v.appPush.None?
    ensures var v' := ServerCalled(v, call);
            && v' == v.(model := v'.model, appPush := v'.appPush)
            && Jobs(v') == Jobs(v) + (if v'.appPush.Some? then [v'.appPush.value] else [])
            && (v'.appPush.Some? ==> v.connected && !v'.appPush.value.SubscribeJob?)
  {
  }

  lemma CallJobs(v: Server, born: map<Id, Item>, call: ServerCall, sup: bool)
    requires BornOk(born) && ModelDescends(born, v.model) && Allowed(v, born, call) && v.appPush.None?
    requires v.vectors == sup && JobsOk(born, sup, v.model.items, Jobs(v)) && Ordered(born, v.model.items, Jobs(v))
    ensures var v' := ServerCalled(v, call);
            && JobsOk(Recorded(born, call), sup, v'.model.items, Jobs(v'))
            && Ordered(Recorded(born, call), v'.model.items, Jobs(v'))
  {
    var v', born' := ServerCalled(v, call), Recorded(born, call);
    CallEvolves(v, born, call);
    CallFrame(v, call);
    JobsEvolve(born, v.model.items, born', v'.model.items, sup, Jobs(v));
    if v'.appPush.Some? {
      JobPushed(born', v'.model.items, sup, Jobs(v), v'.appPush.value);
    }
  }

  lemma AddAgrees(v: Server, born: map<Id, Item>, call: ServerCall, c: Client, c2s: seq<ClientMsg>, d: Mirror, id: Id)
    requires call.AddItem? && call.id !in born && v.connected && v.vectors == c.supports
    requires forall k :: k in v.model.items ==> k in born
    requires Agrees(v, c, c2s, d, id) && v.appPush.None? && (id in d.model.items ==> id in born)
    ensures Agrees(ServerAdd(v, call.id, call.uri, call.description, call.meta, call.value), c, c2s, d, id)
  {
  }

  lemma RemoveAgrees(v: Server, call: ServerCall, c: Client, c2s: seq<ClientMsg>, d: Mirror, id: Id)
    requires call.RemoveItem? && v.connected && v.vectors == c.supports && Agrees(v, c, c2s, d, id) && v.appPush.None?
    requires AllSupported(c.supports, d.model)
    requires id in d.model.items && id in v.model.items ==> v.model.items[id].kind == d.model.items[id].kind
    ensures Agrees(ServerRemove(v, call.id), c, c2s, d, id)
  {
  }

  lemma SetAgrees(v: Server, call: ServerCall, c: Client, c2s: seq<ClientMsg>, d: Mirror, id: Id)
    requires call.SetValue? && v.connected && v.vectors == c.supports && Agrees(v, c, c2s, d, id) && v.appPush.None?
    requires AllSupported(c.supports, d.model)
    requires id in v.model.items ==> TypeOf(v.model.items[id].current) == v.model.items[id].kind
    requires id in d.model.items && id in v.model.items ==> v.model.items[id].kind == d.model.items[id].kind
    ensures Agrees(ServerSet(v, call.id, call.value), c, c2s, d, id)
  {
  }

  lemma CallAgrees(v: Server, born: map<Id, Item>, call: ServerCall,
                   c: Client, c2s: seq<ClientMsg>, d: Mirror, id: Id)
    requires ModelDescends(born, v.model) && Allowed(v, born, call) && v.appPush.None?
    requires MirrorOk(born, c.supports, d) && v.connected && v.vectors == c.supports
    requires Agrees(v, c, c2s, d, id)
    ensures Agrees(ServerCalled(v, call), c, c2s, d, id)
  {
    CallFrame(v, call);
    match call
    case AddItem(_, _, _, _, _) => AddAgrees(v, born, call, c, c2s, d, id);
    case RemoveItem(_) => RemoveAgrees(v, call, c, c2s, d, id);
    case SetValue(k, _) =>
      assert k in v.model.items ==> Descends(born, v.model.items[k]);
      SetAgrees(v, call, c, c2s, d, id);
  }

  lemma KeepCall(s: System, call: ServerCall)
    requires Inv(s) && s.srv.appPush.None? && Allowed(s.srv, s.born, call)
    ensures Inv(s.(srv := ServerCalled(s.srv, call), born := Recorded(s.born, call)))
  {
    CallBase(s, call);
    if s.linkUp && Live(s) {
      CallLive(s, call);
    } else if s.linkUp {
      CallSubscribing(s, call);
    }
  }

  lemma CallBase(s: System, call: ServerCall)
    requires Base(s) && s.srv.appPush.None? && Allowed(s.srv, s.born, call)
    ensures Base(s.(srv := ServerCalled(s.srv, call), born := Recorded(s.born, call)))
  {
    CallModel(s.srv, s.born, call);
    CallFrame(s.srv, call);
  }

  lemma CallSubscribing(s: System, call: ServerCall)
    requires Subscribing(s)
    ensures Subscribing(s.(srv := ServerCalled(s.srv, call), born := Recorded(s.born, call)))
  {
    CallFrame(s.srv, call);
  }

  lemma CallLive(s: System, call: ServerCall)
    requires BornOk(s.born) && ModelDescends(s.born, s.srv.model) && Live(s)
    requires s.srv.appPush.None? && Allowed(s.srv, s.born, call)
    ensures Live(s.(srv := ServerCalled(s.srv, call), born := Recorded(s.born, call)))
  {
    var s' := s.(srv := ServerCalled(s.srv, call), born := Recorded(s.born, call));
    CallEvolves(s.srv, s.born, call);
    CallFrame(s.srv, call);
    PartsEvolve(s, s');
    CallJobs(s.srv, s.born, call, s.cli.supports);
    var d := Drain(s.cli.mirror, s.s2c);
    forall id
      ensures Agrees(s'.srv, s'.cli, s'.c2s, d, id)
    {
      CallAgrees(s.srv, s.born, call, s.cli, s.c2s, d, id);
    }
  }

  // ---- Server queue -----------------------------------------------------------------

  /** Agreement depends on the jobs only as a set. */
  lemma AgreeSameJobs(s: System, v': Server)
    requires AllAgree(s.srv, s.cli, s.c2s, Drain(s.cli.mirror, s.s2c)) && v'.model == s.srv.model
    requires forall j :: j in Jobs(s.srv) ==> j in Jobs(v')
    requires forall id :: s.srv.rxPush == Some(ChangeJob(id)) ==> Dirty(v', id)
    ensures AllAgree(v', s.cli, s.c2s, Drain(s.cli.mirror, s.s2c))
  {
    forall id
      ensures Agrees(v', s.cli, s.c2s, Drain(s.cli.mirror, s.s2c), id)
    {
      assert Agrees(s.srv, s.cli, s.c2s, Drain(s.cli.mirror, s.s2c), id);
    }
  }

  lemma KeepSrvPull(s: System)
    requires Inv(s) && s.srv.batch == []
    ensures Inv(s.(srv := ServerPull(s.srv)))
  {
    var v' := ServerPull(s.srv);
    assert Jobs(v') == Jobs(s.srv);
    assert v'.batch + v'.pending == s.srv.batch + s.srv.pending;
    if s.linkUp && Live(s) {
      AgreeSameJobs(s, v');
    }
  }

  /** Pushing the application's job keeps the set of jobs, dropping at most a repetition. */
  lemma AppPushJobs(v: Server)
    requires v.appPush.Some?
    ensures var q := Jobs(ServerAppPush(v)); q == Jobs(v) || q == Jobs(v)[..|Jobs(v)| - 1]
    ensures forall j :: j in Jobs(ServerAppPush(v)) <==> j in Jobs(v)
  {
    var v' := ServerAppPush(v);
    if v.appPush.value in v.pending {
      assert Jobs(v') == Jobs(v)[..|Jobs(v)| - 1];
    } else {
      assert Jobs(v') == Jobs(v);
    }
  }

  lemma KeepSrvAppPush(s: System)
    requires Inv(s) && s.srv.appPush.Some?
    ensures Inv(s.(srv := ServerAppPush(s.srv)))
  {
    AppPushJobs(s.srv);
    var s' := s.(srv := ServerAppPush(s.srv));
    if s.linkUp && Live(s) {
      AgreeSameJobs(s, s'.srv);
    }
  }

  /** Pushing a change job on behalf of the receive thread. */
  lemma RxPushJobs(v: Server, born: map<Id, Item>, live: map<Id, Item>)
    requires v.rxPush.Some? && v.rxPush.value.ChangeJob? && Ordered(born, live, Jobs(v))
    ensures Ordered(born, live, Jobs(ServerRxPush(v)))
    ensures forall j :: j in Jobs(ServerRxPush(v)) <==> j in Jobs(v) || j == v.rxPush.value
  {
    var v' := ServerRxPush(v);
    if v.rxPush.value !in v.pending {
      var k := |v.batch + v.pending|;
      assert Jobs(v') == Jobs(v)[..k] + [v.rxPush.value] + Jobs(v)[k..];
    } else {
      assert Jobs(v') == Jobs(v);
      assert v.rxPush.value in Jobs(v);
    }
  }

  lemma KeepSrvRxPush(s: System)
    requires Inv(s) && s.srv.rxPush.Some?
    ensures Inv(s.(srv := ServerRxPush(s.srv)))
  {
    if s.srv.rxPush.value.ChangeJob? {
      RxPushJobs(s.srv, map[], map[]);
    }
    if s.linkUp && Live(s) {
      RxPushLive(s);
    }
  }

  lemma RxPushLive(s: System)
    requires Live(s) && s.srv.rxPush.Some?
    ensures Live(s.(srv := ServerRxPush(s.srv)))
  {
    RxPushJobs(s.srv, s.born, s.srv.model.items);
    AgreeSameJobs(s, ServerRxPush(s.srv));
  }

  // ---- Server jobs ------------------------------------------------------------------

  lemma JobsTail(born: map<Id, Item>, live: map<Id, Item>, sup: bool, v: Server)
    requires v.batch != [] && JobsOk(born, sup, live, Jobs(v)) && Ordered(born, live, Jobs(v))
    ensures var v' := v.(batch := v.batch[1..]);
            && Jobs(v') == Jobs(v)[1..]
            && JobsOk(born, sup, live, Jobs(v')) && Ordered(born, live, Jobs(v'))
            && (forall j :: j in Jobs(v) <==> j in Jobs(v') || j == v.batch[0])
  {
    var v' := v.(batch := v.batch[1..]);
    var q := Jobs(v);
    assert q == [q[0]] + q[1..];
    assert Jobs(v') == q[1..];
  }

  /** When an append job runs, the drained client holds no other item under the same uri. */
  lemma AppendHasNoRival(s: System, id: Id)
    requires Live(s) && ModelDescends(s.born, s.srv.model)
    requires s.srv.batch != [] && s.srv.batch[0] == AppendJob(id) && id in s.srv.model.items
    ensures NoRival(Drain(s.cli.mirror, s.s2c).model, s.srv.model.items[id])
  {
    var d := Drain(s.cli.mirror, s.s2c);
    var live := s.srv.model.items;
    forall k | k in d.model.items && d.model.items[k].uri == live[id].uri
      ensures k == id
    {
      if k != id {
        assert Descends(s.born, d.model.items[k]) && Descends(s.born, live[id]);
        assert k in live ==> Descends(s.born, live[k]);
        assert k !in live;
        assert Agrees(s.srv, s.cli, s.c2s, d, k);
        var j :| 0 <= j < |Jobs(s.srv)| && Jobs(s.srv)[j] == RemoveJob(k);
        assert Jobs(s.srv)[0] == AppendJob(id);
        assert Clash(s.born, live, Jobs(s.srv)[0], Jobs(s.srv)[j]);
      }
    }
  }

  /** The message a job of a live server sends, if any. */
  function JobMsg(v: Server): Option<ServerMsg>
    requires v.batch != []
  {
    match v.batch[0]
    case SubscribeJob => None
    case AppendJob(id) => if id in v.model.items then Some(Add(v.model.items[id])) else None
    case ChangeJob(id) => if id in v.model.items then Some(Change(id, v.model.items[id].current)) else None
    case RemoveJob(id) => Some(Remove(id))
  }

  /** What a message does to the items of a mirror it does not halt. */
  function Effect(d: Model, m: ServerMsg): map<Id, Item> {
    match m
    case Add(a) => d.items[a.id := a]
    case Change(k, x) => if k in d.items then SetCurrent(d, k, x).items else d.items
    case Remove(k) => d.items - {k}
    case Features(_) => d.items
  }

  lemma AppendEffect(s: System, id: Id)
    requires BornOk(s.born) && Live(s) && ModelDescends(s.born, s.srv.model)
    requires s.srv.batch != [] && s.srv.batch[0] == AppendJob(id) && id in s.srv.model.items
    ensures var d, m := Drain(s.cli.mirror, s.s2c), Add(s.srv.model.items[id]);
            && DownMsgOk(s.born, s.cli.supports, s.srv.model.items, m)
            && !Receive(d, m).halted && Receive(d, m).model.items == Effect(d.model, m)
  {
    var it := s.srv.model.items[id];
    assert AppendJob(id) in Jobs(s.srv);
    assert JobOk(s.born, s.cli.supports, s.srv.model.items, AppendJob(id));
    assert Descends(s.born, it) && it.id == id;
    assert it.kind == s.born[id].kind;
    AppendHasNoRival(s, id);
    AddOk(s.born, s.cli.supports, Drain(s.cli.mirror, s.s2c), it);
  }

  lemma ChangeEffect(born: map<Id, Item>, sup: bool, m: Model, d: Mirror, id: Id)
    requires ModelDescends(born, m) && id in m.items && !d.halted
    ensures var x := Change(id, m.items[id].current);
            DownMsgOk(born, sup, m.items, x) && !Receive(d, x).halted && Receive(d, x).model.items == Effect(d.model, x)
  {
    assert Descends(born, m.items[id]);
  }

  lemma RemoveEffect(born: map<Id, Item>, sup: bool, live: map<Id, Item>, d: Mirror, id: Id)
    requires JobOk(born, sup, live, RemoveJob(id)) && !d.halted
    ensures DownMsgOk(born, sup, live, Remove(id))
    ensures !Receive(d, Remove(id)).halted && Receive(d, Remove(id)).model.items == Effect(d.model, Remove(id))
  {
  }

  lemma JobEffect(s: System)
    requires BornOk(s.born) && ModelDescends(s.born, s.srv.model) && Live(s) && s.srv.batch != [] && JobMsg(s.srv).Some?
    ensures var d, m := Drain(s.cli.mirror, s.s2c), JobMsg(s.srv).value;
            && DownMsgOk(s.born, s.cli.supports, s.srv.model.items, m)
            && !Receive(d, m).halted && Receive(d, m).model.items == Effect(d.model, m)
  {
    assert s.srv.batch[0] in Jobs(s.srv);
    var d := Drain(s.cli.mirror, s.s2c);
    match s.srv.batch[0]
    case AppendJob(id) => AppendEffect(s, id);
    case ChangeJob(id) => ChangeEffect(s.born, s.cli.supports, s.srv.model, d, id);
    case RemoveJob(id) => RemoveEffect(s.born, s.cli.supports, s.srv.model.items, d, id);
  }

  /** Running a job trades its entry in the queue for its message. */
  lemma JobAgrees(v: Server, v': Server, c: Client, c2s: seq<ClientMsg>, d: Mirror, d': Mirror, id: Id)
    requires v.batch != [] && !v.batch[0].SubscribeJob? && v' == v.(batch := v.batch[1..])
    requires forall j :: j in Jobs(v) <==> j in Jobs(v') || j == v.batch[0]
    requires d'.model.items == if JobMsg(v).None? then d.model.items else Effect(d.model, JobMsg(v).value)
    requires v.batch[0].RemoveJob? ==> v.batch[0].id !in v.model.items
    requires v.batch[0].AppendJob? && v.batch[0].id in v.model.items ==>
               v.model.items[v.batch[0].id].id == v.batch[0].id
    requires Agrees(v, c, c2s, d, id)
    ensures Agrees(v', c, c2s, d', id)
  {
  }

  /** A job of a live server, and the message it sends over a link that is up. */
  function AfterJob(s: System): System
    requires s.srv.batch != []
  {
    s.(srv := s.srv.(batch := s.srv.batch[1..]),
       s2c := if JobMsg(s.srv).Some? then s.s2c + [JobMsg(s.srv).value] else s.s2c)
  }

  lemma LiveJobMirror(s: System)
    requires BornOk(s.born) && ModelDescends(s.born, s.srv.model) && Live(s) && s.srv.batch != []
    ensures var d, d' := Drain(s.cli.mirror, s.s2c), Drain(s.cli.mirror, AfterJob(s).s2c);
            && MirrorOk(s.born, s.cli.supports, d')
            && DownOk(s.born, s.cli.supports, s.srv.model.items, AfterJob(s).s2c)
            && d'.model.items == if JobMsg(s.srv).None? then d.model.items else Effect(d.model, JobMsg(s.srv).value)
  {
    if JobMsg(s.srv).Some? {
      var m := JobMsg(s.srv).value;
      JobEffect(s);
      DrainAppend(s.cli.mirror, s.s2c, m);
      ReceiveOk(s.born, s.cli.supports, s.srv.model.items, Drain(s.cli.mirror, s.s2c), m);
    }
  }

  lemma KeepLiveJob(s: System)
    requires BornOk(s.born) && ModelDescends(s.born, s.srv.model) && Live(s) && s.srv.batch != []
    ensures Live(AfterJob(s))
  {
    var s' := AfterJob(s);
    var d, d' := Drain(s.cli.mirror, s.s2c), Drain(s.cli.mirror, s'.s2c);
    JobsTail(s.born, s.srv.model.items, s.cli.supports, s.srv);
    LiveJobMirror(s);
    assert s.srv.batch[0] in Jobs(s.srv);
    assert JobOk(s.born, s.cli.supports, s.srv.model.items, s.srv.batch[0]);
    forall id
      ensures Agrees(s'.srv, s.cli, s.c2s, d', id)
    {
      assert Agrees(s.srv, s.cli, s.c2s, d, id);
      JobAgrees(s.srv, s'.srv, s.cli, s.c2s, d, d', id);
    }
  }

  // ---- The subscribe walk -----------------------------------------------------------

  /** The supported items among those whose uris are listed. */
  ghost predicate HoldsListed(d: Model, m: Model, sup: bool, order: seq<string>) {
    && (forall id :: id in d.items <==> id in m.items && m.items[id].uri in order && Supported(sup, m.items[id].kind))
    && (forall id :: id in d.items ==> d.items[id] == m.items[id])
  }

  lemma {:induction false} SnapshotDrains(born: map<Id, Item>, sup: bool, m: Model, order: seq<string>, c: Mirror)
    requires BornOk(born) && ModelDescends(born, m) && NoDuplicates(order) && (forall u :: u in order ==> u in m.index)
    requires c.model == EMPTY_MODEL && !c.halted
    ensures MirrorOk(born, sup, Drain(c, Snapshot(m, sup, order)))
    ensures HoldsListed(Drain(c, Snapshot(m, sup, order)).model, m, sup, order)
  {
    if order != [] {
      var n := |order| - 1;
      var u := order[n];
      assert order == order[..n] + [u] && u in order;
      SnapshotDrains(born, sup, m, order[..n], c);
      var it := m.items[m.index[u]];
      if Supported(sup, it.kind) {
        SnapshotStep(born, sup, m, order[..n], u, c);
        DrainAppend(c, Snapshot(m, sup, order[..n]), Add(it));
      }
    }
  }

  lemma SnapshotStep(born: map<Id, Item>, sup: bool, m: Model, init: seq<string>, u: string, c: Mirror)
    requires BornOk(born) && ModelDescends(born, m) && u in m.index && u !in init
    requires forall w :: w in init ==> w in m.index
    requires var d := Drain(c, Snapshot(m, sup, init)); MirrorOk(born, sup, d) && HoldsListed(d.model, m, sup, init)
    requires Supported(sup, m.items[m.index[u]].kind)
    ensures var r := Receive(Drain(c, Snapshot(m, sup, init)), Add(m.items[m.index[u]]));
            MirrorOk(born, sup, r) && HoldsListed(r.model, m, sup, init + [u])
  {
    var d := Drain(c, Snapshot(m, sup, init));
    var it := m.items[m.index[u]];
    assert Descends(born, it);
    assert NoRival(d.model, it);
    AddOk(born, sup, d, it);
    ReceiveOk(born, sup, map[], d, Add(it));
  }

  lemma {:induction false} SnapshotMsgsOk(born: map<Id, Item>, sup: bool, m: Model, order: seq<string>)
    requires ModelDescends(born, m) && (forall u :: u in order ==> u in m.index)
    ensures DownOk(born, sup, m.items, Snapshot(m, sup, order))
  {
    if order != [] {
      var n := |order| - 1;
      assert order[n] in order;
      SnapshotMsgsOk(born, sup, m, order[..n]);
      assert Descends(born, m.items[m.index[order[n]]]);
    }
  }

  /** The subscribe job sends the features and the snapshot, and goes live. */
  lemma WalkSent(s: System, order: seq<string>)
    requires Base(s) && s.linkUp && Subscribing(s) && s.srv.batch != [] && IsWalk(s.srv.model, order)
    ensures Next(s, SrvJob(order))
         == s.(srv := s.srv.(batch := [], announced := false, connected := true),
               s2c := [Features(Some(true))] + Snapshot(s.srv.model, s.cli.supports, order))
    ensures s.srv.pending == [] && s.cli.batch == [] && s.cli.pending == []
  {
    assert s.srv.batch == [SubscribeJob] && s.srv.pending == [];
    var snap := Snapshot(s.srv.model, s.cli.supports, order);
    assert s.s2c + ([Features(Some(true))] + snap) == [Features(Some(true))] + snap;
  }

  /** The drained client after the walk. */
  lemma WalkDrains(s: System, order: seq<string>)
    requires Base(s) && s.linkUp && Subscribing(s) && s.srv.batch != [] && IsWalk(s.srv.model, order)
    ensures var snap := Snapshot(s.srv.model, s.cli.supports, order);
            var d := Drain(s.cli.mirror, [Features(Some(true))] + snap);
            && MirrorOk(s.born, s.cli.supports, d) && HoldsListed(d.model, s.srv.model, s.cli.supports, order)
            && DownOk(s.born, s.cli.supports, s.srv.model.items, snap)
  {
    var snap := Snapshot(s.srv.model, s.cli.supports, order);
    var c := Receive(s.cli.mirror, Features(Some(true)));
    assert ([Features(Some(true))] + snap)[1..] == snap;
    SnapshotDrains(s.born, s.cli.supports, s.srv.model, order, c);
    SnapshotMsgsOk(s.born, s.cli.supports, s.srv.model, order);
  }

  /** The walk starts the live phase: the drained client holds exactly the supported items. */
  lemma KeepSubscribeJob(s: System, order: seq<string>)
    requires Base(s) && s.linkUp && Subscribing(s) && s.srv.batch != [] && IsWalk(s.srv.model, order)
    ensures Live(Next(s, SrvJob(order)))
  {
    WalkSent(s, order);
    WalkDrains(s, order);
    var s' := Next(s, SrvJob(order));
    assert Jobs(s'.srv) == [];
    SnapshotAgrees(s'.srv, s'.cli, Drain(s.cli.mirror, s'.s2c), order);
  }

  lemma SnapshotAgrees(v: Server, c: Client, d: Mirror, order: seq<string>)
    requires Consistent(v.model) && IsWalk(v.model, order) && HoldsListed(d.model, v.model, c.supports, order)
    ensures AllAgree(v, c, [], d)
  {
    forall id
      ensures Agrees(v, c, [], d, id)
    {
      assert id in v.model.items ==> v.model.items[id].uri in order;
    }
  }

  lemma JobBase(s: System, order: seq<string>)
    requires Base(s) && s.srv.batch != [] && IsWalk(s.srv.model, order)
    requires s.linkUp ==> SubscribeJob !in Jobs(s.srv)[1..] && s.srv.rxPush != Some(SubscribeJob)
    ensures Base(s.(srv := ServerJobNext(s.srv, order, s.linkUp),
                    s2c := if s.linkUp then s.s2c + ServerJobOut(s.srv, order) else s.s2c))
  {
    JobsRest(s.srv, order, s.linkUp);
    var q := Jobs(s.srv);
    assert q == [q[0]] + q[1..];
  }

  lemma JobsRest(v: Server, order: seq<string>, linkUp: bool)
    requires v.batch != [] && Consistent(v.model) && IsWalk(v.model, order)
    ensures Jobs(v) != [] && Jobs(v)[0] == v.batch[0] && Jobs(ServerJobNext(v, order, linkUp)) == Jobs(v)[1..]
  {
  }

  lemma LiveJobIs(s: System, order: seq<string>)
    requires Enabled(s, SrvJob(order)) && s.linkUp && s.srv.connected
    requires JobsOk(s.born, s.cli.supports, s.srv.model.items, Jobs(s.srv))
    ensures Next(s, SrvJob(order)) == AfterJob(s)
  {
    assert s.srv.batch[0] in Jobs(s.srv);
    assert JobOk(s.born, s.cli.supports, s.srv.model.items, s.srv.batch[0]);
    assert ServerJobNext(s.srv, order, true) == AfterJob(s).srv;
    if JobMsg(s.srv).None? {
      assert ServerJobOut(s.srv, order) == [];
      assert s.s2c + ServerJobOut(s.srv, order) == s.s2c;
    } else {
      assert ServerJobOut(s.srv, order) == [JobMsg(s.srv).value];
    }
  }

  lemma KeepSrvJob(s: System, order: seq<string>)
    requires Inv(s) && Enabled(s, SrvJob(order))
    ensures Inv(Next(s, SrvJob(order)))
  {
    var s' := Next(s, SrvJob(order));
    var q := Jobs(s.srv);
    assert s.linkUp ==> SubscribeJob !in q[1..] by {
      assert q == [q[0]] + q[1..];
      assert Live(s) ==> SubscribeJob !in q;
      assert Subscribing(s) ==> q == [SubscribeJob];
    }
    JobBase(s, order);
    if s.linkUp && Live(s) {
      LiveJobIs(s, order);
      KeepLiveJob(s);
    } else if s.linkUp {
      KeepSubscribeJob(s, order);
    }
  }

  // ---- Messages from the client -----------------------------------------------------

  lemma RequestAgrees(v: Server, c: Client, c2s: seq<ClientMsg>, d: Mirror, id: Id)
    requires c2s != [] && c2s[0].Request? && v.rxPush.None?
    requires c2s[0].id in v.model.items ==> Compatible(v.model.items[c2s[0].id].current, c2s[0].value)
    requires Agrees(v, c, c2s, d, id)
    ensures Agrees(ServerReceive(v, c2s[0]), c, c2s[1..], d, id)
  {
    assert Jobs(ServerReceive(v, c2s[0])) == Jobs(v);
    assert c2s == [c2s[0]] + c2s[1..];
  }

  lemma ShapeOfDefault(d: Variant, current: Variant, v: Variant)
    requires SameShape(d, current)
    ensures Compatible(d, v) <==> Compatible(current, v)
    ensures Compatible(d, v) ==> SameShape(d, v)
  {
  }

  lemma RequestModel(v: Server, born: map<Id, Item>, m: ClientMsg)
    requires ModelDescends(born, v.model)
    requires m.Request? && m.id in born && Compatible(born[m.id].defaultValue, m.value)
    ensures ModelDescends(born, ServerReceive(v, m).model)
    ensures m.id in v.model.items ==> Compatible(v.model.items[m.id].current, m.value)
  {
    if m.id in v.model.items {
      assert Descends(born, v.model.items[m.id]);
      ShapeOfDefault(born[m.id].defaultValue, v.model.items[m.id].current, m.value);
      DescendsSet(born, v.model, m.id, m.value);
    }
  }

  lemma RequestFrame(v: Server, born: map<Id, Item>, m: ClientMsg)
    requires m.Request?
    ensures var v' := ServerReceive(v, m);
            && Evolves(born, v.model.items, born, v'.model.items)
            && v' == v.(model := v'.model, rxPush := v'.rxPush) && v'.rxPush.Some? && v'.rxPush.value.ChangeJob?
            && Jobs(v') == Jobs(v)
  {
  }

  lemma KeepRequest(s: System)
    requires Inv(s) && s.linkUp && Live(s) && s.c2s != [] && s.srv.rxPush.None?
    ensures Inv(s.(srv := ServerReceive(s.srv, s.c2s[0]), c2s := s.c2s[1..]))
  {
    var s' := s.(srv := ServerReceive(s.srv, s.c2s[0]), c2s := s.c2s[1..]);
    assert s.c2s[0] in s.c2s;
    RequestModel(s.srv, s.born, s.c2s[0]);
    RequestFrame(s.srv, s.born, s.c2s[0]);
    PartsEvolve(s, s');
    JobsEvolve(s.born, s.srv.model.items, s.born, s'.srv.model.items, s.cli.supports, Jobs(s.srv));
    forall k
      ensures Agrees(s'.srv, s'.cli, s'.c2s, Drain(s.cli.mirror, s.s2c), k)
    {
      RequestAgrees(s.srv, s.cli, s.c2s, Drain(s.cli.mirror, s.s2c), k);
    }
  }

  lemma KeepSrvReceive(s: System)
    requires Inv(s) && s.c2s != [] && s.srv.rxPush.None? && s.srvTold
    ensures Inv(s.(srv := ServerReceive(s.srv, s.c2s[0]), c2s := s.c2s[1..]))
  {
    if Live(s) {
      KeepRequest(s);
    } else {
      assert Jobs(ServerReceive(s.srv, s.c2s[0])) == Jobs(s.srv);
    }
  }

  // ---- Client -----------------------------------------------------------------------

  /** Steps that move a client change along without touching the mirror keep agreement. */
  lemma AgreeSameChanges(s: System, c': Client, c2s': seq<ClientMsg>)
    requires AllAgree(s.srv, s.cli, s.c2s, Drain(s.cli.mirror, s.s2c)) && c'.supports == s.cli.supports
    requires forall id :: InFlight(s.cli, s.c2s, id) && id in s.srv.model.items ==> InFlight(c', c2s', id)
    ensures AllAgree(s.srv, c', c2s', Drain(s.cli.mirror, s.s2c))
  {
    forall id
      ensures Agrees(s.srv, c', c2s', Drain(s.cli.mirror, s.s2c), id)
    {
      assert Agrees(s.srv, s.cli, s.c2s, Drain(s.cli.mirror, s.s2c), id);
    }
  }

  lemma CheckClientOk(born: map<Id, Item>, live: map<Id, Item>, c: Client, id: Id, v: Variant)
    requires ModelDescends(born, c.mirror.model) && ClientOk(born, live, c) && c.app.Idle?
    ensures ClientOk(born, live, ClientCheck(c, id, v))
    ensures forall k :: LocalChange(c, k) <==> LocalChange(ClientCheck(c, id, v), k)
  {
    if id in c.mirror.model.items {
      assert Descends(born, c.mirror.model.items[id]);
    }
  }

  lemma KeepCliCheck(s: System, id: Id, v: Variant)
    requires Inv(s) && s.cli.app.Idle?
    ensures Inv(s.(cli := ClientCheck(s.cli, id, v)))
  {
    var c' := ClientCheck(s.cli, id, v);
    if s.linkUp && Live(s) {
      CheckClientOk(s.born, s.srv.model.items, s.cli, id, v);
      AgreeSameChanges(s, c', s.c2s);
    }
  }

  lemma KeepCliPush(s: System)
    requires Inv(s) && s.cli.app.Pushing?
    ensures Inv(s.(cli := ClientPush(s.cli)))
  {
    var c' := ClientPush(s.cli);
    if s.linkUp && Live(s) {
      assert forall id :: LocalChange(s.cli, id) <==> LocalChange(c', id);
      AgreeSameChanges(s, c', s.c2s);
    }
  }

  lemma KeepCliPull(s: System)
    requires Inv(s) && s.cli.batch == []
    ensures Inv(s.(cli := ClientPull(s.cli)))
  {
    var c' := ClientPull(s.cli);
    assert c'.batch + c'.pending == s.cli.batch + s.cli.pending;
    if s.linkUp && Live(s) {
      AgreeSameChanges(s, c', s.c2s);
    }
  }

  /** A client job turns a local change into a request, unless the item is gone on both sides. */
  lemma CliJobLive(s: System)
    requires Live(s) && s.cli.connected && s.cli.batch != []
    ensures var c', c2s' := s.cli.(batch := s.cli.batch[1..]), s.c2s + ClientJobOut(s.cli);
            && ClientOk(s.born, s.srv.model.items, c') && UpOk(s.born, c2s')
            && AllAgree(s.srv, c', c2s', Drain(s.cli.mirror, s.s2c))
  {
    var c', c2s' := s.cli.(batch := s.cli.batch[1..]), s.c2s + ClientJobOut(s.cli);
    var j := s.cli.batch[0];
    assert s.cli.batch == [j] + s.cli.batch[1..];
    assert j in s.cli.batch && LocalChange(s.cli, j.id);
    if j.id in s.cli.mirror.model.items {
      var it := s.cli.mirror.model.items[j.id];
      assert Descends(s.born, it);
      assert Supported(s.cli.supports, it.kind);
      assert Request(j.id, it.current) in c2s';
    }
    AgreeSameChanges(s, c', c2s');
  }

  lemma KeepCliJob(s: System)
    requires Inv(s) && s.cli.batch != []
    ensures Inv(s.(cli := s.cli.(batch := s.cli.batch[1..]),
                   c2s := if s.linkUp then s.c2s + ClientJobOut(s.cli) else s.c2s))
  {
    if s.linkUp && Live(s) {
      CliJobLive(s);
    } else if s.linkUp {
      assert s.cli.batch == [SubscribeRequest] && s.cli.pending == [];
    }
  }

  lemma ReceiveClientOk(born: map<Id, Item>, sup: bool, live: map<Id, Item>, c: Client, m: ServerMsg)
    requires ClientOk(born, live, c) && DownMsgOk(born, sup, live, m)
    ensures ClientOk(born, live, c.(mirror := Receive(c.mirror, m)))
  {
    var c' := c.(mirror := Receive(c.mirror, m));
    forall id | LocalChange(c', id)
      ensures id in born && (id in c'.mirror.model.items || id !in live)
    {
      assert LocalChange(c, id);
    }
  }

  lemma KeepCliReceive(s: System)
    requires Inv(s) && s.s2c != []
    ensures Inv(s.(cli := s.cli.(mirror := Receive(s.cli.mirror, s.s2c[0])), s2c := s.s2c[1..]))
  {
    assert Live(s);
    CliReceiveLive(s);
  }

  lemma CliReceiveLive(s: System)
    requires BornOk(s.born) && Live(s) && s.s2c != []
    ensures Live(s.(cli := s.cli.(mirror := Receive(s.cli.mirror, s.s2c[0])), s2c := s.s2c[1..]))
  {
    var s' := s.(cli := s.cli.(mirror := Receive(s.cli.mirror, s.s2c[0])), s2c := s.s2c[1..]);
    assert s.s2c[0] in s.s2c;
    assert Drain(s'.cli.mirror, s'.s2c) == Drain(s.cli.mirror, s.s2c);
    if s'.cli.mirror.halted {
      HaltedSticks(s'.cli.mirror, s'.s2c);
    }
    ReceiveOk(s.born, s.cli.supports, s.srv.model.items, s.cli.mirror, s.s2c[0]);
    ReceiveClientOk(s.born, s.cli.supports, s.srv.model.items, s.cli, s.s2c[0]);
    AgreeSameChanges(s, s'.cli, s'.c2s);
  }

  lemma {:induction false} DrainOk(born: map<Id, Item>, sup: bool, live: map<Id, Item>, c: Mirror, msgs: seq<ServerMsg>)
    requires BornOk(born) && MirrorOk(born, sup, c) && DownOk(born, sup, live, msgs) && !Drain(c, msgs).halted
    ensures MirrorOk(born, sup, Drain(c, msgs))
    decreases |msgs|
  {
    if msgs != [] {
      assert msgs[0] in msgs;
      if Receive(c, msgs[0]).halted {
        HaltedSticks(Receive(c, msgs[0]), msgs[1..]);
      }
      ReceiveOk(born, sup, live, c, msgs[0]);
      DrainOk(born, sup, live, Receive(c, msgs[0]), msgs[1..]);
    }
  }

  /** The client only ever writes a value it has checked, and always pushes the change. */
  lemma CommitPushes(born: map<Id, Item>, sup: bool, live: map<Id, Item>, c: Client, msgs: seq<ServerMsg>)
    requires MirrorOk(born, sup, c.mirror) && ClientOk(born, live, c) && FeaturesFirst(c.mirror, msgs)
    requires c.connected && c.app.Checked?
    ensures ClientCommit(c) == c.(app := Idle)
            || (c.app.id in c.mirror.model.items
                && ClientCommit(c)
                   == c.(mirror := c.mirror.(model := SetCurrent(c.mirror.model, c.app.id, c.app.value)),
                         app := Pushing(c.app.id)))
  {
    if c.app.id in c.mirror.model.items {
      assert Descends(born, c.mirror.model.items[c.app.id]);
      assert c.mirror.vectors;
    }
  }

  lemma CommitMirror(born: map<Id, Item>, sup: bool, live: map<Id, Item>, c: Mirror, c': Mirror,
                     id: Id, v: Variant, msgs: seq<ServerMsg>)
    requires BornOk(born) && MirrorOk(born, sup, c) && id in c.model.items && Compatible(born[id].defaultValue, v)
    requires c' == c.(model := SetCurrent(c.model, id, v))
    requires DownOk(born, sup, live, msgs) && !Drain(c, msgs).halted
    ensures MirrorOk(born, sup, c') && MirrorOk(born, sup, Drain(c', msgs))
    ensures Similar(Drain(c, msgs), Drain(c', msgs), id)
  {
    ShapeOfDefault(born[id].defaultValue, born[id].defaultValue, v);
    DescendsSet(born, c.model, id, v);
    assert c'.model.items.Keys == c.model.items.Keys;
    DrainSimilar(c, c', id, msgs);
    DrainOk(born, sup, live, c', msgs);
  }

  lemma SimilarAgrees(v: Server, c: Client, c': Client, c2s: seq<ClientMsg>, d: Mirror, d': Mirror, id: Id, k: Id)
    requires Similar(d, d', id) && c'.app == Pushing(id) && !c.app.Pushing?
    requires c'.batch == c.batch && c'.pending == c.pending && c'.supports == c.supports
    requires Agrees(v, c, c2s, d, k)
    ensures Agrees(v, c', c2s, d', k)
  {
    assert k in d.model.items <==> k in d'.model.items;
    assert LocalChange(c, k) ==> LocalChange(c', k);
    assert LocalChange(c', id);
  }

  lemma CommitClientOk(born: map<Id, Item>, live: map<Id, Item>, c: Client, c': Client)
    requires ClientOk(born, live, c) && c.app.Checked? && c.app.id in c.mirror.model.items && BornOk(born)
    requires c' == c.(mirror := c.mirror.(model := SetCurrent(c.mirror.model, c.app.id, c.app.value)),
                      app := Pushing(c.app.id))
    ensures ClientOk(born, live, c')
  {
    forall id | LocalChange(c', id)
      ensures id in born && (id in c'.mirror.model.items || id !in live)
    {
      assert id == c.app.id || LocalChange(c, id);
    }
  }

  lemma CommitLive(s: System, c': Client)
    requires BornOk(s.born) && Live(s) && s.cli.app.Checked? && s.cli.app.id in s.cli.mirror.model.items
    requires var m := SetCurrent(s.cli.mirror.model, s.cli.app.id, s.cli.app.value);
             c' == s.cli.(mirror := s.cli.mirror.(model := m), app := Pushing(s.cli.app.id))
    ensures Live(s.(cli := c'))
  {
    var c, id := s.cli, s.cli.app.id;
    CommitMirror(s.born, c.supports, s.srv.model.items, c.mirror, c'.mirror, id, c.app.value, s.s2c);
    CommitClientOk(s.born, s.srv.model.items, c, c');
    assert c'.mirror.model.items != map[] by {
      assert id in c'.mirror.model.items;
    }
    forall k
      ensures Agrees(s.srv, c', s.c2s, Drain(c'.mirror, s.s2c), k)
    {
      assert Agrees(s.srv, c, s.c2s, Drain(c.mirror, s.s2c), k);
      SimilarAgrees(s.srv, c, c', s.c2s, Drain(c.mirror, s.s2c), Drain(c'.mirror, s.s2c), id, k);
    }
  }

  lemma CommitBase(s: System)
    requires Base(s) && s.cli.app.Checked?
    ensures Base(s.(cli := ClientCommit(s.cli)))
  {
    if s.cli.app.id in s.cli.mirror.model.items {
      SetCurrentConsistent(s.cli.mirror.model, s.cli.app.id, s.cli.app.value);
    }
  }

  lemma CommitIdle(s: System)
    requires Live(s) && s.cli.app.Checked?
    ensures Live(s.(cli := s.cli.(app := Idle)))
  {
    AgreeSameChanges(s, s.cli.(app := Idle), s.c2s);
  }

  lemma KeepCliCommit(s: System)
    requires Inv(s) && s.cli.app.Checked?
    ensures Inv(s.(cli := ClientCommit(s.cli)))
  {
    CommitBase(s);
    if s.linkUp {
      CommitPushes(s.born, s.cli.supports, s.srv.model.items, s.cli, s.s2c);
      if ClientCommit(s.cli) == s.cli.(app := Idle) {
        CommitIdle(s);
      } else {
        CommitLive(s, ClientCommit(s.cli));
      }
    }
  }

  // ---- Link events ------------------------------------------------------------------

  lemma KeepLinkEvent(s: System, step: Step)
    requires Inv(s) && Enabled(s, step) && (step.LinkDown? || step.SrvLoss? || step.CliLoss?)
    ensures Inv(Next(s, step))
  {
    var s' := Next(s, step);
    assert Jobs(s'.srv) == Jobs(s.srv);
  }

  lemma KeepConnect(s: System, step: Step)
    requires Inv(s) && Enabled(s, step) && (step.LinkUp? || step.SrvConnect? || step.CliConnect?)
    ensures Inv(Next(s, step))
  {
    var s' := Next(s, step);
    assert Jobs(s'.srv) == Jobs(s.srv);
    if step.LinkUp? {
      assert Jobs(s.srv) == [];
    }
    assert Subscribing(s');
  }

  lemma KeepCliRxPush(s: System)
    requires Inv(s) && s.cli.rxPush.Some?
    ensures Inv(s.(cli := ClientRxPush(s.cli)))
  {
    if s.linkUp {
      assert s.cli.batch == [] && s.cli.pending == [];
    }
  }

  // ---- Whole runs -------------------------------------------------------------------

  lemma KeepStep(s: System, step: Step)
    requires Inv(s) && Enabled(s, step)
    ensures Inv(Next(s, step))
  {
    match step
    case SrvCall(call) => KeepCall(s, call);
    case SrvAppPush => KeepSrvAppPush(s);
    case SrvRxPush => KeepSrvRxPush(s);
    case SrvPull => KeepSrvPull(s);
    case SrvJob(order) => KeepSrvJob(s, order);
    case SrvReceive => KeepSrvReceive(s);
    case CliCheck(id, v) => KeepCliCheck(s, id, v);
    case CliCommit => KeepCliCommit(s);
    case CliPush => KeepCliPush(s);
    case CliRxPush => KeepCliRxPush(s);
    case CliPull => KeepCliPull(s);
    case CliJob => KeepCliJob(s);
    case CliReceive => KeepCliReceive(s);
    case LinkDown => KeepLinkEvent(s, step);
    case SrvLoss => KeepLinkEvent(s, step);
    case CliLoss => KeepLinkEvent(s, step);
    case LinkUp => KeepConnect(s, step);
    case SrvConnect => KeepConnect(s, step);
    case CliConnect(_) => KeepConnect(s, step);
  }

  lemma {:induction false} RunKeepsInv(start: System, steps: seq<Step>, end: System)
    requires Inv(start) && Reaches(start, steps, end)
    ensures Inv(end)
    decreases |steps|
  {
    if steps != [] {
      KeepStep(start, steps[0]);
      RunKeepsInv(Next(start, steps[0]), steps[1..], end);
    }
  }

  /** Both peers know that the link is up, and nothing is queued, half done or on the wire. */
  ghost predicate Quiescent(s: System) {
    s.linkUp && s.srvTold && s.cliTold && QueuesIdle(s) && s.c2s == [] && s.s2c == []
  }

  /** Which values a client holds: booleans and numbers always, strings and vectors if it supports
      them, and null never. */
  predicate HeldByType(held: bool, supports: bool, v: Variant) {
    match v
    case Null => !held
    case Bool(_) => held
    case Scalar(_, _) => held
    case Text(_) => held <==> supports
    case Vector(_, _) => held <==> supports
  }

  /** The client holds nothing but items of the server, field by field, and of those all that it can
      hold by their type. */
  ghost predicate Converged(s: System) {
    && (forall id :: id in s.cli.mirror.model.items ==>
          id in s.srv.model.items && s.cli.mirror.model.items[id] == s.srv.model.items[id])
    && (forall id :: id in s.srv.model.items ==>
          HeldByType(id in s.cli.mirror.model.items, s.cli.supports, s.srv.model.items[id].current))
  }

  lemma QuiescentConverged(s: System)
    requires Inv(s) && Quiescent(s)
    ensures Converged(s)
  {
    assert Live(s) && Jobs(s.srv) == [];
    assert Drain(s.cli.mirror, s.s2c) == s.cli.mirror;
    forall id
      ensures id in s.cli.mirror.model.items ==>
                id in s.srv.model.items && s.cli.mirror.model.items[id] == s.srv.model.items[id]
      ensures id in s.srv.model.items ==>
                HeldByType(id in s.cli.mirror.model.items, s.cli.supports, s.srv.model.items[id].current)
    {
      QuiescentItem(s.born, s.srv, s.cli, id);
    }
  }

  /** One item, when neither side has anything left to do about it. */
  lemma QuiescentItem(born: map<Id, Item>, v: Server, c: Client, id: Id)
    requires ModelDescends(born, v.model) && MirrorOk(born, c.supports, c.mirror)
    requires Agrees(v, c, [], c.mirror, id) && !LocalChange(c, id) && Jobs(v) == [] && v.rxPush.None?
    ensures id in c.mirror.model.items ==> id in v.model.items && c.mirror.model.items[id] == v.model.items[id]
    ensures id in v.model.items ==>
              HeldByType(id in c.mirror.model.items, c.supports, v.model.items[id].current)
  {
    if id in v.model.items {
      assert Descends(born, v.model.items[id]);
      if id in c.mirror.model.items {
        assert Descends(born, c.mirror.model.items[id]);
      }
    }
  }

  /** Convergence: whatever the interleaving of server and client changes, deliveries and link
      losses, whenever a connected pair comes to rest the client mirrors the server. */
  lemma Convergence(start: System, steps: seq<Step>, end: System)
    requires Init(start) && Reaches(start, steps, end) && Quiescent(end)
    ensures Converged(end)
  {
    RunKeepsInv(start, steps, end);
    QuiescentConverged(end);
  }

  /** In every reachable state both peers' uri index and item store are mutual inverses, the
      client has not met a fatal error, and a client that holds a string or vector item knows
      that the server supports them. */
  lemma Safety(start: System, steps: seq<Step>, end: System)
    requires Init(start) && Reaches(start, steps, end)
    ensures Consistent(end.srv.model) && Consistent(end.cli.mirror.model) && !end.cli.mirror.halted
    ensures forall id :: id in end.cli.mirror.model.items ==>
              var kind := end.cli.mirror.model.items[id].kind;
              kind.TString? || kind.TVector? ==> end.cli.mirror.vectors
  {
    RunKeepsInv(start, steps, end);
  }
}
