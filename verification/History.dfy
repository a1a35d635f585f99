/** What the server holds, told by what has been asked of it: every call and every change that reached
    it is entered in a ledger, and the ledger is the server's table. */
module History {
  import opened Variants
  import opened ItemModel
  import opened Peers
  import opened Replication
  import opened ReplicationProofs

  /** An item as it was added, and the last value written to it. */
  datatype Entry = Entry(uri: string, description: string, meta: string, initial: Variant, value: Variant)

  /** A client may replace a value by another of the same type, and a vector by one of the same size. */
  predicate Replaces(held: Variant, value: Variant) {
    || (held.Bool? && value.Bool?)
    || (held.Scalar? && value.Scalar? && held.kind == value.kind)
    || (held.Text? && value.Text?)
    || (held.Vector? && value.Vector? && held.kind == value.kind && |held.items| == |value.items|)
  }

  lemma ReplacesExactly(held: Variant, value: Variant)
    ensures Compatible(held, value) <==> Replaces(held, value)
  {
  }

  ghost predicate UriTaken(l: map<Id, Entry>, uri: string) {
    exists id :: id in l && l[id].uri == uri
  }

  /** What a call of the server's application does to the ledger. */
  ghost function Asked(l: map<Id, Entry>, call: ServerCall): map<Id, Entry> {
    match call
    case AddItem(id, uri, description, meta, v) =>
      if UriTaken(l, uri) then l else l[id := Entry(uri, description, meta, v, v)]
    case RemoveItem(id) => l - {id}
    case SetValue(id, v) => if id in l then l[id := l[id].(value := v)] else l
  }

  /** What a message of the client does to it. */
  function Requested(l: map<Id, Entry>, m: ClientMsg): map<Id, Entry> {
    if m.Request? && m.id in l && Replaces(l[m.id].value, m.value) then l[m.id := l[m.id].(value := m.value)] else l
  }

  ghost function Noted(l: map<Id, Entry>, s: System, step: Step): map<Id, Entry> {
    if step.SrvCall? then Asked(l, step.call)
    else if step.SrvReceive? && s.c2s != [] then Requested(l, s.c2s[0])
    else l
  }

  /** The ledger at the end of a run. */
  ghost function Ledger(s: System, steps: seq<Step>, end: System, l: map<Id, Entry>): map<Id, Entry>
    requires Reaches(s, steps, end)
    decreases |steps|
  {
    if steps == [] then l else Ledger(Next(s, steps[0]), steps[1..], end, Noted(l, s, steps[0]))
  }

  function ItemOf(id: Id, e: Entry): Item {
    Item(id, e.uri, e.description, e.meta, e.initial, e.value, TypeOf(e.initial))
  }

  /** The table holds just what the ledger says. */
  ghost predicate Holds(m: Model, l: map<Id, Entry>) {
    m.items.Keys == l.Keys && forall id :: id in l ==> m.items[id] == ItemOf(id, l[id])
  }

  lemma TakenIsIndexed(m: Model, l: map<Id, Entry>, uri: string)
    requires Consistent(m) && Holds(m, l)
    ensures UriTaken(l, uri) <==> uri in m.index
  {
    if uri in m.index {
      assert m.index[uri] in l && l[m.index[uri]].uri == uri;
    }
  }

  lemma AddNoted(m: Model, l: map<Id, Entry>, it: Item, e: Entry)
    requires Holds(m, l) && it == ItemOf(it.id, e)
    ensures Holds(Insert(m, it), l[it.id := e])
  {
  }

  lemma SetNoted(m: Model, l: map<Id, Entry>, id: Id, v: Variant)
    requires Holds(m, l) && id in l
    ensures Holds(SetCurrent(m, id, v), l[id := l[id].(value := v)])
  {
  }

  lemma CallNoted(v: Server, l: map<Id, Entry>, call: ServerCall)
    requires Consistent(v.model) && Holds(v.model, l)
    ensures Holds(ServerCalled(v, call).model, Asked(l, call))
  {
    match call
    case AddItem(id, uri, description, meta, x) =>
      TakenIsIndexed(v.model, l, uri);
      AddNoted(v.model, l, NewItem(id, uri, description, meta, x, x), Entry(uri, description, meta, x, x));
    case RemoveItem(id) => RemovalNoted(v, l, id);
    case SetValue(id, x) => SettingNoted(v, l, id, x);
  }

  lemma RemovalNoted(v: Server, l: map<Id, Entry>, id: Id)
    requires Holds(v.model, l)
    ensures Holds(ServerRemove(v, id).model, l - {id})
  {
    if id !in l {
      assert l - {id} == l;
    }
  }

  lemma SettingNoted(v: Server, l: map<Id, Entry>, id: Id, x: Variant)
    requires Holds(v.model, l)
    ensures Holds(ServerSet(v, id, x).model, Asked(l, SetValue(id, x)))
  {
    if id in l {
      SetNoted(v.model, l, id, x);
      if v.model.items[id].current == x {
        assert l[id := l[id].(value := x)] == l;
      }
    }
  }

  lemma RequestNoted(v: Server, l: map<Id, Entry>, m: ClientMsg)
    requires Holds(v.model, l)
    ensures Holds(ServerReceive(v, m).model, Requested(l, m))
  {
    if m.Request? && m.id in l {
      ReplacesExactly(v.model.items[m.id].current, m.value);
      SetNoted(v.model, l, m.id, m.value);
    }
  }

  lemma JobTableUntouched(v: Server, order: seq<string>, linkUp: bool)
    requires v.batch != [] && Consistent(v.model) && forall u :: u in order ==> u in v.model.index
    ensures ServerJobNext(v, order, linkUp).model == v.model
  {
  }

  lemma ServerTableUntouched(s: System, step: Step)
    requires Enabled(s, step) && !step.SrvCall? && !step.SrvReceive?
    ensures Next(s, step).srv.model == s.srv.model
  {
    if step.SrvJob? {
      JobTableUntouched(s.srv, step.order, s.linkUp);
    }
  }

  lemma StepNoted(s: System, step: Step, l: map<Id, Entry>)
    requires Consistent(s.srv.model) && Enabled(s, step) && Holds(s.srv.model, l)
    ensures Holds(Next(s, step).srv.model, Noted(l, s, step))
  {
    if step.SrvCall? {
      CallNoted(s.srv, l, step.call);
    } else if step.SrvReceive? {
      RequestNoted(s.srv, l, s.c2s[0]);
    } else {
      ServerTableUntouched(s, step);
    }
  }

  lemma {:induction false} RunNoted(s: System, steps: seq<Step>, end: System, l: map<Id, Entry>)
    requires Inv(s) && Reaches(s, steps, end) && Holds(s.srv.model, l)
    ensures Holds(end.srv.model, Ledger(s, steps, end, l))
    decreases |steps|
  {
    if steps != [] {
      StepNoted(s, steps[0], l);
      KeepStep(s, steps[0]);
      RunNoted(Next(s, steps[0]), steps[1..], end, Noted(l, s, steps[0]));
    }
  }

  /** After every run the server holds exactly the items that were added under a free URI and not
      removed, each as it was added, with the last value written to it: by the server's application,
      or by a client's change that reached it and fitted. */
  lemma ServerHoldsLedger(start: System, steps: seq<Step>, end: System)
    requires Init(start) && Reaches(start, steps, end)
    ensures Holds(end.srv.model, Ledger(start, steps, end, map[]))
  {
    RunNoted(start, steps, end, map[]);
  }
}
