/** The item callbacks an application receives tell it exactly which items its client holds. */
module CallbackTrace {
  import opened Variants
  import opened ItemModel
  import opened JobQueue
  import opened Options
  import opened Peers
  import opened Replication
  import opened ReplicationProofs

  /** The ids an application believes in after these callbacks, or None if one of them announced
      an item twice, or withdrew or changed one that was not there. */
  function Replay(trace: seq<Event>): Option<set<Id>> {
    if trace == [] then Some({})
    else
      var before := Replay(trace[..|trace| - 1]);
      if before.None? then None
      else match trace[|trace| - 1]
        case ItemAdded(id) => if id in before.value then None else Some(before.value + {id})
        case ItemRemoved(id) => if id in before.value then Some(before.value - {id}) else None
        case ValueChanged(id, _) => if id in before.value then before else None
  }

  ghost predicate Tells(trace: seq<Event>, ids: set<Id>) {
    Replay(trace).Some? && Replay(trace).value == ids
  }

  ghost predicate Faithful(c: Mirror) {
    Tells(c.trace, c.model.items.Keys)
  }

  lemma OneAdded(trace: seq<Event>, ids: set<Id>, id: Id)
    requires Tells(trace, ids) && id !in ids
    ensures Tells(trace + [ItemAdded(id)], ids + {id})
  {
    assert (trace + [ItemAdded(id)])[..|trace|] == trace;
  }

  lemma OneRemoved(trace: seq<Event>, ids: set<Id>, id: Id)
    requires Tells(trace, ids) && id in ids
    ensures Tells(trace + [ItemRemoved(id)], ids - {id})
  {
    assert (trace + [ItemRemoved(id)])[..|trace|] == trace;
  }

  lemma OneChanged(trace: seq<Event>, ids: set<Id>, id: Id, v: Variant)
    requires Tells(trace, ids) && id in ids
    ensures Tells(trace + [ValueChanged(id, v)], ids)
  {
    assert (trace + [ValueChanged(id, v)])[..|trace|] == trace;
  }

  lemma SameKeys(m: Model, id: Id, v: Variant)
    requires id in m.items
    ensures SetCurrent(m, id, v).items.Keys == m.items.Keys
  {
  }

  lemma KnownFaithful(c: Mirror, a: Item)
    requires Faithful(c) && !c.halted && a.uri in c.model.index && c.model.index[a.uri] in c.model.items
    ensures Faithful(Receive(c, Add(a)))
  {
    var id := c.model.index[a.uri];
    SameKeys(c.model, id, a.current);
    OneChanged(c.trace, c.model.items.Keys, id, a.current);
  }

  lemma NewFaithful(c: Mirror, a: Item)
    requires Faithful(c) && !c.halted && a.uri !in c.model.index && a.id !in c.model.items && a.id != INVALID_ID
    ensures Faithful(Receive(c, Add(a)))
  {
    OneAdded(c.trace, c.model.items.Keys, a.id);
    assert Receive(c, Add(a)).model.items.Keys == c.model.items.Keys + {a.id};
  }

  lemma AddFaithful(c: Mirror, a: Item)
    requires Consistent(c.model) && Faithful(c) && !c.halted
    ensures Faithful(Receive(c, Add(a)))
  {
    if a.uri in c.model.index {
      KnownFaithful(c, a);
    } else if a.id !in c.model.items && a.id != INVALID_ID {
      NewFaithful(c, a);
    }
  }

  lemma ReceiveFaithful(c: Mirror, m: ServerMsg)
    requires Consistent(c.model) && Faithful(c)
    ensures Faithful(Receive(c, m))
  {
    if !c.halted {
      match m
      case Add(a) => AddFaithful(c, a);
      case Remove(id) =>
        if id in c.model.items {
          OneRemoved(c.trace, c.model.items.Keys, id);
          assert Delete(c.model, id).items.Keys == c.model.items.Keys - {id};
        }
      case Change(id, v) =>
        if id in c.model.items {
          SameKeys(c.model, id, v);
          OneChanged(c.trace, c.model.items.Keys, id, v);
          assert c.trace + [] == c.trace;
        }
      case Features(_) =>
    }
  }

  /** The items a partial walk has not come to. */
  ghost function Unwalked(m: Model, order: seq<string>): set<Id> {
    set id | id in m.items && m.items[id].uri !in order
  }

  lemma WalkedOne(m: Model, order: seq<string>, u: string)
    requires Consistent(m) && u in m.index && u !in order
    ensures m.index[u] in Unwalked(m, order)
    ensures Unwalked(m, order + [u]) == Unwalked(m, order) - {m.index[u]}
  {
  }

  /** One more item withdrawn on the walk. */
  lemma WithdrawOne(m: Model, trace: seq<Event>, events: seq<Event>, init: seq<string>, u: string)
    requires Consistent(m) && u in m.index && u !in init && Tells(trace + events, Unwalked(m, init))
    ensures Tells(trace + (events + [ItemRemoved(m.index[u])]), Unwalked(m, init + [u]))
  {
    WalkedOne(m, init, u);
    OneRemoved(trace + events, Unwalked(m, init), m.index[u]);
    assert trace + (events + [ItemRemoved(m.index[u])]) == trace + events + [ItemRemoved(m.index[u])];
  }

  lemma NothingWalked(m: Model, trace: seq<Event>)
    requires Tells(trace, m.items.Keys)
    ensures Tells(trace + [], Unwalked(m, []))
  {
    assert trace + [] == trace;
    assert m.items.Keys == Unwalked(m, []);
  }

  /** Withdrawing the items of a walk. */
  lemma {:induction false} RemovalsReplay(m: Model, trace: seq<Event>, order: seq<string>)
    requires Consistent(m) && Tells(trace, m.items.Keys) && NoDuplicates(order)
    requires forall u :: u in order ==> u in m.index
    ensures Tells(trace + RemovalEvents(m, order), Unwalked(m, order))
  {
    if order == [] {
      NothingWalked(m, trace);
    } else {
      var n := |order| - 1;
      assert order == order[..n] + [order[n]] && order[n] in order;
      RemovalsReplay(m, trace, order[..n]);
      WithdrawOne(m, trace, RemovalEvents(m, order[..n]), order[..n], order[n]);
    }
  }

  lemma WholeWalkEmpties(m: Model, trace: seq<Event>, order: seq<string>)
    requires Consistent(m) && Tells(trace, m.items.Keys) && IsWalk(m, order)
    ensures Tells(trace + RemovalEvents(m, order), {})
  {
    RemovalsReplay(m, trace, order);
    assert Unwalked(m, order) == {};
  }

  lemma StepFaithful(s: System, step: Step)
    requires Consistent(s.cli.mirror.model) && Enabled(s, step) && Faithful(s.cli.mirror)
    ensures Faithful(Next(s, step).cli.mirror)
  {
    match step
    case CliReceive => ReceiveFaithful(s.cli.mirror, s.s2c[0]);
    case CliCommit => assert ClientCommit(s.cli).mirror.model.items.Keys == s.cli.mirror.model.items.Keys;
    case CliConnect(order) => WholeWalkEmpties(s.cli.mirror.model, s.cli.mirror.trace, order);
    case _ =>
  }

  lemma {:induction false} RunFaithful(start: System, steps: seq<Step>, end: System)
    requires Inv(start) && Faithful(start.cli.mirror) && Reaches(start, steps, end)
    ensures Faithful(end.cli.mirror)
    decreases |steps|
  {
    if steps != [] {
      StepFaithful(start, steps[0]);
      KeepStep(start, steps[0]);
      RunFaithful(Next(start, steps[0]), steps[1..], end);
    }
  }

  /** Over every run, with any number of link losses and reconnections, replaying the callbacks
      yields the client's ids; destroying the client at any point withdraws every one of them. */
  lemma TraceFaithful(start: System, steps: seq<Step>, end: System, order: seq<string>)
    requires Init(start) && Reaches(start, steps, end) && IsWalk(end.cli.mirror.model, order)
    ensures Tells(end.cli.mirror.trace, end.cli.mirror.model.items.Keys)
    ensures Tells(end.cli.mirror.trace + RemovalEvents(end.cli.mirror.model, order), {})
  {
    assert start.cli.mirror.model.items.Keys == {};
    RunFaithful(start, steps, end);
    RunKeepsInv(start, steps, end);
    WholeWalkEmpties(end.cli.mirror.model, end.cli.mirror.trace, order);
  }
}
