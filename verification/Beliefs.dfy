/** What an application knows about the values of its client: it reads the value of an item when it is
    told of the item, and from then on it has only the callbacks and its own writes to go by. */
module Beliefs {
  import opened Variants
  import opened ItemModel
  import opened JobQueue
  import opened Options
  import opened Peers
  import opened Replication
  import opened ReplicationProofs

  /** The current values of a model. */
  function Values(m: Model): map<Id, Variant> {
    map id | id in m.items :: m.items[id].current
  }

  /** The values an application believes in after one more callback; `now` is what it can read from
      its client meanwhile. None if the callback contradicts what it was told before. */
  function Applied(b: map<Id, Variant>, e: Event, now: map<Id, Variant>): Option<map<Id, Variant>> {
    if e.ItemAdded? then
      if e.id in b || e.id !in now then None else Some(b[e.id := now[e.id]])
    else if e.id !in b then None
    else if e.ItemRemoved? then Some(b - {e.id})
    else Some(b[e.id := e.value])
  }

  function Heard(b: map<Id, Variant>, es: seq<Event>, now: map<Id, Variant>): Option<map<Id, Variant>> {
    if es == [] then Some(b)
    else
      var before := Heard(b, es[..|es| - 1], now);
      if before.None? then None else Applied(before.value, es[|es| - 1], now)
  }

  /** The callbacks made between two states. */
  function News(before: seq<Event>, after: seq<Event>): seq<Event> {
    if |before| <= |after| then after[|before|..] else []
  }

  /** The application's own write, which no callback reports. */
  function OwnWrite(b: map<Id, Variant>, s: System, step: Step): map<Id, Variant> {
    if step.CliCommit? && s.cli.app.Checked? && s.cli.app.id in b then b[s.cli.app.id := s.cli.app.value] else b
  }

  /** What the application believes in at the end of a run. */
  ghost function Believed(s: System, steps: seq<Step>, end: System, b: map<Id, Variant>): Option<map<Id, Variant>>
    requires Reaches(s, steps, end)
    decreases |steps|
  {
    if steps == [] then Some(b)
    else
      var s' := Next(s, steps[0]);
      var news := News(s.cli.mirror.trace, s'.cli.mirror.trace);
      var b' := Heard(OwnWrite(b, s, steps[0]), news, Values(s'.cli.mirror.model));
      if b'.None? then None else Believed(s', steps[1..], end, b'.value)
  }

  /** Nothing is said twice or taken back, and the application is brought to the right values. */
  ghost predicate Informs(b: map<Id, Variant>, before: seq<Event>, after: seq<Event>, m: Model) {
    && before <= after
    && var h := Heard(b, News(before, after), Values(m));
       h.Some? && h.value == Values(m)
  }

  lemma Silent(b: map<Id, Variant>, trace: seq<Event>, m: Model)
    requires b == Values(m)
    ensures Informs(b, trace, trace, m)
  {
    assert trace[|trace|..] == [];
  }

  lemma OneEvent(b: map<Id, Variant>, trace: seq<Event>, e: Event, m: Model)
    ensures News(trace, trace + [e]) == [e] && trace <= trace + [e]
    ensures Heard(b, [e], Values(m)) == Applied(b, e, Values(m))
  {
    assert (trace + [e])[|trace|..] == [e];
    assert [e][..0] == [];
  }

  lemma SetInforms(m: Model, id: Id, v: Variant, trace: seq<Event>)
    requires id in m.items
    ensures Informs(Values(m), trace, trace + [ValueChanged(id, v)], SetCurrent(m, id, v))
  {
    OneEvent(Values(m), trace, ValueChanged(id, v), SetCurrent(m, id, v));
    assert Values(m)[id := v] == Values(SetCurrent(m, id, v));
  }

  lemma SameValues(m: Model, id: Id, v: Variant)
    requires id in m.items && m.items[id].current == v
    ensures Values(SetCurrent(m, id, v)) == Values(m)
  {
  }

  lemma AddInforms(c: Mirror, a: Item)
    requires Consistent(c.model) && !c.halted && !Receive(c, Add(a)).halted
    ensures var c' := Receive(c, Add(a)); Informs(Values(c.model), c.trace, c'.trace, c'.model)
  {
    if a.uri in c.model.index {
      if Equal(c.model.items[c.model.index[a.uri]].current, a.current) {
        Silent(Values(c.model), c.trace, c.model);
      } else {
        SetInforms(c.model, c.model.index[a.uri], a.current, c.trace);
      }
    } else {
      var it := NewItem(a.id, a.uri, a.description, a.meta, a.defaultValue, a.current);
      OneEvent(Values(c.model), c.trace, ItemAdded(a.id), Insert(c.model, it));
      assert Values(c.model)[a.id := a.current] == Values(Insert(c.model, it));
    }
  }

  lemma ChangeInforms(c: Mirror, id: Id, v: Variant)
    requires Consistent(c.model) && !c.halted && id in c.model.items
    ensures var c' := Receive(c, Change(id, v)); Informs(Values(c.model), c.trace, c'.trace, c'.model)
  {
    if Equal(v, c.model.items[id].current) {
      SameValues(c.model, id, v);
      assert c.trace + [] == c.trace;
      Silent(Values(c.model), c.trace, SetCurrent(c.model, id, v));
    } else {
      SetInforms(c.model, id, v, c.trace);
    }
  }

  lemma ReceiveInforms(c: Mirror, m: ServerMsg)
    requires Consistent(c.model) && !c.halted && !Receive(c, m).halted
    ensures var c' := Receive(c, m); Informs(Values(c.model), c.trace, c'.trace, c'.model)
  {
    match m
    case Add(a) => AddInforms(c, a);
    case Change(id, v) =>
      if id in c.model.items { ChangeInforms(c, id, v); } else { Silent(Values(c.model), c.trace, c.model); }
    case Remove(id) =>
      if id in c.model.items {
        OneEvent(Values(c.model), c.trace, ItemRemoved(id), Delete(c.model, id));
        assert Values(c.model) - {id} == Values(Delete(c.model, id));
      } else {
        Silent(Values(c.model), c.trace, c.model);
      }
    case Features(_) => Silent(Values(c.model), c.trace, c.model);
  }

  /** The values of the items a walk has not come to. */
  ghost function Remaining(m: Model, order: seq<string>): map<Id, Variant> {
    map id | id in m.items && m.items[id].uri !in order :: m.items[id].current
  }

  lemma {:induction false} WalkHeard(m: Model, order: seq<string>)
    requires Consistent(m) && NoDuplicates(order) && forall u :: u in order ==> u in m.index
    ensures var h := Heard(Values(m), RemovalEvents(m, order), map[]);
            h.Some? && h.value == Remaining(m, order)
  {
    if order == [] {
      assert Values(m) == Remaining(m, order);
    } else {
      var n := |order| - 1;
      var u := order[n];
      assert order == order[..n] + [u] && u in order;
      WalkHeard(m, order[..n]);
      var es := RemovalEvents(m, order);
      assert es[..|es| - 1] == RemovalEvents(m, order[..n]);
      assert Remaining(m, order[..n]) - {m.index[u]} == Remaining(m, order);
    }
  }

  lemma ConnectInforms(c: Client, order: seq<string>)
    requires Consistent(c.mirror.model) && IsWalk(c.mirror.model, order)
    ensures var c' := ClientConnect(c, order);
            Informs(Values(c.mirror.model), c.mirror.trace, c'.mirror.trace, c'.mirror.model)
  {
    var trace, es := c.mirror.trace, RemovalEvents(c.mirror.model, order);
    assert (trace + es)[|trace|..] == es;
    WalkHeard(c.mirror.model, order);
    assert Remaining(c.mirror.model, order) == map[];
    assert Values(EMPTY_MODEL) == map[];
  }

  lemma CommitInforms(c: Client)
    requires c.app.Checked?
    ensures var m, id := c.mirror.model, c.app.id;
            Values(ClientCommit(c).mirror.model) == if id in m.items then Values(m)[id := c.app.value] else Values(m)
    ensures ClientCommit(c).mirror.trace == c.mirror.trace
  {
  }

  /** The client is well, and stays so if the step is a message. */
  ghost predicate Sound(s: System, step: Step) {
    && Consistent(s.cli.mirror.model) && !s.cli.mirror.halted
    && (step.CliReceive? && s.s2c != [] ==> !Receive(s.cli.mirror, s.s2c[0]).halted)
  }

  lemma StaysSound(s: System, step: Step)
    requires Inv(s) && Enabled(s, step)
    ensures Sound(s, step)
  {
    KeepStep(s, step);
  }

  lemma MirrorUntouched(s: System, step: Step)
    requires Enabled(s, step) && !step.CliReceive? && !step.CliConnect? && !step.CliCommit?
    ensures Next(s, step).cli.mirror == s.cli.mirror
  {
  }

  ghost predicate StepTells(s: System, step: Step)
    requires Enabled(s, step)
  {
    var c, c' := s.cli.mirror, Next(s, step).cli.mirror;
    Informs(OwnWrite(Values(c.model), s, step), c.trace, c'.trace, c'.model)
  }

  lemma CommitTells(s: System)
    requires Enabled(s, CliCommit)
    ensures StepTells(s, CliCommit)
  {
    CommitInforms(s.cli);
    var c' := ClientCommit(s.cli).mirror;
    Silent(Values(c'.model), s.cli.mirror.trace, c'.model);
  }

  lemma QuietTells(s: System, step: Step)
    requires Enabled(s, step) && !step.CliReceive? && !step.CliConnect? && !step.CliCommit?
    ensures StepTells(s, step)
  {
    MirrorUntouched(s, step);
    Silent(Values(s.cli.mirror.model), s.cli.mirror.trace, s.cli.mirror.model);
  }

  lemma StepInforms(s: System, step: Step)
    requires Enabled(s, step) && Sound(s, step)
    ensures StepTells(s, step)
  {
    if step.CliReceive? {
      ReceiveInforms(s.cli.mirror, s.s2c[0]);
    } else if step.CliConnect? {
      ConnectInforms(s.cli, step.order);
    } else if step.CliCommit? {
      CommitTells(s);
    } else {
      QuietTells(s, step);
    }
  }

  lemma {:induction false} RunInforms(s: System, steps: seq<Step>, end: System)
    requires Inv(s) && Reaches(s, steps, end)
    ensures var b := Believed(s, steps, end, Values(s.cli.mirror.model));
            b.Some? && b.value == Values(end.cli.mirror.model)
    decreases |steps|
  {
    if steps != [] {
      StaysSound(s, steps[0]);
      StepInforms(s, steps[0]);
      KeepStep(s, steps[0]);
      RunInforms(Next(s, steps[0]), steps[1..], end);
    }
  }

  /** Over every run, an application that reads each new item once and then only listens knows the
      value of every item its client holds, and believes in no other item. */
  lemma BeliefsAreValues(start: System, steps: seq<Step>, end: System)
    requires Init(start) && Reaches(start, steps, end)
    ensures var b := Believed(start, steps, end, map[]);
            b.Some? && b.value == Values(end.cli.mirror.model)
  {
    assert Values(start.cli.mirror.model) == map[];
    RunInforms(start, steps, end);
  }

  /** One message: if the value of an item the client keeps differs afterwards, this is announced once
      and nothing else is; if it does not differ, no change of it is announced. */
  lemma ReceiveAnnounces(c: Mirror, m: ServerMsg, id: Id)
    requires Consistent(c.model) && !c.halted && id in c.model.items && id in Receive(c, m).model.items
    ensures var c' := Receive(c, m);
            var v := c'.model.items[id].current;
            && (c.model.items[id].current != v ==> c'.trace == c.trace + [ValueChanged(id, v)])
            && (c.model.items[id].current == v && !v.Null? ==>
                  forall e :: e in News(c.trace, c'.trace) && e.ValueChanged? ==> e.id != id)
  {
    var c' := Receive(c, m);
    assert c.trace + [] == c.trace && c.trace[|c.trace|..] == [];
    assert forall e :: (c.trace + [e])[|c.trace|..] == [e];
  }

  /** A message that leaves the value of every item it leaves there, none of them null, announces no
      change of a value. */
  lemma ReceiveSilent(c: Mirror, m: ServerMsg)
    requires Consistent(c.model) && !c.halted
    requires forall id :: id in c.model.items && id in Receive(c, m).model.items ==>
               c.model.items[id].current == Receive(c, m).model.items[id].current != Null
    ensures forall e :: e in News(c.trace, Receive(c, m).trace) ==> !e.ValueChanged?
  {
    var c' := Receive(c, m);
    assert c.trace + [] == c.trace && c.trace[|c.trace|..] == [];
    assert forall e :: (c.trace + [e])[|c.trace|..] == [e];
    if m.Change? && m.id in c.model.items {
      assert m.id in c'.model.items;
    }
    if m.Add? && m.item.uri in c.model.index {
      assert c.model.index[m.item.uri] in c'.model.items;
    }
  }
}
