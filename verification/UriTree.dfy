/** The tree of URI paths behind the user interface: items are made on demand when a tweak is added
    and pruned when the last tweak below them goes. */
module UriTree {
  import opened Options

  type Id = int
  type Path = seq<string>

  datatype Item = Item(name: string, children: seq<Item>, tweaks: set<Id>)

  /** The first child with a name, or the number of children. */
  function IndexOf(items: seq<Item>, s: string): (i: nat)
    ensures i <= |items| && (i < |items| ==> items[i].name == s)
    ensures forall j :: 0 <= j < i ==> items[j].name != s
  {
    if items == [] then 0 else if items[0].name == s then 0 else 1 + IndexOf(items[1..], s)
  }

  // ---- Lookup -----------------------------------------------------------------------

  function Find(n: Item, path: Path): Option<Item>
    decreases |path|
  {
    if path == [] then Some(n)
    else
      var i := IndexOf(n.children, path[0]);
      if i < |n.children| then Find(n.children[i], path[1..]) else None
  }

  // ---- Adding and removing ----------------------------------------------------------

  function Insert(n: Item, path: Path, id: Id): Item
    decreases |path|
  {
    if path == [] then n.(tweaks := n.tweaks + {id})
    else
      var i := IndexOf(n.children, path[0]);
      if i < |n.children| then n.(children := n.children[i := Insert(n.children[i], path[1..], id)])
      else n.(children := n.children + [Insert(Item(path[0], [], {}), path[1..], id)])
  }

  predicate IsEmpty(n: Item) {
    n.tweaks == {} && n.children == []
  }

  /** The tree without a tweak, and without the items that are then of no use; nothing if a lookup
      on the way fails. */
  function Remove(n: Item, path: Path, id: Id): Option<Item>
    decreases |path|
  {
    if path == [] then
      if id in n.tweaks then Some(n.(tweaks := n.tweaks - {id})) else None
    else
      var i := IndexOf(n.children, path[0]);
      if i == |n.children| then None
      else match Remove(n.children[i], path[1..], id)
        case None => None
        case Some(child) =>
          if IsEmpty(child) then Some(n.(children := n.children[..i] + n.children[i + 1..]))
          else Some(n.(children := n.children[i := child]))
  }

  // ---- The invariant ----------------------------------------------------------------

  /** The paths below the child `s` of the tweaks that are below it. */
  function Below(cache: map<Id, Path>, s: string): map<Id, Path> {
    map id | id in cache && cache[id] != [] && cache[id][0] == s :: cache[id][1..]
  }

  ghost predicate Unique(items: seq<Item>) {
    forall i, j :: 0 <= i < j < |items| ==> items[i].name != items[j].name
  }

  /** The tree is just what the live tweaks' paths call for. */
  ghost predicate Canonical(n: Item, cache: map<Id, Path>)
    decreases n
  {
    && n.tweaks == Here(cache)
    && Unique(n.children)
    && (forall i :: 0 <= i < |n.children| ==>
          Inhabited(Below(cache, n.children[i].name)) && Canonical(n.children[i], Below(cache, n.children[i].name)))
    && Covered(n.children, cache)
  }

  /** The tweaks at the very item. */
  ghost function Here(cache: map<Id, Path>): set<Id> {
    set id | id in cache && cache[id] == []
  }

  /** There is a child on the way to every tweak. */
  ghost predicate Covered(items: seq<Item>, cache: map<Id, Path>) {
    forall id :: id in cache && cache[id] != [] ==> HasChild(items, cache[id][0])
  }

  ghost predicate Inhabited(cache: map<Id, Path>) {
    exists id :: id in cache
  }

  predicate HasChild(items: seq<Item>, s: string) {
    IndexOf(items, s) < |items|
  }

  lemma BelowInhabited(cache: map<Id, Path>, s: string)
    ensures Inhabited(Below(cache, s)) ==> Inhabited(cache)
  {
    if id :| id in Below(cache, s) {
      assert id in cache;
    }
  }

  /** A canonical item is empty exactly when no tweak is below it. */
  lemma CanonicalEmpty(n: Item, cache: map<Id, Path>)
    requires Canonical(n, cache)
    ensures IsEmpty(n) <==> !Inhabited(cache)
  {
    if n.children != [] {
      BelowInhabited(cache, n.children[0].name);
    }
    if Inhabited(cache) {
      var id :| id in cache;
      if cache[id] == [] {
        assert id in Here(cache);
      }
    } else {
      forall d
        ensures d !in Here(cache)
      {
      }
    }
  }

  // ---- Every item is called for, and every call answered ------------------------------

  ghost predicate Leads(cache: map<Id, Path>, path: Path) {
    exists id :: id in cache && path <= cache[id]
  }

  lemma LeadsBelow(cache: map<Id, Path>, path: Path)
    requires path != []
    ensures Leads(cache, path) <==> Leads(Below(cache, path[0]), path[1..])
    ensures Leads(Below(cache, path[0]), []) <==> Inhabited(Below(cache, path[0]))
  {
    var sub := Below(cache, path[0]);
    if id :| id in cache && path <= cache[id] {
      assert id in sub && path[1..] <= sub[id];
    }
    if id :| id in sub && path[1..] <= sub[id] {
      assert cache[id] == [path[0]] + sub[id] && path == [path[0]] + path[1..];
      assert path <= cache[id];
    }
    if id :| id in sub {
      assert [] <= sub[id];
    }
  }

  lemma EqualBelow(cache: map<Id, Path>, path: Path)
    requires path != []
    ensures (set id | id in Below(cache, path[0]) && Below(cache, path[0])[id] == path[1..])
         == (set id | id in cache && cache[id] == path)
  {
    var sub := Below(cache, path[0]);
    forall id
      ensures id in sub && sub[id] == path[1..] <==> id in cache && cache[id] == path
    {
      if id in sub && sub[id] == path[1..] {
        assert cache[id] == [cache[id][0]] + cache[id][1..] && path == [path[0]] + path[1..];
      }
    }
  }

  /** An item exists at a path exactly when the path leads to a live tweak, and its tweaks are those
      with that very path. */
  lemma {:induction false} ItemsAreCalledFor(n: Item, cache: map<Id, Path>, path: Path)
    requires Canonical(n, cache)
    ensures Find(n, path).Some? <==> path == [] || Leads(cache, path)
    ensures Find(n, path).Some? ==> Find(n, path).value.tweaks == (set id | id in cache && cache[id] == path)
    decreases |path|
  {
    if path != [] {
      var i := IndexOf(n.children, path[0]);
      var sub := Below(cache, path[0]);
      LeadsBelow(cache, path);
      if i < |n.children| {
        ItemsAreCalledFor(n.children[i], sub, path[1..]);
        EqualBelow(cache, path);
      }
    }
  }

  // ---- Adding -----------------------------------------------------------------------

  lemma BelowAdded(cache: map<Id, Path>, id: Id, path: Path, s: string)
    requires id !in cache
    ensures Below(cache[id := path], s)
         == if path != [] && path[0] == s then Below(cache, s)[id := path[1..]] else Below(cache, s)
  {
  }

  /** A new item is canonical for no tweaks. */
  lemma NewItem(name: string)
    ensures Canonical(Item(name, [], {}), map[])
  {
  }

  lemma NoneBelow(n: Item, cache: map<Id, Path>, s: string)
    requires Canonical(n, cache) && !HasChild(n.children, s)
    ensures Below(cache, s) == map[]
  {
    forall id
      ensures id !in Below(cache, s)
    {
      if id in cache && cache[id] != [] {
        assert HasChild(n.children, cache[id][0]);
      }
    }
  }

  lemma {:induction false} InsertName(n: Item, path: Path, id: Id)
    ensures Insert(n, path, id).name == n.name
  {
  }

  lemma {:induction false} InsertCanonical(n: Item, cache: map<Id, Path>, path: Path, id: Id)
    requires Canonical(n, cache) && id !in cache
    ensures Canonical(Insert(n, path, id), cache[id := path])
    decreases |path|
  {
    var cache' := cache[id := path];
    var n' := Insert(n, path, id);
    if path == [] {
      forall i | 0 <= i < |n.children|
        ensures Below(cache', n.children[i].name) == Below(cache, n.children[i].name)
      {
        BelowAdded(cache, id, path, n.children[i].name);
      }
    } else {
      InsertBelow(n, cache, path, id);
    }
  }

  lemma {:induction false} InsertBelow(n: Item, cache: map<Id, Path>, path: Path, id: Id)
    requires Canonical(n, cache) && id !in cache && path != []
    ensures Canonical(Insert(n, path, id), cache[id := path])
    decreases |path|, 0
  {
    var i := IndexOf(n.children, path[0]);
    var sub := Below(cache, path[0]);
    var old_ := if i < |n.children| then n.children[i] else Item(path[0], [], {});
    if i == |n.children| {
      NoneBelow(n, cache, path[0]);
      NewItem(path[0]);
    }
    InsertCanonical(old_, sub, path[1..], id);
    InsertName(old_, path[1..], id);
    Grafted(n, cache, path, id, i, Insert(old_, path[1..], id));
  }

  /** A child put in place, or added at the end. */
  function Graft(n: Item, i: nat, child: Item): Item
    requires i <= |n.children|
  {
    n.(children := if i < |n.children| then n.children[i := child] else n.children + [child])
  }

  lemma GraftedChildren(n: Item, cache: map<Id, Path>, path: Path, id: Id, i: nat, child: Item, k: nat)
    requires Canonical(n, cache) && id !in cache && path != [] && i == IndexOf(n.children, path[0])
    requires child.name == path[0] && Canonical(child, Below(cache, path[0])[id := path[1..]])
    requires k < |Graft(n, i, child).children|
    ensures var c := Graft(n, i, child).children[k];
            var sub := Below(cache[id := path], c.name);
            Inhabited(sub) && Canonical(c, sub)
  {
    var c := Graft(n, i, child).children[k];
    BelowAdded(cache, id, path, c.name);
    if k == i {
      assert id in Below(cache[id := path], path[0]);
    } else {
      assert c == n.children[k] && c.name != path[0] by { UniqueNames(n.children, path[0], k); }
    }
  }

  lemma UniqueNames(items: seq<Item>, s: string, k: nat)
    requires Unique(items) && k < |items| && k != IndexOf(items, s)
    ensures items[k].name != s
  {
  }

  lemma GraftedNames(items: seq<Item>, s: string, i: nat, child: Item, d: string)
    requires Unique(items) && i == IndexOf(items, s) && child.name == s && (d == s || HasChild(items, d))
    ensures var items' := if i < |items| then items[i := child] else items + [child];
            Unique(items') && HasChild(items', d)
  {
    var items' := if i < |items| then items[i := child] else items + [child];
    var k := if d == s then i else IndexOf(items, d);
    assert items'[k].name == d;
  }

  lemma Grafted(n: Item, cache: map<Id, Path>, path: Path, id: Id, i: nat, child: Item)
    requires Canonical(n, cache) && id !in cache && path != [] && i == IndexOf(n.children, path[0])
    requires child.name == path[0] && Canonical(child, Below(cache, path[0])[id := path[1..]])
    ensures Canonical(Graft(n, i, child), cache[id := path])
  {
    var cache' := cache[id := path];
    var n' := Graft(n, i, child);
    assert Here(cache') == Here(cache);
    forall k | 0 <= k < |n'.children|
      ensures Inhabited(Below(cache', n'.children[k].name))
      ensures Canonical(n'.children[k], Below(cache', n'.children[k].name))
    {
      GraftedChildren(n, cache, path, id, i, child, k);
    }
    GraftedNames(n.children, path[0], i, child, path[0]);
    forall d | d in cache' && cache'[d] != []
      ensures HasChild(n'.children, cache'[d][0])
    {
      GraftedNames(n.children, path[0], i, child, cache'[d][0]);
    }
  }

  // ---- Removing ---------------------------------------------------------------------

  lemma BelowRemoved(cache: map<Id, Path>, id: Id, s: string)
    requires id in cache
    ensures Below(cache - {id}, s)
         == if cache[id] != [] && cache[id][0] == s then Below(cache, s) - {id} else Below(cache, s)
  {
  }

  /** The child that leads to a tweak further down. */
  lemma WayDown(n: Item, cache: map<Id, Path>, id: Id) returns (i: nat)
    requires Canonical(n, cache) && id in cache && cache[id] != []
    ensures i == IndexOf(n.children, cache[id][0]) && i < |n.children| && n.children[i].name == cache[id][0]
    ensures var sub := Below(cache, cache[id][0]);
            Canonical(n.children[i], sub) && id in sub && sub[id] == cache[id][1..]
  {
    assert HasChild(n.children, cache[id][0]);
    i := IndexOf(n.children, cache[id][0]);
  }

  lemma {:induction false} RemoveName(n: Item, path: Path, id: Id)
    ensures Remove(n, path, id).Some? ==> Remove(n, path, id).value.name == n.name
  {
  }

  /** A child replaced, or taken out if it has become empty. */
  function Prune(items: seq<Item>, i: nat, child: Item): seq<Item>
    requires i < |items|
  {
    if IsEmpty(child) then items[..i] + items[i + 1..] else items[i := child]
  }

  /** Removal at a known child. */
  lemma RemoveStep(n: Item, path: Path, id: Id, i: nat, child: Item)
    requires path != [] && i == IndexOf(n.children, path[0]) < |n.children|
    requires var r := Remove(n.children[i], path[1..], id); r.Some? && r.value == child
    ensures var r := Remove(n, path, id); r.Some? && r.value == n.(children := Prune(n.children, i, child))
  {
  }

  /** Removing a live tweak never fails a lookup, and leaves the tree canonical. */
  lemma {:induction false} RemoveCanonical(n: Item, cache: map<Id, Path>, id: Id)
    requires Canonical(n, cache) && id in cache
    ensures var r := Remove(n, cache[id], id); r.Some? && Canonical(r.value, cache - {id})
    decreases |cache[id]|
  {
    var path := cache[id];
    if path == [] {
      assert id in n.tweaks;
      RemovedHere(n, cache, id);
    } else {
      var i := WayDown(n, cache, id);
      var sub := Below(cache, path[0]);
      RemoveCanonical(n.children[i], sub, id);
      RemoveName(n.children[i], path[1..], id);
      var child := Remove(n.children[i], path[1..], id).value;
      CanonicalEmpty(child, sub - {id});
      Pruned(n, cache, id, i, child);
      RemoveStep(n, path, id, i, child);
    }
  }

  lemma RemovedHere(n: Item, cache: map<Id, Path>, id: Id)
    requires Canonical(n, cache) && id in cache && cache[id] == []
    ensures Canonical(n.(tweaks := n.tweaks - {id}), cache - {id})
  {
    var cache' := cache - {id};
    assert Here(cache') == Here(cache) - {id};
    forall k | 0 <= k < |n.children|
      ensures Below(cache', n.children[k].name) == Below(cache, n.children[k].name)
    {
      BelowRemoved(cache, id, n.children[k].name);
    }
  }

  lemma PrunedNames(items: seq<Item>, i: nat, child: Item, d: string)
    requires Unique(items) && i < |items| && child.name == items[i].name && HasChild(items, d)
    requires d == items[i].name ==> !IsEmpty(child)
    ensures HasChild(Prune(items, i, child), d)
  {
    var j := IndexOf(items, d);
    var k := if IsEmpty(child) && j > i then j - 1 else j;
    assert Prune(items, i, child)[k].name == d;
  }

  lemma PrunedUnique(items: seq<Item>, i: nat, child: Item)
    requires Unique(items) && i < |items| && child.name == items[i].name
    ensures Unique(Prune(items, i, child))
    ensures forall k :: 0 <= k < |Prune(items, i, child)| ==>
              (!IsEmpty(child) && Prune(items, i, child)[k] == child) || PrunedFrom(items, i, Prune(items, i, child)[k])
  {
    var r := Prune(items, i, child);
    forall k | 0 <= k < |r|
      ensures (!IsEmpty(child) && r[k] == child) || PrunedFrom(items, i, r[k])
    {
      var j := if IsEmpty(child) && k >= i then k + 1 else k;
      if j != i {
        assert r[k] == items[j];
      }
    }
  }

  /** One of the other children. */
  ghost predicate PrunedFrom(items: seq<Item>, i: nat, c: Item)
    requires i < |items|
  {
    exists j :: 0 <= j < |items| && j != i && items[j] == c
  }

  /** A child that has its place in the tree. */
  ghost predicate Lives(c: Item, cache: map<Id, Path>) {
    Inhabited(Below(cache, c.name)) && Canonical(c, Below(cache, c.name))
  }

  lemma ReplacedChild(cache: map<Id, Path>, id: Id, child: Item)
    requires id in cache && cache[id] != [] && child.name == cache[id][0] && !IsEmpty(child)
    requires Canonical(child, Below(cache, cache[id][0]) - {id})
    requires IsEmpty(child) <==> !Inhabited(Below(cache, cache[id][0]) - {id})
    ensures Lives(child, cache - {id})
  {
    BelowRemoved(cache, id, cache[id][0]);
  }

  lemma PrunedChild(n: Item, cache: map<Id, Path>, id: Id, i: nat, c: Item)
    requires Canonical(n, cache) && id in cache && cache[id] != [] && i == IndexOf(n.children, cache[id][0])
    requires i < |n.children| && PrunedFrom(n.children, i, c)
    ensures Lives(c, cache - {id})
  {
    var j :| 0 <= j < |n.children| && j != i && n.children[j] == c;
    UniqueNames(n.children, cache[id][0], j);
    BelowRemoved(cache, id, c.name);
  }

  /** There is still a child on the way to every other tweak. */
  lemma PrunedCovers(n: Item, cache: map<Id, Path>, id: Id, i: nat, child: Item)
    requires Unique(n.children) && Covered(n.children, cache) && id in cache && cache[id] != []
    requires i == IndexOf(n.children, cache[id][0]) < |n.children| && child.name == n.children[i].name
    requires IsEmpty(child) <==> !Inhabited(Below(cache, cache[id][0]) - {id})
    ensures Covered(Prune(n.children, i, child), cache - {id})
  {
    var cache', s := cache - {id}, cache[id][0];
    BelowRemoved(cache, id, s);
    forall d | d in cache' && cache'[d] != []
      ensures HasChild(Prune(n.children, i, child), cache'[d][0])
    {
      if cache'[d][0] == s {
        assert d in Below(cache', s);
      }
      PrunedNames(n.children, i, child, cache'[d][0]);
    }
  }

  lemma Assembled(n: Item, cache: map<Id, Path>)
    requires n.tweaks == Here(cache) && Unique(n.children) && Covered(n.children, cache)
    requires forall k :: 0 <= k < |n.children| ==> Lives(n.children[k], cache)
    ensures Canonical(n, cache)
  {
  }

  /** The children after the pruning, each still in its place. */
  lemma PrunedLives(n: Item, cache: map<Id, Path>, id: Id, i: nat, child: Item)
    requires Canonical(n, cache) && id in cache && cache[id] != [] && i == IndexOf(n.children, cache[id][0])
    requires i < |n.children| && child.name == n.children[i].name
    requires !IsEmpty(child) ==> Lives(child, cache - {id})
    ensures forall k :: 0 <= k < |Prune(n.children, i, child)| ==> Lives(Prune(n.children, i, child)[k], cache - {id})
  {
    var r := Prune(n.children, i, child);
    PrunedUnique(n.children, i, child);
    forall k | 0 <= k < |r|
      ensures Lives(r[k], cache - {id})
    {
      if PrunedFrom(n.children, i, r[k]) {
        PrunedChild(n, cache, id, i, r[k]);
      }
    }
  }

  lemma Pruned(n: Item, cache: map<Id, Path>, id: Id, i: nat, child: Item)
    requires Canonical(n, cache) && id in cache && cache[id] != [] && i == IndexOf(n.children, cache[id][0])
    requires i < |n.children| && child.name == n.children[i].name
    requires Canonical(child, Below(cache, cache[id][0]) - {id})
    requires IsEmpty(child) <==> !Inhabited(Below(cache, cache[id][0]) - {id})
    ensures Canonical(n.(children := Prune(n.children, i, child)), cache - {id})
  {
    assert Here(cache - {id}) == Here(cache);
    if !IsEmpty(child) {
      ReplacedChild(cache, id, child);
    }
    PrunedUnique(n.children, i, child);
    PrunedLives(n, cache, id, i, child);
    PrunedCovers(n, cache, id, i, child);
    Assembled(n.(children := Prune(n.children, i, child)), cache - {id});
  }

  // ---- Undoing ----------------------------------------------------------------------

  lemma SameNames(items: seq<Item>, s: string, child: Item)
    requires child.name == s
    ensures var i := IndexOf(items, s);
            IndexOf(if i < |items| then items[i := child] else items + [child], s) == i
  {
    var i := IndexOf(items, s);
    var items' := if i < |items| then items[i := child] else items + [child];
    assert items'[i].name == s;
    assert forall j :: 0 <= j < i ==> items'[j] == items[j];
  }

  lemma GraftPrune(n: Item, i: nat, child: Item, was: Item)
    requires i <= |n.children|
    requires if i < |n.children| then was == n.children[i] && !IsEmpty(was) else IsEmpty(was)
    ensures Prune(Graft(n, i, child).children, i, was) == n.children
  {
  }

  /** Adding a tweak and removing it again restores the tree, with its children in their order. */
  lemma {:induction false} InsertRemove(n: Item, cache: map<Id, Path>, path: Path, id: Id)
    requires Canonical(n, cache) && id !in cache
    ensures var r := Remove(Insert(n, path, id), path, id); r.Some? && r.value == n
    decreases |path|
  {
    if path == [] {
      assert n.tweaks + {id} - {id} == n.tweaks;
    } else {
      var i := IndexOf(n.children, path[0]);
      var sub := Below(cache, path[0]);
      var was := if i < |n.children| then n.children[i] else Item(path[0], [], {});
      if i == |n.children| {
        NoneBelow(n, cache, path[0]);
        NewItem(path[0]);
      } else {
        CanonicalEmpty(was, sub);
      }
      InsertRemove(was, sub, path[1..], id);
      InsertName(was, path[1..], id);
      var child := Insert(was, path[1..], id);
      SameNames(n.children, path[0], child);
      RemoveStep(Graft(n, i, child), path, id, i, was);
      GraftPrune(n, i, child, was);
    }
  }

  // ---- The order of the children ----------------------------------------------------

  function Names(items: seq<Item>): seq<string> {
    seq(|items|, i requires 0 <= i < |items| => items[i].name)
  }

  lemma NamesConcat(xs: seq<Item>, ys: seq<Item>)
    ensures Names(xs + ys) == Names(xs) + Names(ys)
  {
  }

  lemma NamesSlice(items: seq<Item>, i: nat)
    requires i <= |items|
    ensures Names(items[..i]) == Names(items)[..i] && Names(items[i..]) == Names(items)[i..]
  {
  }

  /** New items come last. */
  lemma InsertOrder(n: Item, path: Path, id: Id)
    requires path != []
    ensures Names(Insert(n, path, id).children)
         == Names(n.children) + if path[0] in Names(n.children) then [] else [path[0]]
  {
    var i := IndexOf(n.children, path[0]);
    if i < |n.children| {
      InsertName(n.children[i], path[1..], id);
      assert Names(n.children)[i] == path[0];
    } else {
      InsertName(Item(path[0], [], {}), path[1..], id);
    }
  }

  /** Those that stay keep their order. */
  lemma RemoveOrder(n: Item, path: Path, id: Id)
    requires path != [] && Remove(n, path, id).Some?
    ensures var names, left := Names(n.children), Names(Remove(n, path, id).value.children);
            left == names || exists i :: 0 <= i < |names| && names[i] == path[0] && left == names[..i] + names[i + 1..]
  {
    var i := IndexOf(n.children, path[0]);
    var child := Remove(n.children[i], path[1..], id).value;
    RemoveName(n.children[i], path[1..], id);
    RemoveStep(n, path, id, i, child);
    PrunedInOrder(n.children, i, child);
  }

  lemma PrunedInOrder(items: seq<Item>, i: nat, child: Item)
    requires i < |items| && child.name == items[i].name
    ensures var names := Names(items);
            Names(Prune(items, i, child)) == if IsEmpty(child) then names[..i] + names[i + 1..] else names
  {
    if IsEmpty(child) {
      NamesSlice(items, i);
      NamesSlice(items, i + 1);
      NamesConcat(items[..i], items[i + 1..]);
    } else {
      assert Names(items[i := child]) == Names(items);
    }
  }

  // ---- Positions --------------------------------------------------------------------

  /** Whether a series of child indices leads to an item. */
  predicate Reaches(n: Item, at: seq<nat>)
    decreases |at|
  {
    at != [] ==> at[0] < |n.children| && Reaches(n.children[at[0]], at[1..])
  }

  function Get(n: Item, at: seq<nat>): Item
    requires Reaches(n, at)
    decreases |at|
  {
    if at == [] then n else Get(n.children[at[0]], at[1..])
  }

  function Put(n: Item, at: seq<nat>, x: Item): Item
    requires Reaches(n, at)
    decreases |at|
  {
    if at == [] then x else n.(children := n.children[at[0] := Put(n.children[at[0]], at[1..], x)])
  }

  lemma {:induction false} PutGet(n: Item, at: seq<nat>, x: Item, y: Item)
    requires Reaches(n, at)
    ensures Reaches(Put(n, at, x), at) && Get(Put(n, at, x), at) == x && Put(Put(n, at, x), at, y) == Put(n, at, y)
    ensures Put(n, at, Get(n, at)) == n
    decreases |at|
  {
    if at != [] {
      PutGet(n.children[at[0]], at[1..], x, y);
    }
  }

  lemma {:induction false} Deeper(n: Item, at: seq<nat>, i: nat, x: Item)
    requires Reaches(n, at) && i < |Get(n, at).children|
    ensures Reaches(n, at + [i]) && Get(n, at + [i]) == Get(n, at).children[i]
    ensures Put(n, at + [i], x) == Put(n, at, Get(n, at).(children := Get(n, at).children[i := x]))
    decreases |at|
  {
    if at == [] {
      assert at + [i] == [i] && [i][1..] == [];
      assert Put(n, [i], x) == n.(children := n.children[i := Put(n.children[i], [i][1..], x)]);
      assert Get(n, [i]) == Get(n.children[i], [i][1..]);
      assert Reaches(n.children[i], [i][1..]);
    } else {
      assert (at + [i])[1..] == at[1..] + [i];
      Deeper(n.children[at[0]], at[1..], i, x);
    }
  }

  lemma Pick(keys: set<Id>)
    requires |keys| > 0
    ensures exists id :: id in keys
  {
    if forall id :: id !in keys {
      assert false;
    }
  }

  // ---- The tree object --------------------------------------------------------------

  class Tree {
    var root: Item
    var cache: map<Id, Path>

    ghost predicate Valid()
      reads this
    {
      Canonical(root, cache)
    }

    constructor ()
      ensures Valid() && cache == map[] && IsEmpty(root)
    {
      root := Item("", [], {});
      cache := map[];
      new;
      NewItem("");
    }

    /** Looks a child up by name. */
    static method FindChild(items: seq<Item>, s: string) returns (i: nat)
      ensures i == IndexOf(items, s)
    {
      i := 0;
      while i < |items| && items[i].name != s
        invariant i <= |items| && forall j :: 0 <= j < i ==> items[j].name != s
      {
        i := i + 1;
      }
    }

    /** Walks down the path, making the items that are missing, and leaves the tweak at its end. */
    method AddTweak(path: Path, id: Id) returns (ok: bool)
      requires Valid()
      modifies this
      ensures Valid() && ok == (id !in old(cache))
      ensures ok ==> root == Insert(old(root), path, id) && cache == old(cache)[id := path]
      ensures !ok ==> root == old(root) && cache == old(cache)
    {
      if id in cache {
        return false;
      }
      var at: seq<nat> := [];
      var k := 0;
      assert path[0..] == path;
      while k < |path|
        modifies this`root
        invariant k <= |path| && Reaches(root, at)
        invariant Insert(old(root), path, id) == Put(root, at, Insert(Get(root, at), path[k..], id))
      {
        var s := path[k];
        var current := Get(root, at);
        var i := FindChild(current.children, s);
        WalkDown(root, at, path[k..], id, i);
        if i == |current.children| {
          root := Put(root, at, current.(children := current.children + [Item(s, [], {})]));
        }
        at := at + [i];
        assert path[k..][1..] == path[k + 1..];
        k := k + 1;
      }
      var leaf := Get(root, at);
      assert path[k..] == [];
      root := Put(root, at, leaf.(tweaks := leaf.tweaks + {id}));
      InsertCanonical(old(root), cache, path, id);
      cache := cache[id := path];
      ok := true;
    }

    /** Removes a live tweak; none of the lookups on the way can fail. */
    method RemoveTweak(id: Id)
      requires Valid() && id in cache
      modifies this
      ensures Valid() && cache == old(cache) - {id}
      ensures var r := Remove(old(root), old(cache)[id], id); r.Some? && root == r.value
    {
      RemoveCanonical(root, cache, id);
      var empty;
      root, empty := RemoveItem(root, cache[id], id);
      cache := cache - {id};
    }

    static method RemoveItem(current: Item, path: Path, id: Id) returns (r: Item, canBeRemoved: bool)
      requires Remove(current, path, id).Some?
      ensures r == Remove(current, path, id).value && canBeRemoved == IsEmpty(r)
      decreases |path|
    {
      if path == [] {
        r := current.(tweaks := current.tweaks - {id});
      } else {
        var i := FindChild(current.children, path[0]);
        var child, gone := RemoveItem(current.children[i], path[1..], id);
        if gone {
          r := current.(children := current.children[..i] + current.children[i + 1..]);
        } else {
          r := current.(children := current.children[i := child]);
        }
      }
      canBeRemoved := r.tweaks == {} && r.children == [];
    }

    /** Removes whatever there is. */
    method RemoveAllTweaks()
      requires Valid()
      modifies this
      ensures Valid() && cache == map[] && IsEmpty(root)
    {
      while |cache.Keys| > 0
        invariant Valid()
        decreases cache.Keys
      {
        Pick(cache.Keys);
        var id :| id in cache.Keys;
        RemoveTweak(id);
      }
      CanonicalEmpty(root, cache);
    }
  }

  /** One turn of the walk leaves the insertion to be done one level deeper. */
  lemma WalkDown(root: Item, at: seq<nat>, path: Path, id: Id, i: nat)
    requires Reaches(root, at) && path != [] && i == IndexOf(Get(root, at).children, path[0])
    ensures var current := Get(root, at);
            var root' := if i < |current.children| then root
                         else Put(root, at, current.(children := current.children + [Item(path[0], [], {})]));
            && Reaches(root', at + [i])
            && Put(root, at, Insert(current, path, id))
               == Put(root', at + [i], Insert(Get(root', at + [i]), path[1..], id))
  {
    var current := Get(root, at);
    if i < |current.children| {
      Deeper(root, at, i, Insert(current.children[i], path[1..], id));
    } else {
      var fresh_ := Item(path[0], [], {});
      var grown := current.(children := current.children + [fresh_]);
      var child := Insert(fresh_, path[1..], id);
      PutGet(root, at, grown, grown.(children := grown.children[i := child]));
      Deeper(Put(root, at, grown), at, i, child);
      assert grown.children[i := child] == current.children + [child];
    }
  }
}
