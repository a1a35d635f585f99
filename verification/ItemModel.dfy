/** The two hash tables both peers keep under one lock: items by id, and ids by uri. */
module ItemModel {
  import opened Variants

  type Id = nat
  const INVALID_ID: Id := 0

  datatype Item = Item(id: Id, uri: string, description: string, meta: string,
                       defaultValue: Variant, current: Variant, kind: VariantType)

  datatype Model = Model(items: map<Id, Item>, index: map<string, Id>)

  const EMPTY_MODEL := Model(map[], map[])

  function NewItem(id: Id, uri: string, description: string, meta: string,
                   defaultValue: Variant, current: Variant): Item
  {
    Item(id, uri, description, meta, defaultValue, current, TypeOf(current))
  }

  /** The item store and the uri index are mutual inverses. */
  ghost predicate Consistent(m: Model) {
    && (forall id :: id in m.items ==>
          id != INVALID_ID && m.items[id].id == id && m.items[id].uri in m.index && m.index[m.items[id].uri] == id)
    && (forall u :: u in m.index ==> m.index[u] in m.items && m.items[m.index[u]].uri == u)
  }

  function Insert(m: Model, it: Item): Model {
    Model(m.items[it.id := it], m.index[it.uri := it.id])
  }

  function Delete(m: Model, id: Id): Model
    requires id in m.items
  {
    Model(m.items - {id}, m.index - {m.items[id].uri})
  }

  function SetCurrent(m: Model, id: Id, v: Variant): Model
    requires id in m.items
  {
    m.(items := m.items[id := m.items[id].(current := v)])
  }

  /** Everything about an item except its current value. */
  ghost predicate SameStatic(a: Item, b: Item) {
    a.(current := b.current) == b
  }

  lemma InsertConsistent(m: Model, it: Item)
    requires Consistent(m) && it.id !in m.items && it.uri !in m.index && it.id != INVALID_ID
    ensures Consistent(Insert(m, it))
  {
  }

  lemma DeleteConsistent(m: Model, id: Id)
    requires Consistent(m) && id in m.items
    ensures Consistent(Delete(m, id))
  {
  }

  lemma SetCurrentConsistent(m: Model, id: Id, v: Variant)
    requires Consistent(m) && id in m.items
    ensures Consistent(SetCurrent(m, id, v))
  {
  }
}
