/**
 * The first-write-wins store that HSYdatabase.xmltodict fills: records keyed
 * by their raw `vtj_prt` text, collisions appended to the duplicates list.
 */
module PropertyStore {
  import opened Wrappers
  import opened XmlTree
  import opened PropertyRecord

  /** Why building the database aborts. */
  datatype BuildError =
    | NoSubelement   // `child[0]` on a child without sub-elements raises IndexError
    | MissingVtjPrt  // `propdata['vtj_prt']` on a group without that field raises KeyError

  /** The database contents: records by identifier, their insertion order, and the duplicates. */
  datatype Store = Store(properties: map<Text, Property>, order: seq<Text>, duplicates: seq<Property>) {
    /** `order` lists each key of `properties` exactly once. */
    ghost predicate Valid() {
      && (forall i, j :: 0 <= i < j < |order| ==> order[i] != order[j])
      && (forall k :: k in properties <==> k in order)
    }
  }

  /** The store of a database before anything is read. */
  const Empty: Store := Store(map[], [], [])

  /** The field that identifies a record. */
  const IdKey: string := "vtj_prt"

  /** Stores one terminal group: a new identifier is inserted, a known one sends the record to the duplicates. */
  function Insert(parse: NumParser, st: Store, fields: Fields): (r: Result<Store, BuildError>)
    ensures r.Failure? <==> IdKey !in fields
  {
    if IdKey !in fields then Failure(MissingVtjPrt)
    else
      var id := fields[IdKey];
      var p := Coerced(parse, fields);
      if id in st.properties then Success(st.(duplicates := st.duplicates + [p]))
      else Success(Store(st.properties[id := p], st.order + [id], st.duplicates))
  }

  /** First write wins: a known identifier keeps its record, a new one gets the coerced fields. */
  lemma InsertFirstWins(parse: NumParser, st: Store, fields: Fields)
    requires IdKey in fields
    ensures var st' := Insert(parse, st, fields).value;
      && st'.properties.Keys == st.properties.Keys + {fields[IdKey]}
      && (forall k :: k in st.properties ==> st'.properties[k] == st.properties[k])
      && (fields[IdKey] !in st.properties ==> st'.properties[fields[IdKey]] == Coerced(parse, fields) && st'.duplicates == st.duplicates)
      && (fields[IdKey] in st.properties ==> st'.duplicates == st.duplicates + [Coerced(parse, fields)])
      && |st'.properties| + |st'.duplicates| == |st.properties| + |st.duplicates| + 1
      && st'.order == st.order + (if fields[IdKey] in st.properties then [] else [fields[IdKey]])
  {
  }

  /** Inserting keeps `order` listing each key of `properties` exactly once. */
  lemma InsertValid(parse: NumParser, st: Store, fields: Fields)
    requires st.Valid() && IdKey in fields
    ensures Insert(parse, st, fields).value.Valid()
  {
  }

  /** Stores the items in order, stopping at the first error. */
  function Load(parse: NumParser, st: Store, items: seq<Item>): Result<Store, BuildError>
    decreases |items|
  {
    if items == [] then Success(st)
    else
      match items[0]
      case Bare => Failure(NoSubelement)
      case Group(fields) =>
        match Insert(parse, st, fields)
        case Failure(e) => Failure(e)
        case Success(st') => Load(parse, st', items[1..])
  }

  /** Loading a single terminal group is inserting it. */
  lemma LoadGroup(parse: NumParser, st: Store, fields: Fields)
    ensures Load(parse, st, [Group(fields)]) == Insert(parse, st, fields)
  {
    assert [Group(fields)][1..] == [];
  }

  /** Loading a concatenation is loading the first part, then the second from where it left off. */
  lemma {:induction false} LoadAppend(parse: NumParser, st: Store, a: seq<Item>, b: seq<Item>)
    decreases |a|
    ensures Load(parse, st, a + b) ==
      match Load(parse, st, a)
      case Failure(e) => Failure(e)
      case Success(st') => Load(parse, st', b)
  {
    if a != [] {
      assert (a + b)[0] == a[0] && (a + b)[1..] == a[1..] + b;
      if a[0].Group? && Insert(parse, st, a[0].fields).Success? {
        LoadAppend(parse, Insert(parse, st, a[0].fields).value, a[1..], b);
      }
    } else {
      assert a + b == b;
    }
  }

  /** Whether an item is stored without error. */
  predicate Storable(item: Item) {
    item.Group? && IdKey in item.fields
  }

  /** The build aborts exactly when some item is a bare child or a group without `vtj_prt`. */
  lemma {:induction false} LoadSucceeds(parse: NumParser, st: Store, items: seq<Item>)
    decreases |items|
    ensures Load(parse, st, items).Success? <==> forall i :: 0 <= i < |items| ==> Storable(items[i])
  {
    if items != [] && Storable(items[0]) {
      LoadSucceeds(parse, Insert(parse, st, items[0].fields).value, items[1..]);
      assert forall i :: 1 <= i < |items| ==> items[i] == items[1..][i - 1];
    }
  }

  /** Every terminal group ends up either in `properties` or in `duplicates`. */
  lemma {:induction false} LoadCount(parse: NumParser, st: Store, items: seq<Item>)
    requires Load(parse, st, items).Success?
    ensures |Load(parse, st, items).value.properties| + |Load(parse, st, items).value.duplicates|
      == |st.properties| + |st.duplicates| + |items|
    decreases |items|
  {
    if items != [] {
      var st1 := Insert(parse, st, items[0].fields).value;
      InsertFirstWins(parse, st, items[0].fields);
      LoadCount(parse, st1, items[1..]);
    }
  }

  /** Loading keeps `order` listing each key of `properties` exactly once. */
  lemma {:induction false} LoadValid(parse: NumParser, st: Store, items: seq<Item>)
    requires st.Valid() && Load(parse, st, items).Success?
    ensures Load(parse, st, items).value.Valid()
    decreases |items|
  {
    if items != [] {
      var st1 := Insert(parse, st, items[0].fields).value;
      InsertValid(parse, st, items[0].fields);
      LoadValid(parse, st1, items[1..]);
    }
  }

  /** The fields of the first group in `items` whose identifier is `id`. */
  function FirstWith(items: seq<Item>, id: Text): Option<Fields> {
    if items == [] then None
    else if items[0].Group? && IdKey in items[0].fields && items[0].fields[IdKey] == id then Some(items[0].fields)
    else FirstWith(items[1..], id)
  }

  /**
   * First write wins over a whole load: a key already present keeps its record;
   * a new key holds the record of the FIRST group carrying that identifier.
   */
  lemma {:induction false} LoadFirstWins(parse: NumParser, st: Store, items: seq<Item>, id: Text)
    requires Load(parse, st, items).Success?
    decreases |items|
    ensures var st' := Load(parse, st, items).value;
      && (id in st'.properties <==> id in st.properties || FirstWith(items, id).Some?)
      && (id in st.properties ==> st'.properties[id] == st.properties[id])
      && (id !in st.properties && FirstWith(items, id).Some? ==>
            st'.properties[id] == Coerced(parse, FirstWith(items, id).value))
  {
    if items != [] {
      var fields := items[0].fields;
      InsertFirstWins(parse, st, fields);
      LoadFirstWins(parse, Insert(parse, st, fields).value, items[1..], id);
    }
  }

  /** The records that collide with an identifier already seen, in encounter order. */
  function Overflow(parse: NumParser, seen: set<Text>, items: seq<Item>): seq<Property>
    decreases |items|
  {
    if items == [] then []
    else if !Storable(items[0]) then Overflow(parse, seen, items[1..])
    else
      var id := items[0].fields[IdKey];
      (if id in seen then [Coerced(parse, items[0].fields)] else [])
        + Overflow(parse, seen + {id}, items[1..])
  }

  /** One step of `Overflow` over a storable item. */
  lemma OverflowStep(parse: NumParser, seen: set<Text>, items: seq<Item>)
    requires items != [] && Storable(items[0])
    ensures Overflow(parse, seen, items) ==
      (if items[0].fields[IdKey] in seen then [Coerced(parse, items[0].fields)] else [])
        + Overflow(parse, seen + {items[0].fields[IdKey]}, items[1..])
  {
  }

  /** One step of the duplicates proof: the claim for the rest of the items gives it for all of them. */
  lemma LoadDuplicatesStep(parse: NumParser, st: Store, items: seq<Item>)
    requires items != [] && Load(parse, st, items).Success?
    ensures Storable(items[0])
    ensures var st1 := Insert(parse, st, items[0].fields).value;
      Load(parse, st1, items[1..]).value.duplicates == st1.duplicates + Overflow(parse, st1.properties.Keys, items[1..]) ==>
      Load(parse, st, items).value.duplicates == st.duplicates + Overflow(parse, st.properties.Keys, items)
  {
    var fields := items[0].fields;
    var id := fields[IdKey];
    var st1 := Insert(parse, st, fields).value;
    var head := if id in st.properties.Keys then [Coerced(parse, fields)] else [];
    var rest := Overflow(parse, st1.properties.Keys, items[1..]);
    assert st1.duplicates == st.duplicates + head;
    assert st1.properties.Keys == st.properties.Keys + {id};
    OverflowStep(parse, st.properties.Keys, items);
    assert (st.duplicates + head) + rest == st.duplicates + (head + rest);
  }

  /** The identifiers seen for the first time, in encounter order: the order Python's dict lists its keys in. */
  function NewIds(seen: set<Text>, items: seq<Item>): seq<Text>
    decreases |items|
  {
    if items == [] then []
    else if !Storable(items[0]) then NewIds(seen, items[1..])
    else
      var id := items[0].fields[IdKey];
      (if id in seen then [] else [id]) + NewIds(seen + {id}, items[1..])
  }

  /** One step of the insertion-order proof: the claim for the rest of the items gives it for all of them. */
  lemma LoadOrderStep(parse: NumParser, st: Store, items: seq<Item>)
    requires items != [] && Load(parse, st, items).Success?
    ensures Storable(items[0])
    ensures var st1 := Insert(parse, st, items[0].fields).value;
      Load(parse, st1, items[1..]).value.order == st1.order + NewIds(st1.properties.Keys, items[1..]) ==>
      Load(parse, st, items).value.order == st.order + NewIds(st.properties.Keys, items)
  {
    var fields := items[0].fields;
    var id := fields[IdKey];
    var st1 := Insert(parse, st, fields).value;
    var head := if id in st.properties.Keys then [] else [id];
    var rest := NewIds(st1.properties.Keys, items[1..]);
    assert st1.order == st.order + head;
    assert st1.properties.Keys == st.properties.Keys + {id};
    assert NewIds(st.properties.Keys, items) == head + rest;
    assert (st.order + head) + rest == st.order + (head + rest);
  }

  /** `order`, Python's dict iteration order, gains exactly the new identifiers, in encounter order. */
  lemma {:induction false} LoadOrder(parse: NumParser, st: Store, items: seq<Item>)
    requires Load(parse, st, items).Success?
    ensures Load(parse, st, items).value.order == st.order + NewIds(st.properties.Keys, items)
    decreases |items|
  {
    if items != [] {
      LoadOrderStep(parse, st, items);
      LoadOrder(parse, Insert(parse, st, items[0].fields).value, items[1..]);
    }
  }

  /** The duplicates list gains exactly the colliding records, in encounter order; none is merged back. */
  lemma {:induction false} LoadDuplicates(parse: NumParser, st: Store, items: seq<Item>)
    requires Load(parse, st, items).Success?
    ensures Load(parse, st, items).value.duplicates ==
      st.duplicates + Overflow(parse, st.properties.Keys, items)
    decreases |items|
  {
    if items != [] {
      LoadDuplicatesStep(parse, st, items);
      LoadDuplicates(parse, Insert(parse, st, items[0].fields).value, items[1..]);
    }
  }

  /** Two groups with the same identifier: the first is stored, the second goes to the duplicates. */
  lemma RepeatedIdentifier(parse: NumParser, first: Fields, second: Fields)
    requires IdKey in first && IdKey in second && first[IdKey] == second[IdKey] == Some("999")
    ensures var r := Load(parse, Empty, [Group(first), Group(second)]);
      && r.Success?
      && r.value.properties == map[Some("999") := Coerced(parse, first)]
      && r.value.duplicates == [Coerced(parse, second)]
  {
    var items := [Group(first), Group(second)];
    var st1 := Insert(parse, Empty, first).value;
    assert st1 == Store(map[Some("999") := Coerced(parse, first)], [Some("999")], []);
    assert items[1..] == [Group(second)];
    assert Load(parse, Empty, items) == Load(parse, st1, [Group(second)]);
    var st2 := Insert(parse, st1, second).value;
    assert st2 == st1.(duplicates := [Coerced(parse, second)]);
    assert Load(parse, st1, [Group(second)]) == Load(parse, st2, []);
  }
}
