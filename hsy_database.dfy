/**
 * The HSYdatabase class of hsyclass.py, from an already-parsed document on:
 * flatten the document into the store (xmltodict), then build the address
 * lookup (create_addressdict); and the two lookups by identifier.
 */
module HsyDatabase {
  import opened Wrappers
  import opened XmlTree
  import opened PropertyRecord
  import opened PropertyStore
  import opened AddressIndex

  /** The store a document yields: its items stored in document order, or the error that aborts the build. */
  function Build(parse: NumParser, root: Node): Result<Store, BuildError> {
    Load(parse, Empty, Flatten(root))
  }

  /** The field map of a terminal group, entered item by item. */
  method CollectFields(items: seq<Node>) returns (fields: Fields)
    ensures fields == FieldsOf(items)
  {
    fields := map[];
    for i := 0 to |items|
      invariant fields == FieldsOf(items[..i])
    {
      var item := items[i];
      FieldsOfPrefix(items, i);
      fields := fields[Name(item) := item.text];
    }
    assert items[..|items|] == items;
  }

  class Database {
    /** Python's `float()` on strings, which the model does not define. */
    const parse: NumParser
    /** Records by their raw `vtj_prt` text. */
    var properties: map<Text, Property>
    /** The keys of `properties` in insertion order (Python dict order). */
    var order: seq<Text>
    /** Records whose `vtj_prt` was already taken, in encounter order. */
    var duplicates: seq<Property>
    /** `address[street][number]`: identifiers filed at that address. */
    var address: Index

    /** The store part of the object. */
    function State(): Store
      reads this
    {
      Store(properties, order, duplicates)
    }

    /** `order` lists each key of `properties` exactly once. */
    ghost predicate Valid()
      reads this
    {
      State().Valid()
    }

    /** The empty database set up before anything is read. */
    constructor (parse: NumParser)
      ensures this.parse == parse
      ensures State() == Empty && address == map[]
    {
      this.parse := parse;
      properties := map[];
      address := map[];
      duplicates := [];
      order := [];
    }

    /** Stores one terminal group: first write wins, a repeated `vtj_prt` goes to `duplicates`. */
    method StoreGroup(fields: Fields) returns (ok: bool)
      modifies this`properties, this`order, this`duplicates
      ensures ok == Insert(parse, old(State()), fields).Success?
      ensures ok ==> State() == Insert(parse, old(State()), fields).value
      ensures !ok ==> State() == old(State())
    {
      if IdKey !in fields {
        // `propdata['vtj_prt']` raises KeyError
        return false;
      }
      var id := fields[IdKey];
      var p := BuildProperty(parse, fields);
      assert p == Coerced(parse, fields);
      if id in properties {
        duplicates := duplicates + [p];
      } else {
        properties := properties[id := p];
        order := order + [id];
      }
      ok := true;
    }

    /** `xmltodict`: walks the children of `node` in order, descending into groups of groups and storing terminal groups. */
    method XmlToDict(node: Node) returns (ok: bool)
      modifies this`properties, this`order, this`duplicates
      ensures ok == Load(parse, old(State()), Flatten(node)).Success?
      ensures ok ==> State() == Load(parse, old(State()), Flatten(node)).value
      decreases node, 0
    {
      var i := 0;
      while i < |node.children|
        invariant 0 <= i <= |node.children|
        invariant Load(parse, old(State()), Flatten(node)) == Load(parse, State(), FlattenFrom(node, i))
      {
        var child := node.children[i];
        LoadAppend(parse, State(), Contribution(child), FlattenFrom(node, i + 1));
        ok := VisitChild(child);
        if !ok {
          return false;
        }
        i := i + 1;
      }
      return true;
    }

    /** The body of `xmltodict`'s loop for one child. */
    method VisitChild(child: Node) returns (ok: bool)
      modifies this`properties, this`order, this`duplicates
      ensures ok == Load(parse, old(State()), Contribution(child)).Success?
      ensures ok ==> State() == Load(parse, old(State()), Contribution(child)).value
      decreases child, 1
    {
      if |child.children| == 0 {
        // `child[0]` raises IndexError
        return false;
      }
      if |child.children[0].children| != 0 {
        ok := XmlToDict(child);
      } else {
        var fields := CollectFields(child.children);
        ghost var before := State();
        ok := StoreGroup(fields);
        LoadGroup(parse, before, fields);
      }
    }

    /** One pass of `create_addressdict`'s loop: creates the street and number entries if missing, then appends `key`. */
    method FileUnderAddress(key: Text)
      requires key in properties
      modifies this`address
      ensures address == AddKey(old(address), properties, key)
    {
      var (street, number) := Address(properties[key]);
      ghost var numbers := if street in address then address[street] else map[];
      ghost var ids := if number in numbers then numbers[number] else [];
      if street !in address {
        address := address[street := map[]];
      }
      if number !in address[street] {
        address := address[street := address[street][number := []]];
      }
      assert address[street][number] == ids;
      ghost var updated := address[street][number := ids + [key]];
      assert updated == numbers[number := ids + [key]] by {
        assert updated.Keys == numbers.Keys + {number};
      }
      address := address[street := address[street][number := address[street][number] + [key]]];
      assert address == old(address)[street := updated] by {
        assert address.Keys == old(address).Keys + {street};
      }
    }

    /** `create_addressdict`: files every key of `properties`, in insertion order, under its record's address. */
    method CreateAddressDict()
      requires Valid()
      modifies this`address
      ensures address == IndexFrom(old(address), properties, order)
    {
      var i := 0;
      while i < |order|
        invariant 0 <= i <= |order|
        invariant address == IndexFrom(old(address), properties, order[..i])
      {
        IndexFromPrefix(old(address), properties, order, i);
        FileUnderAddress(order[i]);
        i := i + 1;
      }
      assert order[..|order|] == order;
    }

    /** `get_propertyobj`: the record stored under `id`; None where Python raises KeyError. */
    function GetPropertyObj(id: Text): (r: Option<Property>)
      reads this
      ensures r.Some? <==> id in properties
      ensures r.Some? ==> r.value == properties[id]
    {
      if id in properties then Some(properties[id]) else None
    }

    /** `get_propertyaddress`: the address of the record stored under `id`; None where Python raises KeyError. */
    function GetPropertyAddress(id: Text): (r: Option<(Value, Value)>)
      reads this
      ensures r.Some? <==> id in properties
      ensures r.Some? ==> r.value.0 == (if "katu" in properties[id] then properties[id]["katu"] else VNone)
      ensures r.Some? ==> r.value.1 == (if "osno1" in properties[id] then properties[id]["osno1"] else VNone)
    {
      match GetPropertyObj(id)
      case None => None
      case Some(p) => Some(Address(p))
    }
  }

  /** `HSYdatabase(...)` from a parsed document: flatten, then index; null where the build raises. */
  method FromTree(parse: NumParser, root: Node) returns (db: Database?)
    ensures (db != null) == Build(parse, root).Success?
    ensures db != null ==> fresh(db) && db.parse == parse && db.Valid()
    ensures db != null ==> db.State() == Build(parse, root).value
    ensures db != null ==> db.address == IndexOf(db.properties, db.order)
  {
    db := new Database(parse);
    var ok := db.XmlToDict(root);
    if !ok {
      return null;
    }
    LoadValid(parse, Empty, Flatten(root));
    db.CreateAddressDict();
  }

  /**
   * Every terminal group of the document is kept, in `properties` or in
   * `duplicates`; and the build succeeds exactly when every visited child has
   * sub-elements and every terminal group has a `vtj_prt` field.
   */
  lemma BuildKeepsEveryGroup(parse: NumParser, root: Node)
    ensures Build(parse, root).Success? <==> forall i :: 0 <= i < |Flatten(root)| ==> Storable(Flatten(root)[i])
    ensures Build(parse, root).Success? ==>
      |Build(parse, root).value.properties| + |Build(parse, root).value.duplicates| == |Flatten(root)|
  {
    LoadSucceeds(parse, Empty, Flatten(root));
    if Build(parse, root).Success? {
      LoadCount(parse, Empty, Flatten(root));
    }
  }

  /**
   * The keys of a built database, in Python's dict iteration order, are the
   * identifiers of the document in the order each was first met, which is the
   * order `create_addressdict` files them in.
   */
  lemma BuildOrder(parse: NumParser, root: Node)
    requires Build(parse, root).Success?
    ensures Build(parse, root).value.order == NewIds({}, Flatten(root))
  {
    LoadOrder(parse, Empty, Flatten(root));
    assert Empty.properties.Keys == {};
  }

  /**
   * Round trip: in a built database every identifier can be looked up, and the
   * address `get_propertyaddress` gives for it is an entry of `address` whose
   * list holds that identifier; `duplicates` plays no part.
   */
  lemma LookupRoundTrip(db: Database, id: Text)
    requires db.Valid() && db.address == IndexOf(db.properties, db.order)
    requires id in db.properties
    ensures db.GetPropertyObj(id) == Some(db.properties[id])
    ensures var a := db.GetPropertyAddress(id);
      && a.Some?
      && a.value.0 in db.address && a.value.1 in db.address[a.value.0]
      && id in db.address[a.value.0][a.value.1]
  {
    var a := Address(db.properties[id]);
    IndexFilesEachKeyOnce(db.properties, db.order, a.0, a.1);
  }
}
