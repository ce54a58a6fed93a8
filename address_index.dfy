/**
 * The address lookup built by HSYdatabase.create_addressdict: street, then
 * house number, then the identifiers filed there in insertion order.
 */
module AddressIndex {
  import opened Wrappers
  import opened XmlTree
  import opened PropertyRecord

  /** `address[street][number]`: the identifiers of the records at that address. */
  type Index = map<Value, map<Value, seq<Text>>>

  /** Files one identifier under the address of its record, creating the street and number entries on first use. */
  function AddKey(idx: Index, props: map<Text, Property>, k: Text): Index
    requires k in props
  {
    var (street, number) := Address(props[k]);
    var numbers := if street in idx then idx[street] else map[];
    var ids := if number in numbers then numbers[number] else [];
    idx[street := numbers[number := ids + [k]]]
  }

  /** Files the identifiers `keys`, in order, into `idx`. */
  function IndexFrom(idx: Index, props: map<Text, Property>, keys: seq<Text>): Index
    requires forall k :: k in keys ==> k in props
    decreases |keys|
  {
    if keys == [] then idx
    else
      var n := |keys| - 1;
      AddKey(IndexFrom(idx, props, keys[..n]), props, keys[n])
  }

  /** Filing one more identifier is `AddKey` on the index of the ones before it. */
  lemma IndexFromPrefix(idx: Index, props: map<Text, Property>, keys: seq<Text>, i: nat)
    requires i < |keys| && forall k :: k in keys ==> k in props
    ensures IndexFrom(idx, props, keys[..i + 1]) == AddKey(IndexFrom(idx, props, keys[..i]), props, keys[i])
  {
    assert keys[..i + 1][..i] == keys[..i];
  }

  /** The index built from nothing. */
  function IndexOf(props: map<Text, Property>, keys: seq<Text>): Index
    requires forall k :: k in keys ==> k in props
  {
    IndexFrom(map[], props, keys)
  }

  /** The reference definition: the identifiers of `keys` whose record lies at (street, number), in the order of `keys`. */
  function At(props: map<Text, Property>, keys: seq<Text>, street: Value, number: Value): seq<Text>
    requires forall k :: k in keys ==> k in props
    decreases |keys|
  {
    if keys == [] then []
    else
      var n := |keys| - 1;
      At(props, keys[..n], street, number) + (if Address(props[keys[n]]) == (street, number) then [keys[n]] else [])
  }

  /** Whether some identifier of `keys` has its record at (street, number). */
  ghost predicate Occupied(props: map<Text, Property>, keys: seq<Text>, street: Value, number: Value)
    requires forall k :: k in keys ==> k in props
  {
    exists i :: 0 <= i < |keys| && Address(props[keys[i]]) == (street, number)
  }

  /** An identifier is in the list of an address exactly when it is one of `keys` and its record lies there. */
  lemma {:induction false} AtMembers(props: map<Text, Property>, keys: seq<Text>, street: Value, number: Value)
    requires forall k :: k in keys ==> k in props
    ensures forall k :: k in At(props, keys, street, number) <==> k in keys && Address(props[k]) == (street, number)
    decreases |keys|
  {
    if keys != [] {
      var n := |keys| - 1;
      var init := keys[..n];
      AtMembers(props, init, street, number);
      assert keys == init + [keys[n]];
    }
  }

  /** The list of an address is non-empty exactly when some identifier lies there. */
  lemma {:induction false} AtNonEmpty(props: map<Text, Property>, keys: seq<Text>, street: Value, number: Value)
    requires forall k :: k in keys ==> k in props
    ensures At(props, keys, street, number) != [] <==> Occupied(props, keys, street, number)
    decreases |keys|
  {
    if keys != [] {
      var n := |keys| - 1;
      var init := keys[..n];
      AtNonEmpty(props, init, street, number);
      if Occupied(props, keys, street, number) && Address(props[keys[n]]) != (street, number) {
        var i :| 0 <= i < |keys| && Address(props[keys[i]]) == (street, number);
        assert i < n && init[i] == keys[i];
      }
      if Occupied(props, init, street, number) {
        var i :| 0 <= i < |init| && Address(props[init[i]]) == (street, number);
        assert keys[i] == init[i];
      }
    }
  }

  /** No identifier occurs twice. */
  predicate Distinct(ids: seq<Text>) {
    forall i, j :: 0 <= i < j < |ids| ==> ids[i] != ids[j]
  }

  /** With distinct identifiers, no list holds an identifier twice. */
  lemma {:induction false} AtDistinct(props: map<Text, Property>, keys: seq<Text>, street: Value, number: Value)
    requires forall k :: k in keys ==> k in props
    requires Distinct(keys)
    ensures Distinct(At(props, keys, street, number))
    decreases |keys|
  {
    if keys != [] {
      var n := |keys| - 1;
      var init := keys[..n];
      assert Distinct(init) by {
        forall i, j | 0 <= i < j < |init| ensures init[i] != init[j] {
          assert init[i] == keys[i] && init[j] == keys[j];
        }
      }
      AtDistinct(props, init, street, number);
      AtMembers(props, init, street, number);
      assert keys[n] !in init;
      var before := At(props, init, street, number);
      var ids := At(props, keys, street, number);
      var tail := if Address(props[keys[n]]) == (street, number) then [keys[n]] else [];
      assert ids == before + tail;
      forall i, j | 0 <= i < j < |ids| ensures ids[i] != ids[j] {
        assert ids[i] == before[i];
        if j < |before| {
          assert ids[j] == before[j];
        } else {
          assert ids[j] == keys[n] && before[i] in before;
        }
      }
    }
  }

  /**
   * The index built from `keys` is the reference definition: an address is present
   * exactly when some identifier lies there, and its list is `At`.
   */
  lemma {:induction false} IndexOfSpec(props: map<Text, Property>, keys: seq<Text>, street: Value, number: Value)
    requires forall k :: k in keys ==> k in props
    ensures var idx := IndexOf(props, keys);
      && (street in idx && number in idx[street] <==> Occupied(props, keys, street, number))
      && (street in idx && number in idx[street] ==> idx[street][number] == At(props, keys, street, number))
    decreases |keys|
  {
    if keys != [] {
      var n := |keys| - 1;
      var init := keys[..n];
      var last := keys[n];
      IndexOfSpec(props, init, street, number);
      AtNonEmpty(props, init, street, number);
      AtNonEmpty(props, keys, street, number);
      var before := IndexOf(props, init);
      assert IndexOf(props, keys) == AddKey(before, props, last);
    }
  }

  /** A street is present exactly when some identifier lies on it: no street entry is left empty. */
  lemma {:induction false} IndexStreets(props: map<Text, Property>, keys: seq<Text>, street: Value)
    requires forall k :: k in keys ==> k in props
    ensures var idx := IndexOf(props, keys);
      street in idx <==> exists i :: 0 <= i < |keys| && Address(props[keys[i]]).0 == street
    decreases |keys|
  {
    if keys != [] {
      var n := |keys| - 1;
      var init := keys[..n];
      IndexStreets(props, init, street);
      assert IndexOf(props, keys) == AddKey(IndexOf(props, init), props, keys[n]);
      if exists i :: 0 <= i < |keys| && Address(props[keys[i]]).0 == street {
        var i :| 0 <= i < |keys| && Address(props[keys[i]]).0 == street;
        if i < n {
          assert init[i] == keys[i];
        }
      }
      if exists i :: 0 <= i < |init| && Address(props[init[i]]).0 == street {
        var i :| 0 <= i < |init| && Address(props[init[i]]).0 == street;
        assert keys[i] == init[i];
      }
    }
  }

  /**
   * Completeness and soundness: every identifier is filed under its own record's
   * address, an identifier is filed only there, every list is non-empty, and with
   * distinct identifiers each one is filed exactly once.
   */
  lemma IndexFilesEachKeyOnce(props: map<Text, Property>, keys: seq<Text>, street: Value, number: Value)
    requires forall k :: k in keys ==> k in props
    requires Distinct(keys)
    ensures var idx := IndexOf(props, keys);
      && (forall k :: k in keys && Address(props[k]) == (street, number) ==>
            street in idx && number in idx[street] && k in idx[street][number])
      && (street in idx && number in idx[street] ==>
            && idx[street][number] != []
            && (forall k :: k in idx[street][number] ==> k in keys && Address(props[k]) == (street, number))
            && Distinct(idx[street][number]))
  {
    IndexOfSpec(props, keys, street, number);
    AtMembers(props, keys, street, number);
    AtNonEmpty(props, keys, street, number);
    AtDistinct(props, keys, street, number);
    forall k | k in keys && Address(props[k]) == (street, number)
      ensures Occupied(props, keys, street, number)
    {
      var i :| 0 <= i < |keys| && keys[i] == k;
    }
  }

  /** A record with `osno1` "5" and no `katu` is filed under (None, 5). */
  lemma AbsentStreetFiled(parse: NumParser, id: Text)
    requires parse("5") == Some(5.0)
    ensures var props := map[id := Coerced(parse, map["vtj_prt" := id, "osno1" := Some("5")])];
      var idx := IndexOf(props, [id]);
      VNone in idx && VInt(5) in idx[VNone] && idx[VNone][VInt(5)] == [id]
  {
    var fields := map["vtj_prt" := id, "osno1" := Some("5")];
    AddressFieldsOrdinary();
    assert Frac(5.0) == 0.0;
    var p := Coerced(parse, fields);
    assert p["osno1"] == CoerceField(parse, "osno1", Some("5")) == VInt(5);
    assert "katu" !in p;
    assert Address(p) == (VNone, VInt(5));
    var props := map[id := p];
    IndexFromPrefix(map[], props, [id], 0);
    assert [id][..0] == [] && [id][..1] == [id];
  }
}
