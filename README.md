# HSY property database — a Dafny model

`hsyclass.py` reads the buildings register of the Helsinki Region
Environmental Services (HSY) from a WFS feature service as nested XML and turns
it into an in-memory database. This project models, and proves properties of,
the part of that program that does the work once a parsed document is at hand:

- **xmltodict** walks the element tree. A child whose first sub-element has
  sub-elements of its own is a group of groups and is walked recursively;
  otherwise the child is a terminal group whose items become a field map
  (field name = the tag after its last `}`, value = the element text, a later
  item overwriting an earlier one with the same name).
- **Property** turns a field map into a record: each text is tried as a float;
  a float whose `numpy.mod(x, 1)` is below `1e-6` becomes `int(x)`, another float
  stays a float, non-numeric text stays a string; finally every identifier field
  (name containing `tun`, or exactly `vtj_prt` or `posno`) is re-stored from the
  local value of the loop.
- **properties / duplicates**: records are keyed by their raw `vtj_prt` text.
  The first record with an identifier wins; later ones are appended to
  `duplicates` in encounter order.
- **create_addressdict** files every identifier, in insertion order, under
  `address[street][number]`, with `(katu, osno1)` from `Property.address`,
  None for whichever is missing.
- **get_propertyobj / get_propertyaddress** look a record, or its address, up by
  identifier.

Files (one module each):

- `wrappers.dfy` — `Option` and `Result`.
- `xml_tree.dfy` — `XmlTree`: the parsed document, tag names, field maps of
  terminal groups, and the flattening of a document into the items
  `xmltodict` stores, in document order.
- `property_record.dfy` — `PropertyRecord`: the coercion of `Property.__init__`
  and `Property.address`.
- `property_store.dfy` — `PropertyStore`: first-write-wins insertion, loading a
  sequence of items, the build errors.
- `address_index.dfy` — `AddressIndex`: the address lookup as a fold over the
  insertion order, characterised by an independent filter definition.
- `hsy_database.dfy` — `HsyDatabase`: the `Database` class whose methods update
  `properties`, `duplicates` and `address` in place, as `HSYdatabase` does, each
  proved against the functions above.

Python's `float()` on strings is not defined here: it is a parameter
`parse: string -> Option<real>` (None where `float()` raises), held by the
database as a constant field. Floats are modelled as exact reals.

### Where the code and its documentation differ

The model follows the code in each case.

- The docstring of `Property.__init__` (hsyclass.py:291-293) says identifier
  fields are retained as strings. The code (hsyclass.py:310 and 333) re-stores
  the local `value`, which `float(value)` has already replaced when the text is
  numeric. So `vtj_prt = "123"` is stored as the float `123.0`, and a
  leading-zero identifier such as `"0012"` loses its zeros. Only non-numeric
  identifiers stay strings. `MannerheimintieRecord` and `IdentifierNotTruncated`
  state this.
- The comment at hsyclass.py:311 says the test checks whether the value is
  "within a millionth of an integer". The test at hsyclass.py:314 is
  `abs(mod(value, 1)) < 1e-6`; the `abs` changes nothing, because numpy's `mod`
  with divisor 1 already lies in [0, 1). The test only accepts values just above an integer, so
  `80.9999999` stays a float. The integer stored is `int(x)`, which truncates
  toward zero. For a negative value just above an integer, such as `-4.9999999`,
  the result is `-4`, one above the integer the value lies next to.
  `CoerceNumber` states both facts.
- The store is keyed by the raw identifier text, and an element's text may be
  None, so None is a possible key.
- A terminal group without a `vtj_prt` item is not skipped. `propdata['vtj_prt']`
  at hsyclass.py:261 raises KeyError, which aborts the whole build. A child
  without sub-elements makes `child[0]` raise IndexError
  (hsyclass.py:234), which also aborts the build. So a terminal group with no
  items never reaches `Property`. Both errors are modelled (`BuildError`).
- There is no lookup of records by address in the code. Only the index
  `address` itself exists.

## Model

| member | source | states |
|---|---|---|
| XmlTree.TagName | hsyclass.py:242-245 | the field name is the suffix of the tag after its last `}`: a suffix with no `}` in it, preceded by `}` whenever it is not the whole tag |
| XmlTree.Entries | hsyclass.py:241-245 | one (field name, text) pair per item, in document order |
| XmlTree.MapOfKeys | hsyclass.py:239-245 | the field map holds exactly the names of the items, no more and no fewer |
| XmlTree.MapOfLastWins | hsyclass.py:245 | each field holds the text of the last item with that name |
| XmlTree.FieldsOf | hsyclass.py:239-245 | the field map of a terminal group: its items entered in document order, name to text, a later item overwriting an earlier one |
| XmlTree.FieldsOfPrefix | hsyclass.py:241-245 | entering one more item updates the field map at that item's name only |
| XmlTree.Contribution | hsyclass.py:234-245 | what one child adds: a bare marker when it has no sub-elements (`child[0]` raises), the flattening of its children when its first sub-element has sub-elements, and otherwise its field map |
| XmlTree.FlattenFrom | hsyclass.py:231-235 | the contributions of the children from an index on, in order |
| XmlTree.Flatten | hsyclass.py:227-245 | every terminal group and bare child a walk of the document meets, in the order the walk meets them |
| XmlTree.FlattenAppend | hsyclass.py:231-235 | document order: the items of earlier children are stored before those of later children |
| PropertyRecord.ContainsTunSpec | hsyclass.py:330 | the recursive test for `'tun' in key` holds exactly when "tun" occurs at some index of the key |
| PropertyRecord.IsIdentifierKey | hsyclass.py:330 | a key is an identifier when it contains "tun" or is `vtj_prt` or `posno` |
| PropertyRecord.Parsed | hsyclass.py:306-310 | the local `value` after `float(value)`: None and non-numeric text unchanged, numeric text the parsed float |
| PropertyRecord.Numeric | hsyclass.py:306-325 | what the try/except stores: a float with `mod(x, 1) < 1e-6` as `int(x)`, another float as is, anything else unchanged |
| PropertyRecord.CoerceField | hsyclass.py:304-333 | the final value of one attribute: `Parsed` for an identifier key, `Numeric` otherwise |
| PropertyRecord.Coerced | hsyclass.py:304-333 | the record of a field map: every field coerced by `CoerceField`, none dropped, none added |
| PropertyRecord.Trunc | hsyclass.py:317 | `int(x)` truncates toward zero: within 1 below a non-negative x, within 1 above a negative one |
| PropertyRecord.Frac | hsyclass.py:314 | `mod(x, 1)` lies in [0, 1) and x minus it is an integer |
| PropertyRecord.BuildProperty | hsyclass.py:304-333 | the record has exactly the keys of the field map, and each holds that field's coerced value |
| PropertyRecord.CoerceVerbatim | hsyclass.py:322-325 | None and non-numeric text are stored unchanged, whatever the key |
| PropertyRecord.CoerceNumber | hsyclass.py:306-321 | for an ordinary key, a parsed number becomes an int exactly when its fraction above the floor is below 1e-6, and otherwise is stored unchanged; a non-negative one loses less than 1e-6; a negative non-integer is truncated to one above its floor |
| PropertyRecord.IdentifierNotTruncated | hsyclass.py:326-333 | an identifier is never an int: non-numeric text stays the string, numeric text becomes the parsed float |
| PropertyRecord.OrdinaryFloatNotIntegral | hsyclass.py:314-321 | an ordinary field stored as a float never has an integral value, so Python's `81 == 81.0` cannot equate values the model keeps apart |
| PropertyRecord.Address | hsyclass.py:335-352 | the street is `katu` and the number `osno1`, each None when the record lacks it |
| PropertyRecord.AddressFieldsOrdinary | hsyclass.py:330-333 | `katu` and `osno1` are coerced as ordinary fields, `vtj_prt` as an identifier |
| PropertyRecord.MannerheimintieRecord | hsyclass.py:304-339 | `{vtj_prt: "123", katu: "Mannerheimintie", osno1: "81.0000003"}` stores `vtj_prt` as the float 123.0 and not the string, `osno1` as the int 81, and has the address (Mannerheimintie, 81) |
| PropertyStore.Insert | hsyclass.py:248-261 | inserting a field map fails exactly when it has no `vtj_prt` field |
| PropertyStore.InsertFirstWins | hsyclass.py:248-261 | a known identifier leaves `properties` unchanged and appends the new record to `duplicates`; a new one adds exactly that key with the coerced record; one of the two counts grows by one; `order` gains the identifier exactly when it is new |
| PropertyStore.InsertValid | hsyclass.py:253-261 | insertion keeps the insertion order listing each identifier of `properties` exactly once |
| PropertyStore.Load | hsyclass.py:232-261 | the store after inserting the items in order, or the first error met |
| PropertyStore.LoadAppend | hsyclass.py:232-261 | storing a concatenation of items is storing the first part, then the second from the state the first left |
| PropertyStore.LoadSucceeds | hsyclass.py:234-261 | the build aborts exactly when some visited child has no sub-elements or some terminal group has no `vtj_prt` |
| PropertyStore.LoadCount | hsyclass.py:253-261 | every terminal group ends up in `properties` or in `duplicates`: the two sizes grow by the number of groups |
| PropertyStore.LoadValid | hsyclass.py:253-261 | loading keeps the insertion order listing each identifier exactly once |
| PropertyStore.LoadFirstWins | hsyclass.py:253-261 | after loading, an identifier's record is the one already stored, or else that of the first group carrying it; an identifier nobody carried is absent |
| PropertyStore.LoadDuplicates | hsyclass.py:253-256 | `duplicates` gains exactly the records whose identifier was already taken, in encounter order, and nothing is merged back |
| PropertyStore.LoadOrder | hsyclass.py:253-261 | `order`, the dict iteration order, gains exactly the identifiers met for the first time, in encounter order |
| PropertyStore.RepeatedIdentifier | hsyclass.py:248-261 | two groups with `vtj_prt` "999": the first is the stored record, the second is the only duplicate |
| AddressIndex.AddKey | hsyclass.py:96-112 | the index with one identifier appended to the list at its record's address, the street and number entries created when missing |
| AddressIndex.IndexFrom | hsyclass.py:93-112 | an index with the identifiers filed in the given order |
| AddressIndex.IndexOf | hsyclass.py:89-112 | the index built from nothing by filing the identifiers in the given order |
| AddressIndex.IndexOfSpec | hsyclass.py:89-112 | the index built from the insertion order has an entry (street, number) exactly when some record lies there, and its list is the identifiers at that address in insertion order |
| AddressIndex.IndexStreets | hsyclass.py:99-102 | a street entry exists exactly when some record lies on that street, so no street entry is empty |
| AddressIndex.IndexFilesEachKeyOnce | hsyclass.py:93-112 | every identifier is filed under its own record's address and only there, every list is non-empty, and no list repeats an identifier |
| AddressIndex.AbsentStreetFiled | hsyclass.py:341-349 | a record with `osno1` "5" and no `katu` is filed under (None, 5) |
| HsyDatabase.Build | hsyclass.py:84-85 | the store a document yields: its flattened items loaded into the empty store |
| HsyDatabase.CollectFields | hsyclass.py:239-245 | the loop builds exactly the field map of the terminal group |
| HsyDatabase.Database.constructor | hsyclass.py:62-66 | a new database has empty `properties`, `duplicates` and `address` |
| HsyDatabase.Database.StoreGroup | hsyclass.py:248-261 | the in-place update succeeds exactly when insertion does, and leaves the database in the state insertion gives; a failed call changes nothing |
| HsyDatabase.Database.XmlToDict | hsyclass.py:227-262 | walking a node leaves the database in the state of storing the node's flattened items in document order, and reports failure exactly when that raises |
| HsyDatabase.Database.VisitChild | hsyclass.py:232-261 | one child: raises when it has no sub-elements, recurses into a group of groups, and otherwise stores the terminal group's field map |
| HsyDatabase.Database.FileUnderAddress | hsyclass.py:96-112 | one pass creates the street and number entries when missing and appends the identifier to that list, changing nothing else |
| HsyDatabase.Database.CreateAddressDict | hsyclass.py:89-112 | the loop files every identifier of `properties`, in insertion order, into `address` |
| HsyDatabase.Database.GetPropertyObj | hsyclass.py:268-270 | the record stored under the identifier, and None exactly where Python raises KeyError |
| HsyDatabase.Database.GetPropertyAddress | hsyclass.py:264-266 | the (katu, osno1) of the stored record, None for a missing field, and None exactly where Python raises KeyError |
| HsyDatabase.FromTree | hsyclass.py:62-86 | construction from a document succeeds exactly when the build does; the result holds the built store and the address index of its insertion order |
| HsyDatabase.BuildKeepsEveryGroup | hsyclass.py:227-262 | the build succeeds exactly when every item is storable, and then every terminal group is in `properties` or `duplicates` |
| HsyDatabase.BuildOrder | hsyclass.py:253-261 | the keys of a built database, in dict order, are the identifiers of the document in the order each was first met |
| HsyDatabase.LookupRoundTrip | hsyclass.py:264-270 | every stored identifier can be looked up, and the address it reports is an entry of `address` whose list holds that identifier |

## Left out

- `stream_HSY`, `write_to_file`, `write_HSY`, `create_fromfile` and `create_fromstream` (hsyclass.py:114-225): network, file I/O and XML text parsing. The model starts from an already-parsed tree (`Node`), and `FromTree` stands for the constructor's three branches. `write_to_file` (hsyclass.py:219) calls `stream_HSY(fname, street)` with one argument too many for `stream_HSY(self, street=None)` (hsyclass.py:173), so it raises TypeError and the `download=True` path (hsyclass.py:76-77, 167) always fails. That call path is not modelled. `create_fromfile` and `create_fromstream` import `xml.etree.cElementTree` (hsyclass.py:123, 139), a deprecated alias of `xml.etree.ElementTree`.
- The `url`, `version` and `featuretype` attributes (hsyclass.py:67-72): they are used only by the network code.
- `print_properties` (hsyclass.py:354-359): output only.
- Python's `float()` string syntax: it is the parameter `parse`. IEEE-754 rounding, NaN and infinities are not modelled, because floats are exact reals.
- Attributes are set with `setattr`. A field named like a method, such as `address`, would shadow `Property.address`. The model keeps fields in a map apart from the method.
- The bare `except` around the duplicate check (hsyclass.py:257) would also catch an error raised inside `Property(propdata)` and retry the insertion. In the model, building a record cannot fail.
- HsyDatabase.Database.XmlToDict: when `ok` is false the contract says nothing about the state left behind; the same holds for HsyDatabase.Database.VisitChild, which may fail inside a nested walk after storing some groups (HsyDatabase.Database.StoreGroup does state that a failed call changes nothing). In Python, a failed `HSYdatabase(...)` hands the caller no object, so `FromTree` returning null matches it. The records stored before the error stay visible only when `xmltodict` or `create_fromfile` is called on an existing object and the caller catches the error; that partial state is not described.
- Python dict equality treats `81` and `81.0` as the same key, while the model distinguishes `VInt(81)` from `VNum(81.0)`. For ordinary fields, `OrdinaryFloatNotIntegral` shows this never matters. An identifier stored as a float can still coincide with an int in Python.
- AddressIndex.IndexFilesEachKeyOnce: the total length of all lists is not stated as a sum over the nested maps. It is stated as "each identifier is filed exactly once, under its own address".
