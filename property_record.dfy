/**
 * One property record (class Property in hsyclass.py): the coercion of each
 * field's text to a typed value, and the address derived from a record.
 */
module PropertyRecord {
  import opened Wrappers
  import opened XmlTree

  /** A stored attribute: Python None, a str, an int or a float. */
  datatype Value = VNone | VStr(s: string) | VInt(i: int) | VNum(x: real)

  /** The raw field map of one terminal group: field name to element text. */
  type Fields = map<string, Text>

  /** A record: attribute name to coerced value. */
  type Property = map<string, Value>

  /** Python's `float(s)` on a string: the number it denotes, or None when it raises. */
  type NumParser = string -> Option<real>

  /** The tolerance `1e-6` below which a fractional part counts as integer noise. */
  const IntTolerance: real := 0.000001

  /** Whether "tun" occurs in `key` as a substring. */
  predicate ContainsTun(key: string) {
    |key| >= 3 && (key[..3] == "tun" || ContainsTun(key[1..]))
  }

  /** Whether "tun" starts at index `i` of `key`. */
  predicate TunAt(key: string, i: int) {
    0 <= i <= |key| - 3 && key[i..i + 3] == "tun"
  }

  /** The recursive test agrees with the substring definition, in both directions. */
  lemma {:induction false} ContainsTunSpec(key: string)
    ensures ContainsTun(key) <==> exists i :: TunAt(key, i)
  {
    if |key| >= 3 {
      var rest := key[1..];
      ContainsTunSpec(rest);
      if ContainsTun(key) && key[..3] != "tun" {
        var i :| TunAt(rest, i);
        assert key[i + 1..i + 4] == rest[i..i + 3];
        assert TunAt(key, i + 1);
      }
      if key[..3] == "tun" {
        assert key[0..3] == key[..3];
        assert TunAt(key, 0);
      }
      if i :| TunAt(key, i) {
        if i > 0 {
          assert rest[i - 1..i + 2] == key[i..i + 3];
          assert TunAt(rest, i - 1);
          assert ContainsTun(rest);
        } else {
          assert key[..3] == key[0..3];
        }
        assert ContainsTun(key);
      }
    }
  }

  /** Attributes treated as identifiers: the name contains "tun", or is `vtj_prt` or `posno`. */
  predicate IsIdentifierKey(key: string) {
    ContainsTun(key) || key == "vtj_prt" || key == "posno"
  }

  /** Python's `int(x)` on a float: truncation toward zero. */
  function Trunc(x: real): (n: int)
    ensures 0.0 <= x ==> n as real <= x < n as real + 1.0
    ensures x < 0.0 ==> n as real - 1.0 < x <= n as real
  {
    if 0.0 <= x then x.Floor else -((-x).Floor)
  }

  /** numpy's `mod(x, 1)` on a float: the remainder takes the sign of the divisor, so it lies in [0, 1). */
  function Frac(x: real): (f: real)
    ensures 0.0 <= f < 1.0
    ensures (x - f).Floor as real == x - f
  {
    x - x.Floor as real
  }

  /** The local `value` once `float(value)` has run: None and non-numeric text unchanged, numeric text as the parsed float. */
  function Parsed(parse: NumParser, text: Text): Value {
    match text
    case None => VNone
    case Some(s) =>
      match parse(s)
      case None => VStr(s)
      case Some(x) => VNum(x)
  }

  /** What the try/except stores: a float within the tolerance above an integer becomes `int(x)`. */
  function Numeric(parse: NumParser, text: Text): Value {
    match Parsed(parse, text)
    case VNum(x) => if Frac(x) < IntTolerance then VInt(Trunc(x)) else VNum(x)
    case v => v
  }

  /** The stored value of one field, after the identifier override re-stores the local `value`. */
  function CoerceField(parse: NumParser, key: string, text: Text): Value {
    if IsIdentifierKey(key) then Parsed(parse, text) else Numeric(parse, text)
  }

  /** The record built from a field map: every field coerced, none dropped, none added. */
  function Coerced(parse: NumParser, fields: Fields): (p: Property)
  {
    map k | k in fields :: CoerceField(parse, k, fields[k])
  }

  /** `Property.__init__`: sets the attributes one field at a time. */
  method BuildProperty(parse: NumParser, fields: Fields) returns (p: Property)
    ensures p.Keys == fields.Keys
    ensures forall k :: k in fields ==> p[k] == CoerceField(parse, k, fields[k])
  {
    p := map[];
    var pending := fields.Keys;
    while pending != {}
      invariant pending <= fields.Keys
      invariant p.Keys == fields.Keys - pending
      invariant forall k :: k in p ==> p[k] == CoerceField(parse, k, fields[k])
      decreases pending
    {
      var key :| key in pending;
      var value := match fields[key] case None => VNone case Some(s) => VStr(s);
      match fields[key] {
        case None =>
          p := p[key := value];
        case Some(s) =>
          match parse(s) {
            case None =>
              p := p[key := value];
            case Some(x) =>
              value := VNum(x);
              if Frac(x) < IntTolerance {
                p := p[key := VInt(Trunc(x))];
              } else {
                p := p[key := value];
              }
          }
      }
      if IsIdentifierKey(key) {
        p := p[key := value];
      }
      pending := pending - {key};
    }
  }

  /** Absent text and text that is not a number are stored verbatim, whatever the key. */
  lemma CoerceVerbatim(parse: NumParser, key: string, text: Text)
    requires text.None? || parse(text.value).None?
    ensures CoerceField(parse, key, text) == if text.None? then VNone else VStr(text.value)
  {
  }

  /**
   * For an ordinary key, a parsed number `x` is stored as `int(x)` exactly when its
   * fractional part is below the tolerance, and otherwise unchanged. For x >= 0 the
   * stored integer is within the tolerance below x; for a negative non-integer it is
   * truncated toward zero, one above the integer x lies just above.
   */
  lemma CoerceNumber(parse: NumParser, key: string, s: string, x: real)
    requires !IsIdentifierKey(key) && parse(s) == Some(x)
    ensures CoerceField(parse, key, Some(s)).VInt? <==> x - x.Floor as real < IntTolerance
    ensures !CoerceField(parse, key, Some(s)).VInt? ==> CoerceField(parse, key, Some(s)) == VNum(x)
    ensures CoerceField(parse, key, Some(s)).VInt? && 0.0 <= x ==>
              0.0 <= x - CoerceField(parse, key, Some(s)).i as real < IntTolerance
    ensures CoerceField(parse, key, Some(s)).VInt? && x < 0.0 && x != x.Floor as real ==>
              CoerceField(parse, key, Some(s)).i == x.Floor + 1
  {
  }

  /** An identifier key is never truncated: it keeps the text, or the un-truncated parsed number. */
  lemma IdentifierNotTruncated(parse: NumParser, key: string, text: Text)
    requires IsIdentifierKey(key)
    ensures !CoerceField(parse, key, text).VInt?
    ensures text.Some? && parse(text.value).None? ==> CoerceField(parse, key, text) == VStr(text.value)
    ensures text.Some? && parse(text.value).Some? ==> CoerceField(parse, key, text) == VNum(parse(text.value).value)
  {
  }

  /**
   * An ordinary key never holds a float with an integral value, so two stored
   * values are equal in Python (where 81 == 81.0) exactly when they are equal here.
   */
  lemma OrdinaryFloatNotIntegral(parse: NumParser, key: string, text: Text)
    requires !IsIdentifierKey(key) && CoerceField(parse, key, text).VNum?
    ensures CoerceField(parse, key, text).x.Floor as real != CoerceField(parse, key, text).x
  {
    var x := CoerceField(parse, key, text).x;
    assert Frac(x) >= IntTolerance;
  }

  /** `Property.address`: the street `katu` and number `osno1`, None for whichever is missing. */
  function Address(p: Property): (a: (Value, Value))
    ensures a.0 == (if "katu" in p then p["katu"] else VNone)
    ensures a.1 == (if "osno1" in p then p["osno1"] else VNone)
  {
    if "katu" in p && "osno1" in p then (p["katu"], p["osno1"])
    else if "katu" in p then (p["katu"], VNone)
    else if "osno1" in p then (VNone, p["osno1"])
    else (VNone, VNone)
  }

  /** `katu` and `osno1` are ordinary fields, `vtj_prt` an identifier. */
  lemma AddressFieldsOrdinary()
    ensures !IsIdentifierKey("katu") && !IsIdentifierKey("osno1") && IsIdentifierKey("vtj_prt")
  {
    assert "katu"[..3] == "kat" && "katu"[1..] == "atu";
    assert "atu"[..3] == "atu" && "atu"[1..] == "tu";
    assert "osno1"[..3] == "osn" && "osno1"[1..] == "sno1";
    assert "sno1"[..3] == "sno" && "sno1"[1..] == "no1";
    assert "no1"[..3] == "no1" && "no1"[1..] == "o1";
  }

  /**
   * A numeric-looking identifier is stored as the parsed float, not as its text:
   * `{"vtj_prt": "123", "katu": "Mannerheimintie", "osno1": "81.0000003"}` gives
   * `vtj_prt` the float 123.0, `osno1` the int 81, and the address (Mannerheimintie, 81).
   */
  lemma MannerheimintieRecord(parse: NumParser)
    requires parse("123") == Some(123.0)
    requires parse("Mannerheimintie") == None
    requires parse("81.0000003") == Some(81.0000003)
    ensures var p := Coerced(parse, map["vtj_prt" := Some("123"), "katu" := Some("Mannerheimintie"), "osno1" := Some("81.0000003")]);
      && p["vtj_prt"] == VNum(123.0) && p["vtj_prt"] != VStr("123")
      && p["osno1"] == VInt(81)
      && Address(p) == (VStr("Mannerheimintie"), VInt(81))
  {
    var fields := map["vtj_prt" := Some("123"), "katu" := Some("Mannerheimintie"), "osno1" := Some("81.0000003")];
    MannerheimintieFields(parse);
    var p := Coerced(parse, fields);
    assert fields["vtj_prt"] == Some("123") && fields["katu"] == Some("Mannerheimintie") && fields["osno1"] == Some("81.0000003");
    assert p["vtj_prt"] == CoerceField(parse, "vtj_prt", Some("123"));
    assert p["katu"] == CoerceField(parse, "katu", Some("Mannerheimintie"));
    assert p["osno1"] == CoerceField(parse, "osno1", Some("81.0000003"));
  }

  /** The three fields of that record, one at a time. */
  lemma MannerheimintieFields(parse: NumParser)
    requires parse("123") == Some(123.0)
    requires parse("Mannerheimintie") == None
    requires parse("81.0000003") == Some(81.0000003)
    ensures CoerceField(parse, "osno1", Some("81.0000003")) == VInt(81)
    ensures CoerceField(parse, "katu", Some("Mannerheimintie")) == VStr("Mannerheimintie")
    ensures CoerceField(parse, "vtj_prt", Some("123")) == VNum(123.0)
  {
    AddressFieldsOrdinary();
    assert Frac(81.0000003) == 0.0000003;
  }
}
