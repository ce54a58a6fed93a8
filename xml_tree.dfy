/**
 * The parsed XML feature document and its flattening into terminal groups
 * (HSYdatabase.xmltodict in hsyclass.py).
 */
module XmlTree {
  import opened Wrappers

  /** The text of an element: a string, or None for an element without text. */
  type Text = Option<string>

  /** One element of an already-parsed document: its qualified tag, its text and its sub-elements. */
  datatype Node = Node(tag: string, text: Text, children: seq<Node>)

  /** What flattening sees at each child it visits. */
  datatype Item =
    | Group(fields: map<string, Text>)  // a terminal group, turned into its field map
    | Bare                              // a child without sub-elements: `child[0]` raises

  /**
   * The field name of a tag: the part after its last '}', i.e. the tag with
   * any `{namespace}` prefix removed (the whole tag when it has no '}').
   */
  function TagName(tag: string): (name: string)
    ensures |name| <= |tag| && name == tag[|tag| - |name|..]
    ensures '}' !in name
    ensures |name| < |tag| ==> tag[|tag| - |name| - 1] == '}'
  {
    if |tag| == 0 then ""
    else if tag[|tag| - 1] == '}' then ""
    else
      var init := tag[..|tag| - 1];
      var name := TagName(init) + [tag[|tag| - 1]];
      assert tag[|tag| - |name|..] == init[|init| - |name| + 1..] + [tag[|tag| - 1]];
      name
  }

  /** The field name of an element. */
  function Name(item: Node): string {
    TagName(item.tag)
  }

  /** The map built by entering `entries` in order, a later entry overwriting an earlier one with the same key. */
  function MapOf<K, V>(entries: seq<(K, V)>): map<K, V> {
    if entries == [] then map[]
    else
      var last := entries[|entries| - 1];
      MapOf(entries[..|entries| - 1])[last.0 := last.1]
  }

  /** Entering one more entry updates the map at that entry's key. */
  lemma MapOfPrefix<K, V>(entries: seq<(K, V)>, i: nat)
    requires i < |entries|
    ensures MapOf(entries[..i + 1]) == MapOf(entries[..i])[entries[i].0 := entries[i].1]
  {
    assert entries[..i + 1][..i] == entries[..i];
  }

  /** The map holds exactly the keys of the entries. */
  lemma {:induction false} MapOfKeys<K, V>(entries: seq<(K, V)>, k: K)
    ensures k in MapOf(entries) <==> exists i :: 0 <= i < |entries| && entries[i].0 == k
  {
    if entries != [] {
      var init := entries[..|entries| - 1];
      MapOfKeys(init, k);
      if k in MapOf(entries) && k != entries[|entries| - 1].0 {
        var i :| 0 <= i < |init| && init[i].0 == k;
        assert entries[i] == init[i];
      }
      if i :| 0 <= i < |entries| && entries[i].0 == k {
        if i < |init| {
          assert init[i] == entries[i];
        }
      }
    }
  }

  /** Each key holds the value of the LAST entry with that key. */
  lemma {:induction false} MapOfLastWins<K, V>(entries: seq<(K, V)>, i: nat)
    requires i < |entries|
    requires forall j :: i < j < |entries| ==> entries[j].0 != entries[i].0
    ensures entries[i].0 in MapOf(entries) && MapOf(entries)[entries[i].0] == entries[i].1
  {
    if i < |entries| - 1 {
      var init := entries[..|entries| - 1];
      assert entries[i] == init[i];
      forall j | i < j < |init| ensures init[j].0 != init[i].0 {
        assert init[j] == entries[j];
      }
      MapOfLastWins(init, i);
    }
  }

  /** The (field name, text) pair of each item, in document order. */
  function Entries(items: seq<Node>): (entries: seq<(string, Text)>)
    ensures |entries| == |items|
    ensures forall i :: 0 <= i < |items| ==> entries[i] == (Name(items[i]), items[i].text)
  {
    seq(|items|, i requires 0 <= i < |items| => (Name(items[i]), items[i].text))
  }

  /** The field map of a terminal group: items entered in document order, a later item overwriting an earlier one of the same name. */
  function FieldsOf(items: seq<Node>): map<string, Text> {
    MapOf(Entries(items))
  }

  /** Entering one more item updates the field map at that item's name. */
  lemma FieldsOfPrefix(items: seq<Node>, i: nat)
    requires i < |items|
    ensures FieldsOf(items[..i + 1]) == FieldsOf(items[..i])[Name(items[i]) := items[i].text]
  {
    var e := Entries(items);
    assert Entries(items[..i + 1]) == e[..i + 1];
    assert Entries(items[..i]) == e[..i];
    MapOfPrefix(e, i);
  }

  /**
   * What one child of a node contributes: a child without sub-elements is an
   * error; a child whose first sub-element has sub-elements of its own is
   * descended into; any other child is one terminal group.
   */
  function Contribution(child: Node): seq<Item>
    decreases child, |child.children| + 2
  {
    if |child.children| == 0 then [Bare]
    else if |child.children[0].children| != 0 then FlattenFrom(child, 0)
    else [Group(FieldsOf(child.children))]
  }

  /** The items of the children of `node` from index `i` on, in document order. */
  function FlattenFrom(node: Node, i: nat): seq<Item>
    requires i <= |node.children|
    decreases node, |node.children| - i + 1
  {
    if i == |node.children| then []
    else Contribution(node.children[i]) + FlattenFrom(node, i + 1)
  }

  /** All items of a document, in pre-order. */
  function Flatten(root: Node): seq<Item> {
    FlattenFrom(root, 0)
  }

  lemma {:induction false} FlattenFromAppend(tag: string, text: Text, a: seq<Node>, b: seq<Node>, i: nat)
    requires i <= |a|
    ensures FlattenFrom(Node(tag, text, a + b), i) == FlattenFrom(Node(tag, text, a), i) + FlattenFrom(Node(tag, text, b), 0)
    decreases |a| - i
  {
    if i == |a| {
      FlattenFromSuffix(tag, text, a, b, 0);
    } else {
      assert (a + b)[i] == a[i];
      FlattenFromAppend(tag, text, a, b, i + 1);
    }
  }

  lemma {:induction false} FlattenFromSuffix(tag: string, text: Text, a: seq<Node>, b: seq<Node>, j: nat)
    requires j <= |b|
    ensures FlattenFrom(Node(tag, text, a + b), |a| + j) == FlattenFrom(Node(tag, text, b), j)
    decreases |b| - j
  {
    if j < |b| {
      assert (a + b)[|a| + j] == b[j];
      FlattenFromSuffix(tag, text, a, b, j + 1);
    }
  }

  /** Document order: the items of earlier children come before those of later children. */
  lemma FlattenAppend(tag: string, text: Text, a: seq<Node>, b: seq<Node>)
    ensures Flatten(Node(tag, text, a + b)) == Flatten(Node(tag, text, a)) + Flatten(Node(tag, text, b))
  {
    FlattenFromAppend(tag, text, a, b, 0);
  }
}
