/**
 * The assistant's key/value memory (`AiMemory`), a plain object. The record
 * is a list of own properties with distinct keys, in the order the keys were
 * first set; values are kept as the text they print as. Reading a key the
 * object does not own falls through to `Object.prototype`. Listing follows the
 * ECMAScript property order: array-index keys first, in ascending numeric
 * order, then the other keys in the order they were created. Loading from
 * and saving to `localStorage` is not modelled.
 */
module Memory {
  import opened Common
  import opened Strings
  import opened Seqs
  import opened JsNumbers

  type Entries = seq<(string, string)>

  predicate HasKey(m: Entries, key: string) {
    exists i :: 0 <= i < |m| && m[i].0 == key
  }

  predicate KeysDistinct(m: Entries) {
    forall i, j :: 0 <= i < j < |m| ==> m[i].0 != m[j].0
  }

  /** The value of the own property `key`, if the object has one. */
  function Own(m: Entries, key: string): (r: Option<string>)
    decreases |m|
    ensures r.Some? <==> HasKey(m, key)
    ensures r.Some? ==> exists i :: 0 <= i < |m| && m[i] == (key, r.value)
  {
    if |m| == 0 then None
    else if m[0].0 == key then Some(m[0].1)
    else
      var r := Own(m[1..], key);
      assert forall i :: 1 <= i < |m| ==> m[1..][i - 1] == m[i];
      r
  }

  /** What `data[key]` reads: an own value, a member inherited from `Object.prototype`, or `undefined`. */
  datatype Lookup = Stored(value: string) | Inherited(name: string) | Undefined

  /** `get(key)`. */
  function Get(m: Entries, key: string): (r: Lookup)
    ensures r.Stored? <==> HasKey(m, key)
    ensures r.Stored? ==> exists i :: 0 <= i < |m| && m[i] == (key, r.value)
    ensures r.Inherited? <==> !HasKey(m, key) && key in InheritedNames
    ensures r.Inherited? ==> r.name == key
  {
    match Own(m, key)
    case Some(v) => Stored(v)
    case None => if key in InheritedNames then Inherited(key) else Undefined
  }

  /** Assigning an own property: an existing key keeps its place and takes the new value; a new key goes last. */
  function Put(m: Entries, key: string, value: string): (r: Entries)
    decreases |m|
    ensures Own(r, key) == Some(value)
    ensures |r| == if HasKey(m, key) then |m| else |m| + 1
    ensures !HasKey(m, key) ==> r == m + [(key, value)]
  {
    if |m| == 0 then [(key, value)]
    else if m[0].0 == key then [(key, value)] + m[1..]
    else
      var rest := Put(m[1..], key, value);
      var r := [m[0]] + rest;
      assert r[1..] == rest;
      assert [m[0]] + (m[1..] + [(key, value)]) == ([m[0]] + m[1..]) + [(key, value)];
      assert [m[0]] + m[1..] == m;
      r
  }

  /**
   * `set(key, value)`: `data[key] = value`. Without an own `__proto__`, the
   * assignment reaches the inherited `__proto__` setter, which ignores a value
   * that is not an object, so nothing changes.
   */
  function Set(m: Entries, key: string, value: string): (r: Entries)
    ensures key != "__proto__" || HasKey(m, key) ==> Get(r, key) == Stored(value)
    ensures key == "__proto__" && !HasKey(m, key) ==> r == m
    ensures key != "__proto__" && !HasKey(m, key) ==> r == m + [(key, value)]
    ensures HasKey(m, key) ==> |r| == |m|
  {
    if key == "__proto__" && !HasKey(m, key) then m else Put(m, key, value)
  }

  /** `set` keeps every key in its place. */
  lemma {:induction false} PutKeepsKeys(m: Entries, key: string, value: string)
    ensures forall i :: 0 <= i < |m| ==> Put(m, key, value)[i].0 == m[i].0
    decreases |m|
  {
    if |m| > 0 && m[0].0 != key {
      PutKeepsKeys(m[1..], key, value);
      var r := Put(m, key, value);
      assert forall i :: 1 <= i < |m| ==> r[i] == Put(m[1..], key, value)[i - 1] && m[i] == m[1..][i - 1];
    }
  }

  /** `set` keeps every stored key in its place, the order in which the non-index keys are listed. */
  lemma SetKeepsKeys(m: Entries, key: string, value: string)
    ensures forall i :: 0 <= i < |m| ==> Set(m, key, value)[i].0 == m[i].0
  {
    PutKeepsKeys(m, key, value);
  }

  /** Assigning leaves every other key's own value as it was. */
  lemma {:induction false} PutKeepsOthers(m: Entries, key: string, value: string, k: string)
    requires k != key
    ensures Own(Put(m, key, value), k) == Own(m, k)
    decreases |m|
  {
    if |m| > 0 && m[0].0 != key {
      PutKeepsOthers(m[1..], key, value, k);
    }
  }

  /** `set` leaves what every other key reads as it was. */
  lemma SetKeepsOthers(m: Entries, key: string, value: string, k: string)
    requires k != key
    ensures Get(Set(m, key, value), k) == Get(m, k)
  {
    PutKeepsOthers(m, key, value, k);
  }

  /** Keys stay distinct under `set`, as an object's property names do. */
  lemma SetKeepsDistinct(m: Entries, key: string, value: string)
    requires KeysDistinct(m)
    ensures KeysDistinct(Set(m, key, value))
  {
    var r := Set(m, key, value);
    PutKeepsKeys(m, key, value);
    if !HasKey(m, key) && key != "__proto__" {
      forall i, j | 0 <= i < j < |r|
        ensures r[i].0 != r[j].0
      {
        if j == |m| {
          assert r[i] == m[i];
        } else {
          assert r[i] == m[i] && r[j] == m[j];
        }
      }
    }
  }

  /* ---------- listing ---------- */

  predicate IndexEntry(e: (string, string)) {
    IsArrayIndex(e.0)
  }

  predicate NamedEntry(e: (string, string)) {
    !IsArrayIndex(e.0)
  }

  /** Sorting by this key, largest first, puts index keys in ascending numeric order. */
  function IndexRank(e: (string, string)): int {
    if IsArrayIndex(e.0) then -(DigitsValue(e.0, 10) as int) else 0
  }

  /** The order `Object.entries` lists own properties in: index keys sorted by value, then the rest. */
  function Listing(m: Entries): Entries {
    PassFirst(m, IndexEntry, NamedEntry, IndexRank)
  }

  /**
   * `Listing` is the ECMAScript property order: a permutation of the entries
   * in which index keys come first, in ascending numeric order, and the other
   * keys keep their creation order.
   */
  lemma ListingOrder(m: Entries)
    ensures |Listing(m)| == |m| && multiset(Listing(m)) == multiset(m)
    ensures forall i, j :: 0 <= i < j < |Listing(m)| && IsArrayIndex(Listing(m)[j].0) ==> IsArrayIndex(Listing(m)[i].0)
    ensures forall i, j :: 0 <= i < j < |Listing(m)| && IsArrayIndex(Listing(m)[i].0) && IsArrayIndex(Listing(m)[j].0) ==>
      DigitsValue(Listing(m)[i].0, 10) <= DigitsValue(Listing(m)[j].0, 10)
    ensures Filter(Listing(m), NamedEntry) == Filter(m, NamedEntry)
  {
    PassFirstPermutes(m, IndexEntry, NamedEntry, IndexRank);
    PassFirstOrder(m, IndexEntry, NamedEntry, IndexRank);
    PassFirstKeepsRest(m, IndexEntry, NamedEntry, IndexRank);
    var l := Listing(m);
    forall i, j | 0 <= i < j < |l| && IsArrayIndex(l[i].0) && IsArrayIndex(l[j].0)
      ensures DigitsValue(l[i].0, 10) <= DigitsValue(l[j].0, 10)
    {
      assert IndexEntry(l[j]);
      assert IndexRank(l[i]) >= IndexRank(l[j]);
    }
  }

  /** Each entry printed as "key: value". */
  function Render(m: Entries): (r: seq<string>)
    ensures |r| == |m| && forall i :: 0 <= i < |m| ==> r[i] == m[i].0 + ": " + m[i].1
  {
    seq(|m|, i requires 0 <= i < |m| => m[i].0 + ": " + m[i].1)
  }

  /** Rendering an appended entry appends its "key: value" line. */
  lemma RenderSnoc(m: Entries, e: (string, string))
    ensures Render(m + [e]) == Render(m) + [e.0 + ": " + e.1]
  {
    var a := Render(m + [e]);
    var b := Render(m) + [e.0 + ": " + e.1];
    assert |a| == |b|;
    forall i | 0 <= i < |a|
      ensures a[i] == b[i]
    {
      if i < |m| {
        assert (m + [e])[i] == m[i];
      }
    }
  }

  /** `getAll()`: the entries in listing order, printed as "key: value" and joined by " | ". */
  function GetAll(m: Entries): (r: string)
    ensures |m| == 0 ==> r == ""
    ensures |m| == 1 ==> r == m[0].0 + ": " + m[0].1
  {
    var l := Listing(m);
    PassFirstPermutes(m, IndexEntry, NamedEntry, IndexRank);
    if |m| == 1 then
      assert l[0] in multiset(m);
      Join(Render(l), " | ")
    else Join(Render(l), " | ")
  }

  /** Without index keys, the listing is the insertion order. */
  lemma ListingOfNamed(m: Entries)
    requires forall i :: 0 <= i < |m| ==> !IsArrayIndex(m[i].0)
    ensures Listing(m) == m
  {
    FilterDropsAll(m, IndexEntry);
    FilterKeepsAll(m, NamedEntry);
    assert Filter(m, IndexEntry) == [];
  }

  /** An entry whose key is not an array index is listed after everything already there. */
  lemma ListingSnocNamed(m: Entries, e: (string, string))
    requires !IsArrayIndex(e.0)
    ensures Listing(m + [e]) == Listing(m) + [e]
  {
    PassFirstSnocRest(m, e, IndexEntry, NamedEntry, IndexRank);
  }

  /** Setting a new key that is not an array index adds its entry at the end of the listing. */
  lemma GetAllAfterNewKey(m: Entries, key: string, value: string)
    requires |m| > 0 && !HasKey(m, key)
    requires !IsArrayIndex(key) && key != "__proto__"
    ensures GetAll(Set(m, key, value)) == GetAll(m) + " | " + (key + ": " + value)
  {
    var e := (key, value);
    var line := key + ": " + value;
    assert Set(m, key, value) == m + [e];
    ListingSnocNamed(m, e);
    RenderSnoc(Listing(m), e);
    JoinSnoc(Render(Listing(m)), line, " | ");
  }

  /** A new array-index key is listed before every key of a memory that has none. */
  lemma IndexKeyGoesFirst(m: Entries, key: string, value: string)
    requires forall i :: 0 <= i < |m| ==> !IsArrayIndex(m[i].0)
    requires IsArrayIndex(key) && !HasKey(m, key)
    ensures Listing(Set(m, key, value)) == [(key, value)] + m
  {
    var e := (key, value);
    assert key != "__proto__";
    assert Set(m, key, value) == m + [e];
    assert Filter(m + [e], IndexEntry) == [e] by {
      FilterAppend(m, [e], IndexEntry);
      FilterDropsAll(m, IndexEntry);
      assert Filter([e], IndexEntry) == [e];
    }
    assert Filter(m + [e], NamedEntry) == m by {
      FilterAppend(m, [e], NamedEntry);
      FilterKeepsAll(m, NamedEntry);
      assert Filter([e], NamedEntry) == [];
    }
    assert SortDesc([e], IndexRank) == [e] by {
      var sorted := SortDesc([e], IndexRank);
      assert sorted[0] in multiset([e]);
    }
  }

  /** "7" is an array index and "name" is not. */
  lemma SevenAndName()
    ensures IsArrayIndex("7") && !IsArrayIndex("name")
  {
    assert DigitValue('n', 10).None?;
    assert DigitValue('7', 10) == Some(7);
    assert "7"[..0] == [];
  }

  /** The two entries rendered and joined. */
  lemma SevenAndNameText()
    ensures Join(Render([("7", "y"), ("name", "x")]), " | ") == "7: y | name: x"
  {
    var l := [("7", "y"), ("name", "x")];
    var a := "7" + ": " + "y";
    var b := "name" + ": " + "x";
    assert Render(l) == [a, b];
  }

  /** A key set later but numeric is listed first: "name" then "7" lists as "7: y | name: x". */
  lemma IndexKeyListedFirstExample()
    ensures GetAll(Set([("name", "x")], "7", "y")) == "7: y | name: x"
  {
    var m := [("name", "x")];
    SevenAndName();
    assert !HasKey(m, "7");
    IndexKeyGoesFirst(m, "7", "y");
    assert [("7", "y")] + m == [("7", "y"), ("name", "x")];
    SevenAndNameText();
  }

  /** Setting a key that is already there leaves the size alone, and the last value wins. */
  lemma ResetKeepsShape(m: Entries, key: string, value: string, other: string)
    requires HasKey(m, key)
    ensures |Set(m, key, value)| == |m|
    ensures Get(Set(Set(m, key, other), key, value), key) == Stored(value)
  {
  }
}
