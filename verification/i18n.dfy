/**
 * The translation manager (`I18nManager`): the active language, its choice at
 * start-up, and `t`, which walks a dotted key through the locale tree and
 * fills `{name}` placeholders. The locale data is a parameter.
 */
module I18n {
  import opened Common
  import opened Strings
  import opened JsNumbers

  /**
   * A value a key can reach: the locale data (a text or an object of named
   * children), the `length` of a text, or a member inherited from
   * `Object.prototype`, which is a function.
   */
  datatype Json = Leaf(text: string) | Node(children: map<string, Json>) | Num(value: nat) | Inherited(name: string)

  /** The result of `t`: a text, any other value returned as is, or a call that throws. */
  datatype Translation = Text(text: string) | NonText(value: Json) | Throws

  datatype State = State(lang: string)

  /** How far a walk along the key's segments gets. */
  datatype Walked = Reached(value: Json) | MissingSegment

  /**
   * `current[k]`, None for `undefined`. An object yields its own child, else
   * an inherited member. A text yields its `length`, or the one-character
   * text at an index below its length, written in canonical decimal form.
   */
  function Step(j: Json, k: string): (r: Option<Json>)
    ensures j.Node? && k in j.children ==> r == Some(j.children[k])
    ensures j.Node? && k !in j.children ==> r == if k in InheritedNames then Some(Inherited(k)) else None
    ensures j.Leaf? ==> (r.Some? <==> k == "length" || (CanonicalDigits(k) && DigitsValue(k, 10) < |j.text|))
    ensures j.Leaf? && k == "length" ==> r == Some(Num(|j.text|))
    ensures j.Leaf? && CanonicalDigits(k) && DigitsValue(k, 10) < |j.text| ==> r == Some(Leaf([j.text[DigitsValue(k, 10)]]))
    ensures j.Num? || j.Inherited? ==> r.None?
  {
    match j
    case Node(m) => if k in m then Some(m[k]) else if k in InheritedNames then Some(Inherited(k)) else None
    case Leaf(t) =>
      if k == "length" then Some(Num(|t|))
      else if CanonicalDigits(k) && DigitsValue(k, 10) < |t| then Some(Leaf([t[DigitsValue(k, 10)]]))
      else None
    case Num(_) => None
    case Inherited(_) => None
  }

  /** Follows `keys` from `j`; a segment that reads `undefined` stops the walk. */
  function Walk(j: Json, keys: seq<string>): (r: Walked)
    decreases |keys|
    ensures |keys| == 0 ==> r == Reached(j)
  {
    if |keys| == 0 then Reached(j)
    else match Step(j, keys[0])
      case None => MissingSegment
      case Some(v) => Walk(v, keys[1..])
  }

  /** Walking a path in two pieces is walking the first piece, then the second from where it ended. */
  lemma {:induction false} WalkAppend(j: Json, a: seq<string>, b: seq<string>)
    ensures Walk(j, a + b) == match Walk(j, a) case MissingSegment => MissingSegment case Reached(v) => Walk(v, b)
    decreases |a|
  {
    if |a| > 0 {
      assert (a + b)[0] == a[0] && (a + b)[1..] == a[1..] + b;
      match Step(j, a[0])
      case None =>
      case Some(v) => WalkAppend(v, a[1..], b);
    } else {
      assert a + b == b;
    }
  }

  /** Fills the placeholders in order: each `{name}` is replaced at its first occurrence only. */
  function Substitute(text: string, vars: seq<(string, string)>): (r: string)
    decreases |vars|
    ensures |vars| == 0 ==> r == text
  {
    if |vars| == 0 then text
    else Substitute(ReplaceFirst(text, "{" + vars[0].0 + "}", vars[0].1), vars[1..])
  }

  /** One variable: exactly `text.replace('{name}', value)`; a second `{name}` keeps its placeholder. */
  lemma SubstituteOne(text: string, name: string, value: string)
    requires Contains(text, "{" + name + "}") && '$' !in value
    ensures var p := "{" + name + "}";
      var i := IndexOf(text, p).value;
      Substitute(text, [(name, value)]) == text[..i] + value + text[i + |p|..]
  {
    ReplaceFirstOnlyFirst(text, "{" + name + "}", value);
  }

  /** A variable whose placeholder the text does not hold leaves the text as it is. */
  lemma SubstituteAbsent(text: string, name: string, value: string)
    requires !Contains(text, "{" + name + "}")
    ensures Substitute(text, [(name, value)]) == text
  {
    ContainsIff(text, "{" + name + "}");
    ReplaceFirstAbsent(text, "{" + name + "}", value);
  }

  /**
   * `localesData[lang]`: the locale of a known language, an inherited member
   * for a name such as "toString", else None for `undefined`.
   */
  function Root(locales: map<string, Json>, lang: string): (r: Option<Json>)
    ensures lang in locales ==> r == Some(locales[lang])
    ensures lang !in locales ==> (r.Some? <==> lang in InheritedNames)
    ensures lang !in locales && lang in InheritedNames ==> r == Some(Inherited(lang))
  {
    if lang in locales then Some(locales[lang])
    else if lang in InheritedNames then Some(Inherited(lang))
    else None
  }

  /**
   * `t(key, vars)` in the language of `s`. An unknown language throws, as its
   * first lookup reads a property of `undefined`; a value other than a text
   * throws once a variable is to be filled in, as it has no `replace`.
   */
  function Translate(locales: map<string, Json>, s: State, key: string, vars: seq<(string, string)>): (r: Translation)
    ensures Root(locales, s.lang).None? ==> r == Throws
    ensures Root(locales, s.lang).Some? && Walk(Root(locales, s.lang).value, Split(key, '.')) == MissingSegment ==>
      r == Text(key)
    ensures Root(locales, s.lang).Some? && Walk(Root(locales, s.lang).value, Split(key, '.')).Reached? ==>
      var v := Walk(Root(locales, s.lang).value, Split(key, '.')).value;
      && (v.Leaf? ==> r == Text(Substitute(v.text, vars)))
      && (v.Leaf? && |vars| == 0 ==> r == Text(v.text))
      && (!v.Leaf? ==> r == if |vars| == 0 then NonText(v) else Throws)
    ensures r.Text? && r.text != key ==> Root(locales, s.lang).Some? && Walk(Root(locales, s.lang).value, Split(key, '.')).Reached?
  {
    match Root(locales, s.lang)
    case None => Throws
    case Some(root) =>
      match Walk(root, Split(key, '.'))
      case MissingSegment => Text(key)
      case Reached(Leaf(t)) => Text(Substitute(t, vars))
      case Reached(v) => if |vars| == 0 then NonText(v) else Throws
  }

  /**
   * A key written as the segments of a path, joined by '.', resolves by
   * walking that path; without variables the text comes back unchanged.
   */
  lemma DottedKeyFollowsPath(locales: map<string, Json>, s: State, path: seq<string>, text: string)
    requires |path| >= 1 && forall i :: 0 <= i < |path| ==> '.' !in path[i]
    requires s.lang in locales && Walk(locales[s.lang], path) == Reached(Leaf(text))
    ensures Translate(locales, s, Join(path, "."), []) == Text(text)
  {
    SplitJoin(path, '.');
    assert Split(Join(path, "."), '.') == path;
    assert Root(locales, s.lang) == Some(locales[s.lang]);
  }

  /** The segments of `path` followed by those of `more` have no '.' in them. */
  lemma NoDotsAppend(path: seq<string>, more: seq<string>)
    requires forall i :: 0 <= i < |path| ==> '.' !in path[i]
    requires forall i :: 0 <= i < |more| ==> '.' !in more[i]
    ensures forall i :: 0 <= i < |path + more| ==> '.' !in (path + more)[i]
  {
    forall i | 0 <= i < |path + more|
      ensures '.' !in (path + more)[i]
    {
      if i >= |path| { assert (path + more)[i] == more[i - |path|]; }
    }
  }

  /**
   * A key whose first segments lead to a text can only go on with `length` or
   * an index into the text: any other segment gives back the key.
   */
  lemma PastLeafGivesKey(locales: map<string, Json>, s: State, path: seq<string>, more: seq<string>, text: string)
    requires |path| >= 1 && |more| >= 1
    requires forall i :: 0 <= i < |path| ==> '.' !in path[i]
    requires forall i :: 0 <= i < |more| ==> '.' !in more[i]
    requires more[0] != "length" && !(CanonicalDigits(more[0]) && DigitsValue(more[0], 10) < |text|)
    requires s.lang in locales && Walk(locales[s.lang], path) == Reached(Leaf(text))
    ensures var key := Join(path + more, "."); Translate(locales, s, key, []) == Text(key)
  {
    NoDotsAppend(path, more);
    SplitJoin(path + more, '.');
    WalkAppend(locales[s.lang], path, more);
  }

  /** A key that goes one segment past a text resolves by one `Step` from that text. */
  lemma OneStepPastText(locales: map<string, Json>, s: State, path: seq<string>, text: string, k: string)
    requires |path| >= 1 && forall i :: 0 <= i < |path| ==> '.' !in path[i]
    requires '.' !in k
    requires s.lang in locales && Walk(locales[s.lang], path) == Reached(Leaf(text))
    ensures var key := Join(path + [k], ".");
      Translate(locales, s, key, []) == match Step(Leaf(text), k)
        case None => Text(key)
        case Some(Leaf(t)) => Text(t)
        case Some(v) => NonText(v)
  {
    NoDotsAppend(path, [k]);
    SplitJoin(path + [k], '.');
    assert Root(locales, s.lang) == Some(locales[s.lang]);
    WalkAppend(locales[s.lang], path, [k]);
    assert Walk(Leaf(text), [k]) == match Step(Leaf(text), k) case None => MissingSegment case Some(v) => Reached(v);
  }

  /** Past a text, an index segment gives the character at that position. */
  lemma IndexIntoText(locales: map<string, Json>, s: State, path: seq<string>, text: string, i: nat)
    requires |path| >= 1 && forall k :: 0 <= k < |path| ==> '.' !in path[k]
    requires s.lang in locales && Walk(locales[s.lang], path) == Reached(Leaf(text))
    requires i < |text|
    ensures Translate(locales, s, Join(path + [NatToString(i)], "."), []) == Text([text[i]])
  {
    var k := NatToString(i);
    RenderedCanonical(i);
    assert '.' !in k;
    OneStepPastText(locales, s, path, text, k);
  }

  lemma LengthHasNoDot()
    ensures '.' !in "length"
  {
    var k := "length";
    assert k == ['l', 'e', 'n', 'g', 't', 'h'];
  }

  /** Past a text, the segment "length" gives its length, a number. */
  lemma LengthOfText(locales: map<string, Json>, s: State, path: seq<string>, text: string)
    requires |path| >= 1 && forall k :: 0 <= k < |path| ==> '.' !in path[k]
    requires s.lang in locales && Walk(locales[s.lang], path) == Reached(Leaf(text))
    ensures Translate(locales, s, Join(path + ["length"], "."), []) == NonText(Num(|text|))
  {
    LengthHasNoDot();
    OneStepPastText(locales, s, path, text, "length");
  }

  /** `setLang`: the new language is used from then on. */
  function SetLang(s: State, newLang: string): (r: State)
    ensures r.lang == newLang
  {
    State(newLang)
  }

  /**
   * The language at start-up: the saved language when `localesData[saved]`
   * is truthy, else the primary subtag of the browser language when that is,
   * else "en". Outside a browser it is always "en". A name every object
   * inherits, such as "toString", passes the test too.
   */
  function InitialLang(locales: map<string, Json>, hasWindow: bool, saved: Option<string>, browserLang: string): (r: State)
    ensures !hasWindow ==> r.lang == "en"
    ensures hasWindow && Truthy(saved) && Root(locales, saved.value).Some? ==> r.lang == saved.value
    ensures hasWindow && !(Truthy(saved) && Root(locales, saved.value).Some?) ==>
      r.lang == (if Root(locales, Split(browserLang, '-')[0]).Some? then Split(browserLang, '-')[0] else "en")
    ensures r.lang in locales || r.lang in InheritedNames || r.lang == "en"
    ensures r.lang != "en" ==> '-' !in r.lang || r.lang == saved.value
  {
    if !hasWindow then State("en")
    else if Truthy(saved) && Root(locales, saved.value).Some? then State(saved.value)
    else
      var primary := Split(browserLang, '-')[0];
      if Root(locales, primary).Some? then State(primary) else State("en")
  }

  /** A browser language "xx-YY" selects "xx" when no saved language applies. */
  lemma BrowserSubtag(locales: map<string, Json>, primary: string, region: string)
    requires '-' !in primary && '-' !in region && primary in locales
    ensures InitialLang(locales, true, None, primary + "-" + region).lang == primary
  {
    SplitJoin([primary, region], '-');
    assert Join([primary, region], "-") == primary + "-" + region;
  }
}
