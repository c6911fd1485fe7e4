/**
 * The quote scraper (`scripts/scrape-quotes.js`): cleans each quote and
 * author found on the fetched pages, keeps quotes longer than ten characters,
 * and removes repeated texts, first occurrence first. The HTTP requests, the
 * delays between them and the file write are not modelled; the regular
 * expression that finds the quote containers is replaced by its matches,
 * given as input.
 */
module ScrapeQuotes {
  import opened Common
  import opened Strings
  import opened Seqs

  datatype Quote = Quote(text: string, author: string)

  /* ---------- text cleanup ---------- */

  /** The number of leading whitespace characters. */
  function SpaceRun(s: string): (r: nat)
    ensures r <= |s| && forall i :: 0 <= i < r ==> IsJsSpace(s[i])
    ensures r < |s| ==> !IsJsSpace(s[r])
    decreases |s|
  {
    if |s| > 0 && IsJsSpace(s[0]) then 1 + SpaceRun(s[1..]) else 0
  }

  /** The length of a match of `/<br\s*\/?>/i` at the start of `s`, if there is one. */
  function BrLength(s: string): (r: Option<nat>)
    ensures r.Some? ==> 4 <= r.value <= |s| && s[0] == '<' && s[r.value - 1] == '>'
  {
    if |s| >= 3 && s[0] == '<' && LowerChar(s[1]) == 'b' && LowerChar(s[2]) == 'r' then
      var w := SpaceRun(s[3..]);
      var rest := s[3 + w..];
      if |rest| >= 1 && rest[0] == '>' then Some(3 + w + 1)
      else if |rest| >= 2 && rest[0] == '/' && rest[1] == '>' then Some(3 + w + 2)
      else None
    else None
  }

  /** `.replace(/<br\s*\/?>/gi, ' ')`: every line break tag becomes one space. */
  function ReplaceBreaks(s: string): (r: string)
    decreases |s|
    ensures |r| <= |s|
    ensures (forall i :: 0 <= i < |s| ==> s[i] != '<') ==> r == s
  {
    if |s| == 0 then ""
    else match BrLength(s)
      case Some(n) => " " + ReplaceBreaks(s[n..])
      case None => [s[0]] + ReplaceBreaks(s[1..])
  }

  /**
   * `.replace(/<\/?[^>]+(>|$)/g, '')`: a '<' followed by anything but '>'
   * starts a tag, which runs to the next '>' or to the end of the text.
   */
  function StripTags(s: string): (r: string)
    decreases |s|
    ensures |r| <= |s|
    ensures forall i :: 0 <= i < |r| && r[i] == '<' ==> i + 1 == |r| || r[i + 1] == '>'
    ensures |s| > 0 && s[0] != '<' ==> |r| > 0 && r[0] == s[0]
    ensures '<' !in s ==> r == s
  {
    if |s| == 0 then ""
    else if |s| >= 2 && s[0] == '<' && s[1] != '>' then
      match IndexOf(s[1..], ">")
      case Some(k) => StripTags(s[k + 2..])
      case None => ""
    else
      var rest := StripTags(s[1..]);
      assert s[0] == '<' ==> |s| == 1 || s[1] == '>';
      [s[0]] + rest
  }

  /** `.replace(/&nbsp;/g, ' ')`. */
  function ReplaceNbsp(s: string): (r: string)
    decreases |s|
    ensures |r| <= |s|
    ensures '&' !in s ==> r == s
  {
    if |s| == 0 then ""
    else if "&nbsp;" <= s then
      assert s[0] == '&';
      " " + ReplaceNbsp(s[6..])
    else [s[0]] + ReplaceNbsp(s[1..])
  }

  /** No two whitespace characters in a row, and a plain space is the only whitespace used. */
  ghost predicate SingleSpaced(s: string) {
    && (forall i :: 0 <= i < |s| - 1 ==> !(IsJsSpace(s[i]) && IsJsSpace(s[i + 1])))
    && (forall i :: 0 <= i < |s| && IsJsSpace(s[i]) ==> s[i] == ' ')
  }

  /** `.replace(/\s+/g, ' ')`: every run of whitespace becomes one space. */
  function CollapseSpaces(s: string): (r: string)
    decreases |s|
    ensures |r| <= |s|
    ensures SingleSpaced(r)
    ensures |s| > 0 ==> |r| > 0 && (IsJsSpace(r[0]) <==> IsJsSpace(s[0]))
    ensures (forall i :: 0 <= i < |s| ==> !IsJsSpace(s[i])) ==> r == s
  {
    if |s| == 0 then ""
    else if IsJsSpace(s[0]) then
      var rest := TrimStart(s);
      " " + CollapseSpaces(rest)
    else [s[0]] + CollapseSpaces(s[1..])
  }

  /** A slice of a single-spaced text is single-spaced. */
  lemma SliceSingleSpaced(s: string, k: nat, n: nat)
    requires k + n <= |s| && SingleSpaced(s)
    ensures SingleSpaced(s[k..k + n])
  {
    var t := s[k..k + n];
    assert forall i :: 0 <= i < |t| ==> t[i] == s[k + i];
  }

  /** Trimming the front keeps a text single-spaced. */
  lemma {:induction false} TrimStartKeepsSpacing(s: string)
    requires SingleSpaced(s)
    ensures SingleSpaced(TrimStart(s))
    decreases |s|
  {
    if |s| > 0 && IsJsSpace(s[0]) {
      SliceSingleSpaced(s, 1, |s| - 1);
      assert s[1..|s|] == s[1..];
      TrimStartKeepsSpacing(s[1..]);
    }
  }

  /** Trimming the back keeps a text single-spaced. */
  lemma {:induction false} TrimEndKeepsSpacing(s: string)
    requires SingleSpaced(s)
    ensures SingleSpaced(TrimEnd(s))
    decreases |s|
  {
    if |s| > 0 && IsJsSpace(s[|s| - 1]) {
      SliceSingleSpaced(s, 0, |s| - 1);
      assert s[0..|s| - 1] == s[..|s| - 1];
      TrimEndKeepsSpacing(s[..|s| - 1]);
    }
  }

  /** Trimming a single-spaced string leaves it single-spaced. */
  lemma TrimKeepsSpacing(s: string)
    requires SingleSpaced(s)
    ensures SingleSpaced(Trim(s))
  {
    TrimStartKeepsSpacing(s);
    TrimEndKeepsSpacing(TrimStart(s));
    assert Trim(s) == TrimEnd(TrimStart(s));
  }

  /** Trimming the front introduces no character. */
  lemma {:induction false} TrimStartKeepsAbsent(s: string, c: char)
    requires c !in s
    ensures c !in TrimStart(s)
    decreases |s|
  {
    if |s| > 0 && IsJsSpace(s[0]) {
      assert forall i :: 0 <= i < |s| - 1 ==> s[1..][i] == s[i + 1];
      TrimStartKeepsAbsent(s[1..], c);
    }
  }

  /** Trimming the back introduces no character. */
  lemma {:induction false} TrimEndKeepsAbsent(s: string, c: char)
    requires c !in s
    ensures c !in TrimEnd(s)
    decreases |s|
  {
    if |s| > 0 && IsJsSpace(s[|s| - 1]) {
      assert forall i :: 0 <= i < |s| - 1 ==> s[..|s| - 1][i] == s[i];
      TrimEndKeepsAbsent(s[..|s| - 1], c);
    }
  }

  /** Trimming never brings in a character that was not there. */
  lemma TrimKeepsAbsent(s: string, c: char)
    requires c !in s
    ensures c !in Trim(s)
  {
    TrimStartKeepsAbsent(s, c);
    TrimEndKeepsAbsent(TrimStart(s), c);
    assert Trim(s) == TrimEnd(TrimStart(s));
  }

  /** A cleaned quote: no whitespace at either end, no run of whitespace, and only plain spaces. */
  ghost predicate Tidy(s: string) {
    && SingleSpaced(s)
    && (|s| == 0 || (!IsJsSpace(s[0]) && !IsJsSpace(s[|s| - 1])))
  }

  /** The quote text's cleanup chain, ending in `trim()`. */
  function CleanText(raw: string): (r: string)
    ensures Tidy(r)
    ensures (forall i :: 0 <= i < |raw| ==> raw[i] != '<' && raw[i] != '&') ==>
      r == Trim(CollapseSpaces(raw))
  {
    var collapsed := CollapseSpaces(ReplaceNbsp(StripTags(ReplaceBreaks(raw))));
    TrimKeepsSpacing(collapsed);
    Trim(collapsed)
  }

  /** The author: "Rumi" when the container has no author, else the author with commas removed, trimmed. */
  function CleanAuthor(author: Option<string>): (r: string)
    ensures author.None? ==> r == "Rumi"
    ensures author.Some? ==> ',' !in r
    ensures |r| == 0 || (!IsJsSpace(r[0]) && !IsJsSpace(r[|r| - 1]))
  {
    match author
    case None => "Rumi"
    case Some(a) =>
      var plain := RemoveChar(a, ',');
      TrimKeepsAbsent(plain, ',');
      Trim(plain)
  }

  /* ---------- pages ---------- */

  /** What one quote container yielded: the text between the curly quotes and the author span, when found. */
  datatype Container = Container(quote: Option<string>, author: Option<string>)

  const MinLength := 10

  /**
   * A container's quote, kept when it has text and its cleaned text is longer
   * than ten UTF-16 code units, which is what `length` counts.
   */
  function FromContainer(c: Container): (r: Option<Quote>)
    ensures r.Some? <==> c.quote.Some? && Utf16Length(CleanText(c.quote.value)) > MinLength
    ensures r.Some? ==> r.value == Quote(CleanText(c.quote.value), CleanAuthor(c.author))
    ensures c.quote.Some? && |CleanText(c.quote.value)| > MinLength ==> r.Some?
    ensures r.Some? ==> 2 * |r.value.text| > MinLength
  {
    match c.quote
    case None => None
    case Some(q) =>
      var text := CleanText(q);
      if Utf16Length(text) > MinLength then Some(Quote(text, CleanAuthor(c.author))) else None
  }

  /** A cleaned quote that was kept. */
  ghost predicate Kept(q: Quote) {
    Utf16Length(q.text) > MinLength && Tidy(q.text)
  }

  /** Prepending a kept quote to kept quotes gives kept quotes. */
  lemma KeptCons(q: Quote, rest: seq<Quote>)
    requires Kept(q) && forall i :: 0 <= i < |rest| ==> Kept(rest[i])
    ensures forall i :: 0 <= i < |[q] + rest| ==> Kept(([q] + rest)[i])
  {
    forall i | 0 <= i < |[q] + rest|
      ensures Kept(([q] + rest)[i])
    {
      if i > 0 {
        assert ([q] + rest)[i] == rest[i - 1];
      }
    }
  }

  /** The quotes of a page's containers, in page order. */
  function QuotesOf(cs: seq<Container>): (r: seq<Quote>)
    decreases |cs|
    ensures |r| <= |cs|
    ensures forall i :: 0 <= i < |r| ==> Kept(r[i])
  {
    if |cs| == 0 then []
    else
      var rest := QuotesOf(cs[1..]);
      match FromContainer(cs[0])
      case None => rest
      case Some(q) =>
        assert Kept(q);
        KeptCons(q, rest);
        [q] + rest
  }

  /** A page request: the response's status code and containers, or a network error. */
  datatype Page = Response(status: int, containers: seq<Container>) | NetworkError

  /** `fetchPage`: nothing from a failed request or a status other than 200. */
  function FetchPage(p: Page): (r: seq<Quote>)
    ensures p.NetworkError? || p.status != 200 ==> r == []
    ensures p.Response? && p.status == 200 ==> r == QuotesOf(p.containers)
  {
    match p
    case NetworkError => []
    case Response(status, cs) => if status == 200 then QuotesOf(cs) else []
  }

  /** The quotes of all pages, page after page. */
  function AllQuotes(pages: seq<Page>): (r: seq<Quote>)
    decreases |pages|
    ensures forall i :: 0 <= i < |r| ==> Kept(r[i])
  {
    if |pages| == 0 then [] else FetchPage(pages[0]) + AllQuotes(pages[1..])
  }

  /* ---------- de-duplication ---------- */

  function Texts(qs: seq<Quote>): (r: set<string>)
    ensures forall t :: t in r <==> exists i :: 0 <= i < |qs| && qs[i].text == t
  {
    set i | 0 <= i < |qs| :: qs[i].text
  }

  /** The texts of an appended quote list gain the new quote's text. */
  lemma TextsSnoc(qs: seq<Quote>, q: Quote)
    ensures Texts(qs + [q]) == Texts(qs) + {q.text}
  {
    forall t ensures t in Texts(qs + [q]) <==> t in Texts(qs) + {q.text} {
      if t in Texts(qs) {
        var i :| 0 <= i < |qs| && qs[i].text == t;
        assert (qs + [q])[i].text == t;
      }
      assert (qs + [q])[|qs|].text == q.text;
      if t in Texts(qs + [q]) {
        var i :| 0 <= i < |qs + [q]| && (qs + [q])[i].text == t;
        if i < |qs| {
          assert qs[i].text == t;
        }
      }
    }
  }

  /** The reference: each quote whose text has not been seen before it, in order. */
  function Unique(qs: seq<Quote>): (r: seq<Quote>)
    decreases |qs|
  {
    if |qs| == 0 then []
    else
      var prev := Unique(qs[..|qs| - 1]);
      var q := qs[|qs| - 1];
      if q.text in Texts(qs[..|qs| - 1]) then prev else prev + [q]
  }

  /** The texts that survive are exactly the texts of the input, each once. */
  lemma {:induction false} UniqueTexts(qs: seq<Quote>)
    ensures Texts(Unique(qs)) == Texts(qs)
    ensures forall i, j :: 0 <= i < j < |Unique(qs)| ==> Unique(qs)[i].text != Unique(qs)[j].text
    decreases |qs|
  {
    if |qs| > 0 {
      var init := qs[..|qs| - 1];
      var q := qs[|qs| - 1];
      var prev := Unique(init);
      UniqueTexts(init);
      assert qs == init + [q];
      TextsSnoc(init, q);
      if q.text !in Texts(init) {
        assert Unique(qs) == prev + [q];
        TextsSnoc(prev, q);
        forall i | 0 <= i < |prev|
          ensures prev[i].text != q.text
        {
          assert prev[i].text in Texts(prev);
        }
      } else {
        assert Unique(qs) == prev;
      }
    }
  }

  /** No earlier quote has the same text as quote `i`. */
  ghost predicate IsFirst(qs: seq<Quote>, i: nat)
    requires i < |qs|
  {
    forall j :: 0 <= j < i ==> qs[j].text != qs[i].text
  }

  /** The input position each surviving quote comes from. */
  ghost function Origins(qs: seq<Quote>): seq<nat>
    decreases |qs|
  {
    if |qs| == 0 then []
    else
      var prev := Origins(qs[..|qs| - 1]);
      if qs[|qs| - 1].text in Texts(qs[..|qs| - 1]) then prev else prev + [|qs| - 1]
  }

  /** Every surviving quote is the first quote of the input with its text, and they keep their input order. */
  lemma {:induction false} UniqueKeepsFirst(qs: seq<Quote>)
    ensures var u, o := Unique(qs), Origins(qs);
      && |o| == |u|
      && (forall k :: 0 <= k < |o| ==> o[k] < |qs| && u[k] == qs[o[k]] && IsFirst(qs, o[k]))
      && (forall k, l :: 0 <= k < l < |o| ==> o[k] < o[l])
    decreases |qs|
  {
    if |qs| > 0 {
      var init := qs[..|qs| - 1];
      var q := qs[|qs| - 1];
      UniqueKeepsFirst(init);
      assert forall j :: 0 <= j < |init| ==> init[j] == qs[j];
      var u, o := Unique(init), Origins(init);
      forall k | 0 <= k < |o|
        ensures IsFirst(qs, o[k])
      {
        assert IsFirst(init, o[k]);
      }
      if q.text !in Texts(init) {
        assert forall j :: 0 <= j < |init| ==> qs[j].text != q.text;
        assert IsFirst(qs, |qs| - 1);
      }
    }
  }

  /**
   * The de-duplication in `run`: a set of seen texts, and each quote kept when
   * its text was not seen yet.
   */
  method Dedupe(qs: seq<Quote>) returns (unique: seq<Quote>)
    ensures unique == Unique(qs)
    ensures forall i, j :: 0 <= i < j < |unique| ==> unique[i].text != unique[j].text
    ensures Texts(unique) == Texts(qs)
  {
    var seen: set<string> := {};
    unique := [];
    for i := 0 to |qs|
      invariant seen == Texts(qs[..i])
      invariant unique == Unique(qs[..i])
    {
      assert qs[..i + 1][..i] == qs[..i];
      var duplicate := qs[i].text in seen;
      seen := seen + {qs[i].text};
      if !duplicate {
        unique := unique + [qs[i]];
      }
      assert qs[..i + 1] == qs[..i] + [qs[i]];
    }
    assert qs[..|qs|] == qs;
    UniqueTexts(qs);
  }

  /** `run`: all pages' quotes without repeated texts; the file is written only when this is not empty. */
  method Run(pages: seq<Page>) returns (unique: seq<Quote>, written: bool)
    ensures unique == Unique(AllQuotes(pages))
    ensures written <==> |unique| > 0
    ensures forall i :: 0 <= i < |unique| ==> Kept(unique[i])
  {
    var all := AllQuotes(pages);
    unique := Dedupe(all);
    UniqueKeepsFirst(all);
    written := |unique| > 0;
  }
}
