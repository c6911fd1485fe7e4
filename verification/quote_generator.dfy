/**
 * The layout decisions of the quote-card renderer (`generateQuoteImage`):
 * font choice with fallback, greedy word wrapping against a caller-supplied
 * text measure, the anchor coordinates of quote and author, and the fill
 * colours. The canvas drawing itself is not part of this model.
 */
module QuoteGenerator {
  import opened Common
  import opened Strings
  import opened Seqs

  /** The keys of `styleConfigs`. */
  const StyleNames: seq<string> := ["glass", "cyber", "hologram", "minimalist", "impact", "poetic"]

  predicate IsStyle(name: string) {
    name in StyleNames
  }

  /* ---------- fonts ---------- */

  datatype Font = Font(id: string, name: string, css: string)

  const Fonts: seq<Font> := [
    Font("sans", "Inter", "Inter"),
    Font("display", "Grotesk", "\"Space Grotesk\""),
    Font("serif", "Serif", "serif"),
    Font("mono", "Mono", "monospace")]

  /** `fonts.find((f) => f.id === id)`, with `undefined` for a missing id. */
  function FindFont(fonts: seq<Font>, id: Option<string>): (r: Option<Font>)
    ensures r.Some? ==> r.value in fonts && id == Some(r.value.id)
    ensures r.Some? ==> exists i :: 0 <= i < |fonts| && r.value == fonts[i] && forall j :: 0 <= j < i ==> fonts[j].id != r.value.id
    ensures r.None? <==> id.None? || forall i :: 0 <= i < |fonts| ==> fonts[i].id != id.value
  {
    match id
    case None => None
    case Some(name) =>
      match FindIndex(fonts, (f: Font) => f.id == name)
      case None => None
      case Some(i) => Some(fonts[i])
  }

  /** The quote font: the selected font, or the first font when the selection names none. */
  function QuoteFont(fonts: seq<Font>, selected: Option<string>): (r: Font)
    requires |fonts| > 0
    ensures r in fonts
    ensures FindFont(fonts, selected).None? ==> r == fonts[0]
    ensures FindFont(fonts, selected).Some? ==> Some(r.id) == selected
  {
    match FindFont(fonts, selected)
    case Some(f) => f
    case None => fonts[0]
  }

  /** The author font: the font named by the author selection, else by the quote selection, else the quote font. */
  function AuthorFont(fonts: seq<Font>, selectedAuthor: Option<string>, selected: Option<string>): (r: Font)
    requires |fonts| > 0
    ensures r in fonts
    ensures !Truthy(selectedAuthor) ==> r == QuoteFont(fonts, selected)
    ensures Truthy(selectedAuthor) && FindFont(fonts, selectedAuthor).Some? ==> Some(r.id) == selectedAuthor
    ensures Truthy(selectedAuthor) && FindFont(fonts, selectedAuthor).None? ==> r == QuoteFont(fonts, selected)
  {
    var wanted := if Truthy(selectedAuthor) then selectedAuthor else selected;
    match FindFont(fonts, wanted)
    case Some(f) => f
    case None => QuoteFont(fonts, selected)
  }

  /** An unknown font id, for quote and author alike, falls back to the Inter font. */
  lemma UnknownFontIsInter(id: string)
    requires id !in ["sans", "display", "serif", "mono"]
    ensures QuoteFont(Fonts, Some(id)) == Font("sans", "Inter", "Inter")
    ensures AuthorFont(Fonts, Some(id), Some(id)) == Font("sans", "Inter", "Inter")
  {
    assert forall i :: 0 <= i < |Fonts| ==> Fonts[i].id != id by {
      assert Fonts[0].id == "sans" && Fonts[1].id == "display" && Fonts[2].id == "serif" && Fonts[3].id == "mono";
    }
  }

  /* ---------- greedy wrapping ---------- */

  const MaxWidth: real := 800.0

  /** Words `a` up to `b` of the text, each followed by one space. */
  function Segment(words: seq<string>, a: nat, b: nat): (r: string)
    requires a <= b <= |words|
    decreases b
  {
    if a == b then "" else Segment(words, a, b - 1) + words[b - 1] + " "
  }

  /** Adjacent word segments put together make the segment spanning both. */
  lemma {:induction false} SegmentConcat(words: seq<string>, a: nat, b: nat, c: nat)
    requires a <= b <= c <= |words|
    ensures Segment(words, a, b) + Segment(words, b, c) == Segment(words, a, c)
    decreases c
  {
    if b < c {
      SegmentConcat(words, a, b, c - 1);
    }
  }

  /**
   * Line `k` holds words `b[k]` up to `b[k + 1]`: the bounds start at 0, end
   * at `n` and never decrease, and only the first line may be empty.
   */
  ghost predicate Bounds(b: seq<nat>, n: nat) {
    && |b| >= 2 && b[0] == 0 && b[|b| - 1] == n
    && (forall p, q :: 0 <= p <= q < |b| ==> b[p] <= b[q])
    && (forall p, q :: 1 <= p < q < |b| ==> b[p] < b[q])
  }

  /** Each line is its words, each followed by a space. */
  ghost predicate LinesAreSegments(words: seq<string>, lines: seq<string>, b: seq<nat>, n: nat)
    requires n <= |words| && Bounds(b, n) && |lines| + 1 == |b|
  {
    forall k :: 0 <= k < |lines| ==> lines[k] == Segment(words, b[k], b[k + 1])
  }

  /** A line was closed only because the next word made the test line wider than `maxWidth`. */
  ghost predicate BreaksOverflow(words: seq<string>, lines: seq<string>, b: seq<nat>, n: nat,
                                 measure: string -> real, maxWidth: real)
    requires n <= |words| && Bounds(b, n) && |lines| + 1 == |b|
  {
    forall k :: 0 <= k < |lines| - 1 ==> measure(lines[k] + words[b[k + 1]] + " ") > maxWidth
  }

  /** Every word that joined a line (other than one opening a later line) kept the test line within `maxWidth`. */
  ghost predicate JoinsFit(words: seq<string>, b: seq<nat>, n: nat, measure: string -> real, maxWidth: real)
    requires n <= |words| && Bounds(b, n)
  {
    forall k, j :: 0 <= k < |b| - 1 && b[k] <= j < b[k + 1] && (k == 0 || b[k] < j) ==>
      measure(Segment(words, b[k], j) + words[j] + " ") <= maxWidth
  }

  /** `lines` is the greedy wrapping of the first `n` words, line `k` holding words `b[k]` up to `b[k + 1]`. */
  ghost predicate Wrapped(words: seq<string>, lines: seq<string>, b: seq<nat>, n: nat,
                          measure: string -> real, maxWidth: real)
  {
    && n <= |words| && Bounds(b, n) && |lines| + 1 == |b|
    && LinesAreSegments(words, lines, b, n)
    && BreaksOverflow(words, lines, b, n, measure, maxWidth)
    && JoinsFit(words, b, n, measure, maxWidth)
  }

  /** The current line taking word `i` moves the last bound one word on. */
  lemma ExtendBounds(cuts: seq<nat>, i: nat)
    requires Bounds(cuts + [i], i)
    ensures Bounds(cuts + [i + 1], i + 1)
  {
    var b := cuts + [i];
    var b' := cuts + [i + 1];
    assert forall p :: 0 <= p < |cuts| ==> b'[p] == b[p] <= i;
  }

  /** Word `i` opening a new line adds a bound. */
  lemma BreakBounds(cuts: seq<nat>, i: nat)
    requires Bounds(cuts + [i], i)
    ensures Bounds(cuts + [i] + [i + 1], i + 1)
  {
    var b := cuts + [i];
    var b' := b + [i + 1];
    assert forall p :: 0 <= p < |b| ==> b'[p] == b[p] <= i;
  }

  /** Adding a word to the current line keeps the lines segments of the words. */
  lemma ExtendLines(words: seq<string>, done: seq<string>, current: string, cuts: seq<nat>, i: nat)
    requires i < |words| && Bounds(cuts + [i], i) && |done| + 1 == |cuts|
    requires LinesAreSegments(words, done + [current], cuts + [i], i)
    ensures Bounds(cuts + [i + 1], i + 1)
    ensures LinesAreSegments(words, done + [current + words[i] + " "], cuts + [i + 1], i + 1)
  {
    ExtendBounds(cuts, i);
    var m := |done|;
    var b := cuts + [i];
    var b' := cuts + [i + 1];
    var before := done + [current];
    var after := done + [current + words[i] + " "];
    forall k | 0 <= k < |after|
      ensures after[k] == Segment(words, b'[k], b'[k + 1])
    {
      if k < m {
        assert after[k] == before[k] && b'[k] == b[k] && b'[k + 1] == b[k + 1];
      } else {
        assert before[k] == current && b[k] == b'[k] && b[k + 1] == i && b'[k + 1] == i + 1;
      }
    }
  }

  /** Starting a new line with the word keeps the lines segments of the words. */
  lemma BreakLines(words: seq<string>, done: seq<string>, current: string, cuts: seq<nat>, i: nat)
    requires i < |words| && Bounds(cuts + [i], i) && |done| + 1 == |cuts|
    requires LinesAreSegments(words, done + [current], cuts + [i], i)
    ensures Bounds(cuts + [i] + [i + 1], i + 1)
    ensures LinesAreSegments(words, done + [current] + [words[i] + " "], cuts + [i] + [i + 1], i + 1)
  {
    BreakBounds(cuts, i);
    var m := |done|;
    var b := cuts + [i];
    var b' := b + [i + 1];
    var before := done + [current];
    var after := before + [words[i] + " "];
    forall k | 0 <= k < |after|
      ensures after[k] == Segment(words, b'[k], b'[k + 1])
    {
      if k <= m {
        assert after[k] == before[k] && b'[k] == b[k] && b'[k + 1] == b[k + 1];
      } else {
        assert after[k] == words[i] + " " && b'[k] == i && b'[k + 1] == i + 1;
        assert Segment(words, i, i + 1) == "" + words[i] + " ";
      }
    }
  }

  /** Adding a word to the current line keeps every earlier break justified. */
  lemma ExtendBreaks(words: seq<string>, done: seq<string>, current: string, cuts: seq<nat>, i: nat,
                     measure: string -> real, maxWidth: real)
    requires i < |words| && Bounds(cuts + [i], i) && Bounds(cuts + [i + 1], i + 1) && |done| + 1 == |cuts|
    requires BreaksOverflow(words, done + [current], cuts + [i], i, measure, maxWidth)
    ensures BreaksOverflow(words, done + [current + words[i] + " "], cuts + [i + 1], i + 1, measure, maxWidth)
  {
    var b := cuts + [i];
    var b' := cuts + [i + 1];
    var before := done + [current];
    var after := done + [current + words[i] + " "];
    forall k | 0 <= k < |after| - 1
      ensures measure(after[k] + words[b'[k + 1]] + " ") > maxWidth
    {
      assert after[k] == before[k] && b'[k + 1] == b[k + 1];
    }
  }

  /** A break taken because the word overflows is justified. */
  lemma BreakBreaks(words: seq<string>, done: seq<string>, current: string, cuts: seq<nat>, i: nat,
                    measure: string -> real, maxWidth: real)
    requires i < |words| && Bounds(cuts + [i], i) && Bounds(cuts + [i] + [i + 1], i + 1) && |done| + 1 == |cuts|
    requires BreaksOverflow(words, done + [current], cuts + [i], i, measure, maxWidth)
    requires measure(current + words[i] + " ") > maxWidth
    ensures BreaksOverflow(words, done + [current] + [words[i] + " "], cuts + [i] + [i + 1], i + 1, measure, maxWidth)
  {
    var m := |done|;
    var b := cuts + [i];
    var b' := b + [i + 1];
    var before := done + [current];
    var after := before + [words[i] + " "];
    forall k | 0 <= k < |after| - 1
      ensures measure(after[k] + words[b'[k + 1]] + " ") > maxWidth
    {
      if k < m {
        assert after[k] == before[k] && b'[k + 1] == b[k + 1];
      } else {
        assert after[k] == current && b'[k + 1] == i;
      }
    }
  }

  /** A word joined to the current line within the width keeps every joined line fitting. */
  lemma ExtendFits(words: seq<string>, current: string, cuts: seq<nat>, i: nat, measure: string -> real, maxWidth: real)
    requires i < |words| && Bounds(cuts + [i], i) && Bounds(cuts + [i + 1], i + 1)
    requires cuts[|cuts| - 1] <= i && current == Segment(words, cuts[|cuts| - 1], i)
    requires JoinsFit(words, cuts + [i], i, measure, maxWidth)
    requires measure(current + words[i] + " ") <= maxWidth
    ensures JoinsFit(words, cuts + [i + 1], i + 1, measure, maxWidth)
  {
    var m := |cuts| - 1;
    var b := cuts + [i];
    var b' := cuts + [i + 1];
    forall k, j | 0 <= k < |b'| - 1 && b'[k] <= j < b'[k + 1] && (k == 0 || b'[k] < j)
      ensures measure(Segment(words, b'[k], j) + words[j] + " ") <= maxWidth
    {
      assert b'[k] == cuts[k];
      if j < b[k + 1] {
        FitsBefore(words, cuts, i, measure, maxWidth, k, j);
      } else {
        assert k == m && j == i;
      }
    }
  }

  /** A join recorded before word `i` is still recorded. */
  lemma FitsBefore(words: seq<string>, cuts: seq<nat>, i: nat, measure: string -> real, maxWidth: real, k: nat, j: nat)
    requires i < |words| && Bounds(cuts + [i], i) && JoinsFit(words, cuts + [i], i, measure, maxWidth)
    requires k < |cuts| && cuts[k] <= j < (cuts + [i])[k + 1] && (k == 0 || cuts[k] < j)
    ensures measure(Segment(words, cuts[k], j) + words[j] + " ") <= maxWidth
  {
    var b := cuts + [i];
    assert b[k] == cuts[k];
  }

  /** Starting a new line adds no joined word, so every joined line still fits. */
  lemma BreakFits(words: seq<string>, cuts: seq<nat>, i: nat, measure: string -> real, maxWidth: real)
    requires i < |words| && Bounds(cuts + [i], i) && Bounds(cuts + [i] + [i + 1], i + 1)
    requires JoinsFit(words, cuts + [i], i, measure, maxWidth)
    ensures JoinsFit(words, cuts + [i] + [i + 1], i + 1, measure, maxWidth)
  {
    var b := cuts + [i];
    var b' := b + [i + 1];
    forall k, j | 0 <= k < |b'| - 1 && b'[k] <= j < b'[k + 1] && (k == 0 || b'[k] < j)
      ensures measure(Segment(words, b'[k], j) + words[j] + " ") <= maxWidth
    {
      assert k < |b| - 1;
      assert b'[k] == b[k] && b'[k + 1] == b[k + 1];
    }
  }

  /** A word that fits joins the current line. */
  lemma WrapExtend(words: seq<string>, done: seq<string>, current: string, cuts: seq<nat>, i: nat,
                   measure: string -> real, maxWidth: real)
    requires i < |words| && |done| + 1 == |cuts| && Wrapped(words, done + [current], cuts + [i], i, measure, maxWidth)
    requires measure(current + words[i] + " ") <= maxWidth
    ensures Wrapped(words, done + [current + words[i] + " "], cuts + [i + 1], i + 1, measure, maxWidth)
  {
    ExtendLines(words, done, current, cuts, i);
    ExtendBreaks(words, done, current, cuts, i, measure, maxWidth);
    var m := |cuts| - 1;
    assert (done + [current])[m] == current && (cuts + [i])[m] == cuts[m] && (cuts + [i])[m + 1] == i;
    ExtendFits(words, current, cuts, i, measure, maxWidth);
  }

  /** A word that does not fit closes the current line and starts the next. */
  lemma WrapBreak(words: seq<string>, done: seq<string>, current: string, cuts: seq<nat>, i: nat,
                  measure: string -> real, maxWidth: real)
    requires i < |words| && |done| + 1 == |cuts| && Wrapped(words, done + [current], cuts + [i], i, measure, maxWidth)
    requires measure(current + words[i] + " ") > maxWidth
    ensures Wrapped(words, done + [current] + [words[i] + " "], cuts + [i] + [i + 1], i + 1, measure, maxWidth)
  {
    BreakLines(words, done, current, cuts, i);
    BreakBreaks(words, done, current, cuts, i, measure, maxWidth);
    BreakFits(words, cuts, i, measure, maxWidth);
  }

  /** Before the first word: one empty line. */
  lemma WrapStart(words: seq<string>, measure: string -> real, maxWidth: real)
    ensures Wrapped(words, [""], [0] + [0], 0, measure, maxWidth)
  {
    var b := [0] + [0];
    assert b[0] == 0 && b[1] == 0;
  }

  /**
   * The greedy wrapping of the first `n` words as the closed lines and the
   * line being filled: each word joins the current line when the test line
   * fits within `maxWidth`, and otherwise closes it and opens the next.
   */
  function Greedy(words: seq<string>, n: nat, measure: string -> real, maxWidth: real): (r: (seq<string>, string))
    requires n <= |words|
    decreases n
  {
    if n == 0 then ([], "")
    else
      var (done, current) := Greedy(words, n - 1, measure, maxWidth);
      var test := current + words[n - 1] + " ";
      if measure(test) > maxWidth then (done + [current], words[n - 1] + " ") else (done, test)
  }

  /** Where each line of `Greedy` starts. */
  ghost function GreedyStarts(words: seq<string>, n: nat, measure: string -> real, maxWidth: real): seq<nat>
    requires n <= |words|
    decreases n
  {
    if n == 0 then [0]
    else
      var (_, current) := Greedy(words, n - 1, measure, maxWidth);
      var starts := GreedyStarts(words, n - 1, measure, maxWidth);
      if measure(current + words[n - 1] + " ") > maxWidth then starts + [n - 1] else starts
  }

  /** The greedy lines after `n` words satisfy the wrapping rules, line `k` starting where `GreedyStarts` says. */
  ghost predicate GreedyWrapped(words: seq<string>, n: nat, measure: string -> real, maxWidth: real)
    requires n <= |words|
  {
    && |Greedy(words, n, measure, maxWidth).0| + 1 == |GreedyStarts(words, n, measure, maxWidth)|
    && Wrapped(words, Greedy(words, n, measure, maxWidth).0 + [Greedy(words, n, measure, maxWidth).1],
               GreedyStarts(words, n, measure, maxWidth) + [n], n, measure, maxWidth)
  }

  /** The greedy wrapping keeps to the rules at every word. */
  lemma {:induction false} GreedyWraps(words: seq<string>, n: nat, measure: string -> real, maxWidth: real)
    requires n <= |words|
    ensures GreedyWrapped(words, n, measure, maxWidth)
    decreases n, 1
  {
    if n == 0 {
      WrapStart(words, measure, maxWidth);
      assert [] + [""] == [""];
    } else {
      if measure(Greedy(words, n - 1, measure, maxWidth).1 + words[n - 1] + " ") > maxWidth {
        GreedyBreakStep(words, n - 1, measure, maxWidth);
      } else {
        GreedyExtendStep(words, n - 1, measure, maxWidth);
      }
    }
  }

  /** One loop step that breaks the line preserves the wrapping property. */
  lemma {:induction false} GreedyBreakStep(words: seq<string>, i: nat, measure: string -> real, maxWidth: real)
    requires i < |words|
    requires measure(Greedy(words, i, measure, maxWidth).1 + words[i] + " ") > maxWidth
    ensures GreedyWrapped(words, i + 1, measure, maxWidth)
    decreases i + 1, 0
  {
    GreedyWraps(words, i, measure, maxWidth);
    var done, current := Greedy(words, i, measure, maxWidth).0, Greedy(words, i, measure, maxWidth).1;
    var starts := GreedyStarts(words, i, measure, maxWidth);
    assert Greedy(words, i + 1, measure, maxWidth) == (done + [current], words[i] + " ");
    assert GreedyStarts(words, i + 1, measure, maxWidth) == starts + [i];
    WrapBreak(words, done, current, starts, i, measure, maxWidth);
  }

  /** One loop step that joins the word preserves the wrapping property. */
  lemma {:induction false} GreedyExtendStep(words: seq<string>, i: nat, measure: string -> real, maxWidth: real)
    requires i < |words|
    requires measure(Greedy(words, i, measure, maxWidth).1 + words[i] + " ") <= maxWidth
    ensures GreedyWrapped(words, i + 1, measure, maxWidth)
    decreases i + 1, 0
  {
    GreedyWraps(words, i, measure, maxWidth);
    var done, current := Greedy(words, i, measure, maxWidth).0, Greedy(words, i, measure, maxWidth).1;
    var starts := GreedyStarts(words, i, measure, maxWidth);
    assert Greedy(words, i + 1, measure, maxWidth) == (done, current + words[i] + " ");
    assert GreedyStarts(words, i + 1, measure, maxWidth) == starts;
    WrapExtend(words, done, current, starts, i, measure, maxWidth);
  }

  /** `getLines` on a list of words: the loop over the words, then the last line. */
  method WrapWords(words: seq<string>, measure: string -> real, maxWidth: real)
    returns (lines: seq<string>, ghost bounds: seq<nat>)
    ensures var (done, current) := Greedy(words, |words|, measure, maxWidth); lines == done + [current]
    ensures Wrapped(words, lines, bounds, |words|, measure, maxWidth)
  {
    var done: seq<string> := [];
    var current := "";
    for i := 0 to |words|
      invariant (done, current) == Greedy(words, i, measure, maxWidth)
    {
      var test := current + words[i] + " ";
      if measure(test) > maxWidth {
        done, current := done + [current], words[i] + " ";
      } else {
        current := test;
      }
    }
    lines := done + [current];
    GreedyWraps(words, |words|, measure, maxWidth);
    bounds := GreedyStarts(words, |words|, measure, maxWidth) + [|words|];
  }

  /** The first `k` lines, put back together, are the words up to bound `k`, each followed by one space. */
  lemma {:induction false} LinesConcat(words: seq<string>, lines: seq<string>, b: seq<nat>, n: nat, k: nat)
    requires n <= |words| && Bounds(b, n) && |lines| + 1 == |b| && LinesAreSegments(words, lines, b, n)
    requires k <= |lines|
    ensures Flatten(lines[..k]) == Segment(words, 0, b[k])
    decreases k
  {
    if k == 0 {
      assert lines[..0] == [];
    } else {
      LinesConcat(words, lines, b, n, k - 1);
      assert lines[..k] == lines[..k - 1] + [lines[k - 1]];
      FlattenSnoc(lines[..k - 1], lines[k - 1]);
      assert b[k - 1] <= b[k] <= n;
      SegmentConcat(words, 0, b[k - 1], b[k]);
    }
  }

  /** All the lines, put back together, are the first `n` words in order, each followed by one space. */
  lemma WrappedConcat(words: seq<string>, lines: seq<string>, b: seq<nat>, n: nat)
    requires n <= |words| && Bounds(b, n) && |lines| + 1 == |b| && LinesAreSegments(words, lines, b, n)
    ensures Flatten(lines) == Segment(words, 0, n)
  {
    LinesConcat(words, lines, b, n, |lines|);
    assert lines[..|lines|] == lines;
  }

  /** The first line is empty exactly when the first word, with its space, is already wider than the limit. */
  lemma FirstLineEmpty(words: seq<string>, lines: seq<string>, b: seq<nat>, n: nat, measure: string -> real, maxWidth: real)
    requires Wrapped(words, lines, b, n, measure, maxWidth) && n >= 1
    ensures lines[0] == "" <==> measure(words[0] + " ") > maxWidth
  {
    var end := b[1];
    assert lines[0] == Segment(words, 0, end);
    assert Segment(words, 0, 0) + words[0] + " " == words[0] + " ";
    if end > 0 {
      assert |Segment(words, 0, end)| >= 1;
      assert b[0] <= 0 < b[1];
      assert measure(Segment(words, 0, 0) + words[0] + " ") <= maxWidth;
    } else {
      assert b[|b| - 1] == n > 0;
      assert |lines| > 1;
      assert measure(lines[0] + words[b[1]] + " ") > maxWidth;
    }
  }

  /** The words each followed by a space are the words joined by spaces, plus a final space. */
  lemma {:induction false} SegmentIsJoin(words: seq<string>, b: nat)
    requires 1 <= b <= |words|
    ensures Segment(words, 0, b) == Join(words[..b], " ") + " "
    decreases b
  {
    if b == 1 {
      assert words[..1] == [words[0]];
    } else {
      SegmentIsJoin(words, b - 1);
      assert words[..b] == words[..b - 1] + [words[b - 1]];
      JoinSnoc(words[..b - 1], words[b - 1], " ");
    }
  }

  /**
   * `getLines`: wraps `"text"` (the quote in double quotes) word by word at
   * the maximum width of 800, measuring each test line with `measure`.
   */
  method GetLines(text: string, measure: string -> real) returns (lines: seq<string>)
    ensures |lines| >= 1
    ensures Flatten(lines) == "\"" + text + "\"" + " "
    ensures forall k :: 1 <= k < |lines| ==> lines[k] != ""
    ensures exists b :: Wrapped(Split("\"" + text + "\"", ' '), lines, b, |Split("\"" + text + "\"", ' ')|, measure, MaxWidth)
  {
    var fullText := "\"" + text + "\"";
    var words := Split(fullText, ' ');
    ghost var b;
    lines, b := WrapWords(words, measure, MaxWidth);
    WrappedConcat(words, lines, b, |words|);
    SegmentIsJoin(words, |words|);
    assert words[..|words|] == words;
    forall k | 1 <= k < |lines|
      ensures lines[k] != ""
    {
      assert b[k] < b[k + 1];
      assert |Segment(words, b[k], b[k + 1])| >= 1;
    }
  }

  /* ---------- anchors ---------- */

  /** The quote's X anchor: 140 for left, 940 for right, 540 otherwise, shifted by the X offset. */
  function DrawX(align: string, offsetX: real): (r: real)
    ensures align == "left" ==> r == 140.0 + offsetX
    ensures align == "right" ==> r == 940.0 + offsetX
    ensures align != "left" && align != "right" ==> r == 540.0 + offsetX
    ensures 140.0 + offsetX <= r <= 940.0 + offsetX
  {
    if align == "right" then 940.0 + offsetX
    else if align == "left" then 140.0 + offsetX
    else 540.0 + offsetX
  }

  /** The author's X anchor: the quote's unless an author alignment of left, center or right is given. */
  function AuthorX(authorAlign: Option<string>, align: string, offsetX: real): (r: real)
    ensures authorAlign == Some("left") ==> r == 140.0 + offsetX
    ensures authorAlign == Some("center") ==> r == 540.0 + offsetX
    ensures authorAlign == Some("right") ==> r == 940.0 + offsetX
    ensures authorAlign !in {Some("left"), Some("center"), Some("right")} ==> r == DrawX(align, offsetX)
  {
    match authorAlign
    case Some("left") => 140.0 + offsetX
    case Some("center") => 540.0 + offsetX
    case Some("right") => 940.0 + offsetX
    case _ => DrawX(align, offsetX)
  }

  /** An author alignment equal to the quote's puts the author under the same anchor. */
  lemma SameAlignSameX(align: string, offsetX: real)
    requires align in {"left", "center", "right"}
    ensures AuthorX(Some(align), align, offsetX) == DrawX(align, offsetX)
  {
  }

  /** The first line's baseline: the block of `lineCount` lines centred on the 1080-pixel canvas, shifted by the Y offset. */
  function StartY(lineCount: nat, fontSize: real, offsetY: real): (r: real)
    ensures r + lineCount as real * (fontSize * 1.3) / 2.0 == 540.0 + offsetY
  {
    1080.0 / 2.0 - (lineCount as real * (fontSize * 1.3)) / 2.0 + offsetY
  }

  /** The author line: 80 pixels below the last line, but never below 940. */
  function AuthorY(lineCount: nat, fontSize: real, offsetY: real): (r: real)
    ensures r <= 940.0
    ensures r == 940.0 || r == StartY(lineCount, fontSize, offsetY) + lineCount as real * (fontSize * 1.3) + 80.0
    ensures r <= StartY(lineCount, fontSize, offsetY) + lineCount as real * (fontSize * 1.3) + 80.0
  {
    var below := StartY(lineCount, fontSize, offsetY) + lineCount as real * (fontSize * 1.3) + 80.0;
    if below < 940.0 then below else 940.0
  }

  /* ---------- colours ---------- */

  const White := "#ffffff"

  /** The quote's fill: black on the impact style, else a custom colour other than white, else white. */
  function TextFill(style: string, customColor: Option<string>): (r: string)
    ensures style == "impact" ==> r == "#000000"
    ensures style != "impact" && Truthy(customColor) && customColor.value != White ==> r == customColor.value
    ensures style != "impact" && !(Truthy(customColor) && customColor.value != White) ==> r == White
  {
    if style == "impact" then "#000000"
    else if Truthy(customColor) && customColor.value != White then customColor.value
    else White
  }

  /** A custom colour never overrides the impact style, and white as a custom colour is the default. */
  lemma TextFillChoices(style: string, customColor: Option<string>)
    ensures TextFill(style, customColor) in {"#000000", White} || (style != "impact" && Some(TextFill(style, customColor)) == customColor)
    ensures customColor == Some(White) ==> TextFill(style, customColor) == TextFill(style, None)
  {
  }

  /** The author's paint: a colour and the opacity it is drawn with. */
  datatype Paint = Paint(color: string, alpha: real)

  function AuthorFill(style: string, customAuthorColor: Option<string>, accentColor: string): (r: Paint)
    ensures style == "hologram" ==> r == Paint("rgba(0, 255, 255, 0.8)", 1.0)
    ensures style == "impact" ==> r == Paint("rgba(0,0,0,0.6)", 1.0)
    ensures style != "hologram" && style != "impact" && Truthy(customAuthorColor) && customAuthorColor.value != White ==>
      r == Paint(customAuthorColor.value, 0.6)
    ensures style != "hologram" && style != "impact" && !(Truthy(customAuthorColor) && customAuthorColor.value != White) ==>
      r == Paint(accentColor, 1.0)
    ensures r.alpha < 1.0 ==> Some(r.color) == customAuthorColor
  {
    if style == "hologram" then Paint("rgba(0, 255, 255, 0.8)", 1.0)
    else if style == "impact" then Paint("rgba(0,0,0,0.6)", 1.0)
    else if Truthy(customAuthorColor) && customAuthorColor.value != White then Paint(customAuthorColor.value, 0.6)
    else Paint(accentColor, 1.0)
  }
}
