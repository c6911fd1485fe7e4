/**
 * The wisdom tab's state (`WisdomState`): a carousel over the scraped quotes
 * with a wrap-around index, and the card's style settings. The random start
 * index is computed from a caller-supplied value in [0, 1).
 */
module WisdomState {
  import opened Common
  import opened QuoteGenerator

  datatype Quote = Quote(text: string, author: string)

  datatype State = State(
    quotes: seq<Quote>,
    index: int,
    style: string,
    font: string,
    align: string,
    grayscale: bool,
    nextSignal: nat,
    prevSignal: nat)

  const DefaultText := "Seeking wisdom..."
  const DefaultAuthor := "Rumi"

  function Initial(): (r: State)
    ensures r.quotes == [] && r.index == 0 && r.grayscale
    ensures r.style == "glass" && IsStyle(r.style) && r.font == "serif" && r.align == "center"
    ensures r.nextSignal == 0 && r.prevSignal == 0
  {
    State([], 0, "glass", "serif", "center", true, 0, 0)
  }

  /** JavaScript's `a % n` for a positive `n`: the remainder takes the sign of `a`. */
  function JsRem(a: int, n: int): (r: int)
    requires n > 0
    ensures a >= 0 ==> 0 <= r < n && r == a % n
    ensures a < 0 ==> -n < r <= 0
  {
    if a >= 0 then a % n else -((-a) % n)
  }

  /** Below twice the divisor, the remainder is at most one subtraction away. */
  lemma RemWrap(a: int, n: int)
    requires n > 0
    ensures 0 <= a < 2 * n ==> JsRem(a, n) == if a < n then a else a - n
  {
    if n <= a < 2 * n {
      assert (a - n) % n == (a - n);
      assert a % n == ((a - n) + n) % n;
    }
  }

  /** The index addresses a quote. */
  predicate InRange(s: State) {
    0 <= s.index < |s.quotes|
  }

  /** `init(quotes)`: with quotes, stores them and starts at `floor(rnd * n)`. */
  function Init(s: State, quotes: seq<Quote>, rnd: real): (r: State)
    requires 0.0 <= rnd < 1.0
    ensures |quotes| == 0 ==> r == s
    ensures |quotes| > 0 ==> r.quotes == quotes && InRange(r) && r == s.(quotes := quotes, index := r.index)
  {
    if |quotes| == 0 then s
    else
      var n := |quotes|;
      var i := (rnd * n as real).Floor;
      assert 0.0 <= rnd * n as real < n as real;
      s.(quotes := quotes, index := i)
  }

  /** `next()`: one step forward, wrapping after the last quote; nothing happens without quotes. */
  function Next(s: State): (r: State)
    ensures |s.quotes| == 0 ==> r == s
    ensures r == s.(index := r.index)
    ensures InRange(s) ==> InRange(r)
    ensures InRange(s) ==> r.index == if s.index + 1 == |s.quotes| then 0 else s.index + 1
  {
    if |s.quotes| == 0 then s
    else
      RemWrap(s.index + 1, |s.quotes|);
      s.(index := JsRem(s.index + 1, |s.quotes|))
  }

  /** `prev()`: one step back, wrapping before the first quote; nothing happens without quotes. */
  function Prev(s: State): (r: State)
    ensures |s.quotes| == 0 ==> r == s
    ensures r == s.(index := r.index)
    ensures InRange(s) ==> InRange(r)
    ensures InRange(s) ==> r.index == if s.index == 0 then |s.quotes| - 1 else s.index - 1
  {
    if |s.quotes| == 0 then s
    else
      RemWrap(s.index - 1 + |s.quotes|, |s.quotes|);
      s.(index := JsRem(s.index - 1 + |s.quotes|, |s.quotes|))
  }

  lemma PrevAfterNext(s: State)
    requires InRange(s)
    ensures Prev(Next(s)) == s
  {
  }

  lemma NextAfterPrev(s: State)
    requires InRange(s)
    ensures Next(Prev(s)) == s
  {
  }

  /** `k` calls of `next()`. */
  function NextN(s: State, k: nat): (r: State)
    decreases k
  {
    if k == 0 then s else Next(NextN(s, k - 1))
  }

  /** A positive multiple of `n` is at least `n`. */
  lemma MulAtLeast(a: int, n: int)
    requires a >= 1 && n > 0
    ensures a * n >= n
  {
  }

  /** The remainder is the one `r` with `x == q * n + r` and `0 <= r < n`. */
  lemma ModUnique(x: int, n: int, q: int, r: int)
    requires n > 0 && 0 <= r < n && x == q * n + r
    ensures x % n == r
  {
    var q', r' := x / n, x % n;
    assert (q - q') * n == r' - r;
    if q' < q {
      MulAtLeast(q - q', n);
    } else if q' > q {
      MulAtLeast(q' - q, n);
    }
  }

  /** One more step moves the remainder forward by one, wrapping at `n`. */
  lemma ModSucc(x: nat, n: int)
    requires n > 0
    ensures (x + 1) % n == if x % n + 1 == n then 0 else x % n + 1
  {
    var q, r := x / n, x % n;
    if r + 1 == n {
      ModUnique(x + 1, n, q + 1, 0);
    } else {
      ModUnique(x + 1, n, q, r + 1);
    }
  }

  lemma {:induction false} NextNIndex(s: State, k: nat)
    requires InRange(s)
    ensures InRange(NextN(s, k))
    ensures NextN(s, k) == s.(index := (s.index + k) % |s.quotes|)
    decreases k
  {
    if k > 0 {
      NextNIndex(s, k - 1);
      ModSucc(s.index + k - 1, |s.quotes|);
    } else {
      ModUnique(s.index, |s.quotes|, 0, s.index);
    }
  }

  /** As many `next()` calls as there are quotes bring the carousel back to where it started. */
  lemma NextCycle(s: State)
    requires InRange(s)
    ensures NextN(s, |s.quotes|) == s
  {
    NextNIndex(s, |s.quotes|);
    ModUnique(s.index + |s.quotes|, |s.quotes|, 1, s.index);
  }

  /**
   * `setStyle(style)`: a name is taken when `styleConfigs[style]` is truthy,
   * which holds for the configured styles and for the names the object
   * inherits.
   */
  function SetStyle(s: State, style: string): (r: State)
    ensures IsStyle(style) || style in InheritedNames ==> r == s.(style := style)
    ensures !IsStyle(style) && style !in InheritedNames ==> r == s
  {
    if IsStyle(style) || style in InheritedNames then s.(style := style) else s
  }

  /** The selected style always names an entry `styleConfigs[...]` finds, whatever names are passed in. */
  lemma {:induction false} StyleStaysFound(s: State, styles: seq<string>)
    requires IsStyle(s.style) || s.style in InheritedNames
    ensures var t := SetStyles(s, styles); IsStyle(t.style) || t.style in InheritedNames
    ensures var t := SetStyles(s, styles); t == s.(style := t.style)
    decreases |styles|
  {
    if |styles| > 0 {
      StyleStaysFound(SetStyle(s, styles[0]), styles[1..]);
    }
  }

  /** `setStyle` called with each name in turn. */
  function SetStyles(s: State, styles: seq<string>): State
    decreases |styles|
  {
    if |styles| == 0 then s else SetStyles(SetStyle(s, styles[0]), styles[1..])
  }

  function SetFont(s: State, font: string): (r: State)
    ensures r == s.(font := font)
  {
    s.(font := font)
  }

  function SetAlign(s: State, align: string): (r: State)
    ensures r == s.(align := align)
  {
    s.(align := align)
  }

  /** `toggleGrayscale(value?)`: sets the mode to `value`, or flips it when no value is given. */
  function ToggleGrayscale(s: State, value: Option<bool>): (r: State)
    ensures value.Some? ==> r == s.(grayscale := value.value)
    ensures value.None? ==> r == s.(grayscale := !s.grayscale)
  {
    s.(grayscale := if value.Some? then value.value else !s.grayscale)
  }

  lemma ToggleTwice(s: State)
    ensures ToggleGrayscale(ToggleGrayscale(s, None), None) == s
  {
  }

  /** The derived `quote`: the addressed quote's text and author, each falling back when missing or empty. */
  function CurrentQuote(s: State): (r: Quote)
    ensures r.text != "" && r.author != ""
    ensures !InRange(s) ==> r == Quote(DefaultText, DefaultAuthor)
    ensures InRange(s) && s.quotes[s.index].text != "" ==> r.text == s.quotes[s.index].text
    ensures InRange(s) && s.quotes[s.index].author != "" ==> r.author == s.quotes[s.index].author
    ensures InRange(s) && s.quotes[s.index].text == "" ==> r.text == DefaultText
    ensures InRange(s) && s.quotes[s.index].author == "" ==> r.author == DefaultAuthor
  {
    if !InRange(s) then Quote(DefaultText, DefaultAuthor)
    else
      var q := s.quotes[s.index];
      Quote(if q.text != "" then q.text else DefaultText, if q.author != "" then q.author else DefaultAuthor)
  }

  /** `triggerNext`: the older signal interface; only the `next` counter moves, the carousel does not. */
  function TriggerNext(s: State): (r: State)
    ensures r.nextSignal == s.nextSignal + 1 && r.prevSignal == s.prevSignal
    ensures r.index == s.index && r.quotes == s.quotes
    ensures r.(nextSignal := s.nextSignal) == s
  {
    s.(nextSignal := s.nextSignal + 1)
  }

  /** `triggerPrev`: the mirror image of `TriggerNext`. */
  function TriggerPrev(s: State): (r: State)
    ensures r.prevSignal == s.prevSignal + 1 && r.nextSignal == s.nextSignal
    ensures r.index == s.index && r.quotes == s.quotes
    ensures r.(prevSignal := s.prevSignal) == s
  {
    s.(prevSignal := s.prevSignal + 1)
  }

  /** Navigating the carousel leaves both signals alone, and a signal leaves the shown quote alone. */
  lemma SignalsIndependent(s: State)
    ensures Next(s).nextSignal == s.nextSignal && Prev(s).prevSignal == s.prevSignal
    ensures CurrentQuote(TriggerNext(s)) == CurrentQuote(s) && CurrentQuote(TriggerPrev(s)) == CurrentQuote(s)
  {
  }
}
