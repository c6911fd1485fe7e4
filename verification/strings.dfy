/**
 * The string operations of JavaScript that the modelled code relies on,
 * written out over `seq<char>`: searching, splitting and joining, first-match
 * replacement, case mapping, whitespace and trimming, decimal rendering.
 */
module Strings {
  import opened Common

  /* ---------- searching ---------- */

  /** `p` occurs in `s` starting at index `i`. */
  predicate OccursAt(s: string, p: string, i: nat) {
    i + |p| <= |s| && s[i..i + |p|] == p
  }

  /** The first index at or after `from` where `p` occurs (`String.prototype.indexOf`). */
  function IndexOfFrom(s: string, p: string, from: nat): (r: Option<nat>)
    decreases |s| - from
    ensures r.Some? ==> from <= r.value && OccursAt(s, p, r.value)
    ensures r.Some? ==> forall j: nat :: from <= j < r.value ==> !OccursAt(s, p, j)
    ensures r.None? ==> forall j: nat :: from <= j ==> !OccursAt(s, p, j)
  {
    if from + |p| > |s| then None
    else if s[from..from + |p|] == p then Some(from)
    else IndexOfFrom(s, p, from + 1)
  }

  function IndexOf(s: string, p: string): (r: Option<nat>)
    ensures r.Some? ==> OccursAt(s, p, r.value) && forall j: nat :: j < r.value ==> !OccursAt(s, p, j)
    ensures r.None? ==> forall j: nat :: !OccursAt(s, p, j)
  {
    IndexOfFrom(s, p, 0)
  }

  /** `s.includes(p)`. */
  predicate Contains(s: string, p: string) {
    IndexOf(s, p).Some?
  }

  /** `Contains` holds exactly when the pattern occurs at some position. */
  lemma ContainsIff(s: string, p: string)
    ensures Contains(s, p) <==> exists i: nat :: OccursAt(s, p, i)
  {
  }

  /** The empty string is contained in every string. */
  lemma ContainsEmpty(s: string)
    ensures Contains(s, "")
  {
    assert OccursAt(s, "", 0);
  }

  /* ---------- case mapping (ASCII letters only) ---------- */

  function LowerChar(c: char): char {
    if 'A' <= c <= 'Z' then (c as int + 32) as char else c
  }

  function UpperChar(c: char): char {
    if 'a' <= c <= 'z' then (c as int - 32) as char else c
  }

  /** `s.toLowerCase()`, for ASCII letters. */
  function ToLower(s: string): (r: string)
    ensures |r| == |s|
    ensures forall i :: 0 <= i < |s| ==> r[i] == LowerChar(s[i])
    ensures forall i :: 0 <= i < |r| ==> !('A' <= r[i] <= 'Z')
  {
    seq(|s|, i requires 0 <= i < |s| => LowerChar(s[i]))
  }

  /** `s.toUpperCase()`, for ASCII letters. */
  function ToUpper(s: string): (r: string)
    ensures |r| == |s|
    ensures forall i :: 0 <= i < |s| ==> r[i] == UpperChar(s[i])
    ensures forall i :: 0 <= i < |r| ==> !('a' <= r[i] <= 'z')
  {
    seq(|s|, i requires 0 <= i < |s| => UpperChar(s[i]))
  }

  /** Lower-casing twice equals lower-casing once. */
  lemma ToLowerIdempotent(s: string)
    ensures ToLower(ToLower(s)) == ToLower(s)
  {
  }

  /** Upper-casing undoes lower-casing on a string with no lower-case letters. */
  lemma UpperOfLower(s: string)
    requires forall i :: 0 <= i < |s| ==> !('a' <= s[i] <= 'z')
    ensures ToUpper(ToLower(s)) == s
  {
  }

  /* ---------- joining and splitting ---------- */

  /** `parts.join(sep)`. */
  function Join(parts: seq<string>, sep: string): string {
    if |parts| == 0 then ""
    else if |parts| == 1 then parts[0]
    else parts[0] + sep + Join(parts[1..], sep)
  }

  /** Joining one more part appends the separator and the part. */
  lemma {:induction false} JoinSnoc(parts: seq<string>, last: string, sep: string)
    requires |parts| > 0
    ensures Join(parts + [last], sep) == Join(parts, sep) + sep + last
    decreases |parts|
  {
    if |parts| == 1 {
      assert parts + [last] == [parts[0], last];
    } else {
      assert (parts + [last])[1..] == parts[1..] + [last];
      JoinSnoc(parts[1..], last, sep);
    }
  }

  /** `s.split(c)` for a one-character separator: the pieces between separators. */
  function Split(s: string, c: char): (r: seq<string>)
    decreases |s|
    ensures |r| >= 1
    ensures forall i :: 0 <= i < |r| ==> c !in r[i]
    ensures Join(r, [c]) == s
  {
    if |s| == 0 then [""]
    else
      var rest := Split(s[1..], c);
      if s[0] == c then [""] + rest
      else [[s[0]] + rest[0]] + rest[1..]
  }

  /** Splitting undoes joining when no piece contains the separator. */
  lemma {:induction false} SplitJoin(parts: seq<string>, c: char)
    requires |parts| >= 1
    requires forall i :: 0 <= i < |parts| ==> c !in parts[i]
    ensures Split(Join(parts, [c]), c) == parts
    decreases |parts|, |parts[0]|
  {
    if |parts[0]| == 0 {
      if |parts| == 1 {
      } else {
        var tail := Join(parts[1..], [c]);
        assert Join(parts, [c]) == [c] + tail;
        SplitJoin(parts[1..], c);
      }
    } else {
      var p0 := parts[0];
      var shorter := [p0[1..]] + parts[1..];
      assert shorter[1..] == parts[1..];
      assert Join(parts, [c]) == [p0[0]] + Join(shorter, [c]);
      SplitJoin(shorter, c);
      assert p0 == [p0[0]] + shorter[0];
      assert parts == [p0] + parts[1..];
    }
  }

  /* ---------- first-match replacement ---------- */

  /**
   * The replacement text of `String.prototype.replace` with a string pattern:
   * "$$" gives "$", "$&" the match, "$`" the text before it, "$'" the text after
   * it; every other character is copied.
   */
  function Expand(rep: string, matched: string, before: string, after: string): (r: string)
    decreases |rep|
    ensures '$' !in rep ==> r == rep
    ensures rep == "$$" ==> r == "$"
    ensures rep == "$&" ==> r == matched
    ensures rep == "$`" ==> r == before
    ensures rep == "$'" ==> r == after
  {
    if |rep| == 0 then ""
    else if rep[0] == '$' && |rep| >= 2 && rep[1] in "$&`'" then
      var piece := if rep[1] == '$' then "$" else if rep[1] == '&' then matched
                   else if rep[1] == '`' then before else after;
      piece + Expand(rep[2..], matched, before, after)
    else [rep[0]] + Expand(rep[1..], matched, before, after)
  }

  /** Text without '$' in front of a replacement is copied and the rest expands on its own. */
  lemma {:induction false} ExpandPrefix(a: string, b: string, matched: string, before: string, after: string)
    requires '$' !in a
    ensures Expand(a + b, matched, before, after) == a + Expand(b, matched, before, after)
    decreases |a|
  {
    if |a| > 0 {
      assert (a + b)[0] == a[0] && (a + b)[1..] == a[1..] + b;
      assert '$' !in a[1..] && a[0] != '$';
      assert Expand(a + b, matched, before, after) == [a[0]] + Expand(a[1..] + b, matched, before, after);
      ExpandPrefix(a[1..], b, matched, before, after);
      assert a == [a[0]] + a[1..];
    } else {
      assert a + b == b;
    }
  }

  /** A two-character token in front of a replacement expands on its own, whatever follows it. */
  lemma ExpandToken(t: string, b: string, matched: string, before: string, after: string)
    requires t in ["$$", "$&", "$`", "$'"]
    ensures Expand(t + b, matched, before, after) == Expand(t, matched, before, after) + Expand(b, matched, before, after)
  {
    assert (t + b)[2..] == b;
    assert t[2..] == "";
  }

  /** `s.replace(pat, rep)` with a string pattern: only the first occurrence is replaced. */
  function ReplaceFirst(s: string, pat: string, rep: string): (r: string)
    ensures !Contains(s, pat) ==> r == s
    ensures Contains(s, pat) ==>
      var i := IndexOf(s, pat).value;
      r == s[..i] + Expand(rep, pat, s[..i], s[i + |pat|..]) + s[i + |pat|..]
  {
    match IndexOf(s, pat)
    case None => s
    case Some(i) => s[..i] + Expand(rep, pat, s[..i], s[i + |pat|..]) + s[i + |pat|..]
  }

  /** The replacement is spliced in at the first position where the pattern occurs, and nowhere else. */
  lemma ReplaceFirstAt(s: string, pat: string, rep: string, i: nat)
    requires OccursAt(s, pat, i)
    requires forall j: nat :: j < i ==> !OccursAt(s, pat, j)
    ensures ReplaceFirst(s, pat, rep) == s[..i] + Expand(rep, pat, s[..i], s[i + |pat|..]) + s[i + |pat|..]
  {
  }

  /** A string without the pattern is left as it is. */
  lemma ReplaceFirstAbsent(s: string, pat: string, rep: string)
    requires forall j: nat :: !OccursAt(s, pat, j)
    ensures ReplaceFirst(s, pat, rep) == s
  {
  }

  /**
   * Only the first occurrence changes: the text before it contains no occurrence,
   * and a literal replacement leaves everything after the replaced span as it was.
   */
  lemma ReplaceFirstOnlyFirst(s: string, pat: string, rep: string)
    requires Contains(s, pat)
    requires '$' !in rep
    ensures var i := IndexOf(s, pat).value;
      && ReplaceFirst(s, pat, rep) == s[..i] + rep + s[i + |pat|..]
      && forall j: nat :: j < i ==> !OccursAt(s, pat, j)
  {
  }

  /* ---------- UTF-16 length ---------- */

  /** The number of UTF-16 code units of `c`: two for a character outside the Basic Multilingual Plane. */
  function Utf16Units(c: char): nat {
    if c as int > 0xFFFF then 2 else 1
  }

  /** `s.length` in JavaScript, which counts UTF-16 code units rather than characters. */
  function Utf16Length(s: string): (r: nat)
    decreases |s|
    ensures |s| <= r <= 2 * |s|
    ensures (forall i :: 0 <= i < |s| ==> s[i] as int <= 0xFFFF) ==> r == |s|
    ensures (exists i :: 0 <= i < |s| && s[i] as int > 0xFFFF) ==> r > |s|
  {
    if |s| == 0 then 0
    else
      assert forall i :: 1 <= i < |s| ==> s[1..][i - 1] == s[i];
      Utf16Units(s[0]) + Utf16Length(s[1..])
  }

  /** The UTF-16 length of a concatenation is the sum of the parts' lengths. */
  lemma {:induction false} Utf16LengthAppend(a: string, b: string)
    ensures Utf16Length(a + b) == Utf16Length(a) + Utf16Length(b)
    decreases |a|
  {
    if |a| == 0 {
      assert a + b == b;
    } else {
      assert (a + b)[0] == a[0] && (a + b)[1..] == a[1..] + b;
      Utf16LengthAppend(a[1..], b);
    }
  }

  /* ---------- whitespace ---------- */

  /** The characters matched by `\s` in a JavaScript regular expression, which are also the ones `trim` removes. */
  predicate IsJsSpace(c: char) {
    || c == '\t' || c == '\n' || c == '\U{B}' || c == '\U{C}' || c == '\r' || c == ' '
    || c == '\U{A0}' || c == '\U{1680}' || ('\U{2000}' <= c <= '\U{200A}')
    || c == '\U{2028}' || c == '\U{2029}' || c == '\U{202F}' || c == '\U{205F}'
    || c == '\U{3000}' || c == '\U{FEFF}'
  }

  function TrimStart(s: string): (r: string)
    decreases |s|
    ensures |r| <= |s| && r == s[|s| - |r|..]
    ensures forall i :: 0 <= i < |s| - |r| ==> IsJsSpace(s[i])
    ensures |r| == 0 || !IsJsSpace(r[0])
  {
    if |s| > 0 && IsJsSpace(s[0]) then TrimStart(s[1..]) else s
  }

  function TrimEnd(s: string): (r: string)
    decreases |s|
    ensures |r| <= |s| && r == s[..|r|]
    ensures forall i :: |r| <= i < |s| ==> IsJsSpace(s[i])
    ensures |r| == 0 || !IsJsSpace(r[|r| - 1])
  {
    if |s| > 0 && IsJsSpace(s[|s| - 1]) then TrimEnd(s[..|s| - 1]) else s
  }

  /** `r` is the slice of `s` that starts at `k` and has only whitespace around it. */
  ghost predicate TrimmedAt(s: string, r: string, k: int) {
    && 0 <= k && k + |r| <= |s| && s[k..k + |r|] == r
    && (forall i :: 0 <= i < k ==> IsJsSpace(s[i]))
    && (forall i :: k + |r| <= i < |s| ==> IsJsSpace(s[i]))
  }

  /** `s.trim()`: the slice of `s` left once leading and trailing whitespace is gone. */
  function Trim(s: string): (r: string)
    ensures |r| == 0 || (!IsJsSpace(r[0]) && !IsJsSpace(r[|r| - 1]))
    ensures exists k :: TrimmedAt(s, r, k)
  {
    var a := TrimStart(s);
    var b := TrimEnd(a);
    TrimBothEnds(s, a, b, |s| - |a|);
    b
  }

  /** Cutting leading whitespace and then trailing whitespace leaves the trimmed text. */
  lemma TrimBothEnds(s: string, a: string, b: string, k: nat)
    requires k + |a| == |s| && a == s[k..]
    requires forall i :: 0 <= i < k ==> IsJsSpace(s[i])
    requires |b| <= |a| && b == a[..|b|]
    requires forall i :: |b| <= i < |a| ==> IsJsSpace(a[i])
    ensures TrimmedAt(s, b, k)
  {
    assert s[k..k + |b|] == b;
    forall i | k + |b| <= i < |s|
      ensures IsJsSpace(s[i])
    {
      assert s[i] == a[i - k];
    }
  }

  /* ---------- numbers ---------- */

  function DigitChar(d: nat): char
    requires d < 10
  {
    "0123456789"[d]
  }

  /** The decimal rendering of a natural number, as `String(n)` prints it. */
  function NatToString(n: nat): (r: string)
    ensures |r| >= 1
    ensures forall i :: 0 <= i < |r| ==> '0' <= r[i] <= '9'
    ensures n >= 10 ==> r[0] != '0'
  {
    if n < 10 then [DigitChar(n)] else NatToString(n / 10) + [DigitChar(n % 10)]
  }

  /** Removes every occurrence of `c` (`s.replace(/c/g, '')`). */
  function RemoveChar(s: string, c: char): (r: string)
    ensures c !in r
    ensures |r| <= |s|
    ensures c !in s ==> r == s
  {
    if |s| == 0 then ""
    else (if s[0] == c then "" else [s[0]]) + RemoveChar(s[1..], c)
  }
}
