/** String and number helpers with JavaScript's semantics, as the scrapers use them:
    `split` on a one-character separator, `replace` with a string pattern (first
    occurrence only), `replace(/\D/g, '')`, `slice(0, -1)`, `substring(0, n)` and
    `Number(...)` of a string. */
module Text {
  import opened Wrappers

  /** JavaScript truthiness of a string value: present and non-empty. */
  predicate Truthy(s: Field<string>)
  {
    s.Val? && s.v != ""
  }

  predicate IsDigit(c: char) { '0' <= c <= '9' }

  predicate AllDigits(s: string) { forall i :: 0 <= i < |s| ==> IsDigit(s[i]) }

  /** The characters JavaScript's `\s` class and `String.prototype.trim` treat as white space. */
  predicate IsJsSpace(c: char)
  {
    c == ' ' || c == '\t' || c == '\n' || c == '\U{000B}' || c == '\U{000C}' || c == '\r'
    || c == '\U{00A0}' || c == '\U{1680}' || ('\U{2000}' <= c <= '\U{200A}')
    || c == '\U{2028}' || c == '\U{2029}' || c == '\U{202F}' || c == '\U{205F}'
    || c == '\U{3000}' || c == '\U{FEFF}'
  }

  /** `s.replace(/\D/g, '')`: keep the decimal digits, in order. */
  function StripNonDigits(s: string): (r: string)
    ensures AllDigits(r)
    ensures |r| <= |s|
    ensures AllDigits(s) ==> r == s
    decreases |s|
  {
    if s == [] then []
    else (if IsDigit(s[0]) then [s[0]] else []) + StripNonDigits(s[1..])
  }

  /** The value of a string of decimal digits, most significant first. */
  function DecimalValue(s: string): (n: nat)
    requires AllDigits(s)
    decreases |s|
  {
    if s == [] then 0
    else DecimalValue(s[..|s| - 1]) * 10 + (s[|s| - 1] as int - '0' as int)
  }

  /** Appending a digit multiplies the value by ten and adds the digit; with the
      empty string denoting 0 this pins DecimalValue down completely. */
  lemma DecimalValueAppend(s: string, c: char)
    requires AllDigits(s) && IsDigit(c)
    ensures AllDigits(s + [c])
    ensures DecimalValue(s + [c]) == DecimalValue(s) * 10 + (c as int - '0' as int)
  {
    assert (s + [c])[..|s + [c]| - 1] == s;
  }

  /** A value of at most k digits is below 10^k. */
  lemma {:induction false} DecimalValueBound(s: string)
    requires AllDigits(s)
    ensures DecimalValue(s) < Pow10(|s|)
    decreases |s|
  {
    if s != [] {
      DecimalValueBound(s[..|s| - 1]);
    }
  }

  function Pow10(k: nat): (p: nat)
    ensures p >= 1
  {
    if k == 0 then 1 else 10 * Pow10(k - 1)
  }

  /** String.prototype.trim. */
  function Trim(s: string): (r: string)
    ensures |r| <= |s|
    ensures r != [] ==> !IsJsSpace(r[0]) && !IsJsSpace(r[|r| - 1])
    decreases |s|
  {
    if s == [] then []
    else if IsJsSpace(s[0]) then Trim(s[1..])
    else if IsJsSpace(s[|s| - 1]) then Trim(s[..|s| - 1])
    else s
  }

  /** The result of JavaScript's `Number(...)`: an integer or NaN. */
  datatype NumVal = Num(n: int) | NaN

  /** `Number(s)` of a string, over decimal digit strings: surrounding white space is
      ignored, the empty string is 0, digits give their value and anything else is NaN
      (signs, decimal points, exponents and hexadecimal are not modelled). */
  function JsNumber(s: string): (r: NumVal)
    ensures AllDigits(s) ==> r == Num(DecimalValue(s))
    ensures r.Num? ==> r.n >= 0
  {
    var t := Trim(s);
    if AllDigits(s) then
      TrimDigits(s);
      Num(DecimalValue(s))
    else if t == [] then Num(0)
    else if AllDigits(t) then Num(DecimalValue(t))
    else NaN
  }

  /** Trimming a digit string (the empty one included) removes nothing. */
  lemma TrimDigits(s: string)
    requires AllDigits(s)
    ensures Trim(s) == s
  {
  }

  /** `Number(s.replace(/\D/g, ''))` is never NaN: it is the value of the digits of `s`,
      0 when `s` has none. */
  lemma NumberOfDigits(s: string)
    ensures JsNumber(StripNonDigits(s)) == Num(DecimalValue(StripNonDigits(s)))
    ensures StripNonDigits(s) == [] ==> JsNumber(StripNonDigits(s)) == Num(0)
  {
  }

  /** JavaScript `+` on two results of Number(): NaN is absorbing. */
  function AddNum(a: NumVal, b: NumVal): (r: NumVal)
    ensures r.Num? <==> a.Num? && b.Num?
    ensures r.Num? ==> r.n == a.n + b.n
  {
    if a.Num? && b.Num? then Num(a.n + b.n) else NaN
  }

  /** `s.split(sep)` for a one-character separator: the maximal runs between separators. */
  function Split(s: string, sep: char): (parts: seq<string>)
    ensures |parts| >= 1
    ensures forall k :: 0 <= k < |parts| ==> sep !in parts[k]
    decreases |s|
  {
    if s == [] then [[]]
    else
      var rest := Split(s[1..], sep);
      if s[0] == sep then [[]] + rest
      else [[s[0]] + rest[0]] + rest[1..]
  }

  /** `parts.join(sep)`. */
  function Join(parts: seq<string>, sep: char): string
    requires |parts| >= 1
    decreases |parts|
  {
    if |parts| == 1 then parts[0] else parts[0] + [sep] + Join(parts[1..], sep)
  }

  /** Splitting loses nothing: joining the parts with the separator gives the string back. */
  lemma {:induction false} SplitJoin(s: string, sep: char)
    ensures Join(Split(s, sep), sep) == s
    decreases |s|
  {
    if s != [] {
      SplitJoin(s[1..], sep);
      var rest := Split(s[1..], sep);
      if s[0] == sep {
        assert Split(s, sep) == [[]] + rest;
        assert ([[]] + rest)[1..] == rest;
      } else {
        var parts := Split(s, sep);
        assert parts == [[s[0]] + rest[0]] + rest[1..];
        if |rest| == 1 {
          assert parts == [[s[0]] + rest[0]];
        } else {
          assert parts[1..] == rest[1..];
          assert Join(rest, sep) == rest[0] + [sep] + Join(rest[1..], sep);
        }
      }
    }
  }

  /** A string without the separator is one part. */
  lemma {:induction false} SplitNoSeparator(s: string, sep: char)
    requires sep !in s
    ensures Split(s, sep) == [s]
    decreases |s|
  {
    if s != [] {
      SplitNoSeparator(s[1..], sep);
      assert [s[0]] + s[1..] == s;
    }
  }

  /** A part without the separator, the separator, and the rest: the part comes first,
      then the parts of the rest. */
  lemma {:induction false} SplitAfterPart(a: string, sep: char, rest: string)
    requires sep !in a
    ensures Split(a + [sep] + rest, sep) == [a] + Split(rest, sep)
    decreases |a|
  {
    if a == [] {
      assert [] + [sep] + rest == [sep] + rest;
      assert ([sep] + rest)[1..] == rest;
    } else {
      SplitAfterPart(a[1..], sep, rest);
      var s := a + [sep] + rest;
      assert s[1..] == a[1..] + [sep] + rest;
      assert [a[0]] + a[1..] == a;
    }
  }

  /** `pat` occurs in `s` at position i. */
  predicate OccursAt(s: string, pat: string, i: nat)
  {
    i + |pat| <= |s| && s[i..i + |pat|] == pat
  }

  /** `s.indexOf(pat)`, or None for -1. */
  function IndexOf(s: string, pat: string, from: nat := 0): (r: Option<nat>)
    requires from <= |s|
    ensures r.Some? ==> (from <= r.value && OccursAt(s, pat, r.value)
                         && forall j :: from <= j < r.value ==> !OccursAt(s, pat, j))
    ensures r.None? ==> forall j :: from <= j <= |s| ==> !OccursAt(s, pat, j)
    decreases |s| - from
  {
    if OccursAt(s, pat, from) then Some(from)
    else if from == |s| then None
    else IndexOf(s, pat, from + 1)
  }

  /** The start of the rightmost occurrence of `pat` in `s` at or before `upto`. */
  function LastIndexOf(s: string, pat: string, upto: nat): (r: Option<nat>)
    ensures r.Some? ==> (r.value <= upto && OccursAt(s, pat, r.value)
                         && forall j :: r.value < j <= upto ==> !OccursAt(s, pat, j))
    ensures r.None? ==> forall j :: 0 <= j <= upto ==> !OccursAt(s, pat, j)
  {
    if OccursAt(s, pat, upto) then Some(upto)
    else if upto == 0 then None
    else LastIndexOf(s, pat, upto - 1)
  }

  /** `s.split(pat).pop()` for a separator that cannot overlap itself (such as
      "/sag-"): the text after the last occurrence, or all of `s` when there is none. */
  function AfterLast(s: string, pat: string): (r: string)
    requires |pat| > 0
  {
    match LastIndexOf(s, pat, |s|)
    case None => s
    case Some(i) => s[i + |pat|..]
  }

  /** `AfterLast` is a suffix of `s` that `pat` does not occur in; when `pat` occurs,
      it is preceded by an occurrence of `pat`. */
  lemma AfterLastSpec(s: string, pat: string)
    requires |pat| > 0
    ensures |AfterLast(s, pat)| <= |s|
    ensures AfterLast(s, pat) == s[|s| - |AfterLast(s, pat)|..]
    ensures forall j :: 0 <= j <= |AfterLast(s, pat)| ==> !OccursAt(AfterLast(s, pat), pat, j)
    ensures (exists j :: 0 <= j <= |s| && OccursAt(s, pat, j)) ==>
      OccursAt(s, pat, |s| - |AfterLast(s, pat)| - |pat|)
  {
    var r := AfterLast(s, pat);
    match LastIndexOf(s, pat, |s|)
    case None =>
    case Some(i) =>
      forall j | 0 <= j <= |r| ensures !OccursAt(r, pat, j) {
        if OccursAt(r, pat, j) {
          assert s[i + |pat| + j..i + |pat| + j + |pat|] == r[j..j + |pat|];
          assert OccursAt(s, pat, i + |pat| + j);
        }
      }
  }

  /** `s.slice(0, -1)`: drop the final character (nothing to drop in the empty string). */
  function DropLast(s: string): (r: string)
    ensures |s| > 0 ==> r + [s[|s| - 1]] == s
    ensures |s| == 0 ==> r == []
  {
    if s == [] then [] else s[..|s| - 1]
  }

  /** `s.substring(0, n)`. */
  function Prefix(s: string, n: nat): (r: string)
    ensures |r| == if |s| < n then |s| else n
    ensures r == s[..|r|]
  {
    if |s| <= n then s else s[..n]
  }

  /** `s.replace(pat, rep)` with a string pattern: only the first occurrence is replaced
      (`rep` contains no `$` patterns here). */
  function ReplaceFirst(s: string, pat: string, rep: string): (r: string)
  {
    match IndexOf(s, pat)
    case None => s
    case Some(i) => s[..i] + rep + s[i + |pat|..]
  }

  /** Nothing changes when the pattern does not occur; otherwise exactly the leftmost
      occurrence is exchanged and everything around it is kept. */
  lemma ReplaceFirstSpec(s: string, pat: string, rep: string)
    ensures (forall j :: 0 <= j <= |s| ==> !OccursAt(s, pat, j)) ==> ReplaceFirst(s, pat, rep) == s
    ensures forall i :: 0 <= i <= |s| && OccursAt(s, pat, i) && (forall j :: 0 <= j < i ==> !OccursAt(s, pat, j)) ==>
      ReplaceFirst(s, pat, rep) == s[..i] + rep + s[i + |pat|..]
  {
    match IndexOf(s, pat)
    case None =>
    case Some(k) =>
      forall i | 0 <= i <= |s| && OccursAt(s, pat, i) && (forall j :: 0 <= j < i ==> !OccursAt(s, pat, j))
        ensures i == k
      {
      }
  }

  /** The concatenation of the text chunks a rewriter callback appends (`acc += text`). */
  function Concat(chunks: seq<string>): (r: string)
    decreases |chunks|
  {
    if chunks == [] then [] else Concat(chunks[..|chunks| - 1]) + chunks[|chunks| - 1]
  }

  /** The accumulated text is as long as all chunks together, and each chunk sits in it
      after the chunks before it. */
  lemma {:induction false} ConcatSpec(chunks: seq<string>, k: nat)
    requires k < |chunks|
    ensures |Concat(chunks[..k])| + |chunks[k]| <= |Concat(chunks)|
    ensures Concat(chunks)[|Concat(chunks[..k])|..|Concat(chunks[..k])| + |chunks[k]|] == chunks[k]
    decreases |chunks|
  {
    if k == |chunks| - 1 {
      assert chunks[..|chunks| - 1] == chunks[..k];
    } else {
      var init := chunks[..|chunks| - 1];
      assert init[..k] == chunks[..k];
      assert init[k] == chunks[k];
      ConcatSpec(init, k);
      var c := Concat(chunks);
      assert c == Concat(init) + chunks[|chunks| - 1];
      var lo := |Concat(chunks[..k])|;
      assert c[lo..lo + |chunks[k]|] == Concat(init)[lo..lo + |chunks[k]|];
    }
  }

  /** The accumulation loop of a text callback: appends each chunk in turn. */
  method Accumulate(chunks: seq<string>) returns (acc: string)
    ensures acc == Concat(chunks)
  {
    acc := "";
    for i := 0 to |chunks|
      invariant acc == Concat(chunks[..i])
    {
      assert chunks[..i + 1][..i] == chunks[..i];
      acc := acc + chunks[i];
    }
    assert chunks[..|chunks|] == chunks;
  }
}
