/** The address slug the processor stores with every new address: the address text
    lower-cased for Danish, each run of white space and commas turned into one '-', the
    first 'æ', 'ø' and 'å' transliterated to "ae", "oe" and "aa", and then every character
    other than an ASCII letter, digit, '_' or '-' deleted. */
module Slugs {
  import opened Wrappers
  import opened Text

  /** `toLocaleLowerCase('da-DK')` of one character, for ASCII and the Latin-1 capitals
      (which include Æ, Ø and Å); other characters are left as they are. */
  function LowerChar(c: char): (r: char)
    ensures !('A' <= r <= 'Z')
    ensures ('A' <= c <= 'Z') ==> r as int == c as int + 32
    ensures !('A' <= c <= 'Z') && !('À' <= c <= 'Þ') ==> r == c
  {
    if 'A' <= c <= 'Z' || ('À' <= c <= 'Þ' && c != '×') then (c as int + 32) as char else c
  }

  function Lower(s: string): (r: string)
    ensures |r| == |s|
    ensures forall i :: 0 <= i < |s| ==> r[i] == LowerChar(s[i])
  {
    seq(|s|, i requires 0 <= i < |s| => LowerChar(s[i]))
  }

  /** The class `[\s,]`. */
  predicate IsGap(c: char)
  {
    IsJsSpace(c) || c == ','
  }

  /** `replace(/[\s,]+/g, '-')`: a run of gap characters becomes one '-', written where
      the run ends. */
  function DashRuns(s: string): (r: string)
    decreases |s|
  {
    if s == [] then []
    else
      (if IsGap(s[0]) then (if |s| > 1 && IsGap(s[1]) then [] else "-") else [s[0]]) + DashRuns(s[1..])
  }

  /** The class `[\w-]`: ASCII letters and digits, '_' and '-'. */
  predicate IsWordOrDash(c: char)
  {
    'a' <= c <= 'z' || 'A' <= c <= 'Z' || '0' <= c <= '9' || c == '_' || c == '-'
  }

  /** `replace(/[^\w-]+/g, '')`: keep the word characters and dashes, in order. */
  function KeepWord(s: string): (r: string)
    ensures |r| <= |s|
    ensures forall i :: 0 <= i < |r| ==> IsWordOrDash(r[i])
    ensures (forall i :: 0 <= i < |s| ==> IsWordOrDash(s[i])) ==> r == s
    decreases |s|
  {
    if s == [] then [] else (if IsWordOrDash(s[0]) then [s[0]] else []) + KeepWord(s[1..])
  }

  /** The slug of an address text (`betegnelse`). */
  function Slug(text: string): (r: string)
    ensures forall i :: 0 <= i < |r| ==> IsWordOrDash(r[i])
  {
    KeepWord(ReplaceFirst(ReplaceFirst(ReplaceFirst(DashRuns(Lower(text)), "æ", "ae"), "ø", "oe"), "å", "aa"))
  }

  /** The characters a slug may hold: lower-case ASCII letters, digits, '_' and '-'. */
  predicate IsSlugChar(c: char)
  {
    'a' <= c <= 'z' || '0' <= c <= '9' || c == '_' || c == '-'
  }

  predicate NoUpper(s: string)
  {
    forall i :: 0 <= i < |s| ==> !('A' <= s[i] <= 'Z')
  }

  /** Collapsing gaps leaves no gap character and adds only dashes. */
  lemma {:induction false} DashRunsChars(s: string)
    ensures forall i :: 0 <= i < |DashRuns(s)| ==> !IsGap(DashRuns(s)[i])
    ensures NoUpper(s) ==> NoUpper(DashRuns(s))
    ensures (forall i :: 0 <= i < |s| ==> !IsGap(s[i])) ==> DashRuns(s) == s
    decreases |s|
  {
    if s != [] {
      DashRunsChars(s[1..]);
      var head: string := if IsGap(s[0]) then (if |s| > 1 && IsGap(s[1]) then [] else "-") else [s[0]];
      assert DashRuns(s) == head + DashRuns(s[1..]);
      if NoUpper(s) {
        assert NoUpper(s[1..]) by {
          forall i | 0 <= i < |s[1..]| ensures !('A' <= s[1..][i] <= 'Z') {
            assert s[1..][i] == s[i + 1];
          }
        }
      }
      if forall i :: 0 <= i < |s| ==> !IsGap(s[i]) {
        assert forall i :: 0 <= i < |s[1..]| ==> s[1..][i] == s[i + 1];
        assert [s[0]] + s[1..] == s;
      }
    }
  }

  /** Replacing the first occurrence with lower-case text adds no capital. */
  lemma ReplaceFirstNoUpper(s: string, pat: string, rep: string)
    requires NoUpper(s) && NoUpper(rep)
    ensures NoUpper(ReplaceFirst(s, pat, rep))
  {
    match IndexOf(s, pat)
    case None =>
    case Some(i) =>
      var r := ReplaceFirst(s, pat, rep);
      forall k | 0 <= k < |r| ensures !('A' <= r[k] <= 'Z') {
        if k < i {
          assert r[k] == s[k];
        } else if k < i + |rep| {
          assert r[k] == rep[k - i];
        } else {
          assert r[k] == s[k - |rep| + |pat|];
        }
      }
  }

  /** Every character of a slug is a lower-case ASCII letter, a digit, '_' or '-'. */
  lemma SlugChars(text: string)
    ensures forall i :: 0 <= i < |Slug(text)| ==> IsSlugChar(Slug(text)[i])
  {
    var d := DashRuns(Lower(text));
    DashRunsChars(Lower(text));
    ReplaceFirstNoUpper(d, "æ", "ae");
    var a := ReplaceFirst(d, "æ", "ae");
    ReplaceFirstNoUpper(a, "ø", "oe");
    var b := ReplaceFirst(a, "ø", "oe");
    ReplaceFirstNoUpper(b, "å", "aa");
    var c := ReplaceFirst(b, "å", "aa");
    KeepWordKeepsNoUpper(c);
  }

  /** Deleting characters keeps a string free of capitals. */
  lemma {:induction false} KeepWordKeepsNoUpper(s: string)
    requires NoUpper(s)
    ensures NoUpper(KeepWord(s))
    decreases |s|
  {
    if s != [] {
      assert NoUpper(s[1..]) by {
        forall i | 0 <= i < |s[1..]| ensures !('A' <= s[1..][i] <= 'Z') {
          assert s[1..][i] == s[i + 1];
        }
      }
      KeepWordKeepsNoUpper(s[1..]);
      var head: string := if IsWordOrDash(s[0]) then [s[0]] else [];
      assert KeepWord(s) == head + KeepWord(s[1..]);
    }
  }

  /** A string of slug characters does not contain `pat` when `pat` starts with a
      character that is not one. */
  lemma ReplaceFirstAbsent(s: string, pat: string, rep: string)
    requires forall i :: 0 <= i < |s| ==> IsSlugChar(s[i])
    requires |pat| > 0 && !IsSlugChar(pat[0])
    ensures ReplaceFirst(s, pat, rep) == s
  {
    forall j | 0 <= j <= |s| ensures !OccursAt(s, pat, j) {
    }
    ReplaceFirstSpec(s, pat, rep);
  }

  /** Lower-casing leaves slug characters alone. */
  lemma LowerSlug(s: string)
    requires forall i :: 0 <= i < |s| ==> IsSlugChar(s[i])
    ensures Lower(s) == s
  {
    assert forall i :: 0 <= i < |s| ==> Lower(s)[i] == s[i];
  }

  /** A string of slug characters is its own slug. */
  lemma SlugOfSlugChars(s: string)
    requires forall i :: 0 <= i < |s| ==> IsSlugChar(s[i])
    ensures Slug(s) == s
  {
    LowerSlug(s);
    DashRunsChars(s);
    var d := DashRuns(Lower(s));
    assert d == s;
    ReplaceFirstAbsent(s, "æ", "ae");
    ReplaceFirstAbsent(s, "ø", "oe");
    ReplaceFirstAbsent(s, "å", "aa");
    KeepWordSlug(s);
  }

  /** Deleting non-word characters leaves slug characters alone. */
  lemma KeepWordSlug(s: string)
    requires forall i :: 0 <= i < |s| ==> IsSlugChar(s[i])
    ensures KeepWord(s) == s
  {
    assert forall i :: 0 <= i < |s| ==> IsWordOrDash(s[i]);
  }

  /** A slug is its own slug. */
  lemma SlugIdempotent(text: string)
    ensures Slug(Slug(text)) == Slug(text)
  {
    SlugChars(text);
    SlugOfSlugChars(Slug(text));
  }

  /** A one-letter pattern that does not occur is not replaced. */
  lemma LetterAbsent(s: string, c: char, rep: string)
    requires c !in s
    ensures ReplaceFirst(s, [c], rep) == s
  {
    forall j | 0 <= j <= |s| ensures !OccursAt(s, [c], j) {
      assert j < |s| ==> s[j..j + 1] == [s[j]];
    }
    ReplaceFirstSpec(s, [c], rep);
  }

  /** Only the first 'æ' is transliterated; a second one is deleted with the other
      non-word characters. */
  lemma SecondLetterIsDropped()
    ensures Slug("Ææ") == "ae"
  {
    LowerAndDash();
    assert OccursAt("ææ", "æ", 0);
    assert ReplaceFirst("ææ", "æ", "ae") == "aeæ";
    LetterAbsent("aeæ", 'ø', "oe");
    LetterAbsent("aeæ", 'å', "aa");
    KeepLetters();
  }

  lemma LowerAndDash()
    ensures DashRuns(Lower("Ææ")) == "ææ"
  {
    assert Lower("Ææ") == "ææ";
    assert DashRuns("æ") == "æ";
  }

  lemma KeepLetters()
    ensures KeepWord("aeæ") == "ae"
  {
    assert KeepWord("æ") == "";
    assert KeepWord("eæ") == "e";
  }
}
