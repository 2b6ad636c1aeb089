/**
  The handful of Python string operations the wizard and the CAPTURE template rely on:
  `str.strip()`, `str.upper()` (on ASCII letters), `str.split(sep)` and `sep.join(parts)`.
  Strings are sequences of Unicode scalar values.
 */
module Text {

  /** Python's `str.isspace()` for a single character: the ASCII controls TAB..CR and
      FS..US, the space, and the Unicode space and line/paragraph separators. */
  predicate IsSpace(c: char) {
    || ('\t' <= c <= '\r')
    || ('\U{1C}' <= c <= ' ')
    || c == '\U{85}' || c == '\U{A0}' || c == '\U{1680}'
    || ('\U{2000}' <= c <= '\U{200A}')
    || c == '\U{2028}' || c == '\U{2029}' || c == '\U{202F}' || c == '\U{205F}' || c == '\U{3000}'
  }

  predicate AllSpace(s: string) {
    forall i :: 0 <= i < |s| ==> IsSpace(s[i])
  }

  /** Neither end of `s` is whitespace (vacuously true of the empty string). */
  predicate NoEdgeSpace(s: string) {
    s == [] || (!IsSpace(s[0]) && !IsSpace(s[|s| - 1]))
  }

  /** The index of the first non-whitespace character of `s` at or after `k`
      (`|s|` if there is none). */
  function SkipSpaces(s: string, k: nat): (n: nat)
    requires k <= |s|
    ensures k <= n <= |s|
    ensures forall j :: k <= j < n ==> IsSpace(s[j])
    ensures n == |s| || !IsSpace(s[n])
    decreases |s| - k
  {
    if k < |s| && IsSpace(s[k]) then SkipSpaces(s, k + 1) else k
  }

  /** Scanning `s` backwards from `k` but not below `lo`: the end of the last
      non-whitespace character (`lo` if `s[lo..k]` is all whitespace). */
  function BackSpaces(s: string, lo: nat, k: nat): (n: nat)
    requires lo <= k <= |s|
    ensures lo <= n <= k
    ensures forall j :: n <= j < k ==> IsSpace(s[j])
    ensures n == lo || !IsSpace(s[n - 1])
    decreases k
  {
    if k > lo && IsSpace(s[k - 1]) then BackSpaces(s, lo, k - 1) else k
  }

  /** `s.rstrip()`: `s` without its trailing whitespace. */
  function RStrip(s: string): (r: string)
    ensures |r| <= |s| && r == s[..|r|]
    ensures forall k :: |r| <= k < |s| ==> IsSpace(s[k])
    ensures r == [] || !IsSpace(r[|r| - 1])
  {
    s[..BackSpaces(s, 0, |s|)]
  }

  /** `s.strip()`: scan forward over leading whitespace, then backward over trailing
      whitespace, and keep what lies between. The result has no whitespace at either
      end, is empty exactly when `s` is all whitespace, and is a slice of `s` outside
      which every character is whitespace. */
  function Strip(s: string): (r: string)
    ensures NoEdgeSpace(r)
    ensures r == [] <==> AllSpace(s)
    ensures var i := SkipSpaces(s, 0);
      && i + |r| <= |s| && r == s[i..i + |r|]
      && forall k :: 0 <= k < |s| && (k < i || i + |r| <= k) ==> IsSpace(s[k])
  {
    var i := SkipSpaces(s, 0);
    var j := BackSpaces(s, i, |s|);
    assert j > i ==> s[i..j][0] == s[i];
    s[i..j]
  }

  /** The stripped text is determined by where the non-whitespace begins and ends. */
  lemma StripUnique(s: string, i: nat, j: nat)
    requires i < j <= |s| && !IsSpace(s[i]) && !IsSpace(s[j - 1])
    requires forall k :: 0 <= k < |s| && (k < i || j <= k) ==> IsSpace(s[k])
    ensures Strip(s) == s[i..j]
  {
    var n := SkipSpaces(s, 0);
    assert n == i;
    var m := BackSpaces(s, i, |s|);
    assert m == j;
  }

  /** Likewise for `rstrip`: the result ends where the last non-whitespace character does. */
  lemma RStripUnique(s: string, j: nat)
    requires j <= |s| && (j == 0 || !IsSpace(s[j - 1]))
    requires forall k :: j <= k < |s| ==> IsSpace(s[k])
    ensures RStrip(s) == s[..j]
  {
    var m := BackSpaces(s, 0, |s|);
    assert m == j;
  }

  /** Stripping the right end of a concatenation: whitespace only reaches into `a`
      when `b` is all whitespace. */
  lemma RStripConcat(a: string, b: string)
    ensures RStrip(a + b) == if RStrip(b) == [] then RStrip(a) else a + RStrip(b)
  {
    var s := a + b;
    var rb := RStrip(b);
    if rb == [] {
      var ra := RStrip(a);
      assert s[|ra|..] == a[|ra|..] + b;
      RStripUnique(s, |ra|);
      assert s[..|ra|] == ra;
    } else {
      assert s[|a| + |rb| - 1] == rb[|rb| - 1];
      forall k | |a| + |rb| <= k < |s| ensures IsSpace(s[k]) {
        assert s[k] == b[k - |a|];
      }
      RStripUnique(s, |a| + |rb|);
      assert s[..|a| + |rb|] == a + rb;
    }
  }

  /** When `t` starts with a non-whitespace character, stripping whitespace-prefixed `t`
      only has its right end left to do. */
  lemma StripAnchored(a: string, t: string)
    requires AllSpace(a) && t != [] && !IsSpace(t[0])
    ensures Strip(a + t) == RStrip(t)
  {
    var s := a + t;
    var rt := RStrip(t);
    assert s[|a|] == t[0];
    assert rt != [] by { assert !IsSpace(t[0]); }
    forall k | 0 <= k < |s| && (k < |a| || |a| + |rt| <= k) ensures IsSpace(s[k]) {
      if k < |a| { assert s[k] == a[k]; } else { assert s[k] == t[k - |a|]; }
    }
    assert s[|a| + |rt| - 1] == rt[|rt| - 1];
    StripUnique(s, |a|, |a| + |rt|);
    assert s[|a|..|a| + |rt|] == rt;
  }

  /** Python's `c.upper()` restricted to ASCII letters; every other character is kept. */
  function UpperChar(c: char): char {
    if 'a' <= c <= 'z' then (c as int - 32) as char else c
  }

  /** `s.upper()`, character by character as `UpperChar`. */
  function Upper(s: string): (r: string)
    ensures |r| == |s|
  {
    seq(|s|, i requires 0 <= i < |s| => UpperChar(s[i]))
  }

  /** `s` equals `word` ignoring ASCII case, for an all-capitals `word`: every character
      of `s` is the capital letter or its lower-case form. */
  lemma UpperEqualsCapitals(s: string, word: string)
    requires forall i :: 0 <= i < |word| ==> 'A' <= word[i] <= 'Z'
    ensures Upper(s) == word <==>
      |s| == |word| && forall i :: 0 <= i < |s| ==> s[i] == word[i] || s[i] as int == word[i] as int + 32
  {
    if Upper(s) == word {
      forall i | 0 <= i < |s|
        ensures s[i] == word[i] || s[i] as int == word[i] as int + 32
      {
        assert UpperChar(s[i]) == word[i];
      }
    }
    if |s| == |word| && forall i :: 0 <= i < |s| ==> s[i] == word[i] || s[i] as int == word[i] as int + 32 {
      forall i | 0 <= i < |s| ensures Upper(s)[i] == word[i] {
        assert UpperChar(s[i]) == word[i];
      }
    }
  }

  /** `sep.join(parts)`: it begins with the first part. */
  function Join(parts: seq<string>, sep: char): (r: string)
    ensures |parts| >= 1 ==> |parts[0]| <= |r| && r[..|parts[0]|] == parts[0]
  {
    if |parts| == 0 then ""
    else if |parts| == 1 then parts[0]
    else parts[0] + [sep] + Join(parts[1..], sep)
  }

  /** Joining one more part adds a separator only when there was something before. */
  lemma {:induction false} JoinAppend(parts: seq<string>, x: string, sep: char)
    ensures Join(parts + [x], sep) == if parts == [] then x else Join(parts, sep) + [sep] + x
    decreases |parts|
  {
    if |parts| > 1 {
      assert (parts + [x])[1..] == parts[1..] + [x];
      JoinAppend(parts[1..], x, sep);
    } else if |parts| == 1 {
      assert (parts + [x])[1..] == [x];
    }
  }

  /** No part of `parts` contains the separator. */
  predicate SeparatorFree(parts: seq<string>, sep: char) {
    forall i :: 0 <= i < |parts| ==> sep !in parts[i]
  }

  /** `s.split(sep)` for a one-character `sep`: the maximal separator-free runs, empty
      ones included, so there is always at least one piece; joining them back with `sep`
      gives `s` again. */
  function Split(s: string, sep: char): (r: seq<string>)
    ensures |r| >= 1 && SeparatorFree(r, sep)
    ensures Join(r, sep) == s
  {
    if s == [] then [""]
    else
      var rest := Split(s[1..], sep);
      if s[0] == sep then
        assert s == [sep] + s[1..];
        [""] + rest
      else
        var r := [[s[0]] + rest[0]] + rest[1..];
        assert r[1..] == rest[1..];
        assert |rest| == 1 ==> s == [s[0]] + rest[0];
        assert |rest| > 1 ==> s == [s[0]] + (rest[0] + [sep] + Join(rest[1..], sep));
        r
  }

  /** Joining separator-free pieces and splitting again gives the same pieces back. */
  lemma {:induction false} SplitJoin(parts: seq<string>, sep: char)
    requires |parts| >= 1 && SeparatorFree(parts, sep)
    ensures Split(Join(parts, sep), sep) == parts
    decreases |parts|, |parts[0]|
  {
    if parts[0] == [] {
      if |parts| > 1 {
        assert Join(parts, sep) == [sep] + Join(parts[1..], sep);
        assert Join(parts, sep)[1..] == Join(parts[1..], sep);
        SplitJoin(parts[1..], sep);
        assert parts == [""] + parts[1..];
      }
    } else {
      var c := parts[0][0];
      var shorter := [parts[0][1..]] + parts[1..];
      assert parts[0] == [c] + parts[0][1..];
      assert Join(parts, sep) == [c] + Join(shorter, sep);
      assert Join(parts, sep)[1..] == Join(shorter, sep);
      assert SeparatorFree(shorter, sep) by {
        forall i | 0 <= i < |shorter| ensures sep !in shorter[i] {
          if i == 0 { assert sep !in parts[0]; } else { assert shorter[i] == parts[i]; }
        }
      }
      SplitJoin(shorter, sep);
      assert c != sep by { assert c == parts[0][0]; }
      assert shorter[1..] == parts[1..];
    }
  }

  /** A separator-free string is a single piece. */
  lemma SplitSingle(s: string, sep: char)
    requires sep !in s
    ensures Split(s, sep) == [s]
  {
    SplitJoin([s], sep);
  }
}
