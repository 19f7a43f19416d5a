/** The Ruby String operations the strategy relies on: `split` on a
    separator, `Array#join`, `gsub` and `index` with a literal pattern, and
    `Integer#to_s`. */
module Text {
  import opened RubyValues

  /** No character of s belongs to cs. */
  predicate NoneIn(s: string, cs: set<char>)
  {
    forall i :: 0 <= i < |s| ==> s[i] !in cs
  }

  predicate IsPrefix(p: string, s: string)
  {
    |p| <= |s| && s[..|p|] == p
  }

  /** pat occurs in s starting at index j. */
  predicate MatchAt(s: string, pat: string, j: nat)
  {
    j + |pat| <= |s| && s[j..j + |pat|] == pat
  }

  // ---------------------------------------------------------------------
  // Splitting and joining

  /** s cut at every character of seps: n separators give n + 1 fields,
      empty ones included. Ruby's `split` is this followed by dropping
      some of the empty fields (see SplitWhitespace, SplitComma). */
  function Fields(s: string, seps: set<char>): (r: seq<string>)
    ensures |r| >= 1
    ensures forall i :: 0 <= i < |r| ==> NoneIn(r[i], seps)
  {
    if s == [] then [""]
    else
      var rest := Fields(s[1..], seps);
      if s[0] in seps then [""] + rest
      else [[s[0]] + rest[0]] + rest[1..]
  }

  /** Array#join. */
  function Join(xs: seq<string>, sep: string): string
  {
    if |xs| == 0 then ""
    else if |xs| == 1 then xs[0]
    else xs[0] + sep + Join(xs[1..], sep)
  }

  /** Joining pieces free of some characters with a separator free of them
      gives a string free of them, and no shorter than the first piece. */
  lemma {:induction false} JoinAvoid(xs: seq<string>, sep: string, cs: set<char>)
    requires forall i :: 0 <= i < |xs| ==> NoneIn(xs[i], cs)
    requires NoneIn(sep, cs)
    ensures NoneIn(Join(xs, sep), cs)
    ensures |xs| >= 1 ==> |Join(xs, sep)| >= |xs[0]|
  {
    if |xs| > 1 {
      JoinAvoid(xs[1..], sep, cs);
      var rest := Join(xs[1..], sep);
      assert Join(xs, sep) == xs[0] + sep + rest;
      forall i | 0 <= i < |xs[0] + sep + rest| ensures (xs[0] + sep + rest)[i] !in cs {
        if i < |xs[0]| {
          assert (xs[0] + sep + rest)[i] == xs[0][i];
        } else if i < |xs[0]| + |sep| {
          assert (xs[0] + sep + rest)[i] == sep[i - |xs[0]|];
        } else {
          assert (xs[0] + sep + rest)[i] == rest[i - |xs[0]| - |sep|];
        }
      }
    }
  }

  /** A check on `Fields` itself: the fields of s, separated again by the
      one separator, give back s, so cutting loses no character. */
  lemma {:induction false} JoinFields(s: string, c: char)
    ensures Join(Fields(s, {c}), [c]) == s
  {
    if s != [] {
      var rest := Fields(s[1..], {c});
      JoinFields(s[1..], c);
      if s[0] == c {
        assert Fields(s, {c}) == [""] + rest;
        assert ([""] + rest)[1..] == rest;
      } else if |rest| == 1 {
        assert Fields(s, {c}) == [[s[0]] + rest[0]];
      } else {
        var r := [[s[0]] + rest[0]] + rest[1..];
        assert Fields(s, {c}) == r;
        assert r[1..] == rest[1..];
        assert Join(rest, [c]) == rest[0] + [c] + Join(rest[1..], [c]);
        assert s == [s[0]] + s[1..];
      }
    }
  }

  /** A string without separators is one field. */
  lemma {:induction false} FieldsOfPlain(a: string, seps: set<char>)
    requires NoneIn(a, seps)
    ensures Fields(a, seps) == [a]
  {
    if a != [] {
      FieldsOfPlain(a[1..], seps);
      assert a == [a[0]] + a[1..];
    }
  }

  /** A separator right after a separator-free prefix closes the first field. */
  lemma {:induction false} FieldsAfterPlain(a: string, c: char, b: string, seps: set<char>)
    requires NoneIn(a, seps) && c in seps
    ensures Fields(a + [c] + b, seps) == [a] + Fields(b, seps)
  {
    var s := a + [c] + b;
    if a == [] {
      assert s[1..] == b;
    } else {
      assert s[1..] == a[1..] + [c] + b;
      FieldsAfterPlain(a[1..], c, b, seps);
      assert a == [a[0]] + a[1..];
    }
  }

  /** Joining separator-free pieces and cutting the result apart again
      gives back the pieces. */
  lemma {:induction false} FieldsOfJoin(xs: seq<string>, c: char, seps: set<char>)
    requires |xs| >= 1 && c in seps
    requires forall i :: 0 <= i < |xs| ==> NoneIn(xs[i], seps)
    ensures Fields(Join(xs, [c]), seps) == xs
  {
    if |xs| == 1 {
      FieldsOfPlain(xs[0], seps);
    } else {
      FieldsAfterPlain(xs[0], c, Join(xs[1..], [c]), seps);
      FieldsOfJoin(xs[1..], c, seps);
      assert xs == [xs[0]] + xs[1..];
    }
  }

  /** Fields of s hold only characters of s. */
  lemma {:induction false} FieldsAvoid(s: string, seps: set<char>, cs: set<char>)
    requires NoneIn(s, cs)
    ensures forall i :: 0 <= i < |Fields(s, seps)| ==> NoneIn(Fields(s, seps)[i], cs)
  {
    if s != [] {
      FieldsAvoid(s[1..], seps, cs);
      var rest := Fields(s[1..], seps);
      if s[0] !in seps {
        var r := [[s[0]] + rest[0]] + rest[1..];
        assert Fields(s, seps) == r;
        forall i | 0 <= i < |r| ensures NoneIn(r[i], cs) {
          if i == 0 {
            assert NoneIn(rest[0], cs);
          } else {
            assert r[i] == rest[i];
          }
        }
      }
    }
  }

  /** The fields that are not empty, in order. */
  function NonEmpty(xs: seq<string>): (r: seq<string>)
    ensures forall i :: 0 <= i < |r| ==> r[i] != "" && r[i] in xs
    ensures (forall i :: 0 <= i < |xs| ==> xs[i] != "") ==> r == xs
  {
    if xs == [] then []
    else if xs[0] == "" then NonEmpty(xs[1..])
    else [xs[0]] + NonEmpty(xs[1..])
  }

  /** The fields up to the last non-empty one. */
  function DropTrailingEmpty(xs: seq<string>): (r: seq<string>)
    ensures |r| <= |xs| && r == xs[..|r|]
    ensures r == [] || r[|r| - 1] != ""
  {
    if xs != [] && xs[|xs| - 1] == "" then DropTrailingEmpty(xs[..|xs| - 1]) else xs
  }

  // ---------------------------------------------------------------------
  // Searching and replacing a literal pattern

  /** String#index: the first position where pat occurs. */
  function IndexOf(s: string, pat: string): (r: Option<nat>)
    requires pat != []
    ensures r.Some? ==> MatchAt(s, pat, r.value)
    ensures r.Some? ==> forall j: nat :: j < r.value ==> !MatchAt(s, pat, j)
    ensures r.None? ==> forall j: nat :: !MatchAt(s, pat, j)
    decreases |s|
  {
    if |s| < |pat| then None
    else if s[..|pat|] == pat then Some(0)
    else
      var t := IndexOf(s[1..], pat);
      assert forall j: nat | 1 <= j :: MatchAt(s, pat, j) <==> MatchAt(s[1..], pat, j - 1) by {
        forall j: nat | 1 <= j ensures MatchAt(s, pat, j) <==> MatchAt(s[1..], pat, j - 1) {
          if j + |pat| <= |s| {
            assert s[1..][j - 1..j - 1 + |pat|] == s[j..j + |pat|];
          }
        }
      }
      assert !MatchAt(s, pat, 0);
      if t.None? then None else Some(t.value + 1)
  }

  /** String#gsub with a literal pattern: occurrences are found left to right
      and do not overlap; the replacement text is not searched again. */
  function ReplaceAll(s: string, pat: string, rep: string): string
    requires pat != []
    decreases |s|
  {
    if |s| < |pat| then s
    else if s[..|pat|] == pat then rep + ReplaceAll(s[|pat|..], pat, rep)
    else [s[0]] + ReplaceAll(s[1..], pat, rep)
  }

  /** gsub changes nothing when the pattern does not occur. */
  lemma {:induction false} ReplaceAbsent(s: string, pat: string, rep: string)
    requires pat != []
    requires forall j: nat :: !MatchAt(s, pat, j)
    ensures ReplaceAll(s, pat, rep) == s
    decreases |s|
  {
    if |s| >= |pat| {
      assert !MatchAt(s, pat, 0);
      forall j: nat ensures !MatchAt(s[1..], pat, j) {
        assert !MatchAt(s, pat, j + 1);
        if j + |pat| <= |s[1..]| {
          assert s[1..][j..j + |pat|] == s[j + 1..j + 1 + |pat|];
        }
      }
      ReplaceAbsent(s[1..], pat, rep);
      assert s == [s[0]] + s[1..];
    }
  }

  /** gsub copies a prefix in which no occurrence starts. */
  lemma {:induction false} ReplaceSkip(a: string, b: string, pat: string, rep: string)
    requires pat != []
    requires forall j: nat :: j < |a| ==> !MatchAt(a + b, pat, j)
    ensures ReplaceAll(a + b, pat, rep) == a + ReplaceAll(b, pat, rep)
    decreases |a|
  {
    var s := a + b;
    if a != [] {
      if |s| < |pat| {
        assert ReplaceAll(b, pat, rep) == b;
      } else {
        assert !MatchAt(s, pat, 0);
        assert s[1..] == a[1..] + b;
        forall j: nat | j < |a[1..]| ensures !MatchAt(a[1..] + b, pat, j) {
          assert !MatchAt(s, pat, j + 1);
          if j + |pat| <= |s[1..]| {
            assert s[1..][j..j + |pat|] == s[j + 1..j + 1 + |pat|];
          }
        }
        ReplaceSkip(a[1..], b, pat, rep);
        assert s[..|pat|] != pat;
        assert ReplaceAll(s, pat, rep) == [s[0]] + ReplaceAll(s[1..], pat, rep);
        assert a == [a[0]] + a[1..];
      }
    } else {
      assert s == b;
    }
  }

  /** No occurrence of pat anywhere in s. */
  ghost predicate NoMatch(s: string, pat: string)
  {
    forall j: nat :: !MatchAt(s, pat, j)
  }

  /** A character outside cs in front of a text avoiding cs. */
  lemma PrependAvoid(c: char, s: string, cs: set<char>)
    requires c !in cs && NoneIn(s, cs)
    ensures NoneIn([c] + s, cs)
  {
    forall i | 0 <= i < |[c] + s| ensures ([c] + s)[i] !in cs {
      if i > 0 {
        assert ([c] + s)[i] == s[i - 1];
      }
    }
  }

  /** A suffix of a string without occurrences has none either. */
  lemma NoMatchSuffix(s: string, pat: string, k: nat)
    requires k <= |s| && NoMatch(s, pat)
    ensures NoMatch(s[k..], pat)
  {
    forall j: nat ensures !MatchAt(s[k..], pat, j) {
      assert !MatchAt(s, pat, j + k);
      if j + |pat| <= |s[k..]| {
        assert s[k..][j..j + |pat|] == s[j + k..j + k + |pat|];
      }
    }
  }

  // ---------------------------------------------------------------------
  // Integer#to_s

  predicate IsDigits(s: string)
  {
    forall i :: 0 <= i < |s| ==> '0' <= s[i] <= '9'
  }

  function DigitChar(d: nat): char
    requires d < 10
  {
    "0123456789"[d]
  }

  /** The decimal digits of n, most significant first, without leading zeros. */
  function Digits(n: nat): (r: string)
    ensures r != [] && IsDigits(r)
    ensures |r| > 1 ==> r[0] != '0'
  {
    if n < 10 then [DigitChar(n)] else Digits(n / 10) + [DigitChar(n % 10)]
  }

  /** The number a string of decimal digits denotes. */
  function DigitsValue(s: string): nat
    requires IsDigits(s)
  {
    if s == [] then 0 else DigitsValue(s[..|s| - 1]) * 10 + (s[|s| - 1] as int - '0' as int)
  }

  /** Reading the digits back gives the number. */
  lemma {:induction false} DigitsRoundTrip(n: nat)
    ensures DigitsValue(Digits(n)) == n
  {
    if n >= 10 {
      DigitsRoundTrip(n / 10);
      var r := Digits(n);
      assert r[..|r| - 1] == Digits(n / 10);
    }
  }

  /** Integer#to_s: an optional minus sign and the digits. */
  function DecimalString(n: int): (r: string)
    ensures r != [] && NoneIn(r, {'/'})
    ensures n >= 0 ==> IsDigits(r) && DigitsValue(r) == n && (|r| == 1 || r[0] != '0')
    ensures n < 0 ==> r[0] == '-' && IsDigits(r[1..]) && DigitsValue(r[1..]) == -n && (|r| == 2 || r[1] != '0')
  {
    DigitsRoundTrip(if n < 0 then -n else n);
    if n < 0 then "-" + Digits(-n) else Digits(n)
  }
}
