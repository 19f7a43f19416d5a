/** Scope normalisation of the authorization request
    (lib/omniauth/strategies/google_oauth2.rb, lines 8-10 and 30-33): the
    scope string is cut into tokens, every token that is neither an http(s)
    URL nor a base scope gets the Google API prefix, and the tokens are
    joined again with single spaces. */
module Scopes {
  import opened Text

  const BaseScopeUrl: string := "https://www.googleapis.com/auth/"
  const BaseScopes: seq<string> := ["profile", "email", "openid"]
  const DefaultScope: string := "email,profile"

  /** The characters Ruby's `split(" ")` treats as white space. */
  const Whitespace: set<char> := {' ', '\t', '\n', '\U{000B}', '\U{000C}', '\r'}

  /** `split(" ")`: the maximal runs of non-white-space characters. */
  function SplitWhitespace(s: string): seq<string>
  {
    NonEmpty(Fields(s, Whitespace))
  }

  /** `split(",")`: every comma-separated field, except that trailing empty
      fields are dropped (so "" gives no field at all). */
  function SplitComma(s: string): seq<string>
  {
    DropTrailingEmpty(Fields(s, {','}))
  }

  /** `map { split(",") }.flatten` over the words. */
  function CommaPieces(words: seq<string>): seq<string>
  {
    if words == [] then [] else SplitComma(words[0]) + CommaPieces(words[1..])
  }

  /** The scope tokens of a raw scope string. */
  function Tokenize(raw: string): seq<string>
  {
    CommaPieces(SplitWhitespace(raw))
  }

  predicate HasScheme(t: string)
  {
    IsPrefix("http://", t) || IsPrefix("https://", t)
  }

  /** `t =~ /^https?:\/\//`; in a Ruby regular expression `^` anchors at the
      start of any line, not only at the start of the string. */
  predicate MatchesUrl(t: string)
  {
    exists i :: 0 <= i <= |t| && (i == 0 || t[i - 1] == '\n') && HasScheme(t[i..])
  }

  /** The rewrite applied to each token. */
  function NormalizeToken(t: string): string
  {
    if MatchesUrl(t) || t in BaseScopes then t else BaseScopeUrl + t
  }

  function NormalizeAll(ts: seq<string>): (r: seq<string>)
  {
    seq(|ts|, i requires 0 <= i < |ts| => NormalizeToken(ts[i]))
  }

  /** The value the scope parameter receives for a raw scope string. */
  function NormalizeScope(raw: string): string
  {
    Join(NormalizeAll(Tokenize(raw)), " ")
  }

  // ---------------------------------------------------------------------
  // Properties

  /** A token is free of white space and commas. */
  predicate Plain(t: string)
  {
    NoneIn(t, Whitespace + {','})
  }

  /** Tokens never contain white space or commas. */
  lemma {:induction false} TokensArePlain(raw: string)
    ensures forall i :: 0 <= i < |Tokenize(raw)| ==> Plain(Tokenize(raw)[i])
  {
    CommaPiecesArePlain(SplitWhitespace(raw));
  }

  lemma {:induction false} CommaPiecesArePlain(words: seq<string>)
    requires forall i :: 0 <= i < |words| ==> NoneIn(words[i], Whitespace)
    ensures forall i :: 0 <= i < |CommaPieces(words)| ==> Plain(CommaPieces(words)[i])
  {
    if words != [] {
      CommaPiecesArePlain(words[1..]);
      var w := words[0];
      FieldsAvoid(w, {','}, Whitespace);
      var head := SplitComma(w);
      assert forall i :: 0 <= i < |head| ==> Plain(head[i]) by {
        forall i | 0 <= i < |head| ensures Plain(head[i]) {
          assert head[i] == Fields(w, {','})[i];
        }
      }
      var all := CommaPieces(words);
      assert all == head + CommaPieces(words[1..]);
      forall i | 0 <= i < |all| ensures Plain(all[i]) {
        if i >= |head| {
          assert all[i] == CommaPieces(words[1..])[i - |head|];
        }
      }
    }
  }

  /** For a token (no line break inside) the regular expression only looks
      at the start of the token. */
  lemma MatchesUrlAtStart(t: string)
    requires NoneIn(t, {'\n'})
    ensures MatchesUrl(t) <==> HasScheme(t)
  {
    assert t[0..] == t;
    if MatchesUrl(t) {
      var i :| 0 <= i <= |t| && (i == 0 || t[i - 1] == '\n') && HasScheme(t[i..]);
      assert i == 0;
    }
  }

  /** Each token is left alone or prefixed: a token is kept exactly when it
      begins with http:// or https:// or is one of the base scopes, and the
      result is never empty and never holds white space or a comma. */
  lemma NormalizeTokenMeaning(t: string)
    requires Plain(t)
    ensures NormalizeToken(t) == t <==> HasScheme(t) || t in BaseScopes
    ensures NormalizeToken(t) != t ==> NormalizeToken(t) == BaseScopeUrl + t
    ensures NormalizeToken(t) != "" && Plain(NormalizeToken(t))
    ensures HasScheme(NormalizeToken(t)) || NormalizeToken(t) in BaseScopes
  {
    MatchesUrlAtStart(t);
    var r := NormalizeToken(t);
    if r != t {
      assert r[..|BaseScopeUrl|] == BaseScopeUrl;
      assert r[..8] == BaseScopeUrl[..8];
      assert |r| > |t|;
    }
    forall i | 0 <= i < |r| ensures r[i] !in Whitespace + {','} {
      if r != t && i >= |BaseScopeUrl| {
        assert r[i] == t[i - |BaseScopeUrl|];
      }
    }
  }

  /** Normalising a token twice is normalising it once. */
  lemma NormalizeTokenIdempotent(t: string)
    requires Plain(t)
    ensures NormalizeToken(NormalizeToken(t)) == NormalizeToken(t)
  {
    NormalizeTokenMeaning(t);
    var r := NormalizeToken(t);
    MatchesUrlAtStart(r);
  }

  /** Cutting the space-joined output apart again gives back exactly the
      normalised tokens: the split and the join are inverse on the output. */
  lemma {:induction false} TokenizeJoin(xs: seq<string>)
    requires forall i :: 0 <= i < |xs| ==> xs[i] != "" && Plain(xs[i])
    ensures Tokenize(Join(xs, " ")) == xs
  {
    if xs == [] {
      assert Fields("", Whitespace) == [""];
    } else {
      forall i | 0 <= i < |xs| ensures NoneIn(xs[i], Whitespace) {
        assert Plain(xs[i]);
      }
      FieldsOfJoin(xs, ' ', Whitespace);
      assert SplitWhitespace(Join(xs, " ")) == xs;
      CommaPiecesOfPlain(xs);
    }
  }

  lemma {:induction false} CommaPiecesOfPlain(xs: seq<string>)
    requires forall i :: 0 <= i < |xs| ==> xs[i] != "" && Plain(xs[i])
    ensures CommaPieces(xs) == xs
  {
    if xs != [] {
      assert NoneIn(xs[0], {','}) by { assert Plain(xs[0]); }
      FieldsOfPlain(xs[0], {','});
      assert SplitComma(xs[0]) == [xs[0]];
      CommaPiecesOfPlain(xs[1..]);
      assert xs == [xs[0]] + xs[1..];
    }
  }

  /** The tokens of the normalised scope string are the normalised tokens
      of the raw scope string, one for one and in order. */
  lemma OutputTokens(raw: string)
    ensures Tokenize(NormalizeScope(raw)) == NormalizeAll(Tokenize(raw))
  {
    var ts := Tokenize(raw);
    TokensArePlain(raw);
    var ns := NormalizeAll(ts);
    forall i | 0 <= i < |ns| ensures ns[i] != "" && Plain(ns[i]) {
      NormalizeTokenMeaning(ts[i]);
    }
    TokenizeJoin(ns);
  }

  /** Every token of the normalised scope string is an http(s) URL or a
      base scope. */
  lemma OutputTokensAreQualified(raw: string)
    ensures forall t :: t in Tokenize(NormalizeScope(raw)) ==> HasScheme(t) || t in BaseScopes
  {
    OutputTokens(raw);
    var ts := Tokenize(raw);
    TokensArePlain(raw);
    forall i | 0 <= i < |ts| ensures HasScheme(NormalizeAll(ts)[i]) || NormalizeAll(ts)[i] in BaseScopes {
      NormalizeTokenMeaning(ts[i]);
    }
  }

  /** Normalisation is idempotent, for every raw scope string. */
  lemma NormalizeScopeIdempotent(raw: string)
    ensures NormalizeScope(NormalizeScope(raw)) == NormalizeScope(raw)
  {
    var ts := Tokenize(raw);
    var ns := NormalizeAll(ts);
    OutputTokens(raw);
    TokensArePlain(raw);
    assert NormalizeAll(ns) == ns by {
      forall i | 0 <= i < |ns| ensures NormalizeAll(ns)[i] == ns[i] {
        NormalizeTokenIdempotent(ts[i]);
      }
    }
  }

  /** Two comma-free fields around one comma. */
  lemma SplitCommaPair(a: string, b: string)
    requires NoneIn(a, {','}) && NoneIn(b, {','}) && b != ""
    ensures SplitComma(a + [','] + b) == [a, b]
  {
    FieldsAfterPlain(a, ',', b, {','});
    FieldsOfPlain(b, {','});
    var f := Fields(a + [','] + b, {','});
    assert f == [a, b];
  }

  /** A white-space-free, comma-free word is a single token. */
  lemma SplitCommaPlain(a: string)
    requires NoneIn(a, {','}) && a != ""
    ensures SplitComma(a) == [a]
  {
    FieldsOfPlain(a, {','});
  }

  /** Two words around one space. */
  lemma SplitWhitespacePair(a: string, b: string)
    requires NoneIn(a, Whitespace) && NoneIn(b, Whitespace) && a != "" && b != ""
    ensures SplitWhitespace(a + [' '] + b) == [a, b]
  {
    FieldsAfterPlain(a, ' ', b, Whitespace);
    FieldsOfPlain(b, Whitespace);
  }

  /** A string made of plain pieces and one separator holds no white space
      other than that separator. */
  lemma PlainAround(a: string, c: char, b: string, cs: set<char>)
    requires NoneIn(a, cs) && NoneIn(b, cs) && c !in cs
    ensures NoneIn(a + [c] + b, cs)
  {
    var s := a + [c] + b;
    forall i | 0 <= i < |s| ensures s[i] !in cs {
      if i < |a| { assert s[i] == a[i]; } else if i > |a| { assert s[i] == b[i - |a| - 1]; }
    }
  }

  lemma BaseScopeIsPlain(a: string)
    requires a in BaseScopes
    ensures a != "" && Plain(a) && NormalizeToken(a) == a
  {
  }

  /** Two base scopes separated by a comma come out separated by a space. */
  lemma BaseScopePair(a: string, b: string)
    requires a in BaseScopes && b in BaseScopes
    ensures NormalizeScope(a + [','] + b) == a + [' '] + b
  {
    var s := a + [','] + b;
    assert Plain(a) && Plain(b);
    PlainAround(a, ',', b, Whitespace);
    FieldsOfPlain(s, Whitespace);
    assert SplitWhitespace(s) == [s];
    SplitCommaPair(a, b);
    assert CommaPieces([s]) == SplitComma(s) + CommaPieces([]);
    assert Tokenize(s) == [a, b];
    assert NormalizeAll([a, b]) == [a, b];
    assert Join([a, b], " ") == a + " " + Join([b], " ");
  }

  /** With no scope given the request asks for "email profile". */
  lemma DefaultScopeNormalizes()
    ensures NormalizeScope(DefaultScope) == "email profile"
  {
    var a, b := "email", "profile";
    assert DefaultScope == a + [','] + b;
    assert "email profile" == a + [' '] + b;
    BaseScopePair(a, b);
  }

  /** Tokens of "a,b c" for plain, non-empty a, b and c. */
  lemma TripleTokens(a: string, b: string, c: string)
    requires a != "" && b != "" && c != "" && Plain(a) && Plain(b) && Plain(c)
    ensures Tokenize(a + [','] + b + [' '] + c) == [a, b, c]
  {
    var w := a + [','] + b;
    PlainAround(a, ',', b, Whitespace);
    SplitWhitespacePair(w, c);
    SplitCommaPair(a, b);
    SplitCommaPlain(c);
    assert CommaPieces([w, c]) == SplitComma(w) + CommaPieces([c]);
    assert CommaPieces([c]) == SplitComma(c) + CommaPieces([]);
  }

  /** Commas and white space both separate scopes: two comma-separated base
      scopes and a third after a space come out space-separated. */
  lemma BaseScopeTriple(a: string, b: string, c: string)
    requires a in BaseScopes && b in BaseScopes && c in BaseScopes
    ensures NormalizeScope(a + [','] + b + [' '] + c) == a + [' '] + b + [' '] + c
  {
    BaseScopeIsPlain(a);
    BaseScopeIsPlain(b);
    BaseScopeIsPlain(c);
    assert Tokenize(a + [','] + b + [' '] + c) == [a, b, c] by {
      TripleTokens(a, b, c);
    }
    assert NormalizeAll([a, b, c]) == [a, b, c];
    assert Join([a, b, c], " ") == a + [' '] + b + [' '] + c by {
      assert Join([a, b, c], " ") == a + " " + Join([b, c], " ");
      assert Join([b, c], " ") == b + " " + Join([c], " ");
    }
  }

  lemma MixedSeparators()
    ensures NormalizeScope("email,profile openid") == "email profile openid"
  {
    var a, b, c := "email", "profile", "openid";
    assert "email,profile openid" == a + [','] + b + [' '] + c;
    assert "email profile openid" == a + [' '] + b + [' '] + c;
    BaseScopeTriple(a, b, c);
  }

  /** A short scope name gets the prefix and a URL after it is kept. */
  lemma ShortScopeAndUrl(a: string, u: string)
    requires a != "" && Plain(a) && !HasScheme(a) && a !in BaseScopes
    requires Plain(u) && HasScheme(u)
    ensures NormalizeScope(a + [' '] + u) == BaseScopeUrl + a + [' '] + u
  {
    assert u != "";
    SplitWhitespacePair(a, u);
    SplitCommaPlain(a);
    SplitCommaPlain(u);
    assert CommaPieces([a, u]) == SplitComma(a) + CommaPieces([u]);
    assert CommaPieces([u]) == SplitComma(u) + CommaPieces([]);
    assert Tokenize(a + [' '] + u) == [a, u];
    NormalizeTokenMeaning(a);
    NormalizeTokenMeaning(u);
    assert NormalizeAll([a, u]) == [BaseScopeUrl + a, u];
    assert Join([BaseScopeUrl + a, u], " ") == BaseScopeUrl + a + " " + Join([u], " ");
  }

  lemma ShortScopeIsPrefixed()
    ensures NormalizeScope("drive https://x/y") == "https://www.googleapis.com/auth/drive https://x/y"
  {
    var a, u := "drive", "https://x/y";
    assert "drive https://x/y" == a + [' '] + u;
    assert "https://www.googleapis.com/auth/drive https://x/y" == BaseScopeUrl + a + [' '] + u;
    assert Plain(a);
    assert Plain(u);
    assert !HasScheme(a);
    assert HasScheme(u) by { assert u[..8] == "https://"; }
    ShortScopeAndUrl(a, u);
  }
}
