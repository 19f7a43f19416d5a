/** `prune!` (lib/omniauth/strategies/google_oauth2.rb, lines 107-112):
    entries whose value is nil or empty are deleted from a hash, and nested
    hashes are pruned first, so a hash that empties out is deleted too.
    Arrays are not descended into. */
module Prune {
  import opened RubyValues

  /** `v.nil? || (v.respond_to?(:empty?) && v.empty?)`: nil, and the empty
      String, Array and Hash. false and 0 do not respond to `empty?`. */
  predicate Blank(v: Value)
  {
    || v.Nil?
    || (v.Str? && v.s == "")
    || (v.Arr? && v.elems == [])
    || (v.Hash? && v.entries == map[])
  }

  /** The value an entry holds after `prune!`: a hash is pruned, every
      other value is left as it is. */
  function PruneValue(v: Value): Value
  {
    match v
    case Hash(m) => Hash(map k | k in m && !Blank(PruneValue(m[k])) :: PruneValue(m[k]))
    case _ => v
  }

  /** The entries of a hash after `prune!`. */
  function Pruned(m: map<string, Value>): map<string, Value>
  {
    PruneValue(Hash(m)).entries
  }

  /** `prune!(hash)`: `delete_if` visits every entry once; a Hash value is
      pruned in place before the test, and the entry is deleted when the
      (pruned) value is blank. */
  method PruneHash(h: map<string, Value>) returns (r: map<string, Value>)
    ensures r == Pruned(h)
    decreases Hash(h)
  {
    r := h;
    var pending := h.Keys;
    while pending != {}
      invariant pending <= h.Keys
      invariant forall k :: k in pending ==> k in r && r[k] == h[k]
      invariant forall k :: k !in pending ==> Agree(r, Pruned(h), k)
      decreases pending
    {
      var k :| k in pending;
      var v := r[k];
      if v.Hash? {
        var inner := PruneHash(v.entries);
        v := Hash(inner);
      }
      assert v == PruneValue(h[k]);
      if Blank(v) {
        r := r - {k};
      } else {
        r := r[k := v];
      }
      pending := pending - {k};
    }
    assert forall k :: Agree(r, Pruned(h), k);
  }

  /** No blank value at any depth. */
  predicate Clean(v: Value)
  {
    match v
    case Hash(m) => forall k :: k in m ==> !Blank(m[k]) && Clean(m[k])
    case _ => true
  }

  /** a is b with some hash entries deleted, at any depth; everything that is
      not a hash is equal. */
  predicate Within(a: Value, b: Value)
  {
    match a
    case Hash(ma) =>
      b.Hash? && ma.Keys <= b.entries.Keys && forall k :: k in ma ==> Within(ma[k], b.entries[k])
    case _ => a == b
  }

  /** Which entries survive, and what they hold: an entry is deleted exactly
      when its pruned value is blank; a value that is not a hash is kept as
      it is or deleted, never changed. */
  lemma PrunedEntry(m: map<string, Value>, k: string)
    ensures k in Pruned(m) <==> k in m && !Blank(PruneValue(m[k]))
    ensures k in Pruned(m) ==> Pruned(m)[k] == PruneValue(m[k])
    ensures k in m && !m[k].Hash? ==> (k in Pruned(m) <==> !Blank(m[k]))
    ensures k in m && !m[k].Hash? && k in Pruned(m) ==> Pruned(m)[k] == m[k]
  {
  }

  /** The pruned tree holds no nil, empty string, empty array or empty
      hash as an entry of any hash. */
  lemma {:induction false} PruneClean(v: Value)
    ensures Clean(PruneValue(v))
  {
    match v
    case Hash(m) =>
      var p := PruneValue(v).entries;
      forall k | k in p ensures !Blank(p[k]) && Clean(p[k]) {
        PruneClean(m[k]);
      }
    case _ =>
  }

  /** Pruning only deletes keys; it never changes a value that is not a hash
      and never adds anything. */
  lemma {:induction false} PruneWithin(v: Value)
    ensures Within(PruneValue(v), v)
  {
    match v
    case Hash(m) =>
      var p := PruneValue(v).entries;
      forall k | k in p ensures Within(p[k], m[k]) {
        PruneWithin(m[k]);
      }
    case _ =>
  }

  /** A clean value is left alone. */
  lemma {:induction false} CleanFixed(v: Value)
    requires Clean(v)
    ensures PruneValue(v) == v
  {
    match v
    case Hash(m) =>
      var p := PruneValue(v).entries;
      forall k | k in m ensures PruneValue(m[k]) == m[k] {
        CleanFixed(m[k]);
      }
      assert p == m;
    case _ =>
  }

  /** Pruning twice is pruning once. */
  lemma PruneIdempotent(v: Value)
    ensures PruneValue(PruneValue(v)) == PruneValue(v)
  {
    PruneClean(v);
    CleanFixed(PruneValue(v));
  }

  /** Arrays are not descended into: an array holding nil stays. */
  lemma ArrayNotDescended(m: map<string, Value>, k: string)
    requires k in m && m[k] == Arr([Nil])
    ensures k in Pruned(m) && Pruned(m)[k] == Arr([Nil])
  {
    PrunedEntry(m, k);
  }

  /** false and 0 are kept; "" and a hash holding only nil are deleted. */
  lemma FalseAndZeroKept(m: map<string, Value>)
    requires m == map["f" := Bool(false), "z" := Int(0), "e" := Str(""), "n" := Hash(map["x" := Nil])]
    ensures Pruned(m) == map["f" := Bool(false), "z" := Int(0)]
  {
    var inner := map["x" := Nil];
    PrunedEntry(inner, "x");
    assert Pruned(inner) == map[];
    var expected := map["f" := Bool(false), "z" := Int(0)];
    forall k ensures (k in Pruned(m) <==> k in expected) && (k in expected ==> Pruned(m)[k] == expected[k]) {
      PrunedEntry(m, k);
    }
  }
}
