/** What insertion and lookup in the parameter tree promise together. */
module ParamTheorems {
  import opened Prelude
  import opened Params

  /** A path of map keys. */
  predicate Keyed(path: Path) {
    path != [] && "" !in path
  }

  /** The paths part at a map key, before `p` reaches any list. */
  predicate Apart(p: Path, q: Path) {
    p != [] && q != [] && p[0] != "" && (p[0] != q[0] || Apart(p[1..], q[1..]))
  }

  /* ---------- Insert and look up ---------- */

  /** After an insertion every path that runs through the inserted place finds what the
      inserted value holds there, whatever was in the way before. */
  lemma {:induction false} LookupInserted(v: ParamValue, p: Path, x: ParamValue, more: Path)
    requires Keyed(p)
    ensures Lookup(Insert(v, p, x), p + more) == if more == [] then Some(x) else Lookup(x, more)
    decreases |p|
  {
    assert p[0] in p;
    assert (p + more)[1..] == p[1..] + more;
    if |p| == 1 {
      assert p + more == p || p[1..] + more == more;
    } else {
      LookupInserted(Child(v, p[0], p[1..]), p[1..], x, more);
    }
  }

  lemma {:induction false} LookupInEmpty(rest: Path, q: Path)
    ensures Lookup(ContainerFor(rest), q) == None
  {
  }

  /** Lookups apart from the path are unchanged, even where a scalar or a list on the way was
      replaced by a map. */
  lemma {:induction false} InsertFrame(v: ParamValue, p: Path, x: ParamValue, q: Path)
    requires Apart(p, q)
    ensures Lookup(Insert(v, p, x), q) == Lookup(v, q)
    decreases |p|
  {
    if p[0] == q[0] {
      InsertFrame(Child(v, p[0], p[1..]), p[1..], x, q[1..]);
      LookupInEmpty(p[1..], q[1..]);
    }
  }

  /** Paths of keys part exactly when neither is a prefix of the other. */
  lemma {:induction false} ApartIsIncomparable(p: Path, q: Path)
    requires Keyed(p) && Keyed(q)
    ensures Apart(p, q) <==> !(p <= q) && !(q <= p)
    decreases |p|
  {
    assert p[0] in p && q[0] in q;
    if p[0] == q[0] {
      assert p == [p[0]] + p[1..] && q == [q[0]] + q[1..];
      if |p| > 1 && |q| > 1 {
        ApartIsIncomparable(p[1..], q[1..]);
        PrefixTails(p, q);
        PrefixTails(q, p);
      }
    }
  }

  lemma PrefixTails(p: Path, q: Path)
    requires p != [] && q != [] && p[0] == q[0]
    ensures p <= q <==> p[1..] <= q[1..]
  {
    assert p == [p[0]] + p[1..] && q == [q[0]] + q[1..];
    if p[1..] <= q[1..] {
      assert q == p + q[|p|..] by {
        assert q[1..] == p[1..] + q[1..][|p[1..]|..];
      }
    }
    if p <= q {
      assert q[1..] == p[1..] + q[|p|..];
    }
  }

  /** Taking a value and putting it back restores the tree. */
  lemma {:induction false} TakeThenInsert(v: ParamValue, p: Path)
    requires Keyed(p) && Lookup(v, p).Some?
    ensures Insert(Without(v, p), p, Lookup(v, p).value) == v
    decreases |p|
  {
    assert p[0] in p;
    var w := Without(v, p);
    if |p| == 1 {
      assert w.entries[p[0] := v.entries[p[0]]] == v.entries;
    } else {
      var child := v.entries[p[0]];
      TakeThenInsert(child, p[1..]);
      assert Child(w, p[0], p[1..]) == Without(child, p[1..]);
      assert w.entries[p[0] := child] == v.entries;
    }
  }

  /** Taking removes the value and nothing that is not below it. */
  lemma {:induction false} TakeFrame(v: ParamValue, p: Path, q: Path)
    requires Keyed(p)
    ensures p <= q ==> Lookup(Without(v, p), q) == None
    ensures Apart(p, q) ==> Lookup(Without(v, p), q) == Lookup(v, q)
    decreases |p|
  {
    assert p[0] in p;
    if v.Map? && p[0] in v.entries && q != [] && p[0] == q[0] {
      PrefixTails(p, q);
      if |p| > 1 {
        var child := v.entries[p[0]];
        TakeFrame(child, p[1..], q[1..]);
        assert Apart(p, q) ==> Apart(p[1..], q[1..]);
        if |q| > 1 {
          assert Lookup(Without(v, p), q) == Lookup(Without(child, p[1..]), q[1..]);
        } else {
          assert !Apart(p[1..], q[1..]);
        }
      } else {
        assert !Apart(p[1..], q[1..]);
      }
    }
  }
}
