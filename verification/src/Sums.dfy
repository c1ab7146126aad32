// Sums over finite maps and over sequences, and sizes of sets, with the few laws
// the ledgers and the votes need.
module Sums {

  ghost function SumBy<K, V>(m: map<K, V>, f: V -> int): int
    decreases m.Keys
  {
    if m.Keys == {} then 0
    else
      var k :| k in m.Keys;
      f(m[k]) + SumBy(m - {k}, f)
  }

  // The sum does not depend on the key that is taken out first.
  lemma {:induction false} SumByTakeOut<K, V>(m: map<K, V>, f: V -> int, k: K)
    requires k in m
    ensures SumBy(m, f) == f(m[k]) + SumBy(m - {k}, f)
    decreases m.Keys
  {
    var c :| c in m.Keys && SumBy(m, f) == f(m[c]) + SumBy(m - {c}, f);
    if c != k {
      SumByTakeOut(m - {c}, f, k);
      SumByTakeOut(m - {k}, f, c);
      assert m - {c} - {k} == m - {k} - {c};
    }
  }

  lemma SumByPut<K, V>(m: map<K, V>, f: V -> int, k: K, v: V)
    ensures SumBy(m[k := v], f) == SumBy(m, f) - (if k in m then f(m[k]) else 0) + f(v)
  {
    SumByTakeOut(m[k := v], f, k);
    assert m[k := v] - {k} == m - {k};
    if k in m {
      SumByTakeOut(m, f, k);
    } else {
      assert m - {k} == m;
    }
  }

  lemma {:induction false} SumByNonNegative<K, V>(m: map<K, V>, f: V -> int)
    requires forall k :: k in m ==> f(m[k]) >= 0
    ensures SumBy(m, f) >= 0
    decreases m.Keys
  {
    if m.Keys != {} {
      var k :| k in m.Keys;
      SumByTakeOut(m, f, k);
      SumByNonNegative(m - {k}, f);
    }
  }

  // Any two entries together weigh at most the whole.
  lemma SumByTwo<K, V>(m: map<K, V>, f: V -> int, a: K, b: K)
    requires a in m && b in m && a != b
    requires forall k :: k in m ==> f(m[k]) >= 0
    ensures f(m[a]) + f(m[b]) <= SumBy(m, f)
  {
    SumByTakeOut(m, f, a);
    SumByTakeOut(m - {a}, f, b);
    SumByNonNegative(m - {a} - {b}, f);
  }

  ghost function SumSeq<T>(s: seq<T>, f: T -> int): int {
    if s == [] then 0 else SumSeq(s[..|s| - 1], f) + f(s[|s| - 1])
  }

  lemma {:induction false} SumSeqConcat<T>(a: seq<T>, b: seq<T>, f: T -> int)
    ensures SumSeq(a + b, f) == SumSeq(a, f) + SumSeq(b, f)
  {
    if b == [] {
      assert a + b == a;
    } else {
      assert (a + b)[..|a + b| - 1] == a + b[..|b| - 1];
      SumSeqConcat(a, b[..|b| - 1], f);
    }
  }

  lemma SumSeqShort<T>(a: T, b: T, c: T, f: T -> int)
    ensures SumSeq([], f) == 0
    ensures SumSeq([a], f) == f(a)
    ensures SumSeq([a, b], f) == f(a) + f(b)
    ensures SumSeq([a, b, c], f) == f(a) + f(b) + f(c)
  {
    assert [a][..0] == [];
    assert [a, b][..1] == [a];
    assert [a, b, c][..2] == [a, b];
  }

  lemma {:induction false} SubsetSize<T>(a: set<T>, b: set<T>)
    requires a <= b
    ensures |a| <= |b|
  {
    assert b == a + (b - a);
  }

  lemma {:induction false} SeqSetSize<T>(s: seq<T>)
    ensures |set i | 0 <= i < |s| :: s[i]| <= |s|
  {
    if s != [] {
      var init := s[..|s| - 1];
      SeqSetSize(init);
      assert (set i | 0 <= i < |s| :: s[i]) == (set i | 0 <= i < |init| :: init[i]) + {s[|s| - 1]};
    }
  }
}
