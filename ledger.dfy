/**
 * Chip bookkeeping shared by the betting engine and the pot split: players are
 * identified by login, and chip amounts are kept in maps from login to integer.
 */
module Ledger {

  /** No login occurs twice. */
  predicate Distinct<T(==)>(s: seq<T>)
  {
    forall i, j | 0 <= i < j < |s| :: s[i] != s[j]
  }

  /** The amount held for `p`, with a missing entry read as 0. */
  function Get(m: map<string, int>, p: string): int
  {
    if p in m then m[p] else 0
  }

  /** The sum of the amounts held for the logins of `ps`. */
  function Sum(ps: seq<string>, m: map<string, int>): int
  {
    if ps == [] then 0 else Get(m, ps[0]) + Sum(ps[1..], m)
  }

  /** Changing one entry changes the sum by the difference, if that login is counted. */
  lemma {:induction false} SumUpdate(ps: seq<string>, m: map<string, int>, p: string, v: int)
    requires Distinct(ps)
    ensures Sum(ps, m[p := v]) == Sum(ps, m) + (if p in ps then v - Get(m, p) else 0)
  {
    if ps != [] {
      assert Distinct(ps[1..]);
      SumUpdate(ps[1..], m, p, v);
      if ps[0] == p {
        assert p !in ps[1..];
      }
    }
  }

  /** Entries outside `ps` do not affect the sum. */
  lemma {:induction false} SumAgree(ps: seq<string>, m1: map<string, int>, m2: map<string, int>)
    requires forall p | p in ps :: Get(m1, p) == Get(m2, p)
    ensures Sum(ps, m1) == Sum(ps, m2)
  {
    if ps != [] {
      SumAgree(ps[1..], m1, m2);
    }
  }

  /** A sum of non-negative amounts is non-negative. */
  lemma {:induction false} SumNonNegative(ps: seq<string>, m: map<string, int>)
    requires forall p | p in ps :: Get(m, p) >= 0
    ensures Sum(ps, m) >= 0
  {
    if ps != [] {
      SumNonNegative(ps[1..], m);
    }
  }

  /** Summing over a concatenation. */
  lemma {:induction false} SumAppend(ps: seq<string>, qs: seq<string>, m: map<string, int>)
    ensures Sum(ps + qs, m) == Sum(ps, m) + Sum(qs, m)
  {
    if ps == [] {
      assert ps + qs == qs;
    } else {
      assert (ps + qs)[1..] == ps[1..] + qs;
      SumAppend(ps[1..], qs, m);
    }
  }

  /** A sum of zero amounts is zero. */
  lemma {:induction false} SumZero(ps: seq<string>, m: map<string, int>)
    requires forall p | p in ps :: Get(m, p) == 0
    ensures Sum(ps, m) == 0
  {
    if ps != [] {
      SumZero(ps[1..], m);
    }
  }
}
