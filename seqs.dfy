/**
 * Insertion-ordered counting, as Python's `defaultdict(int)` does it: the
 * keys in order of first occurrence and, for each key, how often it occurs.
 * All definitions peel off the LAST element, the way a loop extends them.
 */
module Seqs {

  predicate Distinct<T(==)>(s: seq<T>) {
    forall i, j :: 0 <= i < j < |s| ==> s[i] != s[j]
  }

  /** How often `x` occurs in `s`. */
  function Occ<T(==)>(s: seq<T>, x: T): nat {
    if s == [] then 0 else Occ(s[..|s| - 1], x) + (if s[|s| - 1] == x then 1 else 0)
  }

  /** An element that does not occur has no occurrences. */
  lemma {:induction false} OccAbsent<T>(s: seq<T>, x: T)
    ensures x !in s ==> Occ(s, x) == 0
  {
    if s != [] {
      OccAbsent(s[..|s| - 1], x);
    }
  }

  /** Extending a sequence by one element adds one occurrence of that element and no other. */
  lemma OccLast<T>(s: seq<T>)
    requires s != []
    ensures forall y :: Occ(s, y) == Occ(s[..|s| - 1], y) + (if s[|s| - 1] == y then 1 else 0)
  {
  }

  /** The elements of `s`, each once, in order of first occurrence. */
  function Dedup<T(==,!new)>(s: seq<T>): (r: seq<T>)
    ensures Distinct(r)
    ensures forall x :: x in r <==> x in s
  {
    if s == [] then []
    else
      var d := Dedup(s[..|s| - 1]);
      var x := s[|s| - 1];
      assert s == s[..|s| - 1] + [x];
      if x in d then d else d + [x]
  }

  /** Keys first seen in a prefix keep their places: `Dedup(a)` is a prefix of `Dedup(a + b)`. */
  lemma {:induction false} DedupPrefix<T(!new)>(a: seq<T>, b: seq<T>)
    ensures Dedup(a) <= Dedup(a + b)
  {
    if b != [] {
      var b' := b[..|b| - 1];
      DedupPrefix(a, b');
      assert (a + b)[..|a + b| - 1] == a + b';
    } else {
      assert a + b == a;
    }
  }

  /** The counter a `defaultdict(int)` holds after `counter[x] += 1` for every `x` of `s`. */
  function Tally<T(==,!new)>(s: seq<T>): (m: map<T, nat>)
    ensures forall x :: x in m <==> x in s
    ensures forall x :: x in m ==> m[x] == Occ(s, x)
  {
    if s == [] then map[]
    else
      var m := Tally(s[..|s| - 1]);
      var x := s[|s| - 1];
      OccLast(s);
      OccAbsent(s[..|s| - 1], x);
      m[x := if x in m then m[x] + 1 else 1]
  }

  /** The sum of `m[k]` over the keys `keys`. */
  function Total<T>(keys: seq<T>, m: map<T, nat>): nat
    requires forall k :: k in keys ==> k in m
  {
    if keys == [] then 0 else Total(keys[..|keys| - 1], m) + m[keys[|keys| - 1]]
  }

  lemma {:induction false} TotalUpdate<T>(keys: seq<T>, m: map<T, nat>, x: T, v: nat)
    requires forall k :: k in keys ==> k in m
    requires Distinct(keys)
    ensures Total(keys, m[x := v]) == Total(keys, m) + (if x in keys then v - m[x] else 0)
  {
    if keys != [] {
      var p := keys[..|keys| - 1];
      assert keys == p + [keys[|keys| - 1]];
      TotalUpdate(p, m, x, v);
      if keys[|keys| - 1] == x {
        assert x !in p;
      }
    }
  }

  /** The counts of a tally add up to the number of elements counted. */
  lemma {:induction false} TallyTotal<T(!new)>(s: seq<T>)
    ensures Total(Dedup(s), Tally(s)) == |s|
  {
    if s != [] {
      var p := s[..|s| - 1];
      var x := s[|s| - 1];
      TallyTotal(p);
      var keys, m := Dedup(p), Tally(p);
      var keys', m' := Dedup(s), Tally(s);
      assert m' == m[x := if x in m then m[x] + 1 else 1];
      assert keys' == if x in keys then keys else keys + [x];
      TotalUpdate(keys, m, x, m'[x]);
      if x !in keys {
        assert keys'[..|keys|] == keys;
      }
    }
  }
}
