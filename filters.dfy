/**
 * Command-line filters: `--filters` and `--excludes` take tokens of the form
 * `lookup=value`; each is split on `=` and its value coerced by `parse`
 * (`django_opensearch_dsl/management/types.py`, not part of this model, so it
 * is a parameter that may fail). Each list is folded with AND into one
 * predicate, or none when the list is empty.
 */
module Filters {
  import opened Wrappers
  import opened Text

  /** A symbolic Django `Q` object: a lookup, a primary-key membership test, or a conjunction. */
  datatype Q<V> = Lookup(lookup: string, value: V) | PkIn(ids: seq<string>) | And(left: Q<V>, right: Q<V>)

  /**
   * Lines 35-46, the argument converter for one token: the token is split on
   * every `=` and must give exactly two pieces, the lookup and the raw value,
   * and `parse` must accept the raw value. A failure of either rejects the
   * token (the command prints its usage and exits with status 1), reported
   * here as `Err(token)`.
   */
  function ParseFilter<V>(token: string, parse: string -> Option<V>): (r: Result<(string, V), string>)
    ensures r.Err? ==> r.error == token
    ensures Count(token, '=') != 1 ==> r.Err?
    ensures r.Ok? ==> '=' !in r.value.0 && exists raw :: '=' !in raw && token == r.value.0 + "=" + raw && parse(raw) == Some(r.value.1)
  {
    var parts := Split(token, '=');
    if |parts| != 2 then Err(token)
    else match parse(parts[1])
      case None => Err(token)
      case Some(v) =>
        JoinSplit(token, '=');
        assert token == parts[0] + "=" + parts[1];
        Ok((parts[0], v))
  }

  /** Every token with exactly one `=` is accepted when `parse` accepts its right-hand side, and yields (lookup, parsed value). */
  lemma ParseFilterAccepts<V>(lookup: string, raw: string, parse: string -> Option<V>)
    requires '=' !in lookup && '=' !in raw
    ensures ParseFilter(lookup + "=" + raw, parse)
         == match parse(raw) case Some(v) => Ok((lookup, v)) case None => Err(lookup + "=" + raw)
  {
    SplitJoin([lookup, raw], '=');
    assert [lookup, raw][1..] == [raw];
    assert Join([lookup, raw], '=') == lookup + "=" + raw;
  }

  /** Index of the first token `ParseFilter` rejects, or `|tokens|` when none is. */
  function FirstRejected<V>(tokens: seq<string>, parse: string -> Option<V>): (k: nat)
    ensures k <= |tokens|
    ensures forall j :: 0 <= j < k ==> ParseFilter(tokens[j], parse).Ok?
    ensures k < |tokens| ==> ParseFilter(tokens[k], parse).Err?
  {
    if tokens == [] then 0
    else if ParseFilter(tokens[0], parse).Err? then 0
    else 1 + FirstRejected(tokens[1..], parse)
  }

  /**
   * The `type=` converter applied by argparse to each token of `--filters`
   * (or `--excludes`) in turn: the first rejected token stops the command.
   */
  function ParseFilters<V>(tokens: seq<string>, parse: string -> Option<V>): (r: Result<seq<(string, V)>, string>)
    ensures r.Ok? <==> forall i :: 0 <= i < |tokens| ==> ParseFilter(tokens[i], parse).Ok?
    ensures r.Ok? ==> |r.value| == |tokens| && forall i :: 0 <= i < |tokens| ==> ParseFilter(tokens[i], parse) == Ok(r.value[i])
    ensures r.Err? ==> exists k :: 0 <= k < |tokens| && r.error == tokens[k] && ParseFilter(tokens[k], parse).Err?
                                    && forall j :: 0 <= j < k ==> ParseFilter(tokens[j], parse).Ok?
  {
    var k := FirstRejected(tokens, parse);
    if k < |tokens| then Err(tokens[k])
    else Ok(seq(|tokens|, i requires 0 <= i < |tokens| => ParseFilter(tokens[i], parse).value))
  }

  /** Lines 91-92: combining the lookups with AND from left to right, continuing from `acc`. */
  function AndAll<V>(acc: Q<V>, rest: seq<(string, V)>): Q<V>
    decreases |rest|
  {
    if rest == [] then acc else AndAll(And(acc, Lookup(rest[0].0, rest[0].1)), rest[1..])
  }

  /** Lines 91-92: the AND of one lookup per filter, or none when there are no filters. */
  function Conjunction<V>(filters: seq<(string, V)>): (r: Option<Q<V>>)
    ensures r.None? <==> filters == []
  {
    if filters == [] then None else Some(AndAll(Lookup(filters[0].0, filters[0].1), filters[1..]))
  }

  /** The lookups and membership tests of a predicate, left to right. */
  function Leaves<V>(q: Q<V>): seq<Q<V>> {
    match q
    case And(l, r) => Leaves(l) + Leaves(r)
    case _ => [q]
  }

  /** One lookup per filter, in order; each is a single leaf. */
  function Lookups<V>(filters: seq<(string, V)>): (r: seq<Q<V>>)
    ensures |r| == |filters|
    ensures forall i :: 0 <= i < |r| ==> r[i].Lookup? && Leaves(r[i]) == [r[i]]
    ensures forall i :: 0 <= i < |r| ==> r[i].lookup == filters[i].0 && r[i].value == filters[i].1
  {
    seq(|filters|, i requires 0 <= i < |filters| => Lookup(filters[i].0, filters[i].1))
  }

  lemma {:induction false} AndAllLeaves<V>(acc: Q<V>, rest: seq<(string, V)>)
    ensures Leaves(AndAll(acc, rest)) == Leaves(acc) + Lookups(rest)
    decreases |rest|
  {
    if rest != [] {
      AndAllLeaves(And(acc, Lookup(rest[0].0, rest[0].1)), rest[1..]);
      assert Lookups(rest) == [Lookup(rest[0].0, rest[0].1)] + Lookups(rest[1..]);
    }
  }

  /** The folded predicate holds every filter exactly once, in the order given. */
  lemma ConjunctionLeaves<V>(filters: seq<(string, V)>)
    requires filters != []
    ensures Leaves(Conjunction(filters).value) == Lookups(filters)
  {
    AndAllLeaves(Lookup(filters[0].0, filters[0].1), filters[1..]);
    assert Lookups(filters) == [Lookup(filters[0].0, filters[0].1)] + Lookups(filters[1..]);
  }

  /**
   * Whether a record satisfies `q`: `matches` says whether the record meets a
   * single field lookup (the ORM's business), `pk` is its primary key.
   */
  predicate Holds<V>(q: Q<V>, matches: (string, V) -> bool, pk: string) {
    match q
    case Lookup(l, v) => matches(l, v)
    case PkIn(ids) => pk in ids
    case And(l, r) => Holds(l, matches, pk) && Holds(r, matches, pk)
  }

  lemma {:induction false} AndAllHolds<V>(acc: Q<V>, rest: seq<(string, V)>, matches: (string, V) -> bool, pk: string)
    ensures Holds(AndAll(acc, rest), matches, pk) <==> Holds(acc, matches, pk) && forall i :: 0 <= i < |rest| ==> matches(rest[i].0, rest[i].1)
    decreases |rest|
  {
    if rest != [] {
      AndAllHolds(And(acc, Lookup(rest[0].0, rest[0].1)), rest[1..], matches, pk);
      assert forall i :: 1 <= i < |rest| ==> rest[i] == rest[1..][i - 1];
    }
  }

  /** A record satisfies the folded predicate iff it meets every filter. */
  lemma ConjunctionHolds<V>(filters: seq<(string, V)>, matches: (string, V) -> bool, pk: string)
    requires filters != []
    ensures Holds(Conjunction(filters).value, matches, pk) <==> forall i :: 0 <= i < |filters| ==> matches(filters[i].0, filters[i].1)
  {
    AndAllHolds(Lookup(filters[0].0, filters[0].1), filters[1..], matches, pk);
    assert forall i :: 1 <= i < |filters| ==> filters[i] == filters[1..][i - 1];
  }

  /** The order in which filters are given does not change which records the folded predicate admits. */
  lemma ConjunctionOrderIndependent<V>(filters: seq<(string, V)>, other: seq<(string, V)>, matches: (string, V) -> bool, pk: string)
    requires filters != [] && multiset(filters) == multiset(other)
    ensures other != []
    ensures Holds(Conjunction(filters).value, matches, pk) == Holds(Conjunction(other).value, matches, pk)
  {
    assert |other| == |multiset(other)| == |multiset(filters)| == |filters|;
    ConjunctionHolds(filters, matches, pk);
    ConjunctionHolds(other, matches, pk);
    if forall i :: 0 <= i < |filters| ==> matches(filters[i].0, filters[i].1) {
      forall j | 0 <= j < |other| ensures matches(other[j].0, other[j].1) {
        assert other[j] in multiset(other);
        var i :| 0 <= i < |filters| && filters[i] == other[j];
      }
    }
    if forall j :: 0 <= j < |other| ==> matches(other[j].0, other[j].1) {
      forall i | 0 <= i < |filters| ensures matches(filters[i].0, filters[i].1) {
        assert filters[i] in multiset(filters);
        var j :| 0 <= j < |other| && other[j] == filters[i];
      }
    }
  }

  /** Line 161: the exclude AND a primary-key membership test when an exclude was given, else the membership test alone. */
  function WithMissing<V>(exclude: Option<Q<V>>, ids: seq<string>): (r: Q<V>)
    ensures Leaves(r) == (if exclude.Some? then Leaves(exclude.value) else []) + [PkIn(ids)]
  {
    if exclude.Some? then And(exclude.value, PkIn(ids)) else PkIn(ids)
  }

  /** The augmented exclude rules out exactly the records the old exclude ruled out that are also already indexed. */
  lemma WithMissingHolds<V>(exclude: Option<Q<V>>, ids: seq<string>, matches: (string, V) -> bool, pk: string)
    ensures Holds(WithMissing(exclude, ids), matches, pk) <==> (exclude.None? || Holds(exclude.value, matches, pk)) && pk in ids
  {
  }
}
