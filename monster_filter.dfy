/**
  The search filter of the App component: `monsters.filter(...)` keeps, in
  order, each monster whose lower-cased name includes the search term.
 */
module MonsterFilter {
  import opened JsStrings

  /** One user record as fetched: the fields the filter and the card list use. */
  datatype Monster = Monster(id: int, name: string)

  /** The predicate handed to `filter`: `monster.name.toLocaleLowerCase().includes(term)`. */
  predicate Matches(m: Monster, term: string) {
    Includes(Lower(m.name), term)
  }

  /** `ms.filter(m => Matches(m, term))`. */
  function Filter(ms: seq<Monster>, term: string): (r: seq<Monster>)
    ensures |r| <= |ms|
  {
    if ms == [] then []
    else (if Matches(ms[0], term) then [ms[0]] else []) + Filter(ms[1..], term)
  }

  // ----- Subsequences, stated as an order-preserving embedding of indices -----

  ghost predicate Increasing(idx: seq<int>) {
    forall k, l :: 0 <= k < l < |idx| ==> idx[k] < idx[l]
  }

  /** `xs` is `ys` read at the strictly increasing positions `idx`. */
  ghost predicate EmbedsVia<T>(xs: seq<T>, ys: seq<T>, idx: seq<int>) {
    && |idx| == |xs|
    && Increasing(idx)
    && forall k :: 0 <= k < |idx| ==> 0 <= idx[k] < |ys| && xs[k] == ys[idx[k]]
  }

  /** `xs` keeps some elements of `ys` in their relative order and invents none. */
  ghost predicate IsSubsequence<T>(xs: seq<T>, ys: seq<T>) {
    exists idx :: EmbedsVia(xs, ys, idx)
  }

  /** Every position one further on, for indices into the tail of a sequence. */
  function Shift(idx: seq<int>): seq<int> {
    seq(|idx|, k requires 0 <= k < |idx| => idx[k] + 1)
  }

  /** The positions of `ms` whose monster matches `term`, in increasing order. */
  ghost function MatchIndices(ms: seq<Monster>, term: string): seq<int>
  {
    if ms == [] then []
    else (if Matches(ms[0], term) then [0] else []) + Shift(MatchIndices(ms[1..], term))
  }

  /**
    The filtered list is `ms` read at exactly the matching positions, in
    increasing order: order is kept, nothing is invented, and a monster is
    kept precisely when it matches.
   */
  lemma FilterSelectsMatches(ms: seq<Monster>, term: string)
    ensures EmbedsVia(Filter(ms, term), ms, MatchIndices(ms, term))
    ensures forall i :: 0 <= i < |ms| ==> (i in MatchIndices(ms, term) <==> Matches(ms[i], term))
  {
    FilterEmbedsMatchIndices(ms, term);
    MatchIndicesExact(ms, term);
  }

  lemma {:induction false} FilterEmbedsMatchIndices(ms: seq<Monster>, term: string)
    ensures EmbedsVia(Filter(ms, term), ms, MatchIndices(ms, term))
  {
    if ms != [] {
      FilterEmbedsMatchIndices(ms[1..], term);
      if Matches(ms[0], term) {
        EmbedsKept(Filter(ms[1..], term), ms, MatchIndices(ms[1..], term));
      } else {
        EmbedsSkipped(Filter(ms[1..], term), ms, MatchIndices(ms[1..], term));
      }
    }
  }

  /** Keeping the head: an embedding into the tail extends to one of the head followed by the rest. */
  lemma EmbedsKept<T>(xs: seq<T>, ys: seq<T>, idx: seq<int>)
    requires ys != [] && EmbedsVia(xs, ys[1..], idx)
    ensures EmbedsVia([ys[0]] + xs, ys, [0] + Shift(idx))
  {
    var shifted := [0] + Shift(idx);
    forall k, l | 0 <= k < l < |shifted| ensures shifted[k] < shifted[l] {
      if k > 0 {
        assert idx[k - 1] < idx[l - 1];
      }
    }
  }

  /** Skipping the head: an embedding into the tail is one into the whole list, shifted by one. */
  lemma EmbedsSkipped<T>(xs: seq<T>, ys: seq<T>, idx: seq<int>)
    requires ys != [] && EmbedsVia(xs, ys[1..], idx)
    ensures EmbedsVia(xs, ys, Shift(idx))
  {
    var shifted := Shift(idx);
    forall k, l | 0 <= k < l < |shifted| ensures shifted[k] < shifted[l] {
      assert idx[k] < idx[l];
    }
  }

  /** A position is among the shifted positions exactly when the position before it is among the originals. */
  lemma ShiftMembers(idx: seq<int>, i: int)
    ensures i in Shift(idx) <==> i - 1 in idx
  {
    if i in Shift(idx) {
      var k :| 0 <= k < |idx| && Shift(idx)[k] == i;
      assert idx[k] == i - 1;
    }
    if i - 1 in idx {
      var k :| 0 <= k < |idx| && idx[k] == i - 1;
      assert Shift(idx)[k] == i;
    }
  }

  lemma {:induction false} MatchIndicesExact(ms: seq<Monster>, term: string)
    ensures forall i :: 0 <= i < |ms| ==> (i in MatchIndices(ms, term) <==> Matches(ms[i], term))
  {
    if ms != [] {
      var tail := ms[1..];
      MatchIndicesExact(tail, term);
      FilterEmbedsMatchIndices(tail, term);
      var rest := Shift(MatchIndices(tail, term));
      var head: seq<int> := if Matches(ms[0], term) then [0] else [];
      assert MatchIndices(ms, term) == head + rest;
      forall i | 0 <= i < |ms|
        ensures i in head + rest <==> Matches(ms[i], term)
      {
        ShiftMembers(MatchIndices(tail, term), i);
        if i > 0 {
          assert ms[i] == tail[i - 1];
        }
      }
    }
  }

  /** Property: the filtered list is a subsequence of the monsters. */
  lemma FilterIsSubsequence(ms: seq<Monster>, term: string)
    ensures IsSubsequence(Filter(ms, term), ms)
  {
    FilterSelectsMatches(ms, term);
  }

  /** Soundness and completeness: a monster is in the result exactly when it is in `ms` and its lower-cased name includes `term`. */
  lemma {:induction false} FilterMembers(ms: seq<Monster>, term: string, m: Monster)
    ensures m in Filter(ms, term) <==> m in ms && Includes(Lower(m.name), term)
  {
    if ms != [] {
      FilterMembers(ms[1..], term, m);
      assert ms == [ms[0]] + ms[1..];
    }
  }

  /** Completeness counts duplicates too: every matching monster keeps all of its occurrences, every other one has none. */
  lemma {:induction false} FilterMultiplicity(ms: seq<Monster>, term: string, m: Monster)
    ensures multiset(Filter(ms, term))[m] == if Matches(m, term) then multiset(ms)[m] else 0
  {
    if ms != [] {
      FilterMultiplicity(ms[1..], term, m);
      assert ms == [ms[0]] + ms[1..];
    }
  }

  /** The empty search term keeps every monster, in order, because every name includes "". */
  lemma {:induction false} FilterEmptyTerm(ms: seq<Monster>)
    ensures Filter(ms, "") == ms
  {
    if ms != [] {
      FilterEmptyTerm(ms[1..]);
      IncludesEmpty(Lower(ms[0].name));
    }
  }

  /** An empty monster list filters to the empty list, whatever the term. */
  lemma FilterNoMonsters(term: string)
    ensures Filter([], term) == []
  {
  }

  /** The result is independent of how the list splits: filter distributes over concatenation. */
  lemma {:induction false} FilterAppend(a: seq<Monster>, b: seq<Monster>, term: string)
    ensures Filter(a + b, term) == Filter(a, term) + Filter(b, term)
  {
    if a != [] {
      FilterAppend(a[1..], b, term);
      assert (a + b)[0] == a[0];
      assert (a + b)[1..] == a[1..] + b;
    } else {
      assert a + b == b;
    }
  }

  /**
    Refinement: when the new term contains the old one (the user typed
    more), filtering by the new term is filtering the old result again.
   */
  lemma {:induction false} FilterRefines(ms: seq<Monster>, older: string, newer: string)
    requires Includes(newer, older)
    ensures Filter(ms, newer) == Filter(Filter(ms, older), newer)
  {
    if ms != [] {
      FilterRefines(ms[1..], older, newer);
      var kept := Filter(ms, older);
      if Matches(ms[0], older) {
        assert kept == [ms[0]] + Filter(ms[1..], older);
        assert kept[0] == ms[0] && kept[1..] == Filter(ms[1..], older);
      } else {
        assert kept == Filter(ms[1..], older);
        if Matches(ms[0], newer) {
          IncludesTransitive(Lower(ms[0].name), newer, older);
        }
      }
    }
  }

  /** A term that contains the old one yields a subsequence of the old result. */
  lemma FilterNarrows(ms: seq<Monster>, older: string, newer: string)
    requires Includes(newer, older)
    ensures IsSubsequence(Filter(ms, newer), Filter(ms, older))
  {
    FilterRefines(ms, older, newer);
    FilterIsSubsequence(Filter(ms, older), newer);
  }

  /** Filtering twice by the same term changes nothing. */
  lemma FilterIdempotent(ms: seq<Monster>, term: string)
    ensures Filter(Filter(ms, term), term) == Filter(ms, term)
  {
    IncludesSelf(term);
    FilterRefines(ms, term, term);
  }

  // ----- Two example users, Leanne Graham and Ervin Howell -----

  function Leanne(): Monster { Monster(1, "Leanne Graham") }
  function Ervin(): Monster { Monster(2, "Ervin Howell") }

  /** Searching "ervin" keeps only Ervin Howell. */
  lemma ScenarioSearchErvin()
    ensures Filter([Leanne(), Ervin()], "ervin") == [Ervin()]
  {
    OnlyErvinMatches("ervin");
  }

  /** The successive keystrokes "E", "Er", "Erv": "e" keeps both records, "er" and "erv" keep only Ervin Howell. */
  lemma ScenarioKeystrokeTerms()
    ensures Filter([Leanne(), Ervin()], "e") == [Leanne(), Ervin()]
    ensures Filter([Leanne(), Ervin()], "er") == [Ervin()]
    ensures Filter([Leanne(), Ervin()], "erv") == [Ervin()]
  {
    ErvinMatches("e");
    LeanneMatchesE();
    FilterPair(Leanne(), Ervin(), "e");
    OnlyErvinMatches("er");
    OnlyErvinMatches("erv");
  }

  /** A term between "er" and "ervin" keeps only Ervin Howell. */
  lemma OnlyErvinMatches(term: string)
    requires "er" <= term <= "ervin"
    ensures Filter([Leanne(), Ervin()], term) == [Ervin()]
  {
    ErvinMatches(term);
    LeanneExcluded(term);
    FilterPair(Leanne(), Ervin(), term);
  }

  lemma FilterPair(a: Monster, b: Monster, term: string)
    ensures Filter([a, b], term) == (if Matches(a, term) then [a] else []) + (if Matches(b, term) then [b] else [])
  {
    assert [a, b][1..] == [b];
  }

  /** Every prefix of "ervin" is included in "ervin howell". */
  lemma ErvinMatches(term: string)
    requires term <= "ervin"
    ensures Matches(Ervin(), term)
  {
    assert Lower("Ervin Howell") == "ervin howell";
    assert term <= "ervin howell";
  }

  lemma LeanneMatchesE()
    ensures Matches(Leanne(), "e")
  {
    assert Lower("Leanne Graham") == "leanne graham";
    assert Includes("leanne graham", "e");
  }

  /** "leanne graham" has no "er" in it. */
  lemma LeanneHasNoEr()
    ensures !Includes(Lower(Leanne().name), "er")
  {
    assert Lower("Leanne Graham") == "leanne graham";
    assert "er" == ['e', 'r'];
    NotIncludesPair("leanne graham", 'e', 'r');
  }

  /** So Leanne Graham matches no term that starts with "er". */
  lemma LeanneExcluded(term: string)
    requires "er" <= term
    ensures !Matches(Leanne(), term)
  {
    LeanneHasNoEr();
    assert term == "er" + term[2..];
    IncludesPrefix("er", term[2..]);
    if Includes(Lower(Leanne().name), term) {
      IncludesTransitive(Lower(Leanne().name), term, "er");
      assert false;
    }
  }

  /** The empty search keeps both records in their original order. */
  lemma ScenarioEmptySearch()
    ensures Filter([Leanne(), Ervin()], "") == [Leanne(), Ervin()]
  {
    FilterEmptyTerm([Leanne(), Ervin()]);
  }
}
