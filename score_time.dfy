/**
 * Score-time bookkeeping shared by the Tonnetz/timeline sync view and the
 * counterpoint weave: every measure's length is the largest end (offset plus
 * quarter length) of its events, never less than 0, and each measure starts
 * where all lower-numbered measures together end.
 */
module ScoreTime {

  /** A timed event reduced to what the bookkeeping reads: its measure, its
      offset inside the measure and its quarter length. */
  datatype Timed = Timed(measure: int, offset: real, ql: real)

  function End(t: Timed): real {
    t.offset + t.ql
  }

  function Max(a: real, b: real): (r: real)
    ensures r >= a && r >= b && (r == a || r == b)
  {
    if a >= b then a else b
  }

  /** The `measuresData` record after the events `ts` have been visited in
      order: a new measure starts at `maxEnd = 0`, and every event raises its
      measure's `maxEnd` to its own end if that is larger. */
  function MaxEnds(ts: seq<Timed>): map<int, real>
    decreases |ts|
  {
    if ts == [] then map[]
    else
      var m := MaxEnds(ts[..|ts| - 1]);
      var t := ts[|ts| - 1];
      var prev := if t.measure in m then m[t.measure] else 0.0;
      m[t.measure := Max(prev, End(t))]
  }

  /** Visiting one more event updates only that event's measure. */
  lemma MaxEndsSnoc(ts: seq<Timed>, t: Timed)
    ensures MaxEnds(ts + [t])
         == MaxEnds(ts)[t.measure := Max(if t.measure in MaxEnds(ts) then MaxEnds(ts)[t.measure] else 0.0, End(t))]
  {
    assert (ts + [t])[..|ts|] == ts;
  }

  /** What the table holds: exactly the measures that have an event, each
      mapped to max(0, the largest end of its events). */
  lemma {:induction false} MaxEndsCharacterized(ts: seq<Timed>, m: int)
    ensures m in MaxEnds(ts) <==> exists i :: 0 <= i < |ts| && ts[i].measure == m
    ensures m in MaxEnds(ts) ==> MaxEnds(ts)[m] >= 0.0
    ensures m in MaxEnds(ts) ==>
              forall i :: 0 <= i < |ts| && ts[i].measure == m ==> End(ts[i]) <= MaxEnds(ts)[m]
    ensures m in MaxEnds(ts) ==>
              MaxEnds(ts)[m] == 0.0 || exists i :: 0 <= i < |ts| && ts[i].measure == m && End(ts[i]) == MaxEnds(ts)[m]
    decreases |ts|
  {
    if ts != [] {
      var init := ts[..|ts| - 1];
      var t := ts[|ts| - 1];
      MaxEndsCharacterized(init, m);
      assert forall i :: 0 <= i < |init| ==> init[i] == ts[i];
      if t.measure == m {
        assert ts[|ts| - 1].measure == m;
      }
    }
  }

  /** Every value in the table is non-negative. */
  lemma MaxEndsNonNegative(ts: seq<Timed>)
    ensures forall m :: m in MaxEnds(ts) ==> MaxEnds(ts)[m] >= 0.0
  {
    forall m | m in MaxEnds(ts)
      ensures MaxEnds(ts)[m] >= 0.0
    {
      MaxEndsCharacterized(ts, m);
    }
  }

  predicate StrictlyIncreasing(ks: seq<int>) {
    forall i, j :: 0 <= i < j < |ks| ==> ks[i] < ks[j]
  }

  /** A non-empty set of measures has an element. */
  lemma HasElement(K: set<int>)
    requires K != {}
    ensures exists x :: x in K
  {
    if forall x :: x !in K {
      assert false;
    }
  }

  /** The largest element of a non-empty finite set of measures exists. */
  lemma {:induction false} MaxExists(K: set<int>)
    requires K != {}
    ensures exists p :: p in K && forall q :: q in K ==> q <= p
    decreases |K|
  {
    HasElement(K);
    var x :| x in K;
    if K != {x} {
      MaxExists(K - {x});
      var p :| p in K - {x} && forall q :: q in K - {x} ==> q <= p;
      var top := if x > p then x else p;
      forall q | q in K
        ensures q <= top
      {
        if q != x {
          assert q in K - {x};
        }
      }
      assert top in K;
    } else {
      assert forall q :: q in K ==> q <= x;
    }
  }

  ghost function Greatest(K: set<int>): (p: int)
    requires K != {}
    ensures p in K && forall q :: q in K ==> q <= p
  {
    MaxExists(K);
    var p :| p in K && forall q :: q in K ==> q <= p;
    p
  }

  /** The sum of `ends[k]` over the measures `k` in `K`. */
  ghost function SumOver(ends: map<int, real>, K: set<int>): real
    requires K <= ends.Keys
    decreases |K|
  {
    if K == {} then 0.0
    else
      var p := Greatest(K);
      SumOver(ends, K - {p}) + ends[p]
  }

  /** The measures of the table that come before `m`. */
  ghost function KeysBelow(ends: map<int, real>, m: int): set<int> {
    set k | k in ends.Keys && k < m
  }

  /** Where measure `m` starts: the sum of `maxEnd` over all lower-numbered
      measures. */
  ghost function StartOf(ends: map<int, real>, m: int): real {
    SumOver(ends, KeysBelow(ends, m))
  }

  /** The whole length of the score: the sum of `maxEnd` over all measures. */
  ghost function Total(ends: map<int, real>): real {
    SumOver(ends, ends.Keys)
  }

  /** `ks` lists exactly the measures of the table, in ascending order. */
  ghost predicate AscendingKeysOf(ks: seq<int>, ends: map<int, real>) {
    && StrictlyIncreasing(ks)
    && (forall k :: k in ks <==> k in ends.Keys)
  }

  /** The first measure starts at 0. */
  lemma StartOfFirst(ends: map<int, real>, ks: seq<int>)
    requires AscendingKeysOf(ks, ends) && |ks| > 0
    ensures StartOf(ends, ks[0]) == 0.0
  {
    assert KeysBelow(ends, ks[0]) == {};
  }

  /** Each measure starts where the previous one ends. */
  lemma StartOfNext(ends: map<int, real>, ks: seq<int>, i: int)
    requires AscendingKeysOf(ks, ends) && 0 <= i < |ks| - 1
    ensures StartOf(ends, ks[i + 1]) == StartOf(ends, ks[i]) + ends[ks[i]]
  {
    var K := KeysBelow(ends, ks[i + 1]);
    assert ks[i] in K;
    forall q | q in K
      ensures q <= ks[i]
    {
      var j :| 0 <= j < |ks| && ks[j] == q;
      if j < i {
        assert ks[j] < ks[i];
      }
    }
    assert Greatest(K) == ks[i];
    assert K - {ks[i]} == KeysBelow(ends, ks[i]);
  }

  /** The score ends where its last measure ends. */
  lemma TotalIsLastEnd(ends: map<int, real>, ks: seq<int>)
    requires AscendingKeysOf(ks, ends)
    ensures |ks| == 0 ==> Total(ends) == 0.0
    ensures |ks| > 0 ==> Total(ends) == StartOf(ends, ks[|ks| - 1]) + ends[ks[|ks| - 1]]
  {
    if |ks| == 0 {
      assert ends.Keys == {};
    } else {
      var last := ks[|ks| - 1];
      assert last in ends.Keys;
      forall q | q in ends.Keys
        ensures q <= last
      {
        var j :| 0 <= j < |ks| && ks[j] == q;
        if j < |ks| - 1 {
          assert ks[j] < last;
        }
      }
      assert Greatest(ends.Keys) == last;
      assert ends.Keys - {last} == KeysBelow(ends, last);
    }
  }

  ghost predicate NonNegative(ends: map<int, real>) {
    forall m :: m in ends ==> ends[m] >= 0.0
  }

  lemma {:induction false} SumOverNonNegative(ends: map<int, real>, K: set<int>)
    requires K <= ends.Keys && NonNegative(ends)
    ensures SumOver(ends, K) >= 0.0
    decreases |K|
  {
    if K != {} {
      SumOverNonNegative(ends, K - {Greatest(K)});
    }
  }

  ghost function AtOrBelow(K: set<int>, m: int): set<int> {
    set k | k in K && k <= m
  }

  /** Summing over the measures up to `m` gives no more than summing over all
      of them. */
  lemma {:induction false} SumOverPrefix(ends: map<int, real>, K: set<int>, m: int)
    requires K <= ends.Keys && NonNegative(ends)
    ensures SumOver(ends, AtOrBelow(K, m)) <= SumOver(ends, K)
    decreases |K|
  {
    if K == {} {
      assert AtOrBelow(K, m) == {};
    } else {
      var g := Greatest(K);
      if g <= m {
        assert AtOrBelow(K, m) == K;
      } else {
        assert AtOrBelow(K, m) == AtOrBelow(K - {g}, m);
        SumOverPrefix(ends, K - {g}, m);
        SumOverNonNegative(ends, K - {g});
      }
    }
  }

  /** Every measure starts at or after 0 and ends by the total length. */
  lemma MeasureWithinTotal(ends: map<int, real>, m: int)
    requires m in ends && NonNegative(ends)
    ensures 0.0 <= StartOf(ends, m)
    ensures StartOf(ends, m) + ends[m] <= Total(ends)
  {
    var P := AtOrBelow(ends.Keys, m);
    assert m in P;
    assert Greatest(P) == m;
    assert P - {m} == KeysBelow(ends, m);
    SumOverPrefix(ends, ends.Keys, m);
    SumOverNonNegative(ends, KeysBelow(ends, m));
  }

  /** `Object.keys(measuresData).map(Number).sort((a, b) => a - b)`: the
      measures of the table in ascending order. */
  method AscendingKeys(ends: map<int, real>) returns (ks: seq<int>)
    ensures AscendingKeysOf(ks, ends)
    ensures |ks| == |ends.Keys|
  {
    ks := [];
    var rest := ends.Keys;
    while rest != {}
      invariant rest <= ends.Keys
      invariant StrictlyIncreasing(ks)
      invariant forall k :: k in ks <==> k in ends.Keys && k !in rest
      invariant forall i, q :: 0 <= i < |ks| && q in rest ==> ks[i] < q
      invariant |ks| + |rest| == |ends.Keys|
      decreases |rest|
    {
      HasElement(rest);
      var x :| x in rest;
      var lowest := x;
      var scan := rest - {x};
      while scan != {}
        invariant scan <= rest && lowest in rest
        invariant forall q :: q in rest && q !in scan ==> lowest <= q
        decreases |scan|
      {
        HasElement(scan);
        var y :| y in scan;
        if y < lowest {
          lowest := y;
        }
        scan := scan - {y};
      }
      ks := ks + [lowest];
      rest := rest - {lowest};
    }
  }
}
