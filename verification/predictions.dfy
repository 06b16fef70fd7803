/**
 * The predictor's records as `predict_bio` consumes them: a stable sort by
 * `start`, and the containment filter that picks, for each word, the
 * predictions lying fully inside it.
 */
module Predictions {
  import opened Wrappers
  import opened Words

  /**
   * One record of the entity predictor's output: a character span and its
   * entity group. The confidence score is never read, so it is not kept.
   */
  datatype Prediction = Prediction(start: int, end: int, group: string)

  predicate SortedByStart(s: seq<Prediction>) {
    forall j1, j2 :: 0 <= j1 < j2 < |s| ==> s[j1].start <= s[j2].start
  }

  /** Prepending a record no later than the head keeps a sequence sorted. */
  lemma SortedCons(y: Prediction, t: seq<Prediction>)
    requires SortedByStart(t)
    requires t == [] || y.start <= t[0].start
    ensures SortedByStart([y] + t)
  {
    var r := [y] + t;
    forall j1, j2 | 0 <= j1 < j2 < |r|
      ensures r[j1].start <= r[j2].start
    {
      if j1 == 0 {
        assert r[j2] == t[j2 - 1];
        assert t[0].start <= t[j2 - 1].start;
      } else {
        assert r[j1] == t[j1 - 1] && r[j2] == t[j2 - 1];
      }
    }
  }

  /**
   * Puts `x` into the sorted `s` in front of every record whose start is not
   * smaller, so that `x` stays ahead of the records it preceded.
   */
  function Insert(x: Prediction, s: seq<Prediction>): (r: seq<Prediction>)
    requires SortedByStart(s)
    ensures SortedByStart(r)
    ensures multiset(r) == multiset(s) + multiset{x}
    ensures r[0] == x || (s != [] && r[0] == s[0])
  {
    if s == [] || x.start <= s[0].start then
      SortedCons(x, s);
      [x] + s
    else
      var rest := Insert(x, s[1..]);
      assert s == [s[0]] + s[1..];
      assert rest[0] == x || rest[0] == s[1];
      SortedCons(s[0], rest);
      [s[0]] + rest
  }

  /** The records ordered by `start`; ties keep their order, as Python's sort is stable. */
  function SortByStart(ps: seq<Prediction>): (r: seq<Prediction>)
    ensures SortedByStart(r)
    ensures multiset(r) == multiset(ps)
  {
    if ps == [] then []
    else
      assert ps == [ps[0]] + ps[1..];
      Insert(ps[0], SortByStart(ps[1..]))
  }

  /** The records of `s` that start at `k`, in their order in `s`. */
  function WithStart(s: seq<Prediction>, k: int): seq<Prediction> {
    if s == [] then []
    else if s[0].start == k then [s[0]] + WithStart(s[1..], k)
    else WithStart(s[1..], k)
  }

  lemma {:induction false} InsertWithStart(x: Prediction, s: seq<Prediction>, k: int)
    requires SortedByStart(s)
    ensures WithStart(Insert(x, s), k) ==
      (if x.start == k then [x] + WithStart(s, k) else WithStart(s, k))
    decreases |s|
  {
    if s == [] || x.start <= s[0].start {
      assert ([x] + s)[1..] == s;
    } else {
      InsertWithStart(x, s[1..], k);
      assert ([s[0]] + Insert(x, s[1..]))[1..] == Insert(x, s[1..]);
    }
  }

  /** Stability: records with equal start keep their relative order. */
  lemma {:induction false} SortByStartStable(ps: seq<Prediction>, k: int)
    ensures WithStart(SortByStart(ps), k) == WithStart(ps, k)
  {
    if ps != [] {
      SortByStartStable(ps[1..], k);
      InsertWithStart(ps[0], SortByStart(ps[1..]), k);
    }
  }

  /** The containment test of `predict_bio`: `p` lies fully inside word `w`. */
  predicate Contained(p: Prediction, w: Word) {
    p.start >= w.start && p.end <= w.end
  }

  /** `tokens_in_word`: the records of `s` contained in `w`, in their order in `s`. */
  function TokensInWord(s: seq<Prediction>, w: Word): (r: seq<Prediction>)
    ensures forall p :: p in r <==> p in s && Contained(p, w)
    ensures r != [] ==>
      exists k :: 0 <= k < |s| && s[k] == r[0] && forall j :: 0 <= j < k ==> !Contained(s[j], w)
  {
    if s == [] then []
    else if Contained(s[0], w) then [s[0]] + TokensInWord(s[1..], w)
    else
      var r := TokensInWord(s[1..], w);
      assert forall p :: p in s <==> p == s[0] || p in s[1..];
      if r != [] then
        var k :| 0 <= k < |s[1..]| && s[1..][k] == r[0]
          && (forall j :: 0 <= j < k ==> !Contained(s[1..][j], w));
        assert s[k + 1] == r[0];
        r
      else r
  }

  /** The first record of `s` contained in `w`, if any: `tokens_in_word[0]`. */
  function FirstContained(s: seq<Prediction>, w: Word): Option<Prediction> {
    var t := TokensInWord(s, w);
    if t == [] then None else Some(t[0])
  }

  /**
   * Reference for the record a word takes, stated on the predictor's own
   * (unsorted) order: `i` indexes a contained record of least start, and no
   * contained record of that same start comes before it.
   */
  ghost predicate EarliestLeast(ps: seq<Prediction>, w: Word, i: int) {
    && 0 <= i < |ps|
    && Contained(ps[i], w)
    && (forall j :: 0 <= j < |ps| && Contained(ps[j], w) ==> ps[i].start <= ps[j].start)
    && (forall j :: 0 <= j < i && Contained(ps[j], w) ==> ps[i].start < ps[j].start)
  }

  /** At most one index is the earliest least contained record. */
  lemma EarliestLeastUnique(ps: seq<Prediction>, w: Word, i1: int, i2: int)
    requires EarliestLeast(ps, w, i1) && EarliestLeast(ps, w, i2)
    ensures i1 == i2
  {
  }

  lemma {:induction false} FirstContainedInsert(x: Prediction, s: seq<Prediction>, w: Word)
    requires SortedByStart(s)
    ensures FirstContained(Insert(x, s), w) ==
      (if Contained(x, w) && (FirstContained(s, w).None? || x.start <= FirstContained(s, w).value.start)
       then Some(x) else FirstContained(s, w))
    decreases |s|
  {
    if s == [] || x.start <= s[0].start {
      assert ([x] + s)[1..] == s;
      var m := FirstContained(s, w);
      if m.Some? {
        assert m.value in s;
      }
    } else {
      FirstContainedInsert(x, s[1..], w);
      assert ([s[0]] + Insert(x, s[1..]))[1..] == Insert(x, s[1..]);
      if !Contained(s[0], w) {
        assert FirstContained(s, w) == FirstContained(s[1..], w);
      }
    }
  }

  /** A contained `x` no later than every contained record of `xs` wins in `[x] + xs`. */
  lemma EarliestLeastHead(x: Prediction, xs: seq<Prediction>, w: Word)
    requires Contained(x, w)
    requires forall j :: 0 <= j < |xs| && Contained(xs[j], w) ==> x.start <= xs[j].start
    ensures EarliestLeast([x] + xs, w, 0)
  {
    var ps := [x] + xs;
    assert forall j :: 1 <= j < |ps| ==> ps[j] == xs[j - 1];
  }

  /** The winner of `xs` still wins in `[x] + xs` unless `x` is contained and no later. */
  lemma EarliestLeastTail(x: Prediction, xs: seq<Prediction>, w: Word, i: int)
    requires EarliestLeast(xs, w, i)
    requires !(Contained(x, w) && x.start <= xs[i].start)
    ensures EarliestLeast([x] + xs, w, i + 1)
  {
    var ps := [x] + xs;
    assert forall j :: 1 <= j < |ps| ==> ps[j] == xs[j - 1];
  }

  lemma NoneContainedCons(x: Prediction, xs: seq<Prediction>, w: Word)
    ensures (forall j :: 0 <= j < |[x] + xs| ==> !Contained(([x] + xs)[j], w)) <==>
      !Contained(x, w) && forall j :: 0 <= j < |xs| ==> !Contained(xs[j], w)
  {
    var ps := [x] + xs;
    if !Contained(x, w) && forall j :: 0 <= j < |xs| ==> !Contained(xs[j], w) {
      forall j | 0 <= j < |ps|
        ensures !Contained(ps[j], w)
      {
        if j > 0 {
          assert ps[j] == xs[j - 1];
        }
      }
    }
    if forall j :: 0 <= j < |ps| ==> !Contained(ps[j], w) {
      assert ps[0] == x;
      forall j | 0 <= j < |xs|
        ensures !Contained(xs[j], w)
      {
        assert ps[j + 1] == xs[j];
      }
    }
  }

  /**
   * The inductive step of `FirstContainedSorted`, on plain values: `m` is the
   * answer for `xs`, and `r` is what inserting `x` makes of it.
   */
  lemma FirstContainedStep(x: Prediction, xs: seq<Prediction>, w: Word, m: Option<Prediction>, r: Option<Prediction>)
    requires m.None? <==> (forall j :: 0 <= j < |xs| ==> !Contained(xs[j], w))
    requires m.Some? ==> exists i :: EarliestLeast(xs, w, i) && m.value == xs[i]
    requires r == (if Contained(x, w) && (m.None? || x.start <= m.value.start) then Some(x) else m)
    ensures r.None? <==> (forall j :: 0 <= j < |[x] + xs| ==> !Contained(([x] + xs)[j], w))
    ensures r.Some? ==> exists i :: EarliestLeast([x] + xs, w, i) && r.value == ([x] + xs)[i]
  {
    NoneContainedCons(x, xs, w);
    if Contained(x, w) && (m.None? || x.start <= m.value.start) {
      if m.Some? {
        var i :| EarliestLeast(xs, w, i) && m.value == xs[i];
      }
      EarliestLeastHead(x, xs, w);
    } else if m.Some? {
      var i :| EarliestLeast(xs, w, i) && m.value == xs[i];
      EarliestLeastTail(x, xs, w, i);
    }
  }

  /**
   * First match wins: after the stable sort, the first contained record is
   * the earliest least contained record of the predictor's output, and there
   * is none exactly when no record is contained in the word.
   */
  lemma {:induction false} FirstContainedSorted(ps: seq<Prediction>, w: Word)
    ensures FirstContained(SortByStart(ps), w).None? <==>
      (forall j :: 0 <= j < |ps| ==> !Contained(ps[j], w))
    ensures FirstContained(SortByStart(ps), w).Some? ==>
      exists i :: EarliestLeast(ps, w, i) && FirstContained(SortByStart(ps), w).value == ps[i]
  {
    if ps != [] {
      var x, xs := ps[0], ps[1..];
      assert ps == [x] + xs;
      FirstContainedSorted(xs, w);
      FirstContainedInsert(x, SortByStart(xs), w);
      FirstContainedStep(x, xs, w, FirstContained(SortByStart(xs), w), FirstContained(SortByStart(ps), w));
    }
  }
}
