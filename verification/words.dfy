/**
 * The word splitter of `predict_bio`: the words of a query are the maximal
 * runs of non-whitespace characters (the matches of the regular expression
 * `\S+`), each kept with its exact character offsets.
 */
module Words {

  /**
   * The characters Python treats as whitespace in `\s` and `str.strip`
   * (those for which `str.isspace` holds). No property proved below
   * depends on which characters are in this table.
   */
  predicate IsSpace(c: char) {
    || ('\t' <= c <= '\r')
    || ('\U{1C}' <= c <= ' ')
    || c == '\U{85}' || c == '\U{A0}' || c == '\U{1680}'
    || ('\U{2000}' <= c <= '\U{200A}')
    || c == '\U{2028}' || c == '\U{2029}' || c == '\U{202F}'
    || c == '\U{205F}' || c == '\U{3000}'
  }

  /** Every character of `q` is whitespace; the empty query qualifies. */
  predicate AllSpace(q: string) {
    forall k :: 0 <= k < |q| ==> IsSpace(q[k])
  }

  /** One match of `\S+`: its half-open span and the matched text. */
  datatype Word = Word(start: nat, end: nat, text: string)

  /** `q[s..e]` is a non-empty run of non-whitespace that cannot be extended either way. */
  predicate MaximalRun(q: string, s: int, e: int) {
    && 0 <= s < e <= |q|
    && (forall k :: s <= k < e ==> !IsSpace(q[k]))
    && (s == 0 || IsSpace(q[s - 1]))
    && (e == |q| || IsSpace(q[e]))
  }

  /** Position `i` does not fall strictly inside a run of non-whitespace. */
  predicate AtBoundary(q: string, i: nat)
    requires i <= |q|
  {
    i == 0 || i == |q| || IsSpace(q[i - 1]) || IsSpace(q[i])
  }

  /** The first non-whitespace position at or after `i`, or `|q|`. */
  function SkipSpace(q: string, i: nat): (j: nat)
    requires i <= |q|
    ensures i <= j <= |q|
    ensures forall k :: i <= k < j ==> IsSpace(q[k])
    ensures j == |q| || !IsSpace(q[j])
    decreases |q| - i
  {
    if i == |q| || !IsSpace(q[i]) then i else SkipSpace(q, i + 1)
  }

  /** The first whitespace position at or after `i`, or `|q|`. */
  function RunEnd(q: string, i: nat): (j: nat)
    requires i <= |q|
    ensures i <= j <= |q|
    ensures forall k :: i <= k < j ==> !IsSpace(q[k])
    ensures j == |q| || IsSpace(q[j])
    decreases |q| - i
  {
    if i == |q| || IsSpace(q[i]) then i else RunEnd(q, i + 1)
  }

  /** `SkipSpace` returns exactly the first non-whitespace position at or after `i`. */
  lemma {:induction false} SkipSpaceIs(q: string, i: nat, j: nat)
    requires i <= j <= |q|
    requires forall k :: i <= k < j ==> IsSpace(q[k])
    requires j == |q| || !IsSpace(q[j])
    ensures SkipSpace(q, i) == j
    decreases j - i
  {
    if i < j {
      SkipSpaceIs(q, i + 1, j);
    }
  }

  /** `RunEnd` returns exactly the first whitespace position at or after `i`. */
  lemma {:induction false} RunEndIs(q: string, i: nat, j: nat)
    requires i <= j <= |q|
    requires forall k :: i <= k < j ==> !IsSpace(q[k])
    requires j == |q| || IsSpace(q[j])
    ensures RunEnd(q, i) == j
    decreases j - i
  {
    if i < j {
      RunEndIs(q, i + 1, j);
    }
  }

  /** The matches of `\S+` in `q[i..]`, found by a left-to-right scan from `i`. */
  function WordsFrom(q: string, i: nat): (ws: seq<Word>)
    requires i <= |q| && AtBoundary(q, i)
    ensures forall j :: 0 <= j < |ws| ==>
      && i <= ws[j].start
      && MaximalRun(q, ws[j].start, ws[j].end)
      && ws[j].text == q[ws[j].start..ws[j].end]
    ensures forall j1, j2 :: 0 <= j1 < j2 < |ws| ==> ws[j1].end < ws[j2].start
    decreases |q| - i
  {
    var s := SkipSpace(q, i);
    if s == |q| then []
    else
      var e := RunEnd(q, s);
      [Word(s, e, q[s..e])] + WordsFrom(q, e)
  }

  /**
   * One step of the scan: after whitespace `q[i..s]`, the next word is the
   * non-whitespace run `q[s..e]` ended by whitespace or the end of the query.
   */
  lemma WordsFromNext(q: string, i: nat, s: nat, e: nat)
    requires i <= s < e <= |q| && AtBoundary(q, i)
    requires forall k :: i <= k < s ==> IsSpace(q[k])
    requires forall k :: s <= k < e ==> !IsSpace(q[k])
    requires e == |q| || IsSpace(q[e])
    ensures AtBoundary(q, e)
    ensures WordsFrom(q, i) == [Word(s, e, q[s..e])] + WordsFrom(q, e)
  {
    SkipSpaceIs(q, i, s);
    RunEndIs(q, s, e);
  }

  /** The scan finds nothing in a whitespace-only remainder. */
  lemma WordsFromDone(q: string, i: nat)
    requires i <= |q| && AtBoundary(q, i)
    requires forall k :: i <= k < |q| ==> IsSpace(q[k])
    ensures WordsFrom(q, i) == []
  {
    SkipSpaceIs(q, i, |q|);
  }

  /** The words of the whole query: the matches of `\S+` from left to right. */
  function Split(q: string): (ws: seq<Word>)
    ensures forall j :: 0 <= j < |ws| ==>
      MaximalRun(q, ws[j].start, ws[j].end) && ws[j].text == q[ws[j].start..ws[j].end]
    ensures forall j1, j2 :: 0 <= j1 < j2 < |ws| ==> ws[j1].end < ws[j2].start
  {
    WordsFrom(q, 0)
  }

  /** Position `k` lies inside the span of one of the words `ws`. */
  ghost predicate Covered(ws: seq<Word>, k: int) {
    exists j :: 0 <= j < |ws| && ws[j].start <= k < ws[j].end
  }

  /** Every non-whitespace position of `q[i..]` lies inside one of the scanned words. */
  lemma {:induction false} WordsFromCover(q: string, i: nat, k: int)
    requires i <= |q| && AtBoundary(q, i)
    requires i <= k < |q| && !IsSpace(q[k])
    ensures Covered(WordsFrom(q, i), k)
    decreases |q| - i
  {
    var ws := WordsFrom(q, i);
    var s := SkipSpace(q, i);
    assert s != |q| && s <= k;
    var e := RunEnd(q, s);
    assert ws == [Word(s, e, q[s..e])] + WordsFrom(q, e);
    if k < e {
      assert ws[0].start <= k < ws[0].end;
    } else {
      WordsFromCover(q, e, k);
      var j :| 0 <= j < |WordsFrom(q, e)| && WordsFrom(q, e)[j].start <= k < WordsFrom(q, e)[j].end;
      assert ws[j + 1] == WordsFrom(q, e)[j];
    }
  }

  /** Tiling: a position is covered by a word exactly when it holds a non-whitespace character. */
  lemma SplitTiles(q: string, k: int)
    requires 0 <= k < |q|
    ensures Covered(Split(q), k) <==> !IsSpace(q[k])
  {
    if !IsSpace(q[k]) {
      WordsFromCover(q, 0, k);
    }
  }

  /** The words are exactly the maximal non-whitespace runs of the query. */
  lemma SplitIsMaximalRuns(q: string, s: int, e: int)
    ensures (exists j :: 0 <= j < |Split(q)| && Split(q)[j].start == s && Split(q)[j].end == e)
        <==> MaximalRun(q, s, e)
  {
    var ws := Split(q);
    if MaximalRun(q, s, e) {
      SplitTiles(q, s);
      var j :| 0 <= j < |ws| && ws[j].start <= s < ws[j].end;
      assert MaximalRun(q, ws[j].start, ws[j].end);
    }
  }

  /** A query yields no words exactly when it is empty or whitespace only. */
  lemma SplitEmpty(q: string)
    ensures Split(q) == [] <==> AllSpace(q)
  {
    if !AllSpace(q) {
      var k :| 0 <= k < |q| && !IsSpace(q[k]);
      SplitTiles(q, k);
    }
  }
}
