/** Worked examples of `predict_bio` and `batch_predict` on concrete inputs. */
module Scenarios {
  import opened Wrappers
  import opened Words
  import opened Predictions
  import opened Bio
  import opened NerModel

  lemma CocaWord(q: string)
    requires q == "Coca Cola 0.5L" || q == "Coca Cola"
    ensures WordsFrom(q, 0) == [Word(0, 4, "Coca")] + WordsFrom(q, 4)
  {
    assert q[0..4] == "Coca";
    WordsFromNext(q, 0, 0, 4);
  }

  lemma ColaWord(q: string)
    requires q == "Coca Cola 0.5L"
    ensures AtBoundary(q, 4)
    ensures WordsFrom(q, 4) == [Word(5, 9, "Cola")] + WordsFrom(q, 9)
  {
    assert q[5..9] == "Cola";
    WordsFromNext(q, 4, 5, 9);
  }

  lemma VolumeWord(q: string)
    requires q == "Coca Cola 0.5L"
    ensures AtBoundary(q, 9)
    ensures WordsFrom(q, 9) == [Word(10, 14, "0.5L")]
  {
    assert q[10..14] == "0.5L";
    WordsFromNext(q, 9, 10, 14);
    WordsFromDone(q, 14);
  }

  lemma CocaColaWords(q: string)
    requires q == "Coca Cola 0.5L"
    ensures Split(q) == [Word(0, 4, "Coca"), Word(5, 9, "Cola"), Word(10, 14, "0.5L")]
  {
    CocaWord(q);
    ColaWord(q);
    VolumeWord(q);
  }

  /** A predictor that answers with one span covering "Coca Cola" and one inside "0.5L". */
  function SpanningPredictor(q: string): Outcome {
    Predicted([Prediction(0, 9, "BRAND"), Prediction(10, 13, "VOLUME")])
  }

  lemma VolumeUntagged()
    ensures BaseType("VOLUME") == "VOLUME"
  {
    assert "VOLUME"[..2] == "VO";
  }

  /** Two records already in start order are left as they are. */
  lemma SortTwoOrdered(p1: Prediction, p2: Prediction)
    requires p1.start <= p2.start
    ensures SortByStart([p1, p2]) == [p1, p2]
  {
    assert [p1, p2][1..] == [p2] && [p2][1..] == [];
  }

  lemma SpanningSorted(ps: seq<Prediction>)
    requires ps == [Prediction(0, 9, "BRAND"), Prediction(10, 13, "VOLUME")]
    ensures SortByStart(ps) == ps
  {
    SortTwoOrdered(ps[0], ps[1]);
    assert ps == [ps[0], ps[1]];
  }

  lemma SpanningTypes(ws: seq<Word>, s: seq<Prediction>)
    requires ws == [Word(0, 4, "Coca"), Word(5, 9, "Cola"), Word(10, 14, "0.5L")]
    requires s == [Prediction(0, 9, "BRAND"), Prediction(10, 13, "VOLUME")]
    ensures WordType(s, ws[0]) == None && WordType(s, ws[1]) == None
    ensures WordType(s, ws[2]) == Some("VOLUME")
  {
    assert s[1..] == [s[1]] && s[1..][1..] == [];
    assert TokensInWord(s[1..], ws[0]) == [] && TokensInWord(s, ws[0]) == [];
    assert TokensInWord(s[1..], ws[1]) == [] && TokensInWord(s, ws[1]) == [];
    assert TokensInWord(s[1..], ws[2]) == [s[1]] && TokensInWord(s, ws[2]) == [s[1]];
    VolumeUntagged();
  }

  lemma SpanningAlign(ws: seq<Word>, s: seq<Prediction>)
    requires ws == [Word(0, 4, "Coca"), Word(5, 9, "Cola"), Word(10, 14, "0.5L")]
    requires s == [Prediction(0, 9, "BRAND"), Prediction(10, 13, "VOLUME")]
    ensures AlignFrom(ws, s, None) == [Labelled(0, 4, "O"), Labelled(5, 9, "O"), Labelled(10, 14, "B-VOLUME")]
  {
    SpanningTypes(ws, s);
    assert ws[1..] == [ws[1], ws[2]] && ws[1..][1..] == [ws[2]] && ws[1..][1..][1..] == [];
    AlignFromHead(ws, s, None);
    AlignFromHead(ws[1..], s, None);
    AlignFromHead(ws[1..][1..], s, None);
    assert Render(ExpectedTag(None, None)) == "O";
    assert Render(ExpectedTag(None, Some("VOLUME"))) == "B-VOLUME";
  }

  /**
   * Containment rule: the span (0, 9) covers both "Coca" and "Cola" but lies
   * inside neither, so both words are `O`; (10, 13) lies inside "0.5L".
   */
  lemma CocaColaSpanningPrediction(q: string)
    requires q == "Coca Cola 0.5L"
    ensures PredictBio(SpanningPredictor, q) ==
      [Labelled(0, 4, "O"), Labelled(5, 9, "O"), Labelled(10, 14, "B-VOLUME")]
  {
    CocaColaWords(q);
    assert !IsSpace(q[0]);
    SpanningSorted(SpanningPredictor(q).records);
    SpanningAlign(Split(q), SortByStart(SpanningPredictor(q).records));
  }

  lemma ColaOfTwo(q: string)
    requires q == "Coca Cola"
    ensures AtBoundary(q, 4)
    ensures WordsFrom(q, 4) == [Word(5, 9, "Cola")]
  {
    assert q[5..9] == "Cola";
    WordsFromNext(q, 4, 5, 9);
    WordsFromDone(q, 9);
  }

  lemma CocaColaTwoWords(q: string)
    requires q == "Coca Cola"
    ensures Split(q) == [Word(0, 4, "Coca"), Word(5, 9, "Cola")]
  {
    CocaWord(q);
    ColaOfTwo(q);
  }

  /** Sub-token records of "Coca Cola", out of order, with a second type inside "Coca". */
  function SubTokenPredictor(q: string): Outcome {
    Predicted([Prediction(5, 9, "I-BRAND"), Prediction(2, 4, "TYPE"), Prediction(0, 2, "B-BRAND")])
  }

  /** A record that starts no later than the head goes in front. */
  lemma InsertFront(x: Prediction, s: seq<Prediction>)
    requires SortedByStart(s) && (s == [] || x.start <= s[0].start)
    ensures Insert(x, s) == [x] + s
  {
  }

  /** A record that starts after the head goes past it. */
  lemma InsertPast(x: Prediction, s: seq<Prediction>)
    requires SortedByStart(s) && s != [] && s[0].start < x.start
    ensures Insert(x, s) == [s[0]] + Insert(x, s[1..])
  {
  }

  /** Two records in strictly decreasing start order are swapped. */
  lemma SortTwoReversed(p2: Prediction, p3: Prediction)
    requires p3.start < p2.start
    ensures SortByStart([p2, p3]) == [p3, p2]
  {
    assert [p3][1..] == [];
    InsertFront(p3, []);
    assert [p2, p3][1..] == [p3];
    InsertPast(p2, [p3]);
    InsertFront(p2, []);
  }

  /** A record starting after both of a sorted pair goes last. */
  lemma InsertAfterTwo(p1: Prediction, p3: Prediction, p2: Prediction)
    requires p3.start < p2.start < p1.start
    ensures Insert(p1, [p3, p2]) == [p3, p2, p1]
  {
    InsertPast(p1, [p3, p2]);
    assert [p3, p2][1..] == [p2];
    InsertPast(p1, [p2]);
    InsertFront(p1, []);
  }

  /** Three records in strictly decreasing start order are reversed. */
  lemma SortThreeReversed(p1: Prediction, p2: Prediction, p3: Prediction)
    requires p3.start < p2.start < p1.start
    ensures SortByStart([p1, p2, p3]) == [p3, p2, p1]
  {
    SortTwoReversed(p2, p3);
    InsertAfterTwo(p1, p3, p2);
    assert [p1, p2, p3][1..] == [p2, p3];
  }

  lemma SubTokenSorted(ps: seq<Prediction>)
    requires ps == [Prediction(5, 9, "I-BRAND"), Prediction(2, 4, "TYPE"), Prediction(0, 2, "B-BRAND")]
    ensures SortByStart(ps) == [Prediction(0, 2, "B-BRAND"), Prediction(2, 4, "TYPE"), Prediction(5, 9, "I-BRAND")]
  {
    SortThreeReversed(ps[0], ps[1], ps[2]);
    assert ps == [ps[0], ps[1], ps[2]];
  }

  lemma BrandTypes()
    ensures BaseType("B-BRAND") == "BRAND" && BaseType("I-BRAND") == "BRAND"
  {
    BaseTypeOfTagged("BRAND");
  }

  lemma SubTokenWords(s: seq<Prediction>)
    requires s == [Prediction(0, 2, "B-BRAND"), Prediction(2, 4, "TYPE"), Prediction(5, 9, "I-BRAND")]
    ensures FirstContained(s, Word(0, 4, "Coca")) == Some(s[0])
    ensures FirstContained(s, Word(5, 9, "Cola")) == Some(s[2])
  {
    var coca, cola := Word(0, 4, "Coca"), Word(5, 9, "Cola");
    assert s[1..][1..] == [s[2]] && s[1..] == [s[1], s[2]] && [s[2]][1..] == [];
    assert TokensInWord([s[2]], coca) == [];
    assert TokensInWord([s[1], s[2]], coca) == [s[1]];
    assert TokensInWord(s, coca) == [s[0], s[1]];
    assert TokensInWord([s[2]], cola) == [s[2]];
    assert TokensInWord([s[1], s[2]], cola) == [s[2]];
    assert TokensInWord(s, cola) == [s[2]];
  }

  lemma SubTokenAlign(ws: seq<Word>, s: seq<Prediction>)
    requires ws == [Word(0, 4, "Coca"), Word(5, 9, "Cola")]
    requires s == [Prediction(0, 2, "B-BRAND"), Prediction(2, 4, "TYPE"), Prediction(5, 9, "I-BRAND")]
    ensures AlignFrom(ws, s, None) == [Labelled(0, 4, "B-BRAND"), Labelled(5, 9, "I-BRAND")]
  {
    SubTokenWords(s);
    BrandTypes();
    assert ws[1..] == [Word(5, 9, "Cola")] && ws[1..][1..] == [];
    assert Render(Begin("BRAND")) == "B-BRAND" && Render(Inside("BRAND")) == "I-BRAND";
  }

  /**
   * Sort, first match and continuation together: "Coca" takes `B-BRAND`
   * from (0, 2), not `TYPE` from (2, 4) which comes after it once sorted;
   * "Cola" continues the brand, its own `I-` prefix being stripped.
   */
  lemma CocaColaSubTokens(q: string)
    requires q == "Coca Cola"
    ensures PredictBio(SubTokenPredictor, q) ==
      [Labelled(0, 4, "B-BRAND"), Labelled(5, 9, "I-BRAND")]
  {
    CocaColaTwoWords(q);
    assert !IsSpace(q[0]);
    SubTokenSorted(SubTokenPredictor(q).records);
    SubTokenAlign(Split(q), SortByStart(SubTokenPredictor(q).records));
  }

  /** A predictor that fails on "0.5L" and finds a brand in anything else. */
  function FailOnVolume(q: string): Outcome {
    if q == "0.5L" then Failed else Predicted([Prediction(0, 4, "BRAND")])
  }

  lemma ColaWords(q: string)
    requires q == "Cola"
    ensures Split(q) == [Word(0, 4, "Cola")]
  {
    assert q[0..4] == q;
    WordsFromNext(q, 0, 0, 4);
    WordsFromDone(q, 4);
  }

  lemma ColaAlign(ws: seq<Word>, s: seq<Prediction>)
    requires ws == [Word(0, 4, "Cola")] && s == [Prediction(0, 4, "BRAND")]
    ensures AlignFrom(ws, s, None) == [Labelled(0, 4, "B-BRAND")]
  {
    assert s[1..] == [] && TokensInWord(s, ws[0]) == [s[0]];
    assert "BRAND"[..2] == "BR";
    assert WordType(s, ws[0]) == Some("BRAND");
    AlignFromHead(ws, s, None);
    assert ws[1..] == [];
    assert Render(ExpectedTag(None, Some("BRAND"))) == "B-BRAND";
  }

  lemma ColaAnnotated(q: string)
    requires q == "Cola"
    ensures PredictBio(FailOnVolume, q) == [Labelled(0, 4, "B-BRAND")]
  {
    ColaWords(q);
    assert !IsSpace(q[0]) && q != "0.5L";
    var ps := FailOnVolume(q).records;
    assert ps == [Prediction(0, 4, "BRAND")];
    assert ps[1..] == [];
    assert SortByStart(ps) == ps;
    ColaAlign(Split(q), SortByStart(ps));
  }

  /**
   * A failure on one item of a batch empties that item's annotation only;
   * the others keep their order and their annotations.
   */
  lemma BatchWithOneFailure(qs: seq<string>)
    requires qs == ["Cola", "0.5L", "Cola"]
    ensures BatchPredict(FailOnVolume, qs) ==
      [[Labelled(0, 4, "B-BRAND")], [], [Labelled(0, 4, "B-BRAND")]]
  {
    ColaAnnotated(qs[0]);
    assert PredictBio(FailOnVolume, "0.5L") == [];
  }
}
