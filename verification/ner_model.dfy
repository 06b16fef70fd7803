/**
 * `NERModel.predict_bio` and `NERModel.batch_predict`: the entity predictor
 * is a parameter, the alignment is the fold of module `Bio`.
 */
module NerModel {
  import opened Wrappers
  import opened Words
  import opened Predictions
  import opened Bio

  /**
   * What a call of the entity predictor gives back: its records, or a
   * failure standing for any exception raised inside the `try` block.
   */
  datatype Outcome = Predicted(records: seq<Prediction>) | Failed

  /**
   * Word-level BIO annotation of one query. An empty or whitespace-only
   * query short-circuits before the predictor is called; a failing predictor
   * yields the empty annotation.
   */
  function PredictBio(predictor: string -> Outcome, q: string): (r: seq<Labelled>)
    ensures AllSpace(q) ==> r == []
    ensures predictor(q).Failed? ==> r == []
    ensures predictor(q).Predicted? ==> |r| == |Split(q)|
    ensures forall i :: 0 <= i < |r| ==>
      && r[i].start == Split(q)[i].start && r[i].end == Split(q)[i].end
      && MaximalRun(q, r[i].start, r[i].end)
      && WellFormedLabel(r[i].bioLabel)
  {
    // An empty or whitespace-only query is answered before the predictor runs.
    if |q| == 0 || AllSpace(q) then
      SplitEmpty(q);
      []
    else
      match predictor(q)
      case Failed => []
      case Predicted(ps) => Align(Split(q), SortByStart(ps))
  }

  /**
   * The base type a word takes, defined on the predictor's own order without
   * any sorting: that of the earliest least contained record.
   */
  ghost function ReferenceType(ps: seq<Prediction>, w: Word): Option<string> {
    if exists i :: EarliestLeast(ps, w, i) then
      var i :| EarliestLeast(ps, w, i);
      Some(BaseType(ps[i].group))
    else None
  }

  /** The reference type is the base type of the one earliest least contained record. */
  lemma ReferenceTypeOf(ps: seq<Prediction>, w: Word, i: int)
    requires EarliestLeast(ps, w, i)
    ensures ReferenceType(ps, w) == Some(BaseType(ps[i].group))
  {
    forall j | EarliestLeast(ps, w, j)
      ensures j == i
    {
      EarliestLeastUnique(ps, w, i, j);
    }
  }

  /** Sorting then taking the first contained record gives the reference type. */
  lemma WordTypeIsReference(ps: seq<Prediction>, w: Word)
    ensures WordType(SortByStart(ps), w) == ReferenceType(ps, w)
    ensures WordType(SortByStart(ps), w).None? <==> forall j :: 0 <= j < |ps| ==> !Contained(ps[j], w)
  {
    FirstContainedSorted(ps, w);
    var m := FirstContained(SortByStart(ps), w);
    if m.Some? {
      var i :| EarliestLeast(ps, w, i) && m.value == ps[i];
      ReferenceTypeOf(ps, w, i);
    }
  }

  /**
   * End to end: for a query with words and a predictor that answers, word
   * `i` gets `O` when no record lies inside it, and otherwise `B-T` or `I-T`
   * with `T` the reference type, `I-` exactly when word `i - 1` has that
   * same reference type.
   */
  lemma PredictBioLabels(predictor: string -> Outcome, q: string, i: nat)
    requires predictor(q).Predicted?
    requires i < |Split(q)|
    ensures var ps, ws := predictor(q).records, Split(q);
      && PredictBio(predictor, q)[i].bioLabel ==
           Render(ExpectedTag(if i == 0 then None else ReferenceType(ps, ws[i - 1]), ReferenceType(ps, ws[i])))
      && (PredictBio(predictor, q)[i].bioLabel == "O" <==>
           forall j :: 0 <= j < |ps| ==> !Contained(ps[j], ws[i]))
  {
    var ps, ws := predictor(q).records, Split(q);
    SplitEmpty(q);
    assert PredictBio(predictor, q) == Align(ws, SortByStart(ps));
    AlignMatchesReference(ws, SortByStart(ps), i);
    LabelReadsAsReference(ws, SortByStart(ps), i);
    WordTypeIsReference(ps, ws[i]);
    if i > 0 {
      WordTypeIsReference(ps, ws[i - 1]);
    }
  }

  /** `batch_predict`: each query annotated on its own, in order. */
  function BatchPredict(predictor: string -> Outcome, qs: seq<string>): (r: seq<seq<Labelled>>)
    ensures |r| == |qs|
    ensures forall i :: 0 <= i < |qs| ==> r[i] == PredictBio(predictor, qs[i])
  {
    if qs == [] then []
    else [PredictBio(predictor, qs[0])] + BatchPredict(predictor, qs[1..])
  }
}
