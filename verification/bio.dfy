/**
 * The word-level BIO pass of `predict_bio`: a left fold over the words that
 * carries the base type of the previous word (`prev_entity_type`) and gives
 * each word `O`, `B-T` or `I-T`.
 */
module Bio {
  import opened Wrappers
  import opened Words
  import opened Predictions

  /** The entity group starts with one of the two BIO prefixes `B-` and `I-`. */
  predicate HasTagPrefix(g: string) {
    |g| >= 2 && (g[..2] == "B-" || g[..2] == "I-")
  }

  /** The base entity type: the entity group with one leading `B-` or `I-` removed. */
  function BaseType(g: string): (t: string)
    ensures HasTagPrefix(g) ==> g == "B-" + t || g == "I-" + t
    ensures !HasTagPrefix(g) ==> t == g
  {
    if HasTagPrefix(g) then
      assert g == g[..2] + g[2..];
      g[2..]
    else g
  }

  /** Stripping undoes tagging: a tagged type strips back to the type itself. */
  lemma BaseTypeOfTagged(t: string)
    ensures BaseType("B-" + t) == t && BaseType("I-" + t) == t
  {
    assert ("B-" + t)[..2] == "B-" && ("B-" + t)[2..] == t;
    assert ("I-" + t)[..2] == "I-" && ("I-" + t)[2..] == t;
  }

  /** The meaning of one output label. */
  datatype Tag = Outside | Begin(entity: string) | Inside(entity: string)

  /** The entity type a tag carries, if any. */
  function EntityOf(tag: Tag): Option<string> {
    match tag
    case Outside => None
    case Begin(t) => Some(t)
    case Inside(t) => Some(t)
  }

  /** The label strings `predict_bio` emits: `O`, and `B-` or `I-` followed by the base type. */
  function Render(tag: Tag): string {
    match tag
    case Outside => "O"
    case Begin(t) => "B-" + t
    case Inside(t) => "I-" + t
  }

  /** Reads a label string back; `None` for a string of no BIO shape. */
  function Parse(lab: string): (r: Option<Tag>)
    ensures r.Some? ==> Render(r.value) == lab
    ensures r.None? ==> lab != "O" && !HasTagPrefix(lab)
  {
    if lab == "O" then Some(Outside)
    else if |lab| >= 2 && lab[..2] == "B-" then
      assert lab == lab[..2] + lab[2..];
      Some(Begin(lab[2..]))
    else if |lab| >= 2 && lab[..2] == "I-" then
      assert lab == lab[..2] + lab[2..];
      Some(Inside(lab[2..]))
    else None
  }

  /** Rendering is injective: every emitted label reads back as the tag it came from. */
  lemma ParseRender(tag: Tag)
    ensures Parse(Render(tag)) == Some(tag)
  {
    match tag
    case Outside =>
    case Begin(t) =>
      assert ("B-" + t)[..2] == "B-" && ("B-" + t)[2..] == t;
    case Inside(t) =>
      assert ("I-" + t)[..2] == "I-" && ("I-" + t)[2..] == t;
  }

  /** A label is `"O"`, or `"B-"` or `"I-"` followed by some base type. */
  predicate WellFormedLabel(lab: string) {
    Parse(lab).Some?
  }

  /** One output triple `(w_start, w_end, bio_label)`. */
  datatype Labelled = Labelled(start: nat, end: nat, bioLabel: string)

  /**
   * The base type a word takes: that of the first record of the sorted
   * predictions contained in it, or `None` when there is no such record.
   */
  function WordType(sorted: seq<Prediction>, w: Word): Option<string> {
    match FirstContained(sorted, w)
    case None => None
    case Some(p) => Some(BaseType(p.group))
  }

  /**
   * The loop of `predict_bio` from some word on, with `prev` standing for
   * `prev_entity_type` on entry.
   */
  function AlignFrom(words: seq<Word>, sorted: seq<Prediction>, prev: Option<string>): (r: seq<Labelled>)
    ensures |r| == |words|
    ensures forall i :: 0 <= i < |r| ==>
      r[i].start == words[i].start && r[i].end == words[i].end && WellFormedLabel(r[i].bioLabel)
    decreases |words|
  {
    if words == [] then []
    else
      var w := words[0];
      match FirstContained(sorted, w)
      case None =>
        ParseRender(Outside);
        [Labelled(w.start, w.end, Render(Outside))] + AlignFrom(words[1..], sorted, None)
      case Some(p) =>
        var base := BaseType(p.group);
        if prev == Some(base) then
          ParseRender(Inside(base));
          [Labelled(w.start, w.end, Render(Inside(base)))] + AlignFrom(words[1..], sorted, prev)
        else
          ParseRender(Begin(base));
          [Labelled(w.start, w.end, Render(Begin(base)))] + AlignFrom(words[1..], sorted, Some(base))
  }

  /** The whole loop: `prev_entity_type` starts as `None`. */
  function Align(words: seq<Word>, sorted: seq<Prediction>): (r: seq<Labelled>)
    ensures |r| == |words|
    ensures forall i :: 0 <= i < |r| ==>
      r[i].start == words[i].start && r[i].end == words[i].end && WellFormedLabel(r[i].bioLabel)
  {
    AlignFrom(words, sorted, None)
  }

  /**
   * Reference for one word's tag, from its own type and the type of the word
   * just before it: no type gives `O`; a type equal to the previous word's
   * continues (`I-`); any other type begins (`B-`).
   */
  function ExpectedTag(before: Option<string>, here: Option<string>): (tag: Tag)
    ensures EntityOf(tag) == here
  {
    match here
    case None => Outside
    case Some(t) => if before == Some(t) then Inside(t) else Begin(t)
  }

  /**
   * One iteration of the loop: the first word is labelled from the carried
   * state and its own type, and the state passed on is that type.
   */
  lemma AlignFromHead(words: seq<Word>, sorted: seq<Prediction>, prev: Option<string>)
    requires words != []
    ensures AlignFrom(words, sorted, prev) ==
      [Labelled(words[0].start, words[0].end, Render(ExpectedTag(prev, WordType(sorted, words[0]))))]
      + AlignFrom(words[1..], sorted, WordType(sorted, words[0]))
  {
  }

  /** The type of the word before word `i`, or `prev` for the first word. */
  function TypeBefore(words: seq<Word>, sorted: seq<Prediction>, prev: Option<string>, i: nat): Option<string>
    requires i <= |words|
  {
    if i == 0 then prev else WordType(sorted, words[i - 1])
  }

  /**
   * The fold agrees with the index-local reference: `prev_entity_type` always
   * holds the previous word's type, so word `i`'s label depends only on the
   * types of words `i - 1` and `i`.
   */
  lemma {:induction false} AlignFromMatchesReference(words: seq<Word>, sorted: seq<Prediction>, prev: Option<string>, i: nat)
    requires i < |words|
    ensures AlignFrom(words, sorted, prev)[i].bioLabel ==
      Render(ExpectedTag(TypeBefore(words, sorted, prev, i), WordType(sorted, words[i])))
    decreases i
  {
    var w := words[0];
    var next := WordType(sorted, w);
    assert AlignFrom(words, sorted, prev) == AlignFrom(words[..1], sorted, prev)[..1] + AlignFrom(words[1..], sorted, next) by {
      assert words[..1][1..] == [];
    }
    if i > 0 {
      AlignFromMatchesReference(words[1..], sorted, next, i - 1);
      assert TypeBefore(words[1..], sorted, next, i - 1) == TypeBefore(words, sorted, prev, i);
    }
  }

  /**
   * The same for the whole loop: word `i` is labelled from its own type and
   * the type of word `i - 1`, the first word being treated as if preceded by
   * an `O` word.
   */
  lemma AlignMatchesReference(words: seq<Word>, sorted: seq<Prediction>, i: nat)
    requires i < |words|
    ensures Align(words, sorted)[i].bioLabel ==
      Render(ExpectedTag(if i == 0 then None else WordType(sorted, words[i - 1]), WordType(sorted, words[i])))
  {
    AlignFromMatchesReference(words, sorted, None, i);
  }

  /** Two consecutive reference tags: the second continues exactly when both carry the same type. */
  lemma ExpectedTagContinues(x: Option<string>, y: Option<string>, z: Option<string>)
    ensures ExpectedTag(y, z).Inside? <==>
      EntityOf(ExpectedTag(x, y)).Some? && EntityOf(ExpectedTag(x, y)) == EntityOf(ExpectedTag(y, z))
  {
  }

  /** Word `i`'s label reads back as the reference tag, and is `"O"` exactly for `Outside`. */
  lemma LabelReadsAsReference(words: seq<Word>, sorted: seq<Prediction>, i: nat)
    requires i < |words|
    ensures Parse(Align(words, sorted)[i].bioLabel) ==
      Some(ExpectedTag(if i == 0 then None else WordType(sorted, words[i - 1]), WordType(sorted, words[i])))
    ensures Align(words, sorted)[i].bioLabel == "O" <==> WordType(sorted, words[i]).None?
  {
    var tag := ExpectedTag(if i == 0 then None else WordType(sorted, words[i - 1]), WordType(sorted, words[i]));
    AlignMatchesReference(words, sorted, i);
    ParseRender(tag);
    ParseRender(Outside);
  }

  /** The type of every word, in order. */
  function WordTypes(words: seq<Word>, sorted: seq<Prediction>): (types: seq<Option<string>>)
    ensures |types| == |words|
    ensures forall k :: 0 <= k < |words| ==> types[k] == WordType(sorted, words[k])
  {
    if words == [] then [] else [WordType(sorted, words[0])] + WordTypes(words[1..], sorted)
  }

  /** The reference tag of position `i`, from the types of positions i-1 and i. */
  ghost function ReferenceTagAt(types: seq<Option<string>>, i: nat): (tag: Tag)
    requires i < |types|
    ensures EntityOf(tag) == types[i]
  {
    ExpectedTag(if i == 0 then None else types[i - 1], types[i])
  }

  /**
   * The labels of `r` read, position by position, as the reference tags
   * computed from the per-word `types`.
   */
  ghost predicate FollowsReference(r: seq<Labelled>, types: seq<Option<string>>) {
    && |r| == |types|
    && forall i :: 0 <= i < |r| ==> Parse(r[i].bioLabel) == Some(ReferenceTagAt(types, i))
  }

  /** A label rendered from the reference tag of position `k` reads back as that tag. */
  lemma LabelFollowsAt(lab: string, before: Option<string>, here: Option<string>, types: seq<Option<string>>, k: nat)
    requires k < |types| && types[k] == here && before == (if k == 0 then None else types[k - 1])
    requires lab == Render(ExpectedTag(before, here))
    ensures Parse(lab) == Some(ReferenceTagAt(types, k))
  {
    ParseRender(ExpectedTag(before, here));
  }

  /** The continuation law for any labels that follow the reference. */
  lemma ReferenceContinues(r: seq<Labelled>, types: seq<Option<string>>, i: nat)
    requires FollowsReference(r, types) && i < |r|
    ensures Parse(r[i].bioLabel).Some? && (i > 0 ==> Parse(r[i - 1].bioLabel).Some?)
    ensures Parse(r[i].bioLabel).value.Inside? <==>
      i > 0 && EntityOf(Parse(r[i - 1].bioLabel).value).Some?
      && EntityOf(Parse(r[i - 1].bioLabel).value) == EntityOf(Parse(r[i].bioLabel).value)
  {
    assert Parse(r[i].bioLabel) == Some(ReferenceTagAt(types, i));
    if i > 0 {
      assert Parse(r[i - 1].bioLabel) == Some(ReferenceTagAt(types, i - 1));
      ExpectedTagContinues(if i - 1 == 0 then None else types[i - 2], types[i - 1], types[i]);
    }
  }

  /** The labels of `Align` follow the reference built from the word types. */
  lemma AlignFollowsReference(words: seq<Word>, sorted: seq<Prediction>)
    ensures FollowsReference(Align(words, sorted), WordTypes(words, sorted))
  {
    var r := Align(words, sorted);
    var types := WordTypes(words, sorted);
    forall k | 0 <= k < |r|
      ensures Parse(r[k].bioLabel) == Some(ReferenceTagAt(types, k))
    {
      AlignMatchesReference(words, sorted, k);
      LabelFollowsAt(r[k].bioLabel, if k == 0 then None else WordType(sorted, words[k - 1]),
        WordType(sorted, words[k]), types, k);
    }
  }

  /**
   * The continuation law, stated on the labels alone: a label is `I-T`
   * exactly when the word before exists and carries a non-`O` label of the
   * same base type `T`; in particular the first word, and every word right
   * after an `O`, is never `I-`.
   */
  lemma ContinuationLaw(words: seq<Word>, sorted: seq<Prediction>, i: nat)
    requires i < |words|
    ensures var r := Align(words, sorted);
      Parse(r[i].bioLabel).value.Inside? <==>
        i > 0 && EntityOf(Parse(r[i - 1].bioLabel).value).Some?
        && EntityOf(Parse(r[i - 1].bioLabel).value) == EntityOf(Parse(r[i].bioLabel).value)
  {
    AlignFollowsReference(words, sorted);
    ReferenceContinues(Align(words, sorted), WordTypes(words, sorted), i);
  }
}
