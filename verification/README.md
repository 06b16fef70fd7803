# Word-level BIO alignment of an NER service, in Dafny

This project models the core of a named-entity-recognition service:
`NERModel.predict_bio` and `NERModel.batch_predict`. A token-classification
model returns sub-token predictions. Each prediction has a character span and
an entity group. `predict_bio` turns those predictions into one BIO label per
whitespace-delimited word of the query.

- `predict_bio` splits the query into words. A word is a maximal run of
  non-whitespace characters, kept with its offsets.
- It sorts the predictions by `start`, keeping ties in their original order.
- It then folds over the words, left to right, carrying the base type of the
  previous word (`prev_entity_type`).
- A word takes the first sorted prediction that lies fully inside it.
- The `B-`/`I-` prefix is stripped from that prediction's entity group.
- The word becomes `I-T` when the previous word had base type `T`, and `B-T`
  otherwise.
- A word with no prediction inside it becomes `O`, and the fold's state is reset.

The entity predictor is a parameter of type `string -> Outcome`. An outcome is
either the predictor's records or `Failed`, which stands for the `except`
branch. The confidence score is never read, so it is dropped.

Files, one module each:

- `wrappers.dfy` (`Wrappers`): `Option`.
- `words.dfy` (`Words`): the `\S+` word splitter and the tiling lemmas.
- `predictions.dfy` (`Predictions`): the prediction record, the stable sort
  by `start`, and the containment filter. It also gives an order-independent
  reference for which prediction a word takes.
- `bio.dfy` (`Bio`): prefix stripping, label strings, and the fold. It also
  gives an index-local reference for the fold and the continuation law.
- `ner_model.dfy` (`NerModel`): `PredictBio`, `BatchPredict` and the
  end-to-end theorem.
- `scenarios.dfy` (`Scenarios`): worked examples on concrete queries.

Two consequences of the code are worth stating plainly.

- A prediction that crosses a word boundary lies inside neither word. For
  `"Coca Cola 0.5L"` with predictions `(0,9,BRAND)` and `(10,13,VOLUME)`, the
  words are `(0,4)`, `(5,9)` and `(10,14)`, and the labels are `O`, `O`,
  `B-VOLUME` (`Scenarios.CocaColaSpanningPrediction`).
- A predictor failure always gives the empty list, never an all-`O`
  annotation.

## Model

| member | source | states |
|---|---|---|
| Words.WordsFrom | pipeline/model/ner_model.py:65 | scanning from a position that is not inside a word finds only maximal non-whitespace runs, each with its exact text, in strictly increasing and non-overlapping order |
| Words.WordsFromNext | pipeline/model/ner_model.py:65 | one step of the scan: after a stretch of whitespace, the next word is the following non-whitespace run, ended by whitespace or the end of the query, and the scan resumes at its end |
| Words.WordsFromDone | pipeline/model/ner_model.py:65 | a remainder holding only whitespace yields no further words |
| Words.Split | pipeline/model/ner_model.py:65 | every word of the query is a maximal non-whitespace run, its text is `query[start:end]`, and the words are strictly increasing and disjoint |
| Words.SplitTiles | pipeline/model/ner_model.py:65 | a position lies inside some word if and only if it holds a non-whitespace character |
| Words.SplitIsMaximalRuns | pipeline/model/ner_model.py:65 | a span is a word's span if and only if it is a maximal non-whitespace run of the query |
| Words.SplitEmpty | pipeline/model/ner_model.py:55-65 | a query has no words if and only if it is empty or whitespace only |
| Predictions.Insert | pipeline/model/ner_model.py:63 | inserting into a start-sorted sequence keeps it sorted and adds exactly the one record |
| Predictions.SortByStart | pipeline/model/ner_model.py:63 | the result is sorted by `start` and is a permutation of the predictor's records |
| Predictions.SortByStartStable | pipeline/model/ner_model.py:63 | records with equal `start` keep their original relative order (Python's sort is stable) |
| Predictions.TokensInWord | pipeline/model/ner_model.py:72 | the filter keeps exactly the records lying fully inside the word, and its head is the first such record in sequence order |
| Predictions.FirstContainedInsert | pipeline/model/ner_model.py:63-79 | inserting a record into a sorted list makes it the first contained record exactly when it lies inside the word and starts no later than the previous first contained record; otherwise the first contained record is unchanged |
| Predictions.FirstContainedSorted | pipeline/model/ner_model.py:63-79 | after sorting, the first contained record is the one of least `start` among the contained records, earliest in the predictor's order on ties; there is none exactly when no record lies inside the word |
| Bio.BaseType | pipeline/model/ner_model.py:81 | the base type is the entity group with at most one leading `B-` or `I-` removed: a prefixed group is exactly `B-` or `I-` followed by the result, and an unprefixed group is returned unchanged |
| Bio.BaseTypeOfTagged | pipeline/model/ner_model.py:81 | stripping `B-T` or `I-T` gives back `T` |
| Bio.Parse | pipeline/model/ner_model.py:75-86 | a label string that reads as a tag renders back to the same string; one that does not is neither `O` nor `B-`/`I-`-prefixed |
| Bio.ParseRender | pipeline/model/ner_model.py:75-86 | every emitted label (`O`, `B-T`, `I-T`) reads back as the tag it was rendered from |
| Bio.AlignFrom | pipeline/model/ner_model.py:67-91 | the fold emits one triple per word, with the word's own offsets and a well-formed BIO label |
| Bio.Align | pipeline/model/ner_model.py:67-91 | the loop started with `prev_entity_type = None` emits one triple per word, with the word's offsets and a well-formed label |
| Bio.AlignFromMatchesReference | pipeline/model/ner_model.py:68-89 | the fold's state always holds the previous word's type, so word i's label is `O`, `B-T` or `I-T` as decided from the types of words i-1 and i alone |
| Bio.AlignMatchesReference | pipeline/model/ner_model.py:68-89 | from `prev_entity_type = None`, word i's label is fixed by the types of words i-1 and i, with the first word treated as following an `O` |
| Bio.LabelReadsAsReference | pipeline/model/ner_model.py:74-87 | word i's label reads as its reference tag, and it is `O` exactly when no record lies inside the word |
| Bio.AlignFollowsReference | pipeline/model/ner_model.py:68-89 | position by position, the loop's labels read back as the reference tags computed from the sequence of word types |
| Bio.ReferenceContinues | pipeline/model/ner_model.py:68-87 | for any labels that follow the reference tags of some word types, a label is `I-` exactly when the label before it exists, is not `O`, and has the same base type |
| Bio.ContinuationLaw | pipeline/model/ner_model.py:68-87 | a label is `I-T` exactly when the previous word exists and has a non-`O` label of the same base type; so the first word, and any word after an `O`, is never `I-` |
| NerModel.PredictBio | pipeline/model/ner_model.py:53-97 | an empty or whitespace-only query gives the empty annotation whatever the predictor; a predictor failure gives the empty annotation; otherwise there is one triple per word, with the word's offsets, spanning a maximal run, with a well-formed label |
| NerModel.WordTypeIsReference | pipeline/model/ner_model.py:63-81 | the type a word takes after sorting equals the order-independent reference type, and is absent exactly when no record lies inside the word |
| NerModel.PredictBioLabels | pipeline/model/ner_model.py:53-91 | end to end: word i is `O` exactly when no prediction lies fully inside it (partial overlaps do not count); otherwise it is `B-T` or `I-T` for its reference type `T`, and `I-` exactly when word i-1 has the same reference type |
| NerModel.BatchPredict | pipeline/model/ner_model.py:99-100 | the batch result has the input's length, and element i is the annotation of query i |
| Scenarios.CocaColaSpanningPrediction | pipeline/model/ner_model.py:65-89 | `"Coca Cola 0.5L"` with predictions `(0,9,BRAND)` and `(10,13,VOLUME)` is annotated `(0,4,O)`, `(5,9,O)`, `(10,14,B-VOLUME)` |
| Scenarios.CocaColaSubTokens | pipeline/model/ner_model.py:63-89 | for `"Coca Cola"` with unsorted sub-token predictions, `Coca` takes `B-BRAND` from the first record after sorting (not the later `TYPE`), and `Cola` continues as `I-BRAND` |
| Scenarios.BatchWithOneFailure | pipeline/model/ner_model.py:93-100 | when the predictor fails on the middle item of three, that item's annotation is empty and the other two keep their order and annotations |

## Left out

- The HTTP service (`pipeline/app.py`) is I/O and framework plumbing: handlers, schemas, the model lifespan, status-code mapping, and CSV parsing and re-emission.
- The client script `pipeline/test_api2.py` does file and network I/O and has no logic to model.
- Model loading (`NERModel.__init__`, `_load_model`, `initialize_model`) consists of filesystem checks and calls into the `transformers` library.
- `predict_dataframe` is a pandas row loop whose per-row logic is the `BatchPredict` map.
- The predictor's internals and the `score` field are modelled as the opaque `string -> Outcome` parameter. The predictor is a pure function of the query, with no state between calls.
- Any exception raised inside the `try` block is modelled as `Failed`. The predictor's records are modelled as well-formed, with integer `start` and `end` and a string `entity_group`. A malformed record, which would raise inside the `try` block in Python, is therefore not represented.
- Printing and traceback output are left out.
- Words.IsSpace: a concrete table of the characters Python's `str.isspace` accepts, which `\s` and `str.strip` both use. It has not been checked against Python's Unicode database. No general lemma depends on its contents; the worked examples in `Scenarios` rely only on `' '` being whitespace and on the letters, digits and `.` they use not being whitespace.
- Determinism, i.e. the same annotation for the same query and the same predictor, holds by construction because every member is a pure function. It is not stated as a lemma.
