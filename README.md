# Remote-sensing captioning: triplet selection and caption bookkeeping

This project models the discrete bookkeeping around the neural networks of a
remote-sensing image-captioning system, and proves properties of it in Dafny.
The system predicts scene-graph triplets such as
`('building', 'near', 'road')` for an image and generates a caption from them.

- `models.py`
  - The multi-head triplet classifier emits, for every image, one flat row of
    scores: two per triplet class.
  - `FinalModel.forward` and `FinetunedModel.forward` regroup that row into
    pairs and take the argmax of each pair.
  - They keep the classes whose decision reaches 0.5 and look them up in
    `idx2tripl`.
  - An image with no selected class gets the placeholder triplet
    `('There', 'is', 'no triplet')`.
  - Every model inverts its vocabulary and triplet dicts at construction.
- `eval.py`
  - The evaluation loops decode predicted word ids through `idx2word`.
  - They store one record `{"caption length": n, "caption ": tokens}` per
    image id.
  - The script's `__main__` block joins the predicted tokens into sentences.
  - It also gathers the reference captions of the description file per image
    id.

Files:

- `wrappers.dfy`: the Python exceptions that reach callers (`KeyError`,
  `IndexError`, `AssertionError`, the reshape error, the `RuntimeError` of
  `torch.cat` on an empty list), carried by `Result` and `Outcome`.
- `vocab.dfy`: the names of the evaluation script's strings (image ids,
  caption tokens).
- `dicts.dfy`: Python dicts as their items in insertion order.
  - `ToMap` builds the dict; a later item overwrites an earlier one.
  - `Invert` is `{v: k for k, v in d.items()}`; the last item holding a value
    wins.
  - `LookupAll` is `[d[k] for k in ks]`.
- `pystrings.dfy`: `str.split(' ')`, `' '.join` and `str.strip()`, with
  Python's own whitespace set.
- `triplets.dfy`: the triplet selection, the two model classes and their
  `forward`.
- `captions.dfy`: the result dicts of `eval_captions`,
  `augmented_eval_captions`, `eval_pipeline` and `eval_waterfall`.
- `references.dfy`: the prediction joining and the reference parsing of the
  `__main__` block.

Modelling choices:

- Scores are real numbers, since only their order matters.
- The sigmoid of `FinalModel.forward` is any strictly increasing function. It
  is proved to change no decision, so it selects the same triplets.
- A Python dict that the code fills by assignment is specified as the dict
  built from its sequence of writes. The last write to a key wins.
- The placeholder loop mutates an array of inner lists in place, as the
  source's `s.append` does.
- The evaluation loops and the `__main__` loops are methods with loops.
  Each is proved equal to a specification function, and the properties are
  proved about that function.
- The model inputs replace I/O and the networks:
  - the batches of the data loaders;
  - what each network emits for a batch;
  - the parsed JSON of predictions;
  - the lines of the description file.

## Model

| member | source | states |
|---|---|---|
| Triplets.CheckInputSize | models.py:180-181 | The image batch passes exactly when both spatial dimensions equal the input size; otherwise AssertionError (the same check as models.py:37-38). |
| Triplets.ConcatHeads | models.py:158-159 | For a classifier with at least one head, the concatenated row of an image is twice as wide as the number of heads. |
| Triplets.HeadAt | models.py:158-159 | Head k's two scores sit at positions 2k and 2k+1 of the concatenated row. |
| Triplets.MultiHeadForward | models.py:156-160 | With no heads `torch.cat` gets an empty list and raises (RuntimeError), whatever the batch; otherwise one row per image, 2 * (number of heads) wide, whose pairs are exactly the heads' outputs. |
| Triplets.Pairs | models.py:239 | Regrouping a row of even width gives width/2 pairs, pair k being positions 2k and 2k+1. |
| Triplets.PairsOfHeads | models.py:239 | Regrouping the concatenated row gives back exactly the outputs of the heads. |
| Triplets.Regroup | models.py:239 | The reshape succeeds exactly when the batch is empty or the width is even (else the reshape error), and then regroups every row into pairs. |
| Triplets.ArgMax | models.py:241 | The result is a maximal index and the first one: every earlier score is strictly smaller. |
| Triplets.Decision | models.py:241 | The decision is 0 or 1, and 1 exactly when the second score is strictly larger; ties give 0. |
| Triplets.Selected | models.py:244-245 | The selected indices are exactly the indices whose decision is at least 0.5, strictly increasing (so no duplicates). |
| Triplets.ActiveIffSecondWins | models.py:239-245 | Class k is selected exactly when position 2k+1 of the row is strictly greater than position 2k. |
| Triplets.LookupBatch | models.py:247 | The lookup succeeds exactly when every selected index is a key (else KeyError); each image's list is the element-wise lookup of its indices. |
| Triplets.WithPlaceholder | models.py:250-251 | A list is never left empty: an empty one becomes exactly the placeholder list, a non-empty one is kept. |
| Triplets.AddPlaceholders | models.py:249-251 | In place: a list that was empty becomes exactly the placeholder list; a non-empty list is unchanged. |
| Triplets.FillPlaceholders | models.py:249-251 | Running the placeholder loop over the looked-up lists gives PlaceholderBatch: the same number of lists, none of them empty. |
| Triplets.SelectTriplets | models.py:239-251 | Equals the specification SelectionOf; on success there is one non-empty triplet list per image. |
| Triplets.SelectionAt | models.py:245-251 | With no selected class the list is exactly the placeholder; otherwise it is the triplet of every selected class, in increasing class order, with the same length. |
| Triplets.SelectionReshapeFailure | models.py:239 | The selection fails with the reshape error exactly when the batch is non-empty and the width odd; the only other error is KeyError. |
| Triplets.SelectionLookupFailure | models.py:247 | With an even width, the selection succeeds exactly when every selected class of every image is a key of idx2tripl. |
| Triplets.CoveredSelectionSucceeds | models.py:171 | A lookup table that holds every class index below the number of heads never raises KeyError on that classifier's scores. |
| Triplets.ConfiguredSelectionSucceeds | models.py:203-206 | A model built from a triplet dict whose indices cover 0 .. len(tripl2idx)-1 never fails on its classifier's scores. |
| Triplets.SelectedAreActiveClasses | models.py:206 | Every selected triplet is the placeholder, or a key of tripl2idx whose index is a selected class of that image. |
| Triplets.Activate | models.py:235 | The activation keeps the length of a row. |
| Triplets.ActivateBatch | models.py:235 | The activation keeps the number of rows. |
| Triplets.OrderKept | models.py:235 | A strictly increasing activation keeps the strict order of any two scores, both ways. |
| Triplets.ActivatedPair | models.py:235-239 | Pair k of the activated row is the activation of pair k of the raw row. |
| Triplets.DecisionUnderActivation | models.py:235-241 | The activation changes no class's decision. |
| Triplets.DecisionsUnderActivation | models.py:235-241 | The activation leaves all the decisions of an image unchanged. |
| Triplets.ActivationKeepsTriplets | models.py:235-247 | With the activation before it, the selection fails in the same cases and yields the same triplets. |
| Triplets.ActivatedHeadPair | models.py:235-240 | Pair k of the activated row is the activation of head k's output. |
| Triplets.FinalModel.constructor | models.py:197-231 | Stores the input size and len(tripl2idx), and sets idx2tripl and idx2vocab to the inversions of the two dicts; idx2tripl's keys are exactly tripl2idx's values. |
| Triplets.FinalModel.Forward | models.py:233-251 | AssertionError on a wrong image size, then RuntimeError when the triplet dict is empty (no heads to concatenate). Otherwise the selection over the sigmoid of the head outputs, with the same triplets as on raw scores. Errors are only AssertionError, RuntimeError or KeyError. On success: one non-empty list per image, and class_out[b][k] is the sigmoid of head k's output. |
| Triplets.FinetunedModel.constructor | models.py:290-298 | Stores len(tripl2idx) and sets idx2tripl and idx2vocab to the inversions of the two dicts. |
| Triplets.FinetunedModel.Forward | models.py:300-315 | AssertionError on a wrong image size, then RuntimeError when the triplet dict is empty (no heads to concatenate), otherwise the selection over the raw head outputs; no other error than KeyError. On success class_out is exactly the head outputs and there is one non-empty list per image. |
| Dicts.Invert | models.py:206 | The inverted dict's keys are exactly the original dict's values. |
| Dicts.InvertLastWins | models.py:67 | A value maps back to the key of the last item holding it. |
| Dicts.InvertFromItem | models.py:120 | Every entry of the inverse is an item of the dict, read backwards. |
| Dicts.InvertRoundTrip | models.py:231 | When no two keys share an index, idx2vocab[vocab2idx[t]] == t for every key t. |
| Dicts.InvertSound | models.py:294 | Every entry of the inverse points to a key that the dict maps back to that entry. |
| Dicts.LookupAll | eval.py:166 | Succeeds exactly when every id is a key (else KeyError); the result has the same length and element k is d[ks[k]]. |
| Dicts.ToMap | eval.py:43-44 | The dict filled by assignments is empty exactly when nothing was assigned. |
| Dicts.ToMapKeys | eval.py:43-44 | A dict filled by assignments holds exactly the assigned keys. |
| Dicts.ToMapLastWins | eval.py:43-44 | Assigning to a dict in a loop leaves each key with the value of its last assignment. |
| Dicts.ToMapFromItem | eval.py:43-44 | Every entry of a dict filled by assignments comes from one of the assignments. |
| Dicts.ToMapAppendOther | eval.py:43-44 | Later assignments to other keys leave an entry unchanged. |
| PyStrings.Split | eval.py:252 | At least one piece, no piece contains the separator, and joining the pieces with it gives the line back. |
| PyStrings.SplitFirst | eval.py:252-255 | The first piece is the text before the first separator; the remaining pieces joined by it are the text after it. |
| PyStrings.JoinEnds | eval.py:246 | `sep.join(parts)` starts with the first part, ends with the last, and is the first part, the separator and the join of the rest when there are two or more. |
| PyStrings.JoinSplit | eval.py:246 | Splitting a join of non-empty separator-free parts gives the parts back. |
| PyStrings.Strip | eval.py:255 | The result is a slice of the input with only whitespace cut at both ends, and it neither starts nor ends with whitespace. |
| Captions.RecordOf | eval.py:44 | The record holds the decoded tokens, and its "caption length" is their number. |
| Captions.IdxToWord | eval.py:33 | idx2word's keys are exactly the indices of word2idx. |
| Captions.DecodeEncoded | eval.py:33 | Decoding with idx2word a caption encoded with word2idx gives the caption back, when no two words share an index. |
| Captions.StoreDecoded | eval.py:43-44 | The inner loop fails with IndexError exactly when the batch has more ids than decoded lists; otherwise the dict gains that batch's writes in order. |
| Captions.EvalCaptions | eval.py:36-44 | Equals the specification CaptionsOf, and every record's caption length is the length of its caption. |
| Captions.CaptionsWellFormed | eval.py:78-79 | In the result dict, "caption length" equals the number of tokens under "caption " for every id. |
| Captions.CaptionKeys | eval.py:43-44 | The result holds exactly the ids that the loader produced. |
| Captions.CaptionOfLastWrite | eval.py:43-44 | An id holds the record of the caption decoded at its last position in loader order. |
| Captions.Repeated | eval.py:167-168 | Every position of the batch receives the one caption sampled for it. |
| Captions.DecodeSampled | eval.py:166 | Decoding succeeds exactly when every sampled id of every batch is in idx2word (else KeyError); there is one decoded batch per batch, whose caption is the element-wise decoding of its sampled ids. |
| Captions.EvalSampled | eval.py:159-168 | Equals the specification SampledCaptionsOf: the writes of all batches, each id getting its batch's decoded caption. |
| Captions.SampledCaptionsOutcome | eval.py:159-168 | The loop fails (KeyError) exactly when some sampled id is missing from idx2word; otherwise every record's caption length is the length of its caption. |
| Captions.SameCaptionPerBatch | eval.py:205-207 | Every id of a batch receives that batch's decoded caption, unless a later batch overwrites it. |
| References.JoinPredictions | eval.py:245-246 | Same keys; every value becomes the one-element list of its tokens joined by single spaces. |
| References.Sentence | eval.py:246 | The sentence of a non-empty token list without spaces splits on spaces back into the tokens. |
| References.SentenceSplitsBack | eval.py:246 | Splitting a joined prediction on spaces gives the tokens back when there is at least one and none contains a space. |
| References.LineId | eval.py:252-253 | `pieces[0]`: the text before the first space, itself without a space. |
| References.LineReference | eval.py:255 | `' '.join(pieces[1:]).strip()`: the text after the first space with its surrounding whitespace removed. |
| References.LineParts | eval.py:252-255 | The id is the text before the first space; the reference is the stripped text after it; a line without a space is its own id with an empty reference. |
| References.AddReference | eval.py:254-257 | The first reference of an id creates a one-element list, a later one is appended, and no other id's list changes. |
| References.ParseReferences | eval.py:249-257 | Equals the specification ReferencesOf over the lines. |
| References.ReferencedIds | eval.py:253 | An id is in the result exactly when it is a prediction key and some line carries it. |
| References.ReferencesInFileOrder | eval.py:254-257 | Each id maps to the non-empty list of the references of its own lines, in file order. |
| References.NoReferencesFor | eval.py:253 | An id on no line has no references. |

## Left out

- Neural computation is left out because it is not discrete bookkeeping. This covers the ResNet backbones, the BERT encoder and tokenizer, the graph networks, the decoders, dropout and linear layers, `CaptionGenerator.forward` and `AugmentedCaptionGenerator.forward`. The models' `_loss` functions are left out for the same reason.
- Floating-point arithmetic is not modelled; scores are exact reals. Triplets.ActivationKeepsTriplets assumes a strictly increasing sigmoid. A float sigmoid that saturates can map two different scores to the same value and turn a win into a tie; this is not captured.
- Triplets.FinalModel.Forward: graph construction (`tripl2graph`), image-feature fusion and caption decoding after the selection are not modelled. The result is the selection and `class_out`, not `decoded_out`.
- Triplets.FinalModel.constructor and Triplets.FinetunedModel.constructor require the dicts to have distinct keys. This holds for any Python dict, but it is stated because dicts are modelled as item sequences.
- Triplets.CheckInputSize requires a 4-dimensional shape: the classifier is documented to take (batch, channels, width, height) images. Other ranks are not modelled.
- The inversions of `CaptionGenerator` and `AugmentedCaptionGenerator` (models.py:67, 120) are covered by Dicts.Invert and its lemmas, not by classes of their own.
- `decode_output` of `eval_captions` / `augmented_eval_captions` is not part of this model. Its decoded token lists are inputs of Captions.EvalCaptions.
- Graph building in the evaluation loops (`dgl.batch`, `get_node_features`, `tripl2graphw`), the data loaders and collate functions, devices, `json.dump` / `json.load`, file reading and `bleuFormat` are left out. Their results are inputs or are not modelled.
- The insertion order of the result dicts, which only decides the order of keys in the dumped JSON, is not modelled: results are maps.
- `eval_classification` and `eval_predictions` are left out because they only print, around the external `f1_score` and `Bleu` scorers.
- `maingnn.py` is left out: it only wires datasets, models and the trainer.
- Triplets.AddPlaceholders works on an array of inner lists. Aliasing of those lists with other Python objects is not modelled.
