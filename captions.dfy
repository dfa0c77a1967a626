/** The caption result dicts of eval.py.

    Each evaluation function walks a data loader batch by batch and stores,
    for every image id of the batch, the record
    `{"caption length": n, "caption ": tokens}` in a dict `result`.  The
    loaders, the networks and the `json.dump` are outside this model: the
    batches arrive as a sequence, and what each network emits for a batch is
    part of it.

    - `eval_captions` / `augmented_eval_captions` get one decoded token list
      per position of the batch from `decode_output`, which is not part of
      this model, so the decoded lists are inputs.
    - `eval_pipeline` / `eval_waterfall` sample one id sequence per batch,
      decode it with `[idx2word[idx] for idx in ...]` and give that single
      caption to every id of the batch.

    Python dict assignment with an existing key overwrites, so each result
    is specified as the dict built from its sequence of writes
    (`Dicts.ToMap`, last write wins). */
module Captions {
  import opened Wrappers
  import opened Dicts
  import opened Vocab

  /** `{"caption length": ..., "caption ": ...}`. */
  datatype CaptionRecord = CaptionRecord(captionLength: int, caption: seq<Token>)

  function RecordOf(tokens: seq<Token>): (record: CaptionRecord)
    ensures record.caption == tokens && record.captionLength == |record.caption|
  {
    CaptionRecord(|tokens|, tokens)
  }

  /** The stored length is the length of the stored caption. */
  predicate WellFormed(result: map<Id, CaptionRecord>) {
    forall id :: id in result ==> result[id].captionLength == |result[id].caption|
  }

  /** Builds `idx2word = {v: k for k, v in word2idx.items()}`. */
  function IdxToWord(word2idx: Items<Token, int>): (idx2word: map<int, Token>)
    ensures forall i :: i in idx2word <==> exists t :: (t, i) in word2idx
  {
    var inv := Invert(word2idx);
    assert forall i :: i in inv <==> exists t :: (t, i) in word2idx by {
      forall i ensures i in inv <==> exists t :: (t, i) in word2idx {
        if i in inv {
          var j :| 0 <= j < |word2idx| && word2idx[j].1 == i;
          assert (word2idx[j].0, i) in word2idx;
        }
        if exists t :: (t, i) in word2idx {
          var t :| (t, i) in word2idx;
          var j :| 0 <= j < |word2idx| && word2idx[j] == (t, i);
          assert i in Values(word2idx);
        }
      }
    }
    inv
  }

  /** Encoding a caption with `word2idx` and decoding it with the inverted
      dict gives the caption back, when no two words share an index. */
  lemma DecodeEncoded(word2idx: Items<Token, int>, tokens: seq<Token>)
    requires DistinctKeys(word2idx) && DistinctValues(word2idx)
    requires forall i :: 0 <= i < |tokens| ==> tokens[i] in ToMap(word2idx)
    ensures LookupAll(ToMap(word2idx), tokens).Ok?
    ensures LookupAll(IdxToWord(word2idx), LookupAll(ToMap(word2idx), tokens).value) == Ok(tokens)
  {
    var m, inv := ToMap(word2idx), IdxToWord(word2idx);
    assert inv == Invert(word2idx);
    var encoded := LookupAll(m, tokens).value;
    assert forall i :: 0 <= i < |tokens| ==> encoded[i] in inv && inv[encoded[i]] == tokens[i] by {
      InvertRoundTrip(word2idx);
    }
    var decoded := LookupAll(inv, encoded);
    assert decoded.value == tokens;
  }

  // ---------------------------------------------------------------------
  // eval_captions and augmented_eval_captions

  /** One loader batch: the image ids and the decoded token lists. */
  datatype DecodedBatch = DecodedBatch(ids: seq<Id>, decoded: seq<seq<Token>>)

  /** `decoded_outputs[i]` exists for every position `i` of `ids`. */
  predicate Fits(batch: DecodedBatch) {
    |batch.ids| <= |batch.decoded|
  }

  predicate AllFit(batches: seq<DecodedBatch>) {
    forall b :: 0 <= b < |batches| ==> Fits(batches[b])
  }

  /** The writes `result[id] = ...` one batch makes, in loop order. */
  function BatchWrites(batch: DecodedBatch): (w: Items<Id, CaptionRecord>)
    requires Fits(batch)
    ensures |w| == |batch.ids|
  {
    seq(|batch.ids|, i requires 0 <= i < |batch.ids| => (batch.ids[i], RecordOf(batch.decoded[i])))
  }

  /** All writes of the loop over batches, in order. */
  function Writes(batches: seq<DecodedBatch>): Items<Id, CaptionRecord>
    requires AllFit(batches)
  {
    if batches == [] then []
    else Writes(batches[..|batches| - 1]) + BatchWrites(batches[|batches| - 1])
  }

  /** The dict `result` after the loop: IndexError when some batch has
      fewer decoded lists than ids, the dict of all writes otherwise. */
  function CaptionsOf(batches: seq<DecodedBatch>): Result<map<Id, CaptionRecord>> {
    if AllFit(batches) then Ok(ToMap(Writes(batches))) else Err(IndexError)
  }

  /** Appending one write to the items updates the dict at that key. */
  lemma ToMapSnoc(items: Items<Id, CaptionRecord>, w: (Id, CaptionRecord))
    ensures ToMap(items + [w]) == ToMap(items)[w.0 := w.1]
  {
    assert (items + [w])[..|items + [w]| - 1] == items;
  }

  /** Storing position `i` of the batch after the positions before it. */
  lemma BatchWritesSnoc(done: Items<Id, CaptionRecord>, batch: DecodedBatch, i: nat)
    requires i < |batch.ids| && i < |batch.decoded|
    ensures ToMap(done + BatchWrites(DecodedBatch(batch.ids[..i + 1], batch.decoded)))
      == ToMap(done + BatchWrites(DecodedBatch(batch.ids[..i], batch.decoded)))[batch.ids[i] := RecordOf(batch.decoded[i])]
  {
    var w := (batch.ids[i], RecordOf(batch.decoded[i]));
    var before := BatchWrites(DecodedBatch(batch.ids[..i], batch.decoded));
    assert BatchWrites(DecodedBatch(batch.ids[..i + 1], batch.decoded)) == before + [w];
    ToMapSnoc(done + before, w);
    assert done + (before + [w]) == (done + before) + [w];
  }

  /** The inner loop `for i, id in enumerate(ids)`: stores the record of
      `decoded_outputs[i]` under `ids[i]`, raising IndexError at the first
      position without a decoded list. */
  method StoreDecoded(result: map<Id, CaptionRecord>, ghost done: Items<Id, CaptionRecord>, batch: DecodedBatch)
    returns (r: Result<map<Id, CaptionRecord>>)
    requires result == ToMap(done)
    ensures r.Ok? <==> Fits(batch)
    ensures r.Err? ==> r.error == IndexError
    ensures r.Ok? ==> r.value == ToMap(done + BatchWrites(batch))
  {
    var acc := result;
    assert BatchWrites(DecodedBatch(batch.ids[..0], batch.decoded)) == [];
    assert done + [] == done;
    for i := 0 to |batch.ids|
      invariant i <= |batch.decoded|
      invariant acc == ToMap(done + BatchWrites(DecodedBatch(batch.ids[..i], batch.decoded)))
    {
      if i >= |batch.decoded| {
        return Err(IndexError);
      }
      var w := (batch.ids[i], RecordOf(batch.decoded[i]));
      BatchWritesSnoc(done, batch, i);
      acc := acc[w.0 := w.1];
    }
    assert batch.ids[..|batch.ids|] == batch.ids;
    r := Ok(acc);
  }

  /** The loop of `eval_captions` (and of `augmented_eval_captions`, which
      differs only in what it feeds the network). */
  method EvalCaptions(batches: seq<DecodedBatch>) returns (r: Result<map<Id, CaptionRecord>>)
    ensures r == CaptionsOf(batches)
    ensures r.Ok? ==> WellFormed(r.value)
  {
    var result: map<Id, CaptionRecord> := map[];
    for b := 0 to |batches|
      invariant AllFit(batches[..b])
      invariant result == ToMap(Writes(batches[..b]))
    {
      var stored := StoreDecoded(result, Writes(batches[..b]), batches[b]);
      if stored.Err? {
        assert !AllFit(batches) by { assert !Fits(batches[b]); }
        return Err(IndexError);
      }
      assert batches[..b + 1][..b] == batches[..b];
      assert AllFit(batches[..b + 1]);
      result := stored.value;
    }
    assert batches[..|batches|] == batches;
    r := Ok(result);
    CaptionsWellFormed(batches);
  }

  /** Every stored record has "caption length" equal to the number of
      tokens under "caption ". */
  lemma CaptionsWellFormed(batches: seq<DecodedBatch>)
    requires CaptionsOf(batches).Ok?
    ensures WellFormed(CaptionsOf(batches).value)
  {
    var items := Writes(batches);
    WritesAreRecords(batches);
    forall id | id in ToMap(items)
      ensures ToMap(items)[id].captionLength == |ToMap(items)[id].caption|
    {
      ToMapFromItem(items, id);
    }
  }

  /** Every write stores a record built by RecordOf. */
  lemma {:induction false} WritesAreRecords(batches: seq<DecodedBatch>)
    requires AllFit(batches)
    ensures forall j :: 0 <= j < |Writes(batches)| ==> Writes(batches)[j].1.captionLength == |Writes(batches)[j].1.caption|
  {
    if batches != [] {
      var n := |batches| - 1;
      assert AllFit(batches[..n]);
      WritesAreRecords(batches[..n]);
    }
  }

  /** The ids of all batches. */
  function AllIds(batches: seq<DecodedBatch>): set<Id> {
    set b, i | 0 <= b < |batches| && 0 <= i < |batches[b].ids| :: batches[b].ids[i]
  }

  /** The ids of one batch. */
  function BatchIds(batch: DecodedBatch): set<Id> {
    set i | 0 <= i < |batch.ids| :: batch.ids[i]
  }

  lemma BatchWriteKeys(batch: DecodedBatch)
    requires Fits(batch)
    ensures Keys(BatchWrites(batch)) == BatchIds(batch)
  {
    var bw := BatchWrites(batch);
    forall x | x in Keys(bw) ensures x in BatchIds(batch) {
      var j :| 0 <= j < |bw| && bw[j].0 == x;
      assert batch.ids[j] == x;
    }
    forall x | x in BatchIds(batch) ensures x in Keys(bw) {
      var j :| 0 <= j < |batch.ids| && batch.ids[j] == x;
      assert bw[j].0 == x;
    }
  }

  lemma AllIdsSnoc(batches: seq<DecodedBatch>)
    requires batches != []
    ensures AllIds(batches) == AllIds(batches[..|batches| - 1]) + BatchIds(batches[|batches| - 1])
  {
    var n := |batches| - 1;
    var init := batches[..n];
    forall x | x in AllIds(batches) ensures x in AllIds(init) + BatchIds(batches[n]) {
      var b, i :| 0 <= b < |batches| && 0 <= i < |batches[b].ids| && batches[b].ids[i] == x;
      if b < n {
        assert init[b] == batches[b];
      }
    }
    forall x | x in AllIds(init) ensures x in AllIds(batches) {
      var b, i :| 0 <= b < |init| && 0 <= i < |init[b].ids| && init[b].ids[i] == x;
      assert batches[b] == init[b];
    }
    forall x | x in BatchIds(batches[n]) ensures x in AllIds(batches) {
      var i :| 0 <= i < |batches[n].ids| && batches[n].ids[i] == x;
    }
  }

  /** The result holds exactly the ids that the loader produced. */
  lemma CaptionKeys(batches: seq<DecodedBatch>)
    requires AllFit(batches)
    ensures ToMap(Writes(batches)).Keys == AllIds(batches)
  {
    ToMapKeys(Writes(batches));
    WriteKeys(batches);
  }

  /** The ids written are those the loader produced. */
  lemma {:induction false} WriteKeys(batches: seq<DecodedBatch>)
    requires AllFit(batches)
    ensures Keys(Writes(batches)) == AllIds(batches)
  {
    if batches != [] {
      var n := |batches| - 1;
      assert AllFit(batches[..n]);
      WriteKeys(batches[..n]);
      KeysAppend(Writes(batches[..n]), BatchWrites(batches[n]));
      BatchWriteKeys(batches[n]);
      AllIdsSnoc(batches);
    }
  }

  /** The position of the last occurrence of `x` in `s`. */
  function LastIndex(s: seq<Id>, x: Id): (k: nat)
    requires x in s
    ensures k < |s| && s[k] == x
    ensures forall l :: k < l < |s| ==> s[l] != x
  {
    if s[|s| - 1] == x then |s| - 1 else LastIndex(s[..|s| - 1], x)
  }

  /** Overwriting: an id keeps the record written at its last position in
      the loader's order. */
  lemma {:induction false} CaptionOfLastWrite(batches: seq<DecodedBatch>, b: nat, i: nat)
    requires AllFit(batches)
    requires b < |batches| && i < |batches[b].ids|
    requires forall l :: i < l < |batches[b].ids| ==> batches[b].ids[l] != batches[b].ids[i]
    requires forall c :: b < c < |batches| ==> batches[b].ids[i] !in BatchIds(batches[c])
    ensures batches[b].ids[i] in ToMap(Writes(batches))
    ensures ToMap(Writes(batches))[batches[b].ids[i]] == RecordOf(batches[b].decoded[i])
  {
    var n := |batches| - 1;
    var init := batches[..n];
    var id := batches[b].ids[i];
    assert AllFit(init);
    var w := Writes(init);
    var bw := BatchWrites(batches[n]);
    assert Writes(batches) == w + bw;
    if b == n {
      var j := |w| + i;
      assert (w + bw)[j] == (id, RecordOf(batches[b].decoded[i]));
      forall l | j < l < |w + bw| ensures (w + bw)[l].0 != id {
        assert (w + bw)[l] == bw[l - |w|];
      }
      assert id in Keys(w + bw);
      ToMapLastWins(w + bw, j);
    } else {
      assert init[b] == batches[b];
      CaptionOfLastWrite(init, b, i);
      CaptionKeys(init);
      BatchWriteKeys(batches[n]);
      ToMapAppendOther(w, bw, id);
    }
  }

  // ---------------------------------------------------------------------
  // eval_pipeline and eval_waterfall

  /** One loader batch: the image ids and the id sequence `model.sample`
      returned for it. */
  datatype SampledBatch = SampledBatch(ids: seq<Id>, sampled: seq<int>)

  /** The batch as the inner loop sees it: the decoded caption at every
      position. */
  function Repeated(ids: seq<Id>, caption: seq<Token>): (batch: DecodedBatch)
    ensures Fits(batch) && batch.ids == ids
    ensures forall i :: 0 <= i < |ids| ==> batch.decoded[i] == caption
  {
    DecodedBatch(ids, seq(|ids|, _ => caption))
  }

  /** Every id `model.sample` returned for the batch is in the vocabulary. */
  predicate Known(batch: SampledBatch, idx2word: map<int, Token>) {
    forall k :: 0 <= k < |batch.sampled| ==> batch.sampled[k] in idx2word
  }

  /** Decodes the batches in loader order with `[idx2word[idx] for idx in
      ...]`, failing with KeyError at the first batch holding an id that is
      not in the vocabulary. */
  function DecodeSampled(batches: seq<SampledBatch>, idx2word: map<int, Token>): (r: Result<seq<DecodedBatch>>)
    ensures r.Ok? <==> forall b :: 0 <= b < |batches| ==> Known(batches[b], idx2word)
    ensures r.Err? ==> r.error == KeyError
    ensures r.Ok? ==> |r.value| == |batches|
    ensures r.Ok? ==> forall b :: 0 <= b < |batches| ==>
      r.value[b] == Repeated(batches[b].ids, LookupAll(idx2word, batches[b].sampled).value)
  {
    if batches == [] then Ok([])
    else
      var n := |batches| - 1;
      match DecodeSampled(batches[..n], idx2word)
      case Err(e) =>
        assert forall b :: 0 <= b < n ==> batches[..n][b] == batches[b];
        Err(e)
      case Ok(decoded) =>
        match LookupAll(idx2word, batches[n].sampled)
        case Err(e) => Err(e)
        case Ok(caption) =>
          assert forall b :: 0 <= b < n ==> batches[..n][b] == batches[b];
          Ok(decoded + [Repeated(batches[n].ids, caption)])
  }

  /** The dict `result` of `eval_pipeline` / `eval_waterfall`. */
  function SampledCaptionsOf(batches: seq<SampledBatch>, idx2word: map<int, Token>): Result<map<Id, CaptionRecord>> {
    match DecodeSampled(batches, idx2word)
    case Err(e) => Err(e)
    case Ok(decoded) => CaptionsOf(decoded)
  }

  /** Decoding one more batch appends it to the decoded batches, and its
      writes to the writes of the loop. */
  lemma DecodeSampledSnoc(batches: seq<SampledBatch>, b: nat, idx2word: map<int, Token>, decoded: seq<DecodedBatch>, caption: seq<Token>)
    requires b < |batches|
    requires DecodeSampled(batches[..b], idx2word) == Ok(decoded) && AllFit(decoded)
    requires LookupAll(idx2word, batches[b].sampled) == Ok(caption)
    ensures DecodeSampled(batches[..b + 1], idx2word) == Ok(decoded + [Repeated(batches[b].ids, caption)])
    ensures AllFit(decoded + [Repeated(batches[b].ids, caption)])
    ensures Writes(decoded + [Repeated(batches[b].ids, caption)])
      == Writes(decoded) + BatchWrites(Repeated(batches[b].ids, caption))
  {
    var pre := batches[..b + 1];
    assert pre[..b] == batches[..b];
    var next := decoded + [Repeated(batches[b].ids, caption)];
    assert next[..|next| - 1] == decoded;
  }

  /** The loop of `eval_pipeline` and `eval_waterfall`. */
  method EvalSampled(batches: seq<SampledBatch>, idx2word: map<int, Token>) returns (r: Result<map<Id, CaptionRecord>>)
    ensures r == SampledCaptionsOf(batches, idx2word)
  {
    var result: map<Id, CaptionRecord> := map[];
    ghost var decoded: seq<DecodedBatch> := [];
    for b := 0 to |batches|
      invariant AllFit(decoded)
      invariant DecodeSampled(batches[..b], idx2word) == Ok(decoded)
      invariant result == ToMap(Writes(decoded))
    {
      var caption := LookupAll(idx2word, batches[b].sampled);
      if caption.Err? {
        assert !Known(batches[b], idx2word);
        return Err(KeyError);
      }
      var batch := Repeated(batches[b].ids, caption.value);
      var stored := StoreDecoded(result, Writes(decoded), batch);
      DecodeSampledSnoc(batches, b, idx2word, decoded, caption.value);
      decoded := decoded + [batch];
      result := stored.value;
    }
    assert batches[..|batches|] == batches;
    r := Ok(result);
  }

  /** `eval_pipeline` / `eval_waterfall` fail with KeyError exactly when a
      sampled id is not in the vocabulary; otherwise every stored length is
      the length of its caption. */
  lemma SampledCaptionsOutcome(batches: seq<SampledBatch>, idx2word: map<int, Token>)
    ensures SampledCaptionsOf(batches, idx2word).Ok? <==> forall b :: 0 <= b < |batches| ==> Known(batches[b], idx2word)
    ensures SampledCaptionsOf(batches, idx2word).Err? ==> SampledCaptionsOf(batches, idx2word).error == KeyError
    ensures SampledCaptionsOf(batches, idx2word).Ok? ==> WellFormed(SampledCaptionsOf(batches, idx2word).value)
  {
    var d := DecodeSampled(batches, idx2word);
    if d.Ok? {
      assert AllFit(d.value);
      CaptionsWellFormed(d.value);
    }
  }

  /** Every id of a batch receives the caption sampled for that batch,
      unless a later batch overwrites it. */
  lemma SameCaptionPerBatch(batches: seq<SampledBatch>, idx2word: map<int, Token>, b: nat, id: Id)
    requires SampledCaptionsOf(batches, idx2word).Ok?
    requires b < |batches| && id in batches[b].ids
    requires forall c :: b < c < |batches| ==> id !in batches[c].ids
    ensures LookupAll(idx2word, batches[b].sampled).Ok?
    ensures id in SampledCaptionsOf(batches, idx2word).value
    ensures SampledCaptionsOf(batches, idx2word).value[id] == RecordOf(LookupAll(idx2word, batches[b].sampled).value)
  {
    var decoded := DecodeSampled(batches, idx2word).value;
    var i := LastIndex(batches[b].ids, id);
    forall c | b < c < |batches| ensures id !in BatchIds(decoded[c]) {
      assert decoded[c].ids == batches[c].ids;
    }
    CaptionOfLastWrite(decoded, b, i);
  }
}
