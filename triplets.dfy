/** The discrete part of the triplet extractor in models.py: the multi-head
    classifier's flat score row, its regrouping into one pair of scores per
    triplet class, the per-class argmax decision, the 0.5 threshold, the
    index-to-triplet lookup and the placeholder for images with no triplet.
    Scores are real numbers; only their order matters. */
module Triplets {
  import opened Wrappers
  import opened Dicts

  /** A triplet class, in its textual form "('subject', 'predicate', 'object')". */
  type Triplet = string

  /** The triplet substituted for an image with no predicted triplet. */
  const Placeholder: Triplet := "('There', 'is', 'no triplet')"

  /** The threshold applied to each per-class decision. */
  const Threshold: real := 0.5

  /** The assertions that open `TripletClassifier.forward` and
      `MultiHeadClassifier.forward`, on an image batch of shape
      (batch, channels, width, height). */
  function CheckInputSize(shape: seq<nat>, inputSize: nat): (r: Outcome)
    requires |shape| == 4
    ensures r.Pass? <==> shape[2] == inputSize && shape[3] == inputSize
    ensures r.Fail? ==> r.error == AssertionError
  {
    if shape[2] != inputSize then Fail(AssertionError)
    else if shape[3] != inputSize then Fail(AssertionError)
    else Pass
  }

  /** Every element is a two-wide score vector, as each head emits. */
  predicate AllPairs(pairs: seq<seq<real>>) {
    forall k :: 0 <= k < |pairs| ==> |pairs[k]| == 2
  }

  /** `torch.cat(outputs, dim=1)` in `MultiHead.forward`, for one image of a
      classifier with at least one head: the two scores of every head, side
      by side in head order.  Without heads `torch.cat` raises instead
      (MultiHeadForward). */
  function ConcatHeads(outputs: seq<seq<real>>): (row: seq<real>)
    requires |outputs| > 0 && AllPairs(outputs)
    ensures |row| == 2 * |outputs|
  {
    seq(2 * |outputs|, i requires 0 <= i < 2 * |outputs| => outputs[i / 2][i % 2])
  }

  /** Head k's output sits at positions 2k and 2k + 1 of the row. */
  lemma HeadAt(outputs: seq<seq<real>>, k: nat)
    requires AllPairs(outputs) && k < |outputs|
    ensures outputs[k] == [ConcatHeads(outputs)[2 * k], ConcatHeads(outputs)[2 * k + 1]]
  {
    var row := ConcatHeads(outputs);
    assert row[2 * k] == outputs[(2 * k) / 2][(2 * k) % 2];
    assert row[2 * k + 1] == outputs[(2 * k + 1) / 2][(2 * k + 1) % 2];
  }

  /** The per-image part of `reshape((B, int(W / 2), 2))`: consecutive scores
      taken two at a time. */
  function Pairs(row: seq<real>): (pairs: seq<seq<real>>)
    requires |row| % 2 == 0
    ensures |pairs| == |row| / 2
    ensures forall k {:trigger pairs[k]} :: 0 <= k < |pairs| ==> pairs[k] == [row[2 * k], row[2 * k + 1]]
  {
    seq(|row| / 2, k requires 0 <= k < |row| / 2 => [row[2 * k], row[2 * k + 1]])
  }

  /** Regrouping the classifier's row gives back each head's own output: pair
      k is head k's two scores. */
  lemma PairsOfHeads(outputs: seq<seq<real>>)
    requires |outputs| > 0 && AllPairs(outputs)
    ensures Pairs(ConcatHeads(outputs)) == outputs
  {
    var pairs := Pairs(ConcatHeads(outputs));
    forall k | 0 <= k < |outputs| ensures pairs[k] == outputs[k] {
      HeadAt(outputs, k);
    }
  }

  /** `reshape((B, int(W / 2), 2))` on a batch of B rows of width W.  Torch
      refuses a shape with a different number of elements, which happens
      exactly when the batch is not empty and W is odd. */
  function Regroup(rows: seq<seq<real>>, width: nat): (r: Result<seq<seq<seq<real>>>>)
    requires forall b :: 0 <= b < |rows| ==> |rows[b]| == width
    ensures r.Ok? <==> |rows| == 0 || width % 2 == 0
    ensures r.Err? ==> r.error == ReshapeError
    ensures r.Ok? ==> |r.value| == |rows| && forall b :: 0 <= b < |rows| ==> r.value[b] == Pairs(rows[b])
  {
    if |rows| > 0 && width % 2 == 1 then Err(ReshapeError)
    else Ok(seq(|rows|, b requires 0 <= b < |rows| => Pairs(rows[b])))
  }

  /** `torch.argmax`: the first index holding the largest score. */
  function ArgMax(s: seq<real>): (r: nat)
    requires |s| > 0
    ensures r < |s|
    ensures forall j :: 0 <= j < |s| ==> s[j] <= s[r]
    ensures forall j :: 0 <= j < r ==> s[j] < s[r]
  {
    if |s| == 1 then 0
    else
      var m := ArgMax(s[..|s| - 1]);
      if s[|s| - 1] > s[m] then |s| - 1 else m
  }

  /** The per-class decision `torch.argmax(logits).item()`: 1 exactly when the
      second score is strictly larger, a tie going to index 0. */
  function Decision(logits: seq<real>): (d: nat)
    requires |logits| == 2
    ensures d <= 1
    ensures d == 1 <==> logits[1] > logits[0]
  {
    ArgMax(logits)
  }

  /** The decisions of one image, class by class. */
  function Decisions(pairs: seq<seq<real>>): seq<nat>
    requires AllPairs(pairs)
  {
    seq(|pairs|, k requires 0 <= k < |pairs| => Decision(pairs[k]))
  }

  /** `d >= threshold` for a decision `d`. */
  predicate Reaches(d: nat) {
    d as real >= Threshold
  }

  /** `[i for i, d in enumerate(s) if d >= threshold]`: the indices whose
      decision reaches the threshold, in increasing order. */
  function Selected(ds: seq<nat>): (ix: seq<nat>)
    ensures forall j :: 0 <= j < |ix| ==> ix[j] < |ds| && Reaches(ds[ix[j]])
    ensures forall i :: 0 <= i < |ds| && Reaches(ds[i]) ==> i in ix
    ensures forall j, l :: 0 <= j < l < |ix| ==> ix[j] < ix[l]
  {
    if ds == [] then []
    else
      var n := |ds| - 1;
      var front := Selected(ds[..n]);
      SelectedSnoc(ds, front);
      front + if Reaches(ds[n]) then [n] else []
  }

  /** The step of Selected: the indices selected in all but the last
      decision, followed by the last index when its decision reaches the
      threshold. */
  lemma SelectedSnoc(ds: seq<nat>, front: seq<nat>)
    requires ds != []
    requires forall j :: 0 <= j < |front| ==> front[j] < |ds| - 1 && Reaches(ds[..|ds| - 1][front[j]])
    requires forall i :: 0 <= i < |ds| - 1 && Reaches(ds[..|ds| - 1][i]) ==> i in front
    requires forall j, l :: 0 <= j < l < |front| ==> front[j] < front[l]
    ensures var ix := front + if Reaches(ds[|ds| - 1]) then [|ds| - 1] else [];
            && (forall j :: 0 <= j < |ix| ==> ix[j] < |ds| && Reaches(ds[ix[j]]))
            && (forall i :: 0 <= i < |ds| && Reaches(ds[i]) ==> i in ix)
            && (forall j, l :: 0 <= j < l < |ix| ==> ix[j] < ix[l])
  {
    var n := |ds| - 1;
    var init := ds[..n];
    var ix := front + if Reaches(ds[n]) then [n] else [];
    forall j | 0 <= j < |ix| ensures ix[j] < |ds| && Reaches(ds[ix[j]]) {
      if j < |front| {
        assert ix[j] == front[j] && init[front[j]] == ds[front[j]];
      }
    }
    forall i | 0 <= i < |ds| && Reaches(ds[i]) ensures i in ix {
      if i < n {
        assert init[i] == ds[i];
        assert i in front;
      } else {
        assert ix == front + [n];
        assert ix[|front|] == n;
      }
    }
    forall j, l | 0 <= j < l < |ix| ensures ix[j] < ix[l] {
      assert ix[j] == front[j];
      if l < |front| {
        assert ix[l] == front[l];
      }
    }
  }

  /** The selected classes of one image. */
  function ActiveClasses(pairs: seq<seq<real>>): seq<nat>
    requires AllPairs(pairs)
  {
    Selected(Decisions(pairs))
  }

  /** Class k of an image is selected exactly when, in that image's score
      row, position 2k + 1 is strictly larger than position 2k. */
  lemma ActiveIffSecondWins(row: seq<real>)
    requires |row| % 2 == 0
    ensures forall k :: k in ActiveClasses(Pairs(row)) <==> 0 <= k < |row| / 2 && row[2 * k + 1] > row[2 * k]
  {
    var pairs := Pairs(row);
    var ds := Decisions(pairs);
    var ix := Selected(ds);
    forall k: int
      ensures k in ix <==> 0 <= k < |row| / 2 && row[2 * k + 1] > row[2 * k]
    {
      if k in ix {
        var j :| 0 <= j < |ix| && ix[j] == k;
        assert ds[k] == Decision(pairs[k]);
      }
      if 0 <= k < |row| / 2 && row[2 * k + 1] > row[2 * k] {
        assert ds[k] == Decision(pairs[k]);
      }
    }
  }

  /** `[[idx2tripl[i] for i in s] for s in indeces]`. */
  function LookupBatch(indices: seq<seq<nat>>, idx2tripl: map<int, Triplet>): (r: Result<seq<seq<Triplet>>>)
    ensures r.Ok? <==> forall b, j :: 0 <= b < |indices| && 0 <= j < |indices[b]| ==> indices[b][j] in idx2tripl
    ensures r.Err? ==> r.error == KeyError
    ensures r.Ok? ==> |r.value| == |indices| && forall b :: 0 <= b < |indices| ==> LookupAll(idx2tripl, indices[b]) == Ok(r.value[b])
  {
    if indices == [] then Ok([])
    else
      match LookupAll(idx2tripl, indices[0])
      case Err(e) => Err(e)
      case Ok(first) =>
        match LookupBatch(indices[1..], idx2tripl)
        case Err(e) => Err(e)
        case Ok(rest) =>
          assert forall b :: 1 <= b < |indices| ==> indices[1..][b - 1] == indices[b];
          Ok([first] + rest)
  }

  /** The fallback for one image: a list left empty gets the placeholder. */
  function WithPlaceholder(ts: seq<Triplet>): (r: seq<Triplet>)
    ensures r != []
    ensures ts != [] ==> r == ts
    ensures ts == [] ==> r == [Placeholder]
  {
    if ts == [] then [Placeholder] else ts
  }

  /** What `forward` derives from the classifier's scores: the regrouped
      scores it returns as `class_out`, and one triplet list per image. */
  datatype Selection = Selection(classOut: seq<seq<seq<real>>>, triplets: seq<seq<Triplet>>)

  /** The selected classes of every image of a regrouped batch. */
  function ActiveBatch(grouped: seq<seq<seq<real>>>): (indices: seq<seq<nat>>)
    requires forall b :: 0 <= b < |grouped| ==> AllPairs(grouped[b])
  {
    seq(|grouped|, b requires 0 <= b < |grouped| => ActiveClasses(grouped[b]))
  }

  /** The fallback applied to every image of a batch. */
  function PlaceholderBatch(found: seq<seq<Triplet>>): (lists: seq<seq<Triplet>>)
    ensures |lists| == |found| && forall b :: 0 <= b < |found| ==> lists[b] != []
  {
    seq(|found|, b requires 0 <= b < |found| => WithPlaceholder(found[b]))
  }

  /** The selection specified as one expression over the batch of score rows. */
  function SelectionOf(rows: seq<seq<real>>, width: nat, idx2tripl: map<int, Triplet>): Result<Selection>
    requires forall b :: 0 <= b < |rows| ==> |rows[b]| == width
  {
    match Regroup(rows, width)
    case Err(e) => Err(e)
    case Ok(grouped) =>
      match LookupBatch(ActiveBatch(grouped), idx2tripl)
      case Err(e) => Err(e)
      case Ok(found) => Ok(Selection(grouped, PlaceholderBatch(found)))
  }

  /** The placeholder loop `for s in triplets: if s == []: s.append(...)`,
      which updates the inner lists in place. */
  method AddPlaceholders(lists: array<seq<Triplet>>)
    modifies lists
    ensures forall b :: 0 <= b < lists.Length && old(lists[b]) == [] ==> lists[b] == [Placeholder]
    ensures forall b :: 0 <= b < lists.Length && old(lists[b]) != [] ==> lists[b] == old(lists[b])
  {
    for b := 0 to lists.Length
      invariant forall c :: 0 <= c < b ==> lists[c] == WithPlaceholder(old(lists[c]))
      invariant forall c :: b <= c < lists.Length ==> lists[c] == old(lists[c])
    {
      if lists[b] == [] {
        lists[b] := lists[b] + [Placeholder];
      }
    }
  }

  /** The per-image triplet lists, put in an array whose entries the
      placeholder loop updates in place. */
  method FillPlaceholders(found: seq<seq<Triplet>>) returns (lists: seq<seq<Triplet>>)
    ensures lists == PlaceholderBatch(found)
  {
    var a := new seq<Triplet>[|found|](b requires 0 <= b < |found| => found[b]);
    AddPlaceholders(a);
    assert a[..] == PlaceholderBatch(found) by {
      forall b | 0 <= b < |found| ensures a[b] == WithPlaceholder(found[b]) {
      }
    }
    lists := a[..];
  }

  /** The triplet selection shared by `FinalModel.forward` and
      `FinetunedModel.forward`, from the classifier's score rows on. */
  method SelectTriplets(rows: seq<seq<real>>, width: nat, idx2tripl: map<int, Triplet>) returns (r: Result<Selection>)
    requires forall b :: 0 <= b < |rows| ==> |rows[b]| == width
    ensures r == SelectionOf(rows, width, idx2tripl)
    ensures r.Ok? ==> |r.value.triplets| == |rows| && forall b :: 0 <= b < |rows| ==> r.value.triplets[b] != []
  {
    var grouped := Regroup(rows, width);
    if grouped.Err? {
      return Err(grouped.error);
    }
    var pairs := grouped.value;
    var found := LookupBatch(ActiveBatch(pairs), idx2tripl);
    if found.Err? {
      return Err(found.error);
    }
    var lists := FillPlaceholders(found.value);
    r := Ok(Selection(pairs, lists));
  }

  /** For image b of a successful selection: with no active class the list is
      exactly the placeholder; otherwise it holds, in increasing class order,
      the triplet of every active class. */
  lemma SelectionAt(rows: seq<seq<real>>, width: nat, idx2tripl: map<int, Triplet>, b: nat)
    requires forall c :: 0 <= c < |rows| ==> |rows[c]| == width
    requires width % 2 == 0 && b < |rows|
    requires SelectionOf(rows, width, idx2tripl).Ok?
    ensures |SelectionOf(rows, width, idx2tripl).value.triplets| == |rows|
    ensures var ix := ActiveClasses(Pairs(rows[b]));
            var ts := SelectionOf(rows, width, idx2tripl).value.triplets[b];
            && (ix == [] ==> ts == [Placeholder])
            && (ix != [] ==> |ts| == |ix| && forall j :: 0 <= j < |ix| ==> ix[j] in idx2tripl && ts[j] == idx2tripl[ix[j]])
  {
    var grouped := Regroup(rows, width).value;
    var found := LookupBatch(ActiveBatch(grouped), idx2tripl).value;
    assert ActiveBatch(grouped)[b] == ActiveClasses(Pairs(rows[b]));
    assert LookupAll(idx2tripl, ActiveBatch(grouped)[b]) == Ok(found[b]);
  }

  /** The reshape fails exactly when the batch is not empty and the row width
      is odd; the only other error is the lookup's KeyError. */
  lemma SelectionReshapeFailure(rows: seq<seq<real>>, width: nat, idx2tripl: map<int, Triplet>)
    requires forall b :: 0 <= b < |rows| ==> |rows[b]| == width
    ensures SelectionOf(rows, width, idx2tripl) == Err(ReshapeError) <==> |rows| > 0 && width % 2 == 1
    ensures SelectionOf(rows, width, idx2tripl).Err? ==> SelectionOf(rows, width, idx2tripl).error in {ReshapeError, KeyError}
  {
  }

  /** With an even row width, the selection succeeds exactly when every active
      class of every image has a triplet. */
  lemma SelectionLookupFailure(rows: seq<seq<real>>, width: nat, idx2tripl: map<int, Triplet>)
    requires forall b :: 0 <= b < |rows| ==> |rows[b]| == width
    requires width % 2 == 0
    ensures SelectionOf(rows, width, idx2tripl).Ok? <==>
              forall b, k :: 0 <= b < |rows| && k in ActiveClasses(Pairs(rows[b])) ==> k in idx2tripl
  {
    var grouped := Regroup(rows, width).value;
    var indices := ActiveBatch(grouped);
    var found := LookupBatch(indices, idx2tripl);
    assert SelectionOf(rows, width, idx2tripl).Ok? == found.Ok?;
    assert forall b :: 0 <= b < |rows| ==> indices[b] == ActiveClasses(Pairs(rows[b]));
    if found.Ok? {
      forall b, k | 0 <= b < |rows| && k in ActiveClasses(Pairs(rows[b])) ensures k in idx2tripl {
        var j :| 0 <= j < |indices[b]| && indices[b][j] == k;
      }
    } else {
      var b, j :| 0 <= b < |indices| && 0 <= j < |indices[b]| && indices[b][j] !in idx2tripl;
      assert indices[b][j] in ActiveClasses(Pairs(rows[b]));
    }
  }

  /** A lookup table holding a triplet for each of the D classes never fails
      on the scores of a D-head classifier. */
  lemma CoveredSelectionSucceeds(idx2tripl: map<int, Triplet>, dictSize: nat, rows: seq<seq<real>>)
    requires forall k :: 0 <= k < dictSize ==> k in idx2tripl
    requires forall b :: 0 <= b < |rows| ==> |rows[b]| == 2 * dictSize
    ensures SelectionOf(rows, 2 * dictSize, idx2tripl).Ok?
  {
    forall b, k | 0 <= b < |rows| && k in ActiveClasses(Pairs(rows[b])) ensures k in idx2tripl {
      var ix := ActiveClasses(Pairs(rows[b]));
      var j :| 0 <= j < |ix| && ix[j] == k;
      assert k < |Pairs(rows[b])|;
    }
    SelectionLookupFailure(rows, 2 * dictSize, idx2tripl);
  }

  /** A model built from a triplet dict whose indices cover 0 .. D - 1 never
      fails on the scores of its D-head classifier. */
  lemma ConfiguredSelectionSucceeds(tripl2idx: Items<Triplet, int>, rows: seq<seq<real>>)
    requires forall k :: 0 <= k < |tripl2idx| ==> k in Values(tripl2idx)
    requires forall b :: 0 <= b < |rows| ==> |rows[b]| == 2 * |tripl2idx|
    ensures SelectionOf(rows, 2 * |tripl2idx|, Invert(tripl2idx)).Ok?
  {
    CoveredSelectionSucceeds(Invert(tripl2idx), |tripl2idx|, rows);
  }

  /** Every triplet selected for an image through an inverted triplet dict is
      either the placeholder or a key of that dict whose index is an active
      class of the image. */
  lemma SelectedAreActiveClasses(tripl2idx: Items<Triplet, int>, rows: seq<seq<real>>, width: nat, b: nat, t: Triplet)
    requires DistinctKeys(tripl2idx)
    requires forall c :: 0 <= c < |rows| ==> |rows[c]| == width
    requires width % 2 == 0 && b < |rows|
    requires SelectionOf(rows, width, Invert(tripl2idx)).Ok?
    requires |SelectionOf(rows, width, Invert(tripl2idx)).value.triplets| == |rows|
    requires t in SelectionOf(rows, width, Invert(tripl2idx)).value.triplets[b]
    ensures t == Placeholder || (t in ToMap(tripl2idx) && ToMap(tripl2idx)[t] in ActiveClasses(Pairs(rows[b])))
  {
    var idx2tripl := Invert(tripl2idx);
    SelectionAt(rows, width, idx2tripl, b);
    var ix := ActiveClasses(Pairs(rows[b]));
    var ts := SelectionOf(rows, width, idx2tripl).value.triplets[b];
    if ix != [] {
      var j :| 0 <= j < |ts| && ts[j] == t;
      assert idx2tripl[ix[j]] == t;
      InvertSound(tripl2idx);
    }
  }

  /** A strictly increasing activation, as the sigmoid is over the reals. */
  ghost predicate StrictlyIncreasing(f: real -> real) {
    forall x, y :: x < y ==> f(x) < f(y)
  }

  /** The activation applied to every score of a row. */
  function Activate(f: real -> real, s: seq<real>): (r: seq<real>)
    ensures |r| == |s|
  {
    seq(|s|, i requires 0 <= i < |s| => f(s[i]))
  }

  /** The activation applied to every row of a batch. */
  function ActivateBatch(f: real -> real, rows: seq<seq<real>>): (r: seq<seq<real>>)
    ensures |r| == |rows|
  {
    seq(|rows|, b requires 0 <= b < |rows| => Activate(f, rows[b]))
  }

  /** A strictly increasing activation keeps the order of any two scores. */
  lemma OrderKept(f: real -> real, x: real, y: real)
    requires StrictlyIncreasing(f)
    ensures f(y) > f(x) <==> y > x
  {
    if y <= x {
      assert y == x || f(y) < f(x);
    }
  }

  /** Pair k of an activated row is the activation of pair k. */
  lemma ActivatedPair(f: real -> real, row: seq<real>, k: nat)
    requires |row| % 2 == 0 && k < |row| / 2
    ensures Pairs(Activate(f, row))[k] == [f(row[2 * k]), f(row[2 * k + 1])]
    ensures Pairs(row)[k] == [row[2 * k], row[2 * k + 1]]
  {
    var a := Activate(f, row);
    assert a[2 * k] == f(row[2 * k]) && a[2 * k + 1] == f(row[2 * k + 1]);
  }

  /** A strictly increasing activation changes no per-class decision. */
  lemma DecisionUnderActivation(f: real -> real, row: seq<real>, k: nat)
    requires StrictlyIncreasing(f)
    requires |row| % 2 == 0 && k < |row| / 2
    ensures Decision(Pairs(Activate(f, row))[k]) == Decision(Pairs(row)[k])
  {
    ActivatedPair(f, row, k);
    OrderKept(f, row[2 * k], row[2 * k + 1]);
  }

  /** The same for all the decisions of one image. */
  lemma DecisionsUnderActivation(f: real -> real, row: seq<real>)
    requires StrictlyIncreasing(f)
    requires |row| % 2 == 0
    ensures Decisions(Pairs(Activate(f, row))) == Decisions(Pairs(row))
  {
    var da, dr := Decisions(Pairs(Activate(f, row))), Decisions(Pairs(row));
    assert |da| == |dr|;
    forall k | 0 <= k < |da| ensures da[k] == dr[k] {
      DecisionUnderActivation(f, row, k);
    }
  }

  /** Applying a strictly increasing activation before the selection (the
      sigmoid of `FinalModel.forward`, absent from `FinetunedModel.forward`)
      selects the same triplets and fails in the same cases. */
  lemma ActivationKeepsTriplets(f: real -> real, rows: seq<seq<real>>, width: nat, idx2tripl: map<int, Triplet>)
    requires StrictlyIncreasing(f)
    requires forall b :: 0 <= b < |rows| ==> |rows[b]| == width
    ensures var act := ActivateBatch(f, rows);
            && (forall b :: 0 <= b < |act| ==> |act[b]| == width)
            && SelectionOf(act, width, idx2tripl).Ok? == SelectionOf(rows, width, idx2tripl).Ok?
            && (SelectionOf(act, width, idx2tripl).Ok? ==>
                  SelectionOf(act, width, idx2tripl).value.triplets == SelectionOf(rows, width, idx2tripl).value.triplets)
  {
    var act := ActivateBatch(f, rows);
    assert forall b :: 0 <= b < |act| ==> act[b] == Activate(f, rows[b]);
    if |rows| == 0 || width % 2 == 0 {
      var ga := Regroup(act, width).value;
      var gr := Regroup(rows, width).value;
      forall b | 0 <= b < |rows| ensures ActiveBatch(ga)[b] == ActiveBatch(gr)[b] {
        DecisionsUnderActivation(f, rows[b]);
      }
      assert ActiveBatch(ga) == ActiveBatch(gr);
    }
  }

  /** `MultiHead.forward` over a batch of a classifier with `headCount`
      heads: for every image, the outputs of its heads side by side.  With no
      heads the list given to `torch.cat` is empty, and it raises whatever the
      batch. */
  function MultiHeadForward(heads: seq<seq<seq<real>>>, headCount: nat): (r: Result<seq<seq<real>>>)
    requires forall b :: 0 <= b < |heads| ==> |heads[b]| == headCount && AllPairs(heads[b])
    ensures r.Err? <==> headCount == 0
    ensures r.Err? ==> r.error == RuntimeError
    ensures r.Ok? ==> |r.value| == |heads|
    ensures r.Ok? ==> forall b :: 0 <= b < |heads| ==> |r.value[b]| == 2 * headCount
    ensures r.Ok? ==> forall b :: 0 <= b < |heads| ==> Pairs(r.value[b]) == heads[b]
  {
    if headCount == 0 then Err(RuntimeError)
    else
      var rows := seq(|heads|, b requires 0 <= b < |heads| => ConcatHeads(heads[b]));
      assert forall b :: 0 <= b < |heads| ==> Pairs(rows[b]) == heads[b] by {
        forall b | 0 <= b < |heads| ensures Pairs(rows[b]) == heads[b] {
          PairsOfHeads(heads[b]);
        }
      }
      Ok(rows)
  }

  /** Pair k of an image's activated classifier row is the activation of
      head k's output. */
  lemma ActivatedHeadPair(f: real -> real, outputs: seq<seq<real>>, k: nat)
    requires AllPairs(outputs) && k < |outputs|
    ensures Pairs(Activate(f, ConcatHeads(outputs)))[k] == Activate(f, outputs[k])
  {
    var row := ConcatHeads(outputs);
    HeadAt(outputs, k);
    ActivatedPair(f, row, k);
    var p := outputs[k];
    assert Activate(f, p) == [f(p[0]), f(p[1])];
  }

  /** `FinalModel`: the triplet dictionary and vocabulary it inverts at
      construction, and the input size of its classifier. */
  class FinalModel {
    const inputSize: nat
    const dictSize: nat
    const idx2tripl: map<int, Triplet>
    const vocab2idx: Items<string, int>
    const idx2vocab: map<int, string>

    constructor (imgDim: nat, vocab2idx: Items<string, int>, tripl2idx: Items<Triplet, int>)
      requires DistinctKeys(vocab2idx) && DistinctKeys(tripl2idx)
      ensures inputSize == imgDim && dictSize == |tripl2idx|
      ensures idx2tripl == Invert(tripl2idx) && idx2tripl.Keys == Values(tripl2idx)
      ensures this.vocab2idx == vocab2idx && idx2vocab == Invert(vocab2idx)
    {
      inputSize := imgDim;
      dictSize := |tripl2idx|;
      idx2tripl := Invert(tripl2idx);
      this.vocab2idx := vocab2idx;
      idx2vocab := Invert(vocab2idx);
    }

    /** The triplet selection of `FinalModel.forward`: the classifier's input
        check, the sigmoid over its scores, then SelectTriplets.  `heads` holds,
        for every image, the output of each of the classifier's heads; the
        sigmoid is given as a strictly increasing function. */
    method Forward(shape: seq<nat>, heads: seq<seq<seq<real>>>, sigmoid: real -> real) returns (r: Result<Selection>)
      requires |shape| == 4 && |heads| == shape[0]
      requires forall b :: 0 <= b < |heads| ==> |heads[b]| == dictSize && AllPairs(heads[b])
      requires StrictlyIncreasing(sigmoid)
      ensures CheckInputSize(shape, inputSize).Fail? ==> r == Err(AssertionError)
      ensures CheckInputSize(shape, inputSize).Pass? && dictSize == 0 ==> r == Err(RuntimeError)
      ensures CheckInputSize(shape, inputSize).Pass? && dictSize > 0 ==>
                r == SelectionOf(ActivateBatch(sigmoid, MultiHeadForward(heads, dictSize).value), 2 * dictSize, idx2tripl)
      ensures r.Err? ==> r.error in {AssertionError, RuntimeError, KeyError}
      ensures r.Ok? ==> SelectionOf(MultiHeadForward(heads, dictSize).value, 2 * dictSize, idx2tripl).Ok?
      ensures r.Ok? ==> r.value.triplets == SelectionOf(MultiHeadForward(heads, dictSize).value, 2 * dictSize, idx2tripl).value.triplets
      ensures r.Ok? ==> |r.value.triplets| == |heads| && forall b :: 0 <= b < |heads| ==> r.value.triplets[b] != []
      ensures r.Ok? ==> |r.value.classOut| == |heads|
      ensures r.Ok? ==> forall b :: 0 <= b < |heads| ==> |r.value.classOut[b]| == dictSize
      ensures r.Ok? ==> forall b, k :: 0 <= b < |heads| && 0 <= k < dictSize ==> r.value.classOut[b][k] == Activate(sigmoid, heads[b][k])
    {
      var check := CheckInputSize(shape, inputSize);
      if check.Fail? {
        return Err(check.error);
      }
      var concat := MultiHeadForward(heads, dictSize);
      if concat.Err? {
        return Err(concat.error);
      }
      var raw := concat.value;
      var rows := ActivateBatch(sigmoid, raw);
      ActivationKeepsTriplets(sigmoid, raw, 2 * dictSize, idx2tripl);
      SelectionReshapeFailure(rows, 2 * dictSize, idx2tripl);
      r := SelectTriplets(rows, 2 * dictSize, idx2tripl);
      if r.Ok? {
        forall b, k | 0 <= b < |heads| && 0 <= k < dictSize
          ensures r.value.classOut[b][k] == Activate(sigmoid, heads[b][k])
        {
          assert r.value.classOut[b] == Pairs(rows[b]);
          ActivatedHeadPair(sigmoid, heads[b], k);
        }
      }
    }
  }

  /** `FinetunedModel`: the same selection, applied to the raw scores. */
  class FinetunedModel {
    const inputSize: nat
    const dictSize: nat
    const idx2tripl: map<int, Triplet>
    const vocab2idx: Items<string, int>
    const idx2vocab: map<int, string>

    constructor (vocab2idx: Items<string, int>, imgDim: nat, tripl2idx: Items<Triplet, int>)
      requires DistinctKeys(vocab2idx) && DistinctKeys(tripl2idx)
      ensures inputSize == imgDim && dictSize == |tripl2idx|
      ensures idx2tripl == Invert(tripl2idx) && idx2tripl.Keys == Values(tripl2idx)
      ensures this.vocab2idx == vocab2idx && idx2vocab == Invert(vocab2idx)
    {
      inputSize := imgDim;
      dictSize := |tripl2idx|;
      idx2tripl := Invert(tripl2idx);
      this.vocab2idx := vocab2idx;
      idx2vocab := Invert(vocab2idx);
    }

    /** The triplet selection of `FinetunedModel.forward`: the classifier's
        input check, then SelectTriplets on the raw scores.  Pair k of every
        image is head k's output. */
    method Forward(shape: seq<nat>, heads: seq<seq<seq<real>>>) returns (r: Result<Selection>)
      requires |shape| == 4 && |heads| == shape[0]
      requires forall b :: 0 <= b < |heads| ==> |heads[b]| == dictSize && AllPairs(heads[b])
      ensures CheckInputSize(shape, inputSize).Fail? ==> r == Err(AssertionError)
      ensures CheckInputSize(shape, inputSize).Pass? && dictSize == 0 ==> r == Err(RuntimeError)
      ensures CheckInputSize(shape, inputSize).Pass? && dictSize > 0 ==>
                r == SelectionOf(MultiHeadForward(heads, dictSize).value, 2 * dictSize, idx2tripl)
      ensures r.Err? ==> r.error in {AssertionError, RuntimeError, KeyError}
      ensures r.Ok? ==> r.value.classOut == heads
      ensures r.Ok? ==> |r.value.triplets| == |heads| && forall b :: 0 <= b < |heads| ==> r.value.triplets[b] != []
    {
      var check := CheckInputSize(shape, inputSize);
      if check.Fail? {
        return Err(check.error);
      }
      var concat := MultiHeadForward(heads, dictSize);
      if concat.Err? {
        return Err(concat.error);
      }
      var rows := concat.value;
      SelectionReshapeFailure(rows, 2 * dictSize, idx2tripl);
      r := SelectTriplets(rows, 2 * dictSize, idx2tripl);
      if r.Ok? {
        assert forall b :: 0 <= b < |heads| ==> r.value.classOut[b] == Pairs(rows[b]);
      }
    }
  }
}
