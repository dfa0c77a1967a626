/** The `__main__` block of eval.py: it turns the predicted token lists into
    sentences and gathers the reference captions of the UCM description
    file, one list per image id, before both go to the BLEU scorer.

    The JSON file of predictions is given as a dict value, and the
    description file as the sequence of lines `readlines()` returns (each
    line still ends with its newline, except perhaps the last). */
module References {
  import opened PyStrings
  import opened Vocab

  // ---------------------------------------------------------------------
  // Predictions

  /** The sentence BLEU compares: the tokens joined by single spaces. */
  function Sentence(tokens: seq<Token>): (sentence: string)
    ensures |tokens| >= 1 && (forall i :: 0 <= i < |tokens| ==> ' ' !in tokens[i]) ==>
              Split(sentence, ' ') == tokens
  {
    if |tokens| >= 1 && (forall i :: 0 <= i < |tokens| ==> ' ' !in tokens[i]) then
      JoinSplit(tokens, ' ');
      Join(tokens, " ")
    else Join(tokens, " ")
  }

  /** `for key, value in predictions.items(): predictions[key] = [' '.join(value)]`:
      every entry becomes a one-element list holding its sentence, and the
      keys stay the same. */
  method JoinPredictions(predictions: map<Id, seq<Token>>) returns (joined: map<Id, seq<string>>)
    ensures joined.Keys == predictions.Keys
    ensures forall key :: key in joined ==> joined[key] == [Sentence(predictions[key])]
  {
    joined := map[];
    var todo := predictions.Keys;
    while todo != {}
      invariant todo <= predictions.Keys
      invariant joined.Keys == predictions.Keys - todo
      invariant forall key :: key in joined ==> joined[key] == [Sentence(predictions[key])]
      decreases |todo|
    {
      var key :| key in todo;
      joined := joined[key := [Sentence(predictions[key])]];
      todo := todo - {key};
    }
  }

  /** Splitting a sentence on spaces gives the predicted tokens back, when
      there is at least one token and none contains a space. */
  lemma SentenceSplitsBack(predictions: map<Id, seq<Token>>, joined: map<Id, seq<string>>, key: Id)
    requires joined.Keys == predictions.Keys
    requires forall k :: k in joined ==> joined[k] == [Sentence(predictions[k])]
    requires key in predictions && |predictions[key]| >= 1
    requires forall i :: 0 <= i < |predictions[key]| ==> ' ' !in predictions[key][i]
    ensures |joined[key]| == 1 && Split(joined[key][0], ' ') == predictions[key]
  {
    JoinSplit(predictions[key], ' ');
  }

  // ---------------------------------------------------------------------
  // References

  /** `line.split(' ')[0]`: the image id. */
  function LineId(line: string): (id: Id)
    ensures id == line[..FirstIndex(line, ' ')] && ' ' !in id
  {
    SplitFirst(line, ' ');
    Split(line, ' ')[0]
  }

  /** `' '.join(pieces[1:]).strip()`: the reference caption. */
  function LineReference(line: string): (ref: string)
    ensures ref == Strip(AfterFirst(line, ' '))
  {
    SplitFirst(line, ' ');
    Strip(Join(Split(line, ' ')[1..], " "))
  }

  /** The id is the text in front of the first space, and the reference is
      the text after it with the surrounding whitespace (the newline
      included) removed; a line without a space has an empty reference. */
  lemma LineParts(line: string)
    ensures LineId(line) == line[..FirstIndex(line, ' ')]
    ensures LineReference(line) == Strip(AfterFirst(line, ' '))
    ensures ' ' !in line ==> LineId(line) == line && LineReference(line) == ""
  {
    SplitFirst(line, ' ');
    assert ' ' !in line ==> FirstIndex(line, ' ') == |line|;
  }

  /** One accumulation step: the first reference of an id creates its list
      (the `except` branch), later ones are appended, and no other id's
      list changes. */
  function AddReference(refs: map<Id, seq<string>>, id: Id, ref: string): (next: map<Id, seq<string>>)
    ensures next.Keys == refs.Keys + {id}
    ensures next[id] == (if id in refs then refs[id] else []) + [ref]
    ensures forall other :: other in refs && other != id ==> next[other] == refs[other]
  {
    if id in refs then refs[id := refs[id] + [ref]] else refs[id := [ref]]
  }

  /** `ground_truth_captions` after the first `n` lines. */
  function ReferencesOf(lines: seq<string>, predicted: set<Id>): map<Id, seq<string>> {
    if lines == [] then map[]
    else
      var refs := ReferencesOf(lines[..|lines| - 1], predicted);
      var line := lines[|lines| - 1];
      if LineId(line) in predicted then AddReference(refs, LineId(line), LineReference(line)) else refs
  }

  /** Reading one more line. */
  lemma ReferencesStep(lines: seq<string>, predicted: set<Id>, n: nat)
    requires n < |lines|
    ensures ReferencesOf(lines[..n + 1], predicted) ==
      if LineId(lines[n]) in predicted
      then AddReference(ReferencesOf(lines[..n], predicted), LineId(lines[n]), LineReference(lines[n]))
      else ReferencesOf(lines[..n], predicted)
  {
    var pre := lines[..n + 1];
    assert pre[..|pre| - 1] == lines[..n];
    assert pre[|pre| - 1] == lines[n];
  }

  /** The loop over `file.readlines()`; lines whose id has no prediction are
      skipped. */
  method ParseReferences(lines: seq<string>, predicted: set<Id>) returns (refs: map<Id, seq<string>>)
    ensures refs == ReferencesOf(lines, predicted)
  {
    refs := map[];
    for n := 0 to |lines|
      invariant refs == ReferencesOf(lines[..n], predicted)
    {
      ReferencesStep(lines, predicted, n);
      var pieces := Split(lines[n], ' ');
      if pieces[0] in predicted {
        var ref := Strip(Join(pieces[1..], " "));
        if pieces[0] in refs {
          refs := refs[pieces[0] := refs[pieces[0]] + [ref]];
        } else {
          refs := refs[pieces[0] := [ref]];
        }
      }
    }
    assert lines[..|lines|] == lines;
  }

  /** The references of `id`, in file order. */
  function ReferencesFor(lines: seq<string>, id: Id): seq<string> {
    if lines == [] then []
    else
      var line := lines[|lines| - 1];
      ReferencesFor(lines[..|lines| - 1], id) + (if LineId(line) == id then [LineReference(line)] else [])
  }

  /** Some line of the file carries `id`. */
  predicate Occurs(lines: seq<string>, id: Id) {
    exists i :: 0 <= i < |lines| && LineId(lines[i]) == id
  }

  lemma OccursSnoc(lines: seq<string>, id: Id)
    requires lines != []
    ensures Occurs(lines, id) <==> Occurs(lines[..|lines| - 1], id) || LineId(lines[|lines| - 1]) == id
  {
    var n := |lines| - 1;
    if Occurs(lines, id) {
      var i :| 0 <= i < |lines| && LineId(lines[i]) == id;
      if i < n {
        assert LineId(lines[..n][i]) == id;
      }
    }
    if Occurs(lines[..n], id) {
      var i :| 0 <= i < n && LineId(lines[..n][i]) == id;
      assert LineId(lines[i]) == id;
    }
  }

  /** The result holds exactly the predicted ids that occur in the file. */
  lemma {:induction false} ReferencedIds(lines: seq<string>, predicted: set<Id>, id: Id)
    ensures id in ReferencesOf(lines, predicted) <==> id in predicted && Occurs(lines, id)
  {
    if lines != [] {
      var n := |lines| - 1;
      ReferencedIds(lines[..n], predicted, id);
      OccursSnoc(lines, id);
      ReferencesStep(lines, predicted, n);
      assert lines[..n + 1] == lines;
    }
  }

  /** Each id of the result maps to the non-empty list of the references of
      its lines, in file order. */
  lemma {:induction false} ReferencesInFileOrder(lines: seq<string>, predicted: set<Id>, id: Id)
    requires id in ReferencesOf(lines, predicted)
    ensures ReferencesOf(lines, predicted)[id] == ReferencesFor(lines, id) != []
  {
    var n := |lines| - 1;
    var init, line := lines[..n], lines[n];
    ReferencesStep(lines, predicted, n);
    assert lines[..n + 1] == lines;
    var before := ReferencesOf(init, predicted);
    var found := if LineId(line) == id then [LineReference(line)] else [];
    assert ReferencesFor(lines, id) == ReferencesFor(init, id) + found;
    ReferencedIds(init, predicted, id);
    if id in before {
      ReferencesInFileOrder(init, predicted, id);
    } else {
      NoReferencesFor(init, id);
    }
    if LineId(line) in predicted {
      var after := AddReference(before, LineId(line), LineReference(line));
      assert ReferencesOf(lines, predicted) == after;
      assert after[id] == (if id in before then before[id] else []) + found;
    } else {
      assert ReferencesOf(lines, predicted) == before;
    }
  }

  /** An id that occurs on no line has no references. */
  lemma {:induction false} NoReferencesFor(lines: seq<string>, id: Id)
    requires !Occurs(lines, id)
    ensures ReferencesFor(lines, id) == []
  {
    if lines != [] {
      var n := |lines| - 1;
      OccursSnoc(lines, id);
      NoReferencesFor(lines[..n], id);
    }
  }
}
