/**
 * The letters game: the fixed letter list in kid order, the five modes, the
 * match engine for the two match modes and the sequence cursor (`seqIndex`,
 * `seqDone`) for the three sequence modes.
 */
module Letters {
  import opened Wrappers
  import opened Seqs
  import opened Vocab
  import opened RandomOrder
  import opened Engine
  import opened EditedData

  datatype Mode = OrderedMatch | ShuffledMatch | SequenceNames | SequenceChars | SequenceKeyboard

  /** `isSequenceMode`: the three sequence modes, that is every mode but the two match modes. */
  predicate IsSequenceMode(m: Mode)
    ensures IsSequenceMode(m) <==> m != OrderedMatch && m != ShuffledMatch
  {
    m.SequenceNames? || m.SequenceChars? || m.SequenceKeyboard?
  }

  /** The five final letter forms and the base letter each one is typed as. */
  const FinalToBase: map<char, char> := map['ך' := 'כ', 'ם' := 'מ', 'ן' := 'נ', 'ף' := 'פ', 'ץ' := 'צ']

  /** A typed character after folding final forms: never a final form, and anything else unchanged. */
  function Normalise(c: char): (r: char)
    ensures r !in FinalToBase
    ensures c !in FinalToBase ==> r == c
    ensures c in FinalToBase ==> r == FinalToBase[c]
  {
    if c in FinalToBase then FinalToBase[c] else c
  }

  /** Folding is idempotent: typing the base form and the final form lands on the same letter. */
  lemma NormaliseIdempotent(c: char)
    ensures Normalise(Normalise(c)) == Normalise(c)
  {
    assert Normalise(c) !in FinalToBase;
  }

  /**
   * What the letters editor reports for an edit saved in `mode`: the verdict of
   * `AcceptLetters`, except that an accepted empty list in a sequence mode is
   * reported as invalid JSON. The new round is set up first; rendering the
   * "next" pill then reads a letter that is not there, and the handler's
   * `catch` reports the exception.
   */
  function SaveOutcome(e: Edited<Item>, mode: Mode): (r: Result<seq<Item>, EditError>)
    ensures r.Success? <==> e.Array? && (e.elements != [] || !IsSequenceMode(mode))
    ensures r.Success? ==> r.value == e.elements
    ensures r.Failure? ==> (r.error == InvalidJson <==> e.Unparsable? || (e.Array? && IsSequenceMode(mode)))
  {
    match AcceptLetters(e)
    case Failure(err) => Failure(err)
    case Success(ls) => if ls == [] && IsSequenceMode(mode) then Failure(InvalidJson) else Success(ls)
  }

  /** A settle the letters game schedules: a match attempt, or one step of a sequence. */
  datatype LetterPending = Match(p: Pending) | Advance(id: Id)

  /** Marking the element at the cursor done extends the done prefix by one. */
  lemma DoneStep(order: seq<Id>, i: nat, done: set<Id>)
    requires i < |order| && done == Elems(order[..i])
    ensures done + {order[i]} == Elems(order[..i + 1])
  {
    assert order[..i + 1] == order[..i] + [order[i]];
  }

  class LettersGame {
    const engine: MatchEngine
    var mode: Mode
    var letters: seq<Item>
    var kidOrder: seq<Id>
    var byId: map<Id, Item>
    var letterOrder: seq<Id>
    var shuffledNameIds: seq<Id>
    var seqIndex: nat
    var seqDone: set<Id>

    /** The ids the name column should show: those not done (sequence modes) or not matched. */
    function Available(): (r: seq<Id>)
      reads this`mode, this`kidOrder, this`seqDone, engine`matched
      ensures |r| <= |kidOrder|
    {
      if IsSequenceMode(mode) then Drop(kidOrder, seqDone) else Drop(kidOrder, engine.matched)
    }

    /**
     * `renderRemaining`: letters left by the sequence cursor or by the matched set.
     * With unique ids it is the number of ids still available, provided the done
     * letters are exactly those before the cursor (sequence modes) or every
     * matched id is a letter (match modes).
     */
    function Remaining(): (r: int)
      reads this`mode, this`letters, this`kidOrder, this`seqIndex, this`seqDone, engine`matched
      ensures |kidOrder| == |letters| && Distinct(kidOrder) && IsSequenceMode(mode) && InOrder() ==>
                r == |Available()|
      ensures |kidOrder| == |letters| && Distinct(kidOrder) && !IsSequenceMode(mode) && engine.matched <= Elems(kidOrder) ==>
                r == |Available()|
    {
      if IsSequenceMode(mode) then
        DoneCount();
        |letters| - seqIndex
      else
        DropLength(kidOrder, engine.matched);
        |letters| - |engine.matched|
    }

    /** With unique ids and the done letters exactly those before the cursor, the rest are the letters from it on. */
    lemma DoneCount()
      ensures Distinct(kidOrder) && InOrder() ==> |Drop(kidOrder, seqDone)| == |kidOrder| - seqIndex
    {
      if Distinct(kidOrder) && InOrder() {
        DropPrefix(kidOrder, seqIndex);
      }
    }

    /** `KID_ORDER[state.seqIndex]`: the next id of the sequence, or none past its end. */
    function Expected(): (r: Option<Id>)
      reads this`seqIndex, this`kidOrder
      ensures r.Some? <==> seqIndex < |kidOrder|
      ensures r.Some? ==> r.value == kidOrder[seqIndex]
    {
      if seqIndex < |kidOrder| then Some(kidOrder[seqIndex]) else None
    }

    /** The tables derived from the letter list, and the letter column's order for the mode. */
    ghost predicate Tables()
      reads this`letters, this`kidOrder, this`byId, this`letterOrder, this`mode
    {
      && kidOrder == Ids(letters)
      && byId == IndexById(letters)
      && byId.Keys == Elems(kidOrder)
      && multiset(letterOrder) == multiset(kidOrder)
      && (mode != ShuffledMatch ==> letterOrder == kidOrder)
    }

    /** The engine's invariant, and a name column without repeats when ids are unique. */
    ghost predicate Column()
      reads this`kidOrder, this`shuffledNameIds, engine
    {
      engine.Valid() && (Distinct(kidOrder) ==> Distinct(shuffledNameIds))
    }

    /** The tables and the name column. */
    ghost predicate Coherent()
      reads this`letters, this`kidOrder, this`byId, this`letterOrder, this`mode, this`shuffledNameIds, engine
    {
      Tables() && Column()
    }

    /** After every handler: when ids are unique, the name column is a permutation of the available ids. */
    ghost predicate Valid()
      reads this`letters, this`kidOrder, this`byId, this`letterOrder, this`mode, this`shuffledNameIds
      reads this`seqDone, engine
    {
      && Coherent()
      && (Distinct(kidOrder) ==> multiset(shuffledNameIds) == multiset(Available()))
    }

    /** The sequence discipline: exactly the first `seqIndex` letters are done, each of them once. */
    ghost predicate InOrder()
      reads this`seqIndex, this`kidOrder, this`seqDone
    {
      seqIndex <= |kidOrder| && seqDone == Elems(kidOrder[..seqIndex])
    }

    /** The state `resetRound` leaves: nothing matched, selected, scored, recorded or done. */
    ghost predicate RoundReset()
      reads this, engine
    {
      && engine.matched == {} && engine.selectedPrompt == None && engine.selectedName == None
      && engine.correct == 0 && engine.wrong == 0 && engine.history == []
      && seqIndex == 0 && seqDone == {}
      && multiset(shuffledNameIds) == multiset(kidOrder)
    }

    /** The data-load callback: `setLetters`, then `initializeGame` shuffles the names and renders. */
    constructor (data: seq<Item>)
      ensures Valid() && InOrder() && fresh(engine)
      ensures mode == OrderedMatch
      ensures letters == data && kidOrder == Ids(data) && byId == IndexById(data)
      ensures letterOrder == kidOrder
      ensures RoundReset()
    {
      engine := new MatchEngine();
      mode := OrderedMatch;
      letters, kidOrder, byId, letterOrder, shuffledNameIds := [], [], map[], [], [];
      seqIndex, seqDone := 0, {};
      new;
      SetLetters(data);
      InitializeGame();
    }

    /** `initializeGame` on a fresh state: shuffle every id into the name column and render. */
    method InitializeGame()
      requires Coherent() && seqIndex == 0 && seqDone == {} && engine.matched == {}
      modifies this`shuffledNameIds
      ensures Valid() && InOrder()
      ensures multiset(shuffledNameIds) == multiset(kidOrder)
    {
      ShuffleNames();
      NothingExcluded();
      RenderStable();
      AtStart();
    }

    /** `state.shuffledNameIds = shuffle(KID_ORDER)`: a permutation of every id. */
    method ShuffleNames()
      requires engine.Valid()
      modifies this`shuffledNameIds
      ensures Column()
      ensures multiset(shuffledNameIds) == multiset(kidOrder)
    {
      shuffledNameIds := Shuffle(kidOrder);
      if Distinct(kidOrder) {
        DistinctPermutation(kidOrder, shuffledNameIds);
      }
    }

    /** `setLetters`: the letter list and the tables derived from it; the mode and the cursor stay. */
    method SetLetters(data: seq<Item>)
      requires engine.Valid()
      modifies this
      ensures Coherent()
      ensures letters == data && kidOrder == Ids(data) && byId == IndexById(data)
      ensures letterOrder == kidOrder
      ensures multiset(shuffledNameIds) == multiset(kidOrder)
      ensures mode == old(mode) && seqIndex == old(seqIndex) && seqDone == old(seqDone)
    {
      letters := data;
      kidOrder := Ids(data);
      byId := IndexById(data);
      IndexByIdKeys(data);
      letterOrder := kidOrder;
      shuffledNameIds := Shuffle(kidOrder);
      if Distinct(kidOrder) {
        DistinctPermutation(kidOrder, shuffledNameIds);
      }
    }

    /** The reconciliation in `renderNames`, against the ids the current mode leaves available. */
    method RenderNames()
      requires Coherent()
      modifies this`shuffledNameIds
      ensures Valid()
      ensures Reconciled(old(shuffledNameIds), Available(), shuffledNameIds)
    {
      if Distinct(kidOrder) {
        DropDistinct(kidOrder, seqDone);
        DropDistinct(kidOrder, engine.matched);
      }
      shuffledNameIds := ReconcileNames(shuffledNameIds, Available());
    }

    /**
     * `renderNames` on a column that already is a permutation of the available
     * ids: the reconciliation leaves it as it is.
     */
    method RenderStable()
      requires Coherent() && multiset(shuffledNameIds) == multiset(Available())
      modifies this`shuffledNameIds
      ensures Valid()
      ensures shuffledNameIds == old(shuffledNameIds)
    {
      ghost var before := shuffledNameIds;
      RenderNames();
      ReconcileStable(before, Available(), shuffledNameIds);
    }

    /** A click on a letter tile; the letter grid is only rendered in the match modes. */
    method ClickLetter(id: Id) returns (p: Option<Pending>)
      requires Valid() && !IsSequenceMode(mode)
      modifies engine
      ensures Valid()
      ensures PromptClicked(engine, id, p)
    {
      p := engine.ClickPrompt(id);
    }

    /** A click on a name tile in a match mode; without an evaluation the name column re-renders. */
    method ClickName(id: Id) returns (p: Option<Pending>)
      requires Valid() && !IsSequenceMode(mode)
      modifies this`shuffledNameIds, engine
      ensures Valid()
      ensures NameClicked(engine, id, p)
      ensures Distinct(kidOrder) ==> shuffledNameIds == old(shuffledNameIds)
      ensures shuffledNameIds == old(shuffledNameIds)
              || Reconciled(old(shuffledNameIds), Available(), shuffledNameIds)
    {
      var wasMatched := id in engine.matched;
      p := engine.ClickName(id);
      if !wasMatched && p.None? {
        ghost var before := shuffledNameIds;
        RenderNames();
        if Distinct(kidOrder) {
          ReconcileStable(before, Available(), shuffledNameIds);
        }
      }
    }

    /** A click on a tile in a sequence mode: done tiles ignore it, any other is evaluated. */
    method ClickSequenceName(id: Id) returns (p: Option<LetterPending>)
      requires Valid() && IsSequenceMode(mode)
      modifies engine
      ensures Valid()
      ensures id in seqDone ==> p.None? && engine.history == old(engine.history)
                                && engine.correct == old(engine.correct) && engine.wrong == old(engine.wrong)
      ensures engine.matched == old(engine.matched)
      ensures engine.selectedPrompt == old(engine.selectedPrompt) && engine.selectedName == old(engine.selectedName)
      ensures id !in seqDone ==>
                engine.history == old(engine.history) + [Clicked(id, Expected(), Expected() == Some(id))]
      ensures p.Some? <==> id !in seqDone && Expected() == Some(id)
      ensures p.Some? ==> p.value == Advance(id)
    {
      if id in seqDone {
        p := None;
      } else {
        p := EvaluateSequenceClick(id);
      }
    }

    /**
     * `evaluateSequenceClick`: record the click against the next id of the
     * sequence and score it; a correct click schedules the step forward.
     */
    method EvaluateSequenceClick(nid: Id) returns (p: Option<LetterPending>)
      requires Valid()
      modifies engine
      ensures Valid()
      ensures engine.history == old(engine.history) + [Clicked(nid, Expected(), Expected() == Some(nid))]
      ensures p.Some? <==> Expected() == Some(nid)
      ensures p.Some? ==> p.value == Advance(nid)
      ensures engine.correct == old(engine.correct) + (if p.Some? then 1 else 0)
      ensures engine.wrong == old(engine.wrong) + (if p.Some? then 0 else 1)
      ensures engine.matched == old(engine.matched)
      ensures engine.selectedPrompt == old(engine.selectedPrompt) && engine.selectedName == old(engine.selectedName)
    {
      var expected := Expected();
      var isCorrect := expected == Some(nid);
      engine.Record(Clicked(nid, expected, isCorrect));
      p := if isCorrect then Some(Advance(nid)) else None;
    }

    /**
     * `handleKeydown`: only a one-character key in typing mode counts, and only
     * while letters remain (past the end the lookup of the expected letter
     * fails before anything is recorded). The key is folded from a final form
     * and compared with the expected letter's character.
     */
    method HandleKeydown(key: string) returns (p: Option<LetterPending>)
      requires Valid()
      modifies engine
      ensures Valid()
      ensures mode != SequenceKeyboard || |key| != 1 || seqIndex >= |kidOrder| ==>
                p.None? && engine.history == old(engine.history)
                && engine.correct == old(engine.correct) && engine.wrong == old(engine.wrong)
      ensures mode == SequenceKeyboard && |key| == 1 && seqIndex < |kidOrder| ==>
                var ch := Normalise(key[0]);
                var expectedId := kidOrder[seqIndex];
                var isCorrect := [ch] == byId[expectedId].prompt;
                && engine.history == old(engine.history) + [Typed([ch], expectedId, isCorrect)]
                && engine.correct == old(engine.correct) + (if isCorrect then 1 else 0)
                && engine.wrong == old(engine.wrong) + (if isCorrect then 0 else 1)
                && p == (if isCorrect then Some(Advance(expectedId)) else None)
      ensures engine.matched == old(engine.matched)
      ensures engine.selectedPrompt == old(engine.selectedPrompt) && engine.selectedName == old(engine.selectedName)
    {
      if mode != SequenceKeyboard || |key| != 1 || seqIndex >= |kidOrder| {
        p := None;
        return;
      }
      var ch := Normalise(key[0]);
      var expectedId := kidOrder[seqIndex];
      var isCorrect := [ch] == byId[expectedId].prompt;
      engine.Record(Typed([ch], expectedId, isCorrect));
      p := if isCorrect then Some(Advance(expectedId)) else None;
    }

    /** The deferred callback of a match attempt: settle it in the engine, then render. */
    method SettleMatch(p: Pending)
      requires Valid()
      modifies this`shuffledNameIds, engine
      ensures Valid()
      ensures Settled(engine, p)
      ensures Reconciled(old(shuffledNameIds), Available(), shuffledNameIds)
    {
      engine.Settle(p);
      RenderNames();
    }

    /**
     * The deferred callback of a correct sequence step: mark `id` done, move the
     * cursor on and render. When `id` was the expected letter the sequence
     * discipline holds afterwards: no letter is done twice and none is skipped.
     */
    method SettleAdvance(id: Id)
      requires Valid()
      modifies this`seqIndex, this`seqDone, this`shuffledNameIds
      ensures Valid()
      ensures seqDone == old(seqDone) + {id} && seqIndex == old(seqIndex) + 1
      ensures old(InOrder()) && old(Expected()) == Some(id) ==> InOrder()
      ensures Reconciled(old(shuffledNameIds), Available(), shuffledNameIds)
    {
      ghost var wasInOrder := InOrder() && Expected() == Some(id);
      ghost var before := seqDone;
      seqDone := seqDone + {id};
      seqIndex := seqIndex + 1;
      if wasInOrder {
        AdvancedInOrder(before, id);
      }
      RenderNames();
    }

    /** The settle a pending attempt schedules. */
    method Settle(q: LetterPending)
      requires Valid()
      modifies this`seqIndex, this`seqDone, this`shuffledNameIds, engine
      ensures Valid()
      ensures q.Match? ==> Settled(engine, q.p) && seqIndex == old(seqIndex) && seqDone == old(seqDone)
      ensures q.Advance? ==> seqDone == old(seqDone) + {q.id} && seqIndex == old(seqIndex) + 1
      ensures q.Advance? ==> unchanged(engine)
      ensures q.Advance? && old(InOrder()) && old(Expected()) == Some(q.id) ==> InOrder()
      ensures Reconciled(old(shuffledNameIds), Available(), shuffledNameIds)
    {
      match q {
        case Match(p) => SettleMatch(p);
        case Advance(id) => SettleAdvance(id);
      }
    }

    /** `setMode`: the letter column is reshuffled for shuffled match and reset otherwise, then a new round. */
    method SetMode(m: Mode)
      requires Valid()
      modifies this, engine
      ensures Valid() && InOrder() && RoundReset()
      ensures mode == m
      ensures m == ShuffledMatch ==> multiset(letterOrder) == multiset(kidOrder)
      ensures m != ShuffledMatch ==> letterOrder == kidOrder
      ensures letters == old(letters) && kidOrder == old(kidOrder) && byId == old(byId)
    {
      mode := m;
      if m == ShuffledMatch {
        letterOrder := Shuffle(kidOrder);
      } else {
        letterOrder := kidOrder;
      }
      ResetRound();
    }

    /** `resetRound`: clear the engine and the cursor, shuffle every id into the name column, render. */
    method ResetRound()
      requires Coherent()
      modifies this`seqIndex, this`seqDone, this`shuffledNameIds, engine
      ensures Valid() && InOrder() && RoundReset()
    {
      ClearRound();
      RenderStable();
    }

    /** The assignments of `resetRound`, before it renders. */
    method ClearRound()
      modifies this`seqIndex, this`seqDone, this`shuffledNameIds, engine
      ensures Column() && InOrder() && RoundReset()
      ensures multiset(shuffledNameIds) == multiset(Available())
    {
      engine.Reset();
      seqIndex, seqDone := 0, {};
      ShuffleNames();
      NothingExcluded();
      AtStart();
    }

    /** One step past a done prefix, with the step's id added, is again a done prefix. */
    lemma AdvancedInOrder(before: set<Id>, id: Id)
      requires 1 <= seqIndex <= |kidOrder| && kidOrder[seqIndex - 1] == id
      requires before == Elems(kidOrder[..seqIndex - 1]) && seqDone == before + {id}
      ensures InOrder()
    {
      DoneStep(kidOrder, seqIndex - 1, before);
    }

    /** With nothing done and nothing matched, every id is available. */
    lemma NothingExcluded()
      requires seqDone == {} && engine.matched == {}
      ensures Available() == kidOrder
    {
      DropNone(kidOrder);
    }

    /** At the start of the sequence nothing is done. */
    lemma AtStart()
      requires seqIndex == 0 && seqDone == {}
      ensures InOrder()
    {
      assert kidOrder[..0] == [];
    }

    /**
     * The shuffle button: a new letter order in shuffled match, a new name order
     * and no selections; the score, the matched set and the cursor stay.
     */
    method Reshuffle()
      requires Valid()
      modifies this`letterOrder, this`shuffledNameIds, engine
      ensures Valid()
      ensures mode == ShuffledMatch ==> multiset(letterOrder) == multiset(kidOrder)
      ensures mode != ShuffledMatch ==> letterOrder == old(letterOrder)
      ensures forall id :: id in shuffledNameIds <==> id in Available()
      ensures engine.selectedPrompt == None && engine.selectedName == None
      ensures engine.matched == old(engine.matched) && engine.history == old(engine.history)
      ensures engine.correct == old(engine.correct) && engine.wrong == old(engine.wrong)
    {
      if mode == ShuffledMatch {
        letterOrder := Shuffle(kidOrder);
      }
      shuffledNameIds := Shuffle(kidOrder);
      engine.ClearSelections();
      if Distinct(kidOrder) {
        DistinctPermutation(kidOrder, shuffledNameIds);
      }
      ghost var before := shuffledNameIds;
      RenderNames();
      ReconciledElements(before, Available(), shuffledNameIds);
    }

    /**
     * The save button of the letters editor: anything but an array is refused
     * and nothing changes; an array becomes the new letter list and a new round
     * starts in the same mode. What is reported is `SaveOutcome`: an empty list
     * in a sequence mode is set up and then reported as invalid JSON.
     */
    method SaveEditedData(e: Edited<Item>) returns (r: Result<seq<Item>, EditError>)
      requires Valid()
      modifies this, engine
      ensures r == SaveOutcome(e, old(mode))
      ensures !e.Array? ==> unchanged(this) && unchanged(engine)
      ensures e.Array? ==>
                && Valid() && InOrder() && RoundReset()
                && letters == e.elements && kidOrder == Ids(e.elements) && byId == IndexById(e.elements)
                && letterOrder == kidOrder && mode == old(mode)
    {
      var accepted := AcceptLetters(e);
      r := SaveOutcome(e, mode);
      if accepted.Success? {
        SetLetters(accepted.value);
        ResetRound();
      }
    }
  }

  /**
   * In a sequence mode, while the done letters are exactly those before the cursor and the
   * ids are unique, the name column shows exactly the letters from the cursor
   * on and `remaining` counts them.
   */
  lemma SequenceRemaining(g: LettersGame)
    requires g.Valid() && g.InOrder() && IsSequenceMode(g.mode)
    requires Distinct(g.kidOrder)
    ensures g.Available() == g.kidOrder[g.seqIndex..]
    ensures g.Remaining() == |g.shuffledNameIds|
  {
    DropPrefix(g.kidOrder, g.seqIndex);
    assert |g.kidOrder| == |g.letters|;
    assert |g.shuffledNameIds| == |multiset(g.shuffledNameIds)| == |multiset(g.Available())|;
  }

  /** In a match mode `remaining` counts the name tiles shown, when the matched ids are letters of the list. */
  lemma MatchRemaining(g: LettersGame)
    requires g.Valid() && !IsSequenceMode(g.mode)
    requires Distinct(g.kidOrder) && g.engine.matched <= Elems(g.kidOrder)
    ensures g.Remaining() == |g.shuffledNameIds|
  {
    assert |g.kidOrder| == |g.letters|;
    assert |g.shuffledNameIds| == |multiset(g.shuffledNameIds)| == |multiset(g.Available())|;
  }
}
