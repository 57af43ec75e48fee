/**
 * The match engine all three game modules share: the `matched` set, one pending
 * selection per column, the `correct` / `wrong` counters and the append-only
 * `history`. An attempt is handled in two steps, as the source does: `Evaluate`
 * records it at once, and the `setTimeout` callback it schedules is the separate
 * `Settle` step. Nothing ties a pending settle to the round it came from.
 */
module Engine {
  import opened Wrappers
  import opened Vocab

  /**
   * One record of `state.history`, without its timestamp and without the mode
   * tag that only the history display reads.
   */
  datatype Attempt =
    | Paired(promptId: Id, nameId: Id, correct: bool)            // evaluateMatch
    | Clicked(nameId: Id, expected: Option<Id>, correct: bool)   // evaluateSequenceClick
    | Typed(typedChar: string, expectedId: Id, correct: bool)    // handleKeydown

  /** The number of correct attempts in a history: at most its length. */
  function CountCorrect(h: seq<Attempt>): (n: nat)
    ensures n <= |h|
  {
    if h == [] then 0 else CountCorrect(h[..|h| - 1]) + (if h[|h| - 1].correct then 1 else 0)
  }

  /**
   * The count is zero exactly when no record is correct, and the whole length
   * exactly when every record is, so `correct` and `wrong` tally the verdicts.
   */
  lemma {:induction false} CountCorrectExtremes(h: seq<Attempt>)
    ensures CountCorrect(h) == 0 <==> forall i :: 0 <= i < |h| ==> !h[i].correct
    ensures CountCorrect(h) == |h| <==> forall i :: 0 <= i < |h| ==> h[i].correct
  {
    if h != [] {
      var init := h[..|h| - 1];
      CountCorrectExtremes(init);
      assert forall i :: 0 <= i < |init| ==> init[i] == h[i];
    }
  }

  /** What the deferred callback of a match attempt captured: the prompt id and the verdict. */
  datatype Pending = Pending(id: Id, correct: bool)

  /** JavaScript truthiness of a selection: `null` and the empty id are false, every other id is true. */
  predicate Truthy(sel: Option<Id>)
    ensures Truthy(sel) <==> sel != None && sel != Some("")
  {
    sel.Some? && sel.value != ""
  }

  /** `sel === id ? null : id`: clicking the selected id clears it, any other id replaces it. */
  function Toggle(sel: Option<Id>, id: Id): (r: Option<Id>)
    ensures r.None? <==> sel == Some(id)
    ensures r.Some? ==> r.value == id
  {
    if sel == Some(id) then None else Some(id)
  }

  /**
   * The effect of a click on prompt `id`, as the prompt click handlers have it:
   * a matched `id` changes nothing; otherwise the prompt selection toggles, and
   * when both selections are then set the attempt is evaluated (`p` is its
   * pending settle). `matched` and the name selection never change here.
   */
  twostate predicate PromptClicked(e: MatchEngine, id: Id, new p: Option<Pending>)
    reads e
  {
    && e.matched == old(e.matched) && e.selectedName == old(e.selectedName)
    && e.selectedPrompt == (if id in old(e.matched) then old(e.selectedPrompt) else Toggle(old(e.selectedPrompt), id))
    && (p.Some? <==> id !in old(e.matched) && Truthy(e.selectedPrompt) && Truthy(e.selectedName))
    && (p.None? ==> e.history == old(e.history) && e.correct == old(e.correct) && e.wrong == old(e.wrong))
    && (p.Some? ==> Evaluated(e, id, e.selectedName.value, p.value))
  }

  /** The effect of a click on name `id`: the mirror image of `PromptClicked`. */
  twostate predicate NameClicked(e: MatchEngine, id: Id, new p: Option<Pending>)
    reads e
  {
    && e.matched == old(e.matched) && e.selectedPrompt == old(e.selectedPrompt)
    && e.selectedName == (if id in old(e.matched) then old(e.selectedName) else Toggle(old(e.selectedName), id))
    && (p.Some? <==> id !in old(e.matched) && Truthy(e.selectedPrompt) && Truthy(e.selectedName))
    && (p.None? ==> e.history == old(e.history) && e.correct == old(e.correct) && e.wrong == old(e.wrong))
    && (p.Some? ==> Evaluated(e, e.selectedPrompt.value, id, p.value))
  }

  /**
   * The immediate step of an attempt pairing prompt `lid` with name `nid`: it is
   * correct exactly when the ids are equal, exactly one record is appended and
   * exactly one counter is bumped.
   */
  twostate predicate Evaluated(e: MatchEngine, lid: Id, nid: Id, p: Pending)
    reads e
  {
    && p == Pending(lid, lid == nid)
    && e.history == old(e.history) + [Paired(lid, nid, lid == nid)]
    && e.correct == old(e.correct) + (if lid == nid then 1 else 0)
    && e.wrong == old(e.wrong) + (if lid == nid then 0 else 1)
  }

  /**
   * The deferred step: a correct attempt adds its prompt id to `matched`, a wrong
   * one leaves it alone; both selections are cleared; the score is untouched.
   */
  twostate predicate Settled(e: MatchEngine, p: Pending)
    reads e
  {
    && e.matched == (if p.correct then old(e.matched) + {p.id} else old(e.matched))
    && e.selectedPrompt == None && e.selectedName == None
    && e.history == old(e.history) && e.correct == old(e.correct) && e.wrong == old(e.wrong)
  }

  class MatchEngine {
    var matched: set<Id>
    var selectedPrompt: Option<Id>   // selectedLetter / selectedColor / selectedIcon
    var selectedName: Option<Id>
    var correct: nat
    var wrong: nat
    var history: seq<Attempt>

    /** The score is the tally of the history: every record bumped exactly one counter. */
    ghost predicate Valid()
      reads this
    {
      correct == CountCorrect(history) && correct + wrong == |history|
    }

    /** The initial `state`: nothing matched, nothing selected, no score, no history. */
    constructor ()
      ensures Valid()
      ensures matched == {} && selectedPrompt == None && selectedName == None
      ensures correct == 0 && wrong == 0 && history == []
    {
      matched, selectedPrompt, selectedName := {}, None, None;
      correct, wrong, history := 0, 0, [];
    }

    /** `state.history.push(a)` and the counter bump that goes with it. */
    method Record(a: Attempt)
      requires Valid()
      modifies this
      ensures Valid()
      ensures history == old(history) + [a]
      ensures correct == old(correct) + (if a.correct then 1 else 0)
      ensures wrong == old(wrong) + (if a.correct then 0 else 1)
      ensures matched == old(matched)
      ensures selectedPrompt == old(selectedPrompt) && selectedName == old(selectedName)
    {
      assert (history + [a])[..|history|] == history;
      history := history + [a];
      if a.correct {
        correct := correct + 1;
      } else {
        wrong := wrong + 1;
      }
    }

    /**
     * The immediate step of `evaluateMatch`: the attempt is correct exactly when
     * both columns hold the same id; one record is appended and one counter
     * bumped. The returned value is what the deferred callback will apply.
     */
    method Evaluate() returns (p: Pending)
      requires Valid()
      requires selectedPrompt.Some? && selectedName.Some?
      modifies this
      ensures Valid()
      ensures p.id == old(selectedPrompt).value
      ensures p.correct <==> old(selectedPrompt) == old(selectedName)
      ensures history == old(history) + [Paired(p.id, old(selectedName).value, p.correct)]
      ensures correct == old(correct) + (if p.correct then 1 else 0)
      ensures wrong == old(wrong) + (if p.correct then 0 else 1)
      ensures matched == old(matched)
      ensures selectedPrompt == old(selectedPrompt) && selectedName == old(selectedName)
    {
      var lid, nid := selectedPrompt.value, selectedName.value;
      var isCorrect := lid == nid;
      Record(Paired(lid, nid, isCorrect));
      p := Pending(lid, isCorrect);
    }

    /**
     * The deferred step: a correct attempt adds its prompt id to `matched`; every
     * attempt clears both selections. It applies to whatever state is current.
     */
    method Settle(p: Pending)
      requires Valid()
      modifies this
      ensures Valid()
      ensures Settled(this, p)
    {
      if p.correct {
        matched := matched + {p.id};
      }
      selectedPrompt, selectedName := None, None;
    }

    /**
     * A click on prompt `id`: ignored when `id` is matched; otherwise the prompt
     * selection toggles, and the attempt is evaluated when both selections are set.
     */
    method ClickPrompt(id: Id) returns (p: Option<Pending>)
      requires Valid()
      modifies this
      ensures Valid()
      ensures PromptClicked(this, id, p)
    {
      p := None;
      if id in matched {
        return;
      }
      selectedPrompt := Toggle(selectedPrompt, id);
      if Truthy(selectedPrompt) && Truthy(selectedName) {
        var pending := Evaluate();
        p := Some(pending);
      }
    }

    /**
     * A click on name `id`: ignored when `id` is matched; otherwise the name
     * selection toggles, and the attempt is evaluated when both selections are set.
     */
    method ClickName(id: Id) returns (p: Option<Pending>)
      requires Valid()
      modifies this
      ensures Valid()
      ensures NameClicked(this, id, p)
    {
      p := None;
      if id in matched {
        return;
      }
      selectedName := Toggle(selectedName, id);
      if Truthy(selectedPrompt) && Truthy(selectedName) {
        var pending := Evaluate();
        p := Some(pending);
      }
    }

    /** Both selections set to `null`, as the letters shuffle button does. */
    method ClearSelections()
      requires Valid()
      modifies this
      ensures Valid()
      ensures selectedPrompt == None && selectedName == None
      ensures matched == old(matched) && history == old(history)
      ensures correct == old(correct) && wrong == old(wrong)
    {
      selectedPrompt, selectedName := None, None;
    }

    /** The round reset: `matched.clear()`, selections `null`, counters 0, history empty. */
    method Reset()
      modifies this
      ensures Valid()
      ensures matched == {} && selectedPrompt == None && selectedName == None
      ensures correct == 0 && wrong == 0 && history == []
    {
      matched, selectedPrompt, selectedName := {}, None, None;
      correct, wrong, history := 0, 0, [];
    }
  }
}
