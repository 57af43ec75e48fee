/**
 * Short runs of the games from start-up, each pinned to the exact state it
 * ends in: a correct and a wrong pair, a sequence miss and hit, a typed final
 * form, an edit, and three interleavings of clicks and pending settles whose
 * outcome a reader might not expect: a re-evaluation, a letter counted twice and
 * a settle that lands in the next round.
 */
module Scenarios {
  import opened Wrappers
  import opened Seqs
  import opened Vocab
  import opened Engine
  import opened EditedData
  import opened Rounds
  import opened Letters
  import Colors

  const A := Item("A", "א", "אלף", "alef")
  const B := Item("B", "ב", "בית", "bet")
  const C := Item("C", "ג", "גימל", "gimel")
  const Kaf := Item("K", "כ", "כף", "kaf")
  const Trio := [Category("all", [A, B, C])]

  /** Start-up on the three-item dataset with a max of 3: every item is in the round. */
  method TrioRound() returns (g: CategoryGame)
    ensures fresh(g) && fresh(g.engine) && g.Valid()
    ensures |g.currentItems| == 3
    ensures g.engine.matched == {} && g.engine.selectedPrompt == None && g.engine.selectedName == None
    ensures g.engine.correct == 0 && g.engine.wrong == 0 && g.engine.history == []
  {
    g := new CategoryGame(Trio, Some(3));
    assert |g.currentItems| == 3 by {
      assert Names(Trio) == ["all"];
      assert FindCategory(Trio, "all") == Some(Trio[0]);
      assert Pool(Trio, ["all"]) == [A, B, C];
    }
  }

  /** Select prompt `lid`, then name `nid`, then let the attempt settle. */
  method PlayPair(g: CategoryGame, lid: Id, nid: Id)
    requires g.Valid() && lid != "" && nid != ""
    requires g.engine.selectedPrompt == None && g.engine.selectedName == None
    requires lid !in g.engine.matched && nid !in g.engine.matched
    modifies g, g.engine
    ensures g.Valid() && g.currentItems == old(g.currentItems)
    ensures g.engine.selectedPrompt == None && g.engine.selectedName == None
    ensures g.engine.matched == old(g.engine.matched) + (if lid == nid then {lid} else {})
    ensures g.engine.history == old(g.engine.history) + [Paired(lid, nid, lid == nid)]
    ensures g.engine.correct == old(g.engine.correct) + (if lid == nid then 1 else 0)
    ensures g.engine.wrong == old(g.engine.wrong) + (if lid == nid then 0 else 1)
  {
    var p := g.ClickPrompt(lid);
    p := g.ClickName(nid);
    g.Settle(p.value);
  }

  /**
   * Three items, a max of 3, every category: the round holds all three;
   * A with A is correct, then B with C is wrong, and after both settles only A
   * is matched and both selections are clear.
   */
  method MatchScenario() returns (size: nat, matched: set<Id>, correct: nat, wrong: nat,
                                  selected: (Option<Id>, Option<Id>), history: seq<Attempt>)
    ensures size == 3
    ensures matched == {"A"} && correct == 1 && wrong == 1
    ensures selected == (None, None)
    ensures history == [Paired("A", "A", true), Paired("B", "C", false)]
  {
    var g := TrioRound();
    PlayPair(g, "A", "A");
    PlayPair(g, "B", "C");
    size := |g.currentItems|;
    matched, correct, wrong := g.engine.matched, g.engine.correct, g.engine.wrong;
    selected := (g.engine.selectedPrompt, g.engine.selectedName);
    history := g.engine.history;
  }

  /**
   * Sequence by names over A, B, C: clicking C first is wrong and records A as
   * expected without moving the cursor; clicking A then advances to 1 with A done.
   */
  method SequenceScenario() returns (index: nat, done: set<Id>, history: seq<Attempt>)
    ensures index == 1 && done == {"A"}
    ensures history == [Clicked("C", Some("A"), false), Clicked("A", Some("A"), true)]
  {
    var g := LettersRound(SequenceNames);
    var id := MissThenHit(g);
    g.SettleAdvance(id);
    index, done, history := g.seqIndex, g.seqDone, g.engine.history;
  }

  /** In a sequence mode with A expected: click C, then A. */
  method MissThenHit(g: LettersGame) returns (id: Id)
    requires g.Valid() && IsSequenceMode(g.mode)
    requires g.Expected() == Some("A") && g.seqDone == {} && g.engine.history == []
    modifies g.engine
    ensures g.Valid() && id == "A"
    ensures g.engine.history == [Clicked("C", Some("A"), false), Clicked("A", Some("A"), true)]
  {
    var p := g.ClickSequenceName("C");
    p := g.ClickSequenceName("A");
    id := p.value.id;
  }

  /** Typing the final form of kaf when kaf is expected counts, and the base form is recorded. */
  method TypingScenario() returns (index: nat, history: seq<Attempt>)
    ensures index == 1
    ensures history == [Typed("כ", "K", true)]
  {
    var g := new LettersGame([Kaf]);
    g.SetMode(SequenceKeyboard);
    assert g.Expected() == Some("K") && g.byId["K"].prompt == "כ" by {
      assert g.kidOrder == Ids([Kaf]);
      assert Ids([Kaf])[0] == "K";
      assert IndexById([Kaf]) == map["K" := Kaf];
    }
    var p := g.HandleKeydown("ך");
    g.Settle(p.value);
    index, history := g.seqIndex, g.engine.history;
  }

  /** A bare array saved in the colors editor is the new category list. */
  method BareArrayScenario() returns (r: Result<seq<Category>, EditError>, data: seq<Category>)
    ensures r == Success(Trio) && data == Trio
  {
    var g := new CategoryGame([], None);
    r := Colors.SaveEditedData(g, Array(Trio), [], None);
    data := g.categoriesData;
  }

  /** The letters A, B, C in a fresh round of `mode`, with A expected next. */
  method LettersRound(mode: Mode) returns (g: LettersGame)
    ensures fresh(g) && fresh(g.engine) && g.Valid()
    ensures g.mode == mode && g.Expected() == Some("A") && |g.letters| == 3
    ensures g.seqIndex == 0 && g.seqDone == {}
    ensures g.engine.matched == {} && g.engine.selectedPrompt == None && g.engine.selectedName == None
    ensures g.engine.correct == 0 && g.engine.wrong == 0 && g.engine.history == []
  {
    g := new LettersGame([A, B, C]);
    g.SetMode(mode);
    assert g.Expected() == Some("A") by {
      assert g.kidOrder == Ids([A, B, C]);
      assert Ids([A, B, C])[0] == "A";
    }
  }

  /** In a match mode: letter A, name A, then letter B before the first attempt settles. */
  method PairThenSwitch(g: LettersGame) returns (first: Pending, second: Pending)
    requires g.Valid() && !IsSequenceMode(g.mode)
    requires g.engine.matched == {} && g.engine.selectedPrompt == None && g.engine.selectedName == None
    requires g.engine.history == []
    modifies g, g.engine
    ensures g.Valid() && g.engine.matched == {}
    ensures first == Pending("A", true) && second == Pending("B", false)
    ensures g.engine.history == [Paired("A", "A", true), Paired("B", "A", false)]
  {
    var p := g.ClickLetter("A");
    var q := g.ClickName("A");
    var q' := g.ClickLetter("B");
    first, second := q.value, q'.value;
  }

  /**
   * While the settle of a correct pair is pending, choosing another letter
   * re-evaluates at once against the name still selected: two attempts are
   * recorded before either settles.
   */
  method PendingReevaluation() returns (matched: set<Id>, history: seq<Attempt>)
    ensures matched == {"A"}
    ensures history == [Paired("A", "A", true), Paired("B", "A", false)]
  {
    var g := LettersRound(OrderedMatch);
    var first, second := PairThenSwitch(g);
    g.SettleMatch(first);
    g.SettleMatch(second);
    matched, history := g.engine.matched, g.engine.history;
  }

  /** In a sequence mode with A expected: click A twice before anything settles. */
  method TapTwice(g: LettersGame) returns (first: Id, second: Id)
    requires g.Valid() && IsSequenceMode(g.mode)
    requires g.Expected() == Some("A") && g.seqDone == {}
    modifies g.engine
    ensures g.Valid() && first == "A" && second == "A"
    ensures g.engine.correct == old(g.engine.correct) + 2
  {
    var p := g.ClickSequenceName("A");
    var p' := g.ClickSequenceName("A");
    first, second := p.value.id, p'.value.id;
  }

  /**
   * Two clicks on the expected letter before the first settle both count as
   * correct, and both settles move the cursor: it ends at 2 with only A done.
   */
  method DoubleTap() returns (index: nat, done: set<Id>, correct: nat, remaining: int)
    ensures index == 2 && done == {"A"} && correct == 2 && remaining == 1
  {
    var g := LettersRound(SequenceChars);
    var first, second := TapTwice(g);
    SettleTwice(g, first);
    index, done, correct := g.seqIndex, g.seqDone, g.engine.correct;
    remaining := g.Remaining();
  }

  /** Both settles of the same id run: the cursor moves twice. */
  method SettleTwice(g: LettersGame, id: Id)
    requires g.Valid()
    modifies g`seqIndex, g`seqDone, g`shuffledNameIds
    ensures g.Valid()
    ensures g.seqIndex == old(g.seqIndex) + 2 && g.seqDone == old(g.seqDone) + {id}
  {
    g.SettleAdvance(id);
    g.SettleAdvance(id);
  }

  /** In a match mode: letter A, then name A, leaving the correct attempt pending. */
  method PairA(g: LettersGame) returns (pending: Pending)
    requires g.Valid() && !IsSequenceMode(g.mode)
    requires g.engine.matched == {} && g.engine.selectedPrompt == None && g.engine.selectedName == None
    modifies g, g.engine
    ensures g.Valid() && pending == Pending("A", true)
  {
    var p := g.ClickLetter("A");
    var q := g.ClickName("A");
    pending := q.value;
  }

  /**
   * A reset does not cancel a pending settle: the new round starts with a
   * zero score but with A already matched.
   */
  method StaleSettle() returns (matched: set<Id>, correct: nat, history: seq<Attempt>)
    ensures matched == {"A"} && correct == 0 && history == []
  {
    var g := LettersRound(OrderedMatch);
    var pending := PairA(g);
    g.ResetRound();
    g.SettleMatch(pending);
    matched, correct, history := g.engine.matched, g.engine.correct, g.engine.history;
  }
}
