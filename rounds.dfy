/**
 * The round builder of the colors and icons modules and the game object they
 * share: the category data, the sampled `currentItems`, the `itemsById` table,
 * the name column `shuffledNameIds` and the match engine. The two modules differ
 * only in the edit dialog (see the Colors and Icons modules).
 */
module Rounds {
  import opened Wrappers
  import opened Seqs
  import opened Vocab
  import opened RandomOrder
  import opened Engine

  /** One category of a dataset: `{ category, items }`. */
  datatype Category = Category(category: string, items: seq<Item>)

  /** The number of entries a round uses when the max field does not hold a positive integer. */
  const DefaultMax: int := 18

  /**
   * `getMaxColors` / `getMaxIcons` given what `parseInt` made of the max field
   * (`None` for `NaN` or a missing field): the parsed value when it is positive,
   * 18 otherwise. The result is always at least 1.
   */
  function MaxCount(parsed: Option<int>): (r: int)
    ensures r >= 1
    ensures parsed == Some(r) <==> parsed.Some? && parsed.value > 0
    ensures parsed != Some(r) ==> r == DefaultMax
  {
    if parsed.Some? && parsed.value > 0 then parsed.value else DefaultMax
  }

  /** `categoriesData.map(c => c.category)`. */
  function Names(cats: seq<Category>): seq<string> {
    seq(|cats|, k requires 0 <= k < |cats| => cats[k].category)
  }

  /**
   * The names of the checked boxes, or every category when none is checked: the
   * selection is empty only when there is no category at all.
   */
  function SelectedCategories(checked: seq<string>, cats: seq<Category>): (r: seq<string>)
    ensures checked != [] ==> r == checked
    ensures checked == [] ==> forall c :: c in cats ==> c.category in r
    ensures r == [] <==> checked == [] && cats == []
  {
    if |checked| == 0 then
      assert forall k :: 0 <= k < |cats| ==> Names(cats)[k] == cats[k].category;
      Names(cats)
    else checked
  }

  /** `categoriesData.find(c => c.category === name)`: the first category of that name. */
  function FindCategory(cats: seq<Category>, name: string): (r: Option<Category>)
    ensures r.None? <==> name !in Names(cats)
    ensures r.Some? ==> r.value in cats && r.value.category == name
  {
    if cats == [] then None
    else
      assert Names(cats) == [cats[0].category] + Names(cats[1..]);
      if cats[0].category == name then Some(cats[0]) else FindCategory(cats[1..], name)
  }

  /** A category whose name no earlier category carries is the one found under that name. */
  lemma {:induction false} FindCategoryFirst(cats: seq<Category>, i: nat)
    requires i < |cats|
    requires forall j :: 0 <= j < i ==> cats[j].category != cats[i].category
    ensures FindCategory(cats, cats[i].category) == Some(cats[i])
  {
    if i > 0 {
      FindCategoryFirst(cats[1..], i - 1);
    }
  }

  /**
   * The pool of a round: the items of the selected categories, in selection
   * order, each name looked up with `find`; a name with no category adds nothing.
   */
  function Pool(cats: seq<Category>, selected: seq<string>): (r: seq<Item>)
    ensures forall x :: x in r ==> x in Flatten(cats)
  {
    if selected == [] then []
    else
      var init := Pool(cats, selected[..|selected| - 1]);
      match FindCategory(cats, selected[|selected| - 1])
      case None => init
      case Some(c) => CategoryInFlatten(cats, c); init + c.items
  }

  /** Every item of the dataset, category by category. */
  function Flatten(cats: seq<Category>): seq<Item> {
    if cats == [] then [] else Flatten(cats[..|cats| - 1]) + cats[|cats| - 1].items
  }

  /** The items of any category of the dataset are items of the dataset. */
  lemma {:induction false} CategoryInFlatten(cats: seq<Category>, c: Category)
    requires c in cats
    ensures forall x :: x in c.items ==> x in Flatten(cats)
  {
    if c != cats[|cats| - 1] {
      assert c in cats[..|cats| - 1] by {
        var k :| 0 <= k < |cats| && cats[k] == c;
        assert cats[..|cats| - 1][k] == c;
      }
      CategoryInFlatten(cats[..|cats| - 1], c);
    }
  }

  /** An item is in the pool exactly when some selected name finds a category holding it. */
  lemma {:induction false} PoolMembership(cats: seq<Category>, selected: seq<string>, x: Item)
    ensures x in Pool(cats, selected) <==>
              exists k :: 0 <= k < |selected| && FindCategory(cats, selected[k]).Some?
                          && x in FindCategory(cats, selected[k]).value.items
  {
    if selected != [] {
      var init := selected[..|selected| - 1];
      PoolMembership(cats, init, x);
      var last := |selected| - 1;
      if x in Pool(cats, init) {
        var k :| 0 <= k < |init| && FindCategory(cats, init[k]).Some? && x in FindCategory(cats, init[k]).value.items;
        assert selected[k] == init[k];
      }
      if exists k :: 0 <= k < |selected| && FindCategory(cats, selected[k]).Some?
                     && x in FindCategory(cats, selected[k]).value.items {
        var k :| 0 <= k < |selected| && FindCategory(cats, selected[k]).Some?
                 && x in FindCategory(cats, selected[k]).value.items;
        if k < last {
          assert selected[k] == init[k];
        }
      }
    }
  }

  /** The pool of the first `i` category names, when names are unique, is the first `i` categories' items. */
  lemma {:induction false} PoolPrefix(cats: seq<Category>, i: nat)
    requires i <= |cats| && Distinct(Names(cats))
    ensures Pool(cats, Names(cats)[..i]) == Flatten(cats[..i])
  {
    if i > 0 {
      PoolPrefix(cats, i - 1);
      var names := Names(cats);
      assert names[..i][..i - 1] == names[..i - 1];
      assert cats[..i][..i - 1] == cats[..i - 1];
      forall j | 0 <= j < i - 1 ensures cats[j].category != cats[i - 1].category {
        assert names[j] == cats[j].category && names[i - 1] == cats[i - 1].category;
      }
      FindCategoryFirst(cats, i - 1);
    }
  }

  /**
   * With no box checked every category is selected, and when category names are
   * unique the pool is then every item of the dataset, in dataset order.
   */
  lemma EmptySelectionIsEverything(cats: seq<Category>)
    requires Distinct(Names(cats))
    ensures Pool(cats, SelectedCategories([], cats)) == Flatten(cats)
  {
    PoolPrefix(cats, |cats|);
    assert Names(cats)[..|cats|] == Names(cats);
    assert cats[..|cats|] == cats;
  }

  /**
   * With every box checked, as after start-up or after the icons editor saves,
   * the pool is again every item of the dataset when category names are unique.
   */
  lemma AllCheckedIsEverything(cats: seq<Category>)
    requires Distinct(Names(cats))
    ensures Pool(cats, SelectedCategories(Names(cats), cats)) == Flatten(cats)
  {
    PoolPrefix(cats, |cats|);
    assert Names(cats)[..|cats|] == Names(cats);
    assert cats[..|cats|] == cats;
  }

  /** The gathering loop of the round loader: `selectedCats.forEach(... cat.items.forEach(push))`. */
  method GatherItems(cats: seq<Category>, selected: seq<string>) returns (all: seq<Item>)
    ensures all == Pool(cats, selected)
  {
    all := [];
    var i := 0;
    while i < |selected|
      invariant 0 <= i <= |selected|
      invariant all == Pool(cats, selected[..i])
    {
      assert selected[..i + 1][..i] == selected[..i];
      var cat := FindCategory(cats, selected[i]);
      if cat.Some? {
        var items := cat.value.items;
        var j := 0;
        while j < |items|
          invariant 0 <= j <= |items|
          invariant all == Pool(cats, selected[..i]) + items[..j]
        {
          assert items[..j + 1] == items[..j] + [items[j]];
          all := all + [items[j]];
          j := j + 1;
        }
        assert items[..j] == items;
      }
      i := i + 1;
    }
    assert selected[..i] == selected;
  }

  /** The `itemsById` loop: `itemsById[item.id] = item` for each item in turn. */
  method BuildIndex(items: seq<Item>) returns (m: map<Id, Item>)
    ensures m == IndexById(items)
  {
    m := map[];
    var i := 0;
    while i < |items|
      invariant 0 <= i <= |items|
      invariant m == IndexById(items[..i])
    {
      assert items[..i + 1][..i] == items[..i];
      m := m[items[i].id := items[i]];
      i := i + 1;
    }
    assert items[..i] == items;
  }

  /** Permuting entries permutes their ids. */
  lemma {:induction false} IdsPermutation(a: seq<Item>, b: seq<Item>)
    requires multiset(a) == multiset(b)
    ensures multiset(Ids(a)) == multiset(Ids(b))
  {
    if a == [] {
      assert |b| == |multiset(b)| == 0;
    } else {
      var n := |a| - 1;
      assert a[n] in multiset(b) by {
        assert a[n] in a;
      }
      var i :| 0 <= i < |b| && b[i] == a[n];
      var b' := RemoveAt(b, i);
      LastMatched(a, b, i);
      IdsPermutation(a[..n], b');
      IdsSnoc(a);
      IdsRemoved(b, i);
    }
  }

  lemma LastMatched(a: seq<Item>, b: seq<Item>, i: nat)
    requires multiset(a) == multiset(b) && a != [] && i < |b| && b[i] == a[|a| - 1]
    ensures multiset(a[..|a| - 1]) == multiset(RemoveAt(b, i))
  {
    var n := |a| - 1;
    assert a == a[..n] + [a[n]];
    assert multiset(a[..n]) == multiset(a) - multiset{a[n]};
    assert multiset(RemoveAt(b, i)) == multiset(b) - multiset{b[i]};
  }

  lemma IdsSnoc(a: seq<Item>)
    requires a != []
    ensures multiset(Ids(a)) == multiset(Ids(a[..|a| - 1])) + multiset{a[|a| - 1].id}
  {
    IdsLast(a);
  }

  lemma IdsRemoved(b: seq<Item>, i: nat)
    requires i < |b|
    ensures multiset(Ids(b)) == multiset(Ids(RemoveAt(b, i))) + multiset{b[i].id}
  {
    IdsRemoveAt(b, i);
    assert Ids(b)[i] == b[i].id;
  }

  lemma IdsLast(a: seq<Item>)
    requires a != []
    ensures Ids(a) == Ids(a[..|a| - 1]) + [a[|a| - 1].id]
  {
  }

  lemma IdsRemoveAt(b: seq<Item>, i: nat)
    requires i < |b|
    ensures Ids(RemoveAt(b, i)) == RemoveAt(Ids(b), i)
  {
  }

  /** Entries drawn at distinct positions of a list with unique ids have unique ids. */
  lemma SampleIdsDistinct(arr: seq<Item>, r: seq<Item>, picks: seq<nat>)
    requires Distinct(Ids(arr)) && Distinct(picks) && |picks| == |r|
    requires forall k :: 0 <= k < |r| ==> picks[k] < |arr| && r[k] == arr[picks[k]]
    ensures Distinct(Ids(r))
  {
    var ids, rids := Ids(arr), Ids(r);
    forall a, b | 0 <= a < b < |r| ensures rids[a] != rids[b] {
      assert rids[a] == ids[picks[a]] && rids[b] == ids[picks[b]];
    }
  }

  /**
   * The drawing part of the round loader: sample up to `maxCount` entries of the
   * pool, index them by id, shuffle them for the prompt column and shuffle their
   * ids for the name column.
   */
  method DrawRound(pool: seq<Item>, maxCount: int) returns (items: seq<Item>, index: map<Id, Item>, names: seq<Id>)
    requires maxCount >= 1
    ensures |items| == Min(maxCount, |pool|)
    ensures multiset(items) <= multiset(pool)
    ensures Distinct(Ids(pool)) ==> Distinct(Ids(items))
    ensures Distinct(Ids(items)) ==> Distinct(names)
    ensures multiset(names) == multiset(Ids(items))
    ensures index.Keys == Elems(Ids(items))
    ensures forall id :: id in index ==> index[id] in items && index[id].id == id
  {
    var sampled;
    ghost var picks;
    sampled, picks := SampleItems(pool, maxCount);
    index := BuildIndex(sampled);
    IndexByIdKeys(sampled);
    items := Shuffle(sampled);
    names := Shuffle(Ids(items));
    IdsPermutation(sampled, items);
    SameElements(Ids(sampled), Ids(items));
    SameElements(sampled, items);
    if Distinct(Ids(pool)) {
      SampleIdsDistinct(pool, sampled, picks);
      DistinctPermutation(Ids(sampled), Ids(items));
    }
    if Distinct(Ids(items)) {
      DistinctPermutation(Ids(items), names);
    }
  }

  class CategoryGame {
    const engine: MatchEngine
    var categoriesData: seq<Category>
    var currentItems: seq<Item>
    var itemsById: map<Id, Item>
    var shuffledNameIds: seq<Id>

    /** The ids of the round that are not matched yet, in `currentItems` order. */
    function Available(): (r: seq<Id>)
      reads this, engine
      ensures |r| <= |currentItems|
      ensures forall id :: id in r <==> id in Ids(currentItems) && id !in engine.matched
    {
      Drop(Ids(currentItems), engine.matched)
    }

    /**
     * `renderRemaining`: `currentItems.length - matched.size`. With unique ids and
     * every matched id in the round, it is the number of ids still available.
     */
    function Remaining(): (r: int)
      reads this, engine
      ensures Distinct(Ids(currentItems)) && engine.matched <= Elems(Ids(currentItems)) ==> r == |Available()|
    {
      DropLength(Ids(currentItems), engine.matched);
      |currentItems| - |engine.matched|
    }

    /** The invariant between renders: the score tallies the history, `itemsById` indexes the round. */
    ghost predicate Coherent()
      reads this, engine
    {
      && engine.Valid()
      && itemsById.Keys == Elems(Ids(currentItems))
      && (forall id :: id in itemsById ==> itemsById[id] in currentItems && itemsById[id].id == id)
      && (Distinct(Ids(currentItems)) ==> Distinct(shuffledNameIds))
    }

    /** After every handler: when the round's ids are unique, the name column shows exactly the unmatched ones. */
    ghost predicate Valid()
      reads this, engine
    {
      && Coherent()
      && (Distinct(Ids(currentItems)) ==> multiset(shuffledNameIds) == multiset(Available()))
    }

    /**
     * What a freshly loaded round looks like: at most the maximum number of
     * entries, all drawn without replacement from the pool of the checked
     * categories; the name column a permutation of their ids; nothing matched
     * or selected, no score and no history.
     */
    ghost predicate RoundLoaded(checked: seq<string>, parsedMax: Option<int>)
      reads this, engine
    {
      var pool := Pool(categoriesData, SelectedCategories(checked, categoriesData));
      && |currentItems| == Min(MaxCount(parsedMax), |pool|)
      && multiset(currentItems) <= multiset(pool)
      && (Distinct(Ids(pool)) ==> Distinct(Ids(currentItems)))
      && multiset(shuffledNameIds) == multiset(Ids(currentItems))
      && engine.matched == {} && engine.selectedPrompt == None && engine.selectedName == None
      && engine.correct == 0 && engine.wrong == 0 && engine.history == []
    }

    /**
     * Start-up once the data is there: the category boxes are rendered all
     * checked, so the first round draws from every category.
     */
    constructor (data: seq<Category>, parsedMax: Option<int>)
      ensures Valid() && fresh(engine)
      ensures categoriesData == data
      ensures RoundLoaded(Names(data), parsedMax)
    {
      engine := new MatchEngine();
      categoriesData := data;
      currentItems, itemsById, shuffledNameIds := [], map[], [];
      new;
      LoadRound(Names(data), parsedMax);
    }

    /**
     * `loadColorsFromSelectedCategories` / `loadIconsFromSelectedCategories`,
     * given the names of the checked boxes and the parsed max field.
     */
    method LoadRound(checked: seq<string>, parsedMax: Option<int>)
      modifies this, engine
      ensures Valid()
      ensures categoriesData == old(categoriesData)
      ensures RoundLoaded(checked, parsedMax)
    {
      var selected := SelectedCategories(checked, categoriesData);
      var all := GatherItems(categoriesData, selected);
      currentItems, itemsById, shuffledNameIds := DrawRound(all, MaxCount(parsedMax));
      engine.Reset();
      assert Available() == Ids(currentItems) by {
        DropNone(Ids(currentItems));
      }
      RenderStable();
    }

    /**
     * The reconciliation in `renderNames`: the column keeps its surviving ids in
     * order and gains the missing ones at the end.
     */
    method RenderNames()
      requires Coherent()
      modifies this`shuffledNameIds
      ensures Valid()
      ensures Reconciled(old(shuffledNameIds), Available(), shuffledNameIds)
    {
      if Distinct(Ids(currentItems)) {
        DropDistinct(Ids(currentItems), engine.matched);
      }
      shuffledNameIds := ReconcileNames(shuffledNameIds, Available());
    }

    /**
     * `renderNames` on a column that already is a permutation of the unmatched
     * ids: the reconciliation leaves it as it is.
     */
    method RenderStable()
      requires Coherent() && multiset(shuffledNameIds) == multiset(Available())
      modifies this`shuffledNameIds
      ensures Valid()
      ensures shuffledNameIds == old(shuffledNameIds)
    {
      ghost var before := shuffledNameIds;
      RenderNames();
      ReconcileStable(before, Available(), shuffledNameIds);
    }

    /** A click on a swatch or icon: the prompt column's handler. */
    method ClickPrompt(id: Id) returns (p: Option<Pending>)
      requires Valid()
      modifies engine
      ensures Valid()
      ensures PromptClicked(engine, id, p)
    {
      p := engine.ClickPrompt(id);
    }

    /**
     * A click on a name: the name column's handler, which re-renders the name
     * column when no attempt was evaluated.
     */
    method ClickName(id: Id) returns (p: Option<Pending>)
      requires Valid()
      modifies this, engine
      ensures Valid()
      ensures NameClicked(engine, id, p)
      ensures categoriesData == old(categoriesData) && currentItems == old(currentItems)
      ensures itemsById == old(itemsById)
      ensures Distinct(Ids(currentItems)) ==> shuffledNameIds == old(shuffledNameIds)
      ensures shuffledNameIds == old(shuffledNameIds)
              || Reconciled(old(shuffledNameIds), Available(), shuffledNameIds)
    {
      var wasMatched := id in engine.matched;
      p := engine.ClickName(id);
      if !wasMatched && p.None? {
        ghost var before := shuffledNameIds;
        RenderNames();
        if Distinct(Ids(currentItems)) {
          ReconcileStable(before, Available(), shuffledNameIds);
        }
      }
    }

    /** The deferred callback of an attempt, then the re-render of the name column. */
    method Settle(p: Pending)
      requires Valid()
      modifies this, engine
      ensures Valid()
      ensures Settled(engine, p)
      ensures categoriesData == old(categoriesData) && currentItems == old(currentItems)
      ensures itemsById == old(itemsById)
      ensures Reconciled(old(shuffledNameIds), Available(), shuffledNameIds)
    {
      engine.Settle(p);
      RenderNames();
    }

    /** The save handler's assignment to `categoriesData`; nothing else changes. */
    method SetCategories(cats: seq<Category>)
      requires Valid()
      modifies this`categoriesData
      ensures Valid()
      ensures categoriesData == cats
    {
      categoriesData := cats;
    }
  }

  /**
   * `remaining` counts the name tiles shown: when the round's ids are unique and
   * every matched id belongs to the round, it equals the length of the name column.
   */
  lemma RemainingIsNameCount(g: CategoryGame)
    requires g.Valid()
    requires Distinct(Ids(g.currentItems))
    requires g.engine.matched <= Elems(Ids(g.currentItems))
    ensures g.Remaining() == |g.shuffledNameIds|
  {
    assert |g.shuffledNameIds| == |multiset(g.shuffledNameIds)| == |multiset(g.Available())|;
  }
}
