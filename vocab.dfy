/** The vocabulary entries every game module works on. */
module Vocab {
  import opened Seqs

  /** An entry's id: unique within a well-formed dataset, and the only pairing key. */
  type Id = string

  /**
   * One dataset entry. `prompt` is the module's own value field: a color code
   * (colors), an icon class name (icons) or a Hebrew character (letters, field `he`).
   */
  datatype Item = Item(id: Id, prompt: string, nameHe: string, nameLat: string)

  /** `items.map(item => item.id)`. */
  function Ids(items: seq<Item>): seq<Id> {
    seq(|items|, k requires 0 <= k < |items| => items[k].id)
  }

  /**
   * The id-to-entry table, as `Object.fromEntries` or a `forEach` of assignments
   * builds it: when two entries share an id, the later one wins.
   */
  function IndexById(items: seq<Item>): map<Id, Item> {
    if items == [] then map[]
    else IndexById(items[..|items| - 1])[items[|items| - 1].id := items[|items| - 1]]
  }

  /** The table's keys are exactly the ids; each value is an entry carrying its key as id. */
  lemma {:induction false} IndexByIdKeys(items: seq<Item>)
    ensures IndexById(items).Keys == Elems(Ids(items))
    ensures forall id :: id in IndexById(items) ==> IndexById(items)[id] in items && IndexById(items)[id].id == id
  {
    if items != [] {
      var init := items[..|items| - 1];
      IndexByIdKeys(init);
      assert Ids(items) == Ids(init) + [items[|items| - 1].id];
      assert forall x :: x in init ==> x in items;
    }
  }

  /** The table maps each id to the last entry that carries it. */
  lemma {:induction false} IndexByIdLastWins(items: seq<Item>, k: nat)
    requires k < |items|
    requires forall j :: k < j < |items| ==> items[j].id != items[k].id
    ensures items[k].id in IndexById(items) && IndexById(items)[items[k].id] == items[k]
  {
    if k < |items| - 1 {
      var init := items[..|items| - 1];
      IndexByIdLastWins(init, k);
    }
  }

  /** With unique ids, every entry is found under its own id. */
  lemma IndexByIdUnique(items: seq<Item>)
    requires Distinct(Ids(items))
    ensures forall k :: 0 <= k < |items| ==>
              items[k].id in IndexById(items) && IndexById(items)[items[k].id] == items[k]
  {
    forall k | 0 <= k < |items|
      ensures items[k].id in IndexById(items) && IndexById(items)[items[k].id] == items[k]
    {
      LastOfUnique(items, k);
      IndexByIdLastWins(items, k);
    }
  }

  /** With unique ids, no later entry shares an entry's id. */
  lemma LastOfUnique(items: seq<Item>, k: nat)
    requires Distinct(Ids(items)) && k < |items|
    ensures forall j :: k < j < |items| ==> items[j].id != items[k].id
  {
    var ids := Ids(items);
    forall j | k < j < |items| ensures items[j].id != items[k].id {
      assert ids[j] == items[j].id && ids[k] == items[k].id;
    }
  }
}
