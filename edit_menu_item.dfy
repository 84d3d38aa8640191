/**
 * The form that edits one menu item (admin/src/components/EditMenuItem/index.js):
 * finding the selected item in the flat item list, computing its nesting level,
 * deriving the item's own scoped copy of the field schema, and deciding which
 * tab labels carry an error indicator.
 */
module EditMenuItem {
  import opened Wrappers

  // ---------------------------------------------------------------------------
  // Data model
  // ---------------------------------------------------------------------------

  /** A menu item as the form reads it; `parent` is `None` where the item's `parent` is `null`. */
  datatype MenuItem = MenuItem(id: string, itemType: string, parent: Option<string>)

  /** A translatable text `{ defaultMessage, id }`. */
  datatype Message = Message(defaultMessage: string, id: string)

  datatype Input = Input(name: string, inputType: string, required: bool, intlLabel: Message, placeholder: Message)

  datatype Grid = Grid(col: int, s: int)

  /** One field descriptor `{ input, grid }` of a tab. */
  datatype Field = Field(input: Input, grid: Grid)

  /** The field schema: tab name to the ordered fields shown on that tab. */
  type Schema = map<string, seq<Field>>

  const LinkTab := "link"
  const CardTab := "card"
  const CardType := "card"

  const IdName := "id"
  const ItemTypeName := "item_type"
  const IsPinnedName := "is_pinned"
  const ExcludedCardIdsName := "excluded_card_ids"

  /** The read-only descriptor that `addIDField` puts in front of the `link` tab. */
  const IdField := Field(
    Input(IdName, "string", false, Message("ID", "ID"), Message("ID", "ID")),
    Grid(12, 12))

  // ---------------------------------------------------------------------------
  // Looking items up
  // ---------------------------------------------------------------------------

  /** `items.findIndex(item => item.id === id)`: the first index holding `id`, or -1. */
  function FindIndex(items: seq<MenuItem>, id: string): (r: int)
    ensures -1 <= r < |items|
    ensures r == -1 <==> forall j :: 0 <= j < |items| ==> items[j].id != id
    ensures 0 <= r ==> items[r].id == id && forall j :: 0 <= j < r ==> items[j].id != id
  {
    if |items| == 0 then -1
    else if items[0].id == id then 0
    else
      var r := FindIndex(items[1..], id);
      if r == -1 then -1 else r + 1
  }

  /** `items.filter(item => item.id === id)[0]`: the first item holding `id`, if any. */
  function FirstWithId(items: seq<MenuItem>, id: string): (r: Option<MenuItem>)
    ensures r.None? <==> forall j :: 0 <= j < |items| ==> items[j].id != id
    ensures r.Some? ==> r.value in items && r.value.id == id
  {
    if |items| == 0 then None
    else if items[0].id == id then Some(items[0])
    else FirstWithId(items[1..], id)
  }

  /** The two lookups agree: `filter(...)[0]` is the item at the index `findIndex` returns. */
  lemma {:induction false} FirstWithIdAtFindIndex(items: seq<MenuItem>, id: string)
    ensures FirstWithId(items, id) ==
      if FindIndex(items, id) == -1 then None else Some(items[FindIndex(items, id)])
  {
    if |items| > 0 && items[0].id != id {
      FirstWithIdAtFindIndex(items[1..], id);
    }
  }

  // ---------------------------------------------------------------------------
  // Nesting level
  // ---------------------------------------------------------------------------

  /**
   * Following `parent` references from `item` reaches an item whose parent is
   * `null` within `bound` lookups, and every lookup on the way finds an item.
   */
  ghost predicate ChainEnds(items: seq<MenuItem>, item: MenuItem, bound: nat)
    decreases bound
  {
    match item.parent
    case None => true
    case Some(pid) =>
      bound > 0 && FirstWithId(items, pid).Some? && ChainEnds(items, FirstWithId(items, pid).value, bound - 1)
  }

  /**
   * `getItemNestingLevel(menuItems, menuItem, nestingLevel)`: `nestingLevel`
   * for a root, otherwise the level of the first item whose id is the parent's,
   * one deeper. The ghost `bound` only witnesses that the chain ends.
   */
  function NestingLevel(items: seq<MenuItem>, item: MenuItem, nestingLevel: int, ghost bound: nat): (r: int)
    requires ChainEnds(items, item, bound)
    ensures r >= nestingLevel
    ensures r == nestingLevel <==> item.parent.None?
    decreases bound
  {
    match item.parent
    case None => nestingLevel
    case Some(pid) => NestingLevel(items, FirstWithId(items, pid).value, nestingLevel + 1, bound - 1)
  }

  /** The level does not depend on which bound witnesses that the chain ends. */
  lemma {:induction false} NestingLevelBoundFree(items: seq<MenuItem>, item: MenuItem, nestingLevel: int, b1: nat, b2: nat)
    requires ChainEnds(items, item, b1) && ChainEnds(items, item, b2)
    ensures NestingLevel(items, item, nestingLevel, b1) == NestingLevel(items, item, nestingLevel, b2)
    decreases b1
  {
    match item.parent
    case None =>
    case Some(pid) =>
      NestingLevelBoundFree(items, FirstWithId(items, pid).value, nestingLevel + 1, b1 - 1, b2 - 1);
  }

  /**
   * `chain` is the parent chain of `chain[0]`: each element's parent resolves
   * (first match) to the next element, and the last element is a root.
   */
  ghost predicate IsParentChain(items: seq<MenuItem>, chain: seq<MenuItem>)
  {
    && |chain| > 0
    && chain[|chain| - 1].parent.None?
    && forall i :: 0 <= i < |chain| - 1 ==>
         chain[i].parent.Some? && FirstWithId(items, chain[i].parent.value) == Some(chain[i + 1])
  }

  /** Every chain that ends has a parent chain. */
  lemma {:induction false} ChainEndsHasParentChain(items: seq<MenuItem>, item: MenuItem, bound: nat)
    returns (chain: seq<MenuItem>)
    requires ChainEnds(items, item, bound)
    ensures IsParentChain(items, chain) && chain[0] == item && |chain| <= bound + 1
    decreases bound
  {
    match item.parent
    case None =>
      chain := [item];
    case Some(pid) =>
      var rest := ChainEndsHasParentChain(items, FirstWithId(items, pid).value, bound - 1);
      chain := [item] + rest;
      forall i | 0 <= i < |chain| - 1
        ensures chain[i].parent.Some? && FirstWithId(items, chain[i].parent.value) == Some(chain[i + 1])
      {
        if i > 0 {
          assert chain[i] == rest[i - 1] && chain[i + 1] == rest[i];
        }
      }
  }

  /**
   * The nesting level is the base level plus the number of ancestors: with the
   * default base 1, a root is at level 1 and a chain of k items ends at level k.
   */
  lemma {:induction false} NestingLevelCountsChain(items: seq<MenuItem>, chain: seq<MenuItem>, nestingLevel: int, bound: nat)
    requires IsParentChain(items, chain)
    requires ChainEnds(items, chain[0], bound)
    ensures NestingLevel(items, chain[0], nestingLevel, bound) == nestingLevel + |chain| - 1
    decreases |chain|
  {
    if |chain| > 1 {
      var rest := chain[1..];
      assert IsParentChain(items, rest) by {
        forall i | 0 <= i < |rest| - 1
          ensures rest[i].parent.Some? && FirstWithId(items, rest[i].parent.value) == Some(rest[i + 1])
        {
          assert rest[i] == chain[i + 1] && rest[i + 1] == chain[i + 2];
        }
      }
      NestingLevelCountsChain(items, rest, nestingLevel + 1, bound - 1);
    }
  }

  /** A non-root item is exactly one level deeper than the first item holding its parent's id. */
  lemma ParentIsOneLevelUp(items: seq<MenuItem>, item: MenuItem, bound: nat, parentBound: nat)
    requires ChainEnds(items, item, bound)
    requires item.parent.Some?
    requires ChainEnds(items, FirstWithId(items, item.parent.value).value, parentBound)
    ensures NestingLevel(items, item, 1, bound)
         == NestingLevel(items, FirstWithId(items, item.parent.value).value, 1, parentBound) + 1
  {
    var chain := ChainEndsHasParentChain(items, item, bound);
    NestingLevelCountsChain(items, chain, 1, bound);
    var rest := chain[1..];
    assert IsParentChain(items, rest) by {
      forall i | 0 <= i < |rest| - 1
        ensures rest[i].parent.Some? && FirstWithId(items, rest[i].parent.value) == Some(rest[i + 1])
      {
        assert rest[i] == chain[i + 1] && rest[i + 1] == chain[i + 2];
      }
    }
    NestingLevelCountsChain(items, rest, 1, parentBound);
  }

  // ---------------------------------------------------------------------------
  // Filtering and prioritising the fields of a tab
  // ---------------------------------------------------------------------------

  /** `link.filter(f => f?.input?.name !== name)`: the fields not named `name`, in order. */
  function Without(link: seq<Field>, name: string): (r: seq<Field>)
    ensures |r| <= |link|
    ensures forall f :: f in r <==> f in link && f.input.name != name
  {
    if |link| == 0 then []
    else (if link[0].input.name == name then [] else [link[0]]) + Without(link[1..], name)
  }

  /** Filtering distributes over concatenation, so kept fields keep their relative order. */
  lemma {:induction false} WithoutConcat(a: seq<Field>, b: seq<Field>, name: string)
    ensures Without(a + b, name) == Without(a, name) + Without(b, name)
  {
    if |a| == 0 {
      assert a + b == b;
    } else {
      assert (a + b)[0] == a[0] && (a + b)[1..] == a[1..] + b;
      WithoutConcat(a[1..], b, name);
    }
  }

  /** Filtering a tab without a field of that name changes nothing. */
  lemma {:induction false} WithoutAbsent(link: seq<Field>, name: string)
    requires forall f :: f in link ==> f.input.name != name
    ensures Without(link, name) == link
  {
    if |link| > 0 {
      WithoutAbsent(link[1..], name);
    }
  }

  /** Comparator classes of the sort: the `id` field, `item_type` fields, everything else. */
  function Rank(f: Field): (k: nat)
    ensures k <= 2
    ensures k == 0 <==> f.input.name == IdName
    ensures k == 1 <==> f.input.name == ItemTypeName
  {
    if f.input.name == IdName then 0 else if f.input.name == ItemTypeName then 1 else 2
  }

  /** The fields of comparator class `k`, in their original order. */
  function OfRank(link: seq<Field>, k: nat): (r: seq<Field>)
    ensures forall f :: f in r <==> f in link && Rank(f) == k
  {
    if |link| == 0 then []
    else (if Rank(link[0]) == k then [link[0]] else []) + OfRank(link[1..], k)
  }

  lemma {:induction false} OfRankEmpty(link: seq<Field>, k: nat)
    requires forall f :: f in link ==> Rank(f) != k
    ensures OfRank(link, k) == []
  {
    if |link| > 0 {
      OfRankEmpty(link[1..], k);
    }
  }

  lemma {:induction false} OfRankConcat(a: seq<Field>, b: seq<Field>, k: nat)
    ensures OfRank(a + b, k) == OfRank(a, k) + OfRank(b, k)
  {
    if |a| == 0 {
      assert a + b == b;
    } else {
      assert (a + b)[0] == a[0] && (a + b)[1..] == a[1..] + b;
      OfRankConcat(a[1..], b, k);
    }
  }

  lemma {:induction false} OfRankOfRank(link: seq<Field>, j: nat, k: nat)
    ensures OfRank(OfRank(link, j), k) == if j == k then OfRank(link, k) else []
  {
    if |link| > 0 {
      OfRankOfRank(link[1..], j, k);
      OfRankConcat(if Rank(link[0]) == j then [link[0]] else [], OfRank(link[1..], j), k);
    }
  }

  /** The three classes together hold exactly the fields of the tab. */
  lemma {:induction false} OfRankPartition(link: seq<Field>)
    ensures multiset(link) == multiset(OfRank(link, 0)) + multiset(OfRank(link, 1)) + multiset(OfRank(link, 2))
  {
    if |link| > 0 {
      var head, tail := link[0], link[1..];
      OfRankPartition(tail);
      assert link == [head] + tail;
      var k := Rank(head);
      assert OfRank(link, k) == [head] + OfRank(tail, k);
      forall j: nat | j != k
        ensures OfRank(link, j) == OfRank(tail, j)
      {
      }
    }
  }

  /** The comparator handed to `sort` in `prioritizeItemTypeInput`, as written. */
  function CompareFields(a: Field, b: Field): int
  {
    if a.input.name == IdName then -1
    else if b.input.name == IdName then 1
    else if a.input.name == ItemTypeName && b.input.name != ItemTypeName then -1
    else if b.input.name == ItemTypeName && a.input.name != ItemTypeName then 1
    else 0
  }

  /** Every pair of fields whose classes are in order is in order for the comparator. */
  lemma CompareFollowsRank(a: Field, b: Field)
    requires Rank(a) <= Rank(b)
    ensures CompareFields(a, b) <= 0
  {
  }

  /** Every field compares at most equal to every later field under the comparator. */
  ghost predicate SortedByComparator(s: seq<Field>)
  {
    forall i, j :: 0 <= i < j < |s| ==> CompareFields(s[i], s[j]) <= 0
  }

  /**
   * The stable sort at `prioritizeItemTypeInput`: the `id` field first, the
   * `item_type` fields next, the rest after them, each class in its original order.
   */
  function PrioritizeItemType(link: seq<Field>): (r: seq<Field>)
    ensures multiset(r) == multiset(link)
    ensures |r| == |link|
    ensures SortedByComparator(r)
    ensures forall k: nat :: OfRank(r, k) == OfRank(link, k)
  {
    var r := OfRank(link, 0) + OfRank(link, 1) + OfRank(link, 2);
    OfRankPartition(link);
    assert |r| == |multiset(r)| == |multiset(link)| == |link|;
    PartitionSorted(link);
    PartitionStable(link);
    r
  }

  lemma PartitionSorted(link: seq<Field>)
    ensures SortedByComparator(OfRank(link, 0) + OfRank(link, 1) + OfRank(link, 2))
  {
    var a, b, c := OfRank(link, 0), OfRank(link, 1), OfRank(link, 2);
    var r := a + b + c;
    forall i, j | 0 <= i < j < |r|
      ensures CompareFields(r[i], r[j]) <= 0
    {
      assert Rank(r[i]) == (if i < |a| then 0 else if i < |a| + |b| then 1 else 2) by {
        if i < |a| { assert r[i] == a[i] && a[i] in a; }
        else if i < |a| + |b| { assert r[i] == b[i - |a|] && b[i - |a|] in b; }
        else { assert r[i] == c[i - |a| - |b|] && c[i - |a| - |b|] in c; }
      }
      assert Rank(r[j]) == (if j < |a| then 0 else if j < |a| + |b| then 1 else 2) by {
        if j < |a| { assert r[j] == a[j] && a[j] in a; }
        else if j < |a| + |b| { assert r[j] == b[j - |a|] && b[j - |a|] in b; }
        else { assert r[j] == c[j - |a| - |b|] && c[j - |a| - |b|] in c; }
      }
      CompareFollowsRank(r[i], r[j]);
    }
  }

  lemma PartitionStable(link: seq<Field>)
    ensures forall k: nat :: OfRank(OfRank(link, 0) + OfRank(link, 1) + OfRank(link, 2), k) == OfRank(link, k)
  {
    forall k: nat
      ensures OfRank(OfRank(link, 0) + OfRank(link, 1) + OfRank(link, 2), k) == OfRank(link, k)
    {
      OfRankConcat(OfRank(link, 0) + OfRank(link, 1), OfRank(link, 2), k);
      OfRankConcat(OfRank(link, 0), OfRank(link, 1), k);
      OfRankOfRank(link, 0, k);
      OfRankOfRank(link, 1, k);
      OfRankOfRank(link, 2, k);
      if k > 2 {
        OfRankEmpty(link, k);
      }
    }
  }

  // ---------------------------------------------------------------------------
  // The steps of the scoping pipeline, each on a value of the schema
  // ---------------------------------------------------------------------------

  /** `addIDField`: the `id` descriptor goes in front of the `link` tab, when there is one. */
  function AddIdField(fields: Schema): (r: Schema)
    ensures r.Keys == fields.Keys
    ensures LinkTab in fields ==> r[LinkTab] == [IdField] + fields[LinkTab]
    ensures forall k :: k in fields && k != LinkTab ==> r[k] == fields[k]
  {
    if LinkTab in fields then fields[LinkTab := [IdField] + fields[LinkTab]] else fields
  }

  /** Card fields are hidden unless the item is a card, and an item at level 4 cannot be one. */
  predicate HidesCardTab(itemType: string, level: int)
  {
    itemType != CardType || level == 4
  }

  /** `is_pinned` is hidden for cards and for items at level 1 or 2. */
  predicate HidesIsPinned(itemType: string, level: int)
  {
    itemType == CardType || level == 1 || level == 2
  }

  /** Items at level 3 or 4 cannot be the parent of a card, so `excluded_card_ids` is hidden. */
  predicate HidesExcludedCardIds(level: int)
  {
    level == 3 || level == 4
  }

  /** `handleCardFieldsDisplay`: deletes the `card` tab when the card fields are hidden. */
  function HandleCardFieldsDisplay(fields: Schema, itemType: string, level: int): (r: Schema)
    ensures r.Keys == if HidesCardTab(itemType, level) then fields.Keys - {CardTab} else fields.Keys
    ensures forall k :: k in r ==> r[k] == fields[k]
  {
    if HidesCardTab(itemType, level) then fields - {CardTab} else fields
  }

  /** `handleIsPinnedDisplay`: filters `is_pinned` out of the `link` tab when it is hidden. */
  function HandleIsPinnedDisplay(fields: Schema, itemType: string, level: int): (r: Schema)
    ensures r.Keys == fields.Keys
    ensures forall k :: k in fields && k != LinkTab ==> r[k] == fields[k]
    ensures !HidesIsPinned(itemType, level) ==> r == fields
    ensures HidesIsPinned(itemType, level) && LinkTab in fields ==>
      r[LinkTab] == Without(fields[LinkTab], IsPinnedName)
  {
    if HidesIsPinned(itemType, level) && LinkTab in fields
    then fields[LinkTab := Without(fields[LinkTab], IsPinnedName)]
    else fields
  }

  /** `handleExcludeCardFieldDisplay`: filters `excluded_card_ids` out of `link` when it is hidden. */
  function HandleExcludeCardFieldDisplay(fields: Schema, level: int): (r: Schema)
    ensures r.Keys == fields.Keys
    ensures forall k :: k in fields && k != LinkTab ==> r[k] == fields[k]
    ensures !HidesExcludedCardIds(level) ==> r == fields
    ensures HidesExcludedCardIds(level) && LinkTab in fields ==>
      r[LinkTab] == Without(fields[LinkTab], ExcludedCardIdsName)
  {
    if HidesExcludedCardIds(level) && LinkTab in fields
    then fields[LinkTab := Without(fields[LinkTab], ExcludedCardIdsName)]
    else fields
  }

  /** `prioritizeItemTypeInput`: sorts the `link` tab with the comparator, leaving other tabs alone. */
  function PrioritizeItemTypeInput(fields: Schema): (r: Schema)
    ensures r.Keys == fields.Keys
    ensures forall k :: k in fields && k != LinkTab ==> r[k] == fields[k]
    ensures LinkTab in fields ==>
      && multiset(r[LinkTab]) == multiset(fields[LinkTab])
      && SortedByComparator(r[LinkTab])
      && forall k: nat :: OfRank(r[LinkTab], k) == OfRank(fields[LinkTab], k)
  {
    if LinkTab in fields then fields[LinkTab := PrioritizeItemType(fields[LinkTab])] else fields
  }

  // ---------------------------------------------------------------------------
  // What the scoped schema is, tab by tab
  // ---------------------------------------------------------------------------

  /** Whether the pipeline keeps field `f` of the caller's `link` tab. */
  predicate KeepsLinkField(f: Field, itemType: string, level: int)
  {
    && !(HidesIsPinned(itemType, level) && f.input.name == IsPinnedName)
    && !(HidesExcludedCardIds(level) && f.input.name == ExcludedCardIdsName)
  }

  /** The fields of the caller's `link` tab that the pipeline keeps, in their original order. */
  function KeptLinkFields(link: seq<Field>, itemType: string, level: int): (r: seq<Field>)
    ensures forall f :: f in r <==> f in link && KeepsLinkField(f, itemType, level)
  {
    if |link| == 0 then []
    else (if KeepsLinkField(link[0], itemType, level) then [link[0]] else [])
         + KeptLinkFields(link[1..], itemType, level)
  }

  /** The scoped `link` tab: the `id` descriptor and the kept fields, prioritised. */
  function ScopedLink(link: seq<Field>, itemType: string, level: int): seq<Field>
  {
    PrioritizeItemType([IdField] + KeptLinkFields(link, itemType, level))
  }

  /**
   * The scoped schema of an item of type `itemType` at nesting level `level`:
   * every tab of `fields` but a hidden `card` tab; `link` holds the `id`
   * descriptor and the kept fields, prioritised; all other tabs as they were.
   */
  function ScopeSchema(fields: Schema, itemType: string, level: int): (r: Schema)
    ensures r.Keys == if HidesCardTab(itemType, level) then fields.Keys - {CardTab} else fields.Keys
    ensures CardTab in r <==> CardTab in fields && itemType == CardType && level != 4
    ensures LinkTab in r <==> LinkTab in fields
    ensures forall k :: k in r && k != LinkTab ==> r[k] == fields[k]
  {
    map k | k in fields && !(k == CardTab && HidesCardTab(itemType, level)) ::
      if k == LinkTab then ScopedLink(fields[k], itemType, level) else fields[k]
  }

  /** The two filters together keep exactly the fields `KeptLinkFields` keeps, in the same order. */
  lemma {:induction false} FiltersKeepKeptFields(link: seq<Field>, itemType: string, level: int)
    ensures KeptLinkFields(link, itemType, level) ==
      var pinned := if HidesIsPinned(itemType, level) then Without(link, IsPinnedName) else link;
      if HidesExcludedCardIds(level) then Without(pinned, ExcludedCardIdsName) else pinned
  {
    if |link| > 0 {
      FiltersKeepKeptFields(link[1..], itemType, level);
      var head := [link[0]];
      assert link == head + link[1..];
      if HidesIsPinned(itemType, level) {
        WithoutConcat(head, link[1..], IsPinnedName);
        if HidesExcludedCardIds(level) {
          WithoutConcat(Without(head, IsPinnedName), Without(link[1..], IsPinnedName), ExcludedCardIdsName);
        }
      } else if HidesExcludedCardIds(level) {
        WithoutConcat(head, link[1..], ExcludedCardIdsName);
      }
    }
  }

  /** Filtering a `link` tab headed by the `id` descriptor keeps the descriptor and the kept fields. */
  lemma FiltersAfterIdField(link: seq<Field>, itemType: string, level: int)
    ensures
      var withId := [IdField] + link;
      var pinned := if HidesIsPinned(itemType, level) then Without(withId, IsPinnedName) else withId;
      (if HidesExcludedCardIds(level) then Without(pinned, ExcludedCardIdsName) else pinned)
        == [IdField] + KeptLinkFields(link, itemType, level)
  {
    var pinnedLink := if HidesIsPinned(itemType, level) then Without(link, IsPinnedName) else link;
    WithoutConcat([IdField], link, IsPinnedName);
    WithoutConcat([IdField], pinnedLink, ExcludedCardIdsName);
    FiltersKeepKeptFields(link, itemType, level);
  }

  /** After the steps, the `link` tab is the scoped `link` tab. */
  lemma StepsComputeScopedLink(fields: Schema, itemType: string, level: int)
    requires LinkTab in fields
    ensures
      var withId := AddIdField(fields);
      var cards := HandleCardFieldsDisplay(withId, itemType, level);
      var pinned := HandleIsPinnedDisplay(cards, itemType, level);
      var excluded := HandleExcludeCardFieldDisplay(pinned, level);
      LinkTab in excluded && PrioritizeItemType(excluded[LinkTab]) == ScopedLink(fields[LinkTab], itemType, level)
  {
    FiltersAfterIdField(fields[LinkTab], itemType, level);
  }

  /** The step-by-step pipeline computes the scoped schema. */
  lemma StepsComputeScopeSchema(fields: Schema, itemType: string, level: int)
    ensures
      var withId := AddIdField(fields);
      var cards := HandleCardFieldsDisplay(withId, itemType, level);
      var pinned := HandleIsPinnedDisplay(cards, itemType, level);
      var excluded := HandleExcludeCardFieldDisplay(pinned, level);
      PrioritizeItemTypeInput(excluded) == ScopeSchema(fields, itemType, level)
  {
    var withId := AddIdField(fields);
    var cards := HandleCardFieldsDisplay(withId, itemType, level);
    var pinned := HandleIsPinnedDisplay(cards, itemType, level);
    var excluded := HandleExcludeCardFieldDisplay(pinned, level);
    var r := PrioritizeItemTypeInput(excluded);
    var spec := ScopeSchema(fields, itemType, level);
    if LinkTab in fields {
      StepsComputeScopedLink(fields, itemType, level);
    }
    assert r.Keys == spec.Keys;
  }

  /** Prioritising a tab that starts with the `id` descriptor keeps the descriptor in front. */
  lemma PrioritizeAfterIdField(kept: seq<Field>)
    ensures PrioritizeItemType([IdField] + kept) == [IdField] + OfRank(kept, 0) + OfRank(kept, 1) + OfRank(kept, 2)
  {
    var all := [IdField] + kept;
    assert all[0] == IdField && all[1..] == kept;
    assert OfRank(all, 0) == [IdField] + OfRank(kept, 0);
    assert OfRank(all, 1) == OfRank(kept, 1);
    assert OfRank(all, 2) == OfRank(kept, 2);
  }

  /**
   * The scoped `link` tab holds one field more than the kept fields, starts
   * with the injected `id` descriptor, and is a permutation of the descriptor
   * followed by the kept fields.
   */
  lemma ScopedLinkShape(base: seq<Field>, itemType: string, level: int)
    ensures
      var link := ScopedLink(base, itemType, level);
      var kept := KeptLinkFields(base, itemType, level);
      && |link| == |kept| + 1
      && link[0] == IdField
      && multiset(link) == multiset([IdField] + kept)
  {
    PrioritizeAfterIdField(KeptLinkFields(base, itemType, level));
  }

  /** A field is in the scoped `link` tab exactly when it is the descriptor or a kept field of the caller's tab. */
  lemma ScopedLinkMembers(base: seq<Field>, itemType: string, level: int)
    ensures forall f :: f in ScopedLink(base, itemType, level) <==>
      f == IdField || (f in base && KeepsLinkField(f, itemType, level))
  {
    var all := [IdField] + KeptLinkFields(base, itemType, level);
    var link := ScopedLink(base, itemType, level);
    assert multiset(link) == multiset(all);
    forall f
      ensures f in link <==> f == IdField || (f in base && KeepsLinkField(f, itemType, level))
    {
      calc {
        f in link;
        f in multiset(link);
        f in multiset(all);
        f in all;
      }
    }
  }

  /**
   * When the caller's `link` tab has no `id` field of its own, the scoped tab is
   * the descriptor, then the kept `item_type` fields, then the other kept
   * fields, each group in its original order.
   */
  lemma ScopedLinkOrder(base: seq<Field>, itemType: string, level: int)
    requires forall f :: f in base ==> f.input.name != IdName
    ensures
      var kept := KeptLinkFields(base, itemType, level);
      ScopedLink(base, itemType, level) == [IdField] + OfRank(kept, 1) + OfRank(kept, 2)
  {
    var kept := KeptLinkFields(base, itemType, level);
    assert forall f :: f in kept ==> Rank(f) != 0 by {
      forall f | f in kept
        ensures Rank(f) != 0
      {
        assert f in base;
      }
    }
    OfRankEmpty(kept, 0);
    PrioritizeAfterIdField(kept);
    assert [IdField] + OfRank(kept, 0) == [IdField];
  }

  /** Hidden fields never reach the scoped `link` tab. */
  lemma ScopedLinkHidesFields(base: seq<Field>, itemType: string, level: int)
    ensures HidesIsPinned(itemType, level) ==>
      forall f :: f in ScopedLink(base, itemType, level) ==> f.input.name != IsPinnedName
    ensures HidesExcludedCardIds(level) ==>
      forall f :: f in ScopedLink(base, itemType, level) ==> f.input.name != ExcludedCardIdsName
  {
    ScopedLinkMembers(base, itemType, level);
  }

  /** When `item_type` is among the kept fields and the caller's tab has no `id` field, it is second. */
  lemma ItemTypeComesSecond(base: seq<Field>, itemType: string, level: int)
    requires forall f :: f in base ==> f.input.name != IdName
    requires exists f :: f in base && f.input.name == ItemTypeName && KeepsLinkField(f, itemType, level)
    ensures |ScopedLink(base, itemType, level)| >= 2
    ensures ScopedLink(base, itemType, level)[1].input.name == ItemTypeName
  {
    var kept := KeptLinkFields(base, itemType, level);
    ScopedLinkOrder(base, itemType, level);
    var f :| f in base && f.input.name == ItemTypeName && KeepsLinkField(f, itemType, level);
    assert f in OfRank(kept, 1);
    var group := OfRank(kept, 1);
    assert group[0] in group;
  }

  /**
   * A card C under B under the root A is at level 3: it keeps its `card` tab,
   * and its `link` tab shows neither `excluded_card_ids` (level 3) nor
   * `is_pinned` (a card).
   */
  lemma LevelThreeCardExample(fields: Schema)
    requires CardTab in fields && LinkTab in fields
    ensures
      var items := [MenuItem("A", "link", None), MenuItem("B", "link", Some("A")), MenuItem("C", "card", Some("B"))];
      && ChainEnds(items, items[2], 2)
      && NestingLevel(items, items[2], 1, 2) == 3
      && CardTab in ScopeSchema(fields, "card", 3)
      && LinkTab in ScopeSchema(fields, "card", 3)
      && forall f :: f in ScopeSchema(fields, "card", 3)[LinkTab] ==>
           f.input.name != IsPinnedName && f.input.name != ExcludedCardIdsName
  {
    var items := [MenuItem("A", "link", None), MenuItem("B", "link", Some("A")), MenuItem("C", "card", Some("B"))];
    assert FirstWithId(items, "B") == Some(items[1]);
    assert FirstWithId(items, "A") == Some(items[0]);
    ScopedLinkHidesFields(fields[LinkTab], "card", 3);
  }

  // ---------------------------------------------------------------------------
  // The pipeline as the component runs it
  // ---------------------------------------------------------------------------

  /**
   * The body of the effect: copy `fields`, then run the steps on the copy in
   * the component's order, for the item whose id is `dataId` at its nesting level.
   */
  method ScopeFields(fields: Schema, items: seq<MenuItem>, dataId: string, ghost bound: nat)
    returns (scoped: Schema)
    requires FirstWithId(items, dataId).Some?
    requires ChainEnds(items, FirstWithId(items, dataId).value, bound)
    ensures
      var item := FirstWithId(items, dataId).value;
      scoped == ScopeSchema(fields, item.itemType, NestingLevel(items, item, 1, bound))
  {
    var clonedFields := fields;
    clonedFields := AddIdField(clonedFields);

    var itemById := FirstWithId(items, dataId).value;
    var nestingLevel := NestingLevel(items, itemById, 1, bound);

    clonedFields := HandleCardFieldsDisplay(clonedFields, itemById.itemType, nestingLevel);
    clonedFields := HandleIsPinnedDisplay(clonedFields, itemById.itemType, nestingLevel);
    clonedFields := HandleExcludeCardFieldDisplay(clonedFields, nestingLevel);
    clonedFields := PrioritizeItemTypeInput(clonedFields);

    StepsComputeScopeSchema(fields, itemById.itemType, nestingLevel);
    scoped := clonedFields;
  }

  // ---------------------------------------------------------------------------
  // Tab error indicator
  // ---------------------------------------------------------------------------

  /**
   * `errors.items`: `None` when `errors` or `errors.items` is missing; otherwise
   * a sparse array whose entry i, where present, holds the keys of item i's
   * error object.
   */
  type ItemErrors = Option<seq<Option<set<string>>>>

  /** `errors.items[itemIndex]`; `None` where JavaScript reads `undefined`, as at index -1. */
  function ErrorsAt(errors: ItemErrors, itemIndex: int): Option<set<string>>
  {
    if errors.Some? && 0 <= itemIndex < |errors.value| then errors.value[itemIndex] else None
  }

  /** `hasItemError`: the item at `itemIndex` has an error object. */
  predicate HasItemError(errors: ItemErrors, itemIndex: int)
  {
    ErrorsAt(errors, itemIndex).Some?
  }

  /** `fields[key].map(field => field?.input?.name)`. */
  function InputNames(tab: seq<Field>): (r: seq<string>)
    ensures |r| == |tab|
    ensures forall i :: 0 <= i < |tab| ==> r[i] == tab[i].input.name
  {
    seq(|tab|, i requires 0 <= i < |tab| => tab[i].input.name)
  }

  /**
   * `hasTabError(key)`: whether some error key of the item is the input name
   * of a field of the tab. It reads the caller's `fields[key]`, not the scoped tab.
   */
  function HasTabError(errors: ItemErrors, itemIndex: int, fields: Schema, key: string): (r: bool)
    requires HasItemError(errors, itemIndex) ==> key in fields
    ensures r <==>
      && HasItemError(errors, itemIndex)
      && exists f :: f in fields[key] && f.input.name in ErrorsAt(errors, itemIndex).value
    ensures itemIndex < 0 ==> !r
  {
    if !HasItemError(errors, itemIndex) then false
    else
      var errorFieldKeys := ErrorsAt(errors, itemIndex).value;
      var tabFieldKeys := InputNames(fields[key]);
      var hasError := exists name :: name in errorFieldKeys && name in tabFieldKeys;
      assert hasError ==> exists f :: f in fields[key] && f.input.name in errorFieldKeys by {
        if hasError {
          var name :| name in errorFieldKeys && name in tabFieldKeys;
          var i :| 0 <= i < |tabFieldKeys| && tabFieldKeys[i] == name;
          assert fields[key][i] in fields[key];
        }
      }
      assert (exists f :: f in fields[key] && f.input.name in errorFieldKeys) ==> hasError by {
        if f :| f in fields[key] && f.input.name in errorFieldKeys {
          var i :| 0 <= i < |fields[key]| && fields[key][i] == f;
          assert tabFieldKeys[i] == f.input.name;
        }
      }
      hasError
  }

  /**
   * The indicator follows the caller's tab, not the scoped one: an error on a
   * `link` field that the pipeline hides still marks the `link` tab.
   */
  lemma TabErrorCountsHiddenFields(errors: ItemErrors, itemIndex: int, fields: Schema, f: Field, itemType: string, level: int)
    requires LinkTab in fields && f in fields[LinkTab] && !KeepsLinkField(f, itemType, level)
    requires HasItemError(errors, itemIndex) && f.input.name in ErrorsAt(errors, itemIndex).value
    ensures HasTabError(errors, itemIndex, fields, LinkTab)
    ensures f !in ScopeSchema(fields, itemType, level)[LinkTab]
  {
    ScopedLinkMembers(fields[LinkTab], itemType, level);
    assert f != IdField;
  }

  // ---------------------------------------------------------------------------
  // The not-found guard and the rendered form
  // ---------------------------------------------------------------------------

  /** JavaScript's `!x` on a number that is not NaN: true exactly for 0. */
  predicate JsNot(x: int)
  {
    x == 0
  }

  /** The not-found guard as written, `! itemIndex && itemIndex !== 0`. */
  predicate NotFoundGuardAsWritten(itemIndex: int)
  {
    JsNot(itemIndex) && itemIndex != 0
  }

  /** As written the guard lets a missing item through: `findIndex` gives -1 and the guard is false. */
  lemma MissingItemPassesGuard(items: seq<MenuItem>, id: string)
    requires forall j :: 0 <= j < |items| ==> items[j].id != id
    ensures FindIndex(items, id) == -1
    ensures !NotFoundGuardAsWritten(FindIndex(items, id))
  {
  }

  /** As written the guard never fires, whatever number `findIndex` returns. */
  lemma GuardAsWrittenNeverFires(itemIndex: int)
    ensures !NotFoundGuardAsWritten(itemIndex)
  {
  }

  /** The guard as intended: render nothing when `findIndex` did not find the item. */
  predicate ItemNotFound(itemIndex: int)
  {
    itemIndex == -1
  }

  /** The intended guard fires exactly when no item holds the id. */
  lemma ItemNotFoundIffMissing(items: seq<MenuItem>, id: string)
    ensures ItemNotFound(FindIndex(items, id)) <==> FirstWithId(items, id).None?
  {
  }

  /** What the form shows: the item's index, its scoped schema, and the error flag of each tab. */
  datatype EditView = EditView(itemIndex: nat, scoped: Schema, tabErrors: map<string, bool>)

  /**
   * The component for the item whose id is `dataId`: nothing when the item is
   * missing; otherwise the scoped tabs, each with its error indicator.
   */
  method Render(dataId: string, items: seq<MenuItem>, fields: Schema, errors: ItemErrors, ghost bound: nat)
    returns (view: Option<EditView>)
    requires FirstWithId(items, dataId).Some? ==> ChainEnds(items, FirstWithId(items, dataId).value, bound)
    ensures view.None? <==> FirstWithId(items, dataId).None?
    ensures view.Some? ==>
      var v := view.value;
      var item := FirstWithId(items, dataId).value;
      && v.itemIndex == FindIndex(items, dataId)
      && v.itemIndex < |items| && items[v.itemIndex] == item
      && v.scoped == ScopeSchema(fields, item.itemType, NestingLevel(items, item, 1, bound))
      && v.tabErrors.Keys == v.scoped.Keys
      && forall k :: k in v.tabErrors ==> v.tabErrors[k] == HasTabError(errors, v.itemIndex, fields, k)
  {
    var itemIndex := FindIndex(items, dataId);
    if ItemNotFound(itemIndex) {
      return None;
    }
    FirstWithIdAtFindIndex(items, dataId);
    var scoped := ScopeFields(fields, items, dataId, bound);
    var tabErrors := map k | k in scoped :: HasTabError(errors, itemIndex, fields, k);
    view := Some(EditView(itemIndex, scoped, tabErrors));
  }

  /** An error on `title` marks the tab holding a `title` field and no tab without one. */
  lemma TitleErrorExample(fields: Schema, title: Field)
    requires LinkTab in fields && title in fields[LinkTab] && title.input.name == "title"
    requires CardTab in fields && forall f :: f in fields[CardTab] ==> f.input.name != "title"
    ensures HasTabError(Some([Some({"title"})]), 0, fields, LinkTab)
    ensures !HasTabError(Some([Some({"title"})]), 0, fields, CardTab)
  {
  }
}
