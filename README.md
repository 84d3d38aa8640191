# Menu tree editor: item form and tree node

A Dafny model of the two admin components of the menus plugin that hold logic:

- **EditMenuItem** (`edit_menu_item.dfy`, module `EditMenuItem`). It edits one menu
  item. It finds the selected item in the flat item list, both by index
  (`findIndex`) and by value (`filter(...)[0]`). It computes the item's nesting
  level by following `parent.id` references, with the root at level 1. It derives
  the item's *scoped* copy of the field schema (tab name → ordered field
  descriptors) in five steps:
  1. put an `id` descriptor in front of `link`;
  2. delete the `card` tab unless the item is a card that is not at level 4;
  3. filter `is_pinned` out of `link` for cards and for levels 1 and 2;
  4. filter `excluded_card_ids` out of `link` at levels 3 and 4;
  5. stable-sort `link` so that `id` comes first, then `item_type`, then the rest.

  It also decides which tab labels carry an error indicator. The five steps are
  functions on schema values. The effect body that runs them on a copy is the
  method `ScopeFields`. It is proved equal to `ScopeSchema`, a tab-by-tab
  definition of the result, and the lemmas about the result are stated on
  `ScopeSchema` and `ScopedLink`. The sort is proved sorted under the comparator
  exactly as the source writes it, a permutation of its input, and stable within
  each comparator class.
- **TreeMenuItem** (`tree_menu_item.dfy`, module `TreeMenuItem`). One node of the
  tree: the class `TreeNode` holds the local `isOpen` state and its setters. The
  other parts are functions over the props and `isOpen`: the six-entry action
  list with its `hidden` flags, the box colours, and what the node renders.
- `wrappers.dfy` (module `Wrappers`): `Option` for `null`/`undefined` and `??`.

Two points of intent are read off the code itself:

- The guard at `EditMenuItem/index.js:40-42` exists to render nothing when the
  selected item is not in the list, but as written it never fires (see
  Findings). The model's `Render` uses the corrected guard.
- `is_pinned` is hidden for every card, whatever its level, as the comment at
  `EditMenuItem/index.js:162` says: a card at level 3 does not show it
  (`LevelThreeCardExample`).

## Model

| member | source | states |
|---|---|---|
| `EditMenuItem.FindIndex` | admin/src/components/EditMenuItem/index.js:25 | returns -1 exactly when no item holds the id; otherwise the index of the first item holding it |
| `EditMenuItem.FirstWithId` | admin/src/components/EditMenuItem/index.js:61 | `filter(...)[0]`: returns nothing exactly when no item holds the id; otherwise an item of the list holding it |
| `EditMenuItem.FirstWithIdAtFindIndex` | admin/src/components/EditMenuItem/index.js:105-109 | the item the handlers pick with `filter(...)[0]` is the item at the index `findIndex` returns, and both lookups miss together |
| `EditMenuItem.NestingLevel` | admin/src/components/EditMenuItem/index.js:57-66 | the level is never below the base level, and it equals the base level exactly when the item's parent is null |
| `EditMenuItem.ChainEndsHasParentChain` | admin/src/components/EditMenuItem/index.js:57-66 | when the parent chain ends within a bound, there is an explicit parent chain from the item to a root of at most bound+1 items |
| `EditMenuItem.NestingLevelCountsChain` | admin/src/components/EditMenuItem/index.js:57-66 | the level is the base level plus the number of ancestors; with base 1, a chain of k items gives level k |
| `EditMenuItem.NestingLevelBoundFree` | admin/src/components/EditMenuItem/index.js:57-66 | the level is the same whichever bound witnesses that the parent chain ends, so it depends only on the items, the item and the base level |
| `EditMenuItem.ParentIsOneLevelUp` | admin/src/components/EditMenuItem/index.js:61-65 | a non-root item is exactly one level deeper than the first item holding its parent's id, whichever bounds witness the two chains |
| `EditMenuItem.Without` | admin/src/components/EditMenuItem/index.js:141-143 | the filter keeps exactly the fields not carrying the name, and never lengthens the tab |
| `EditMenuItem.WithoutConcat` | admin/src/components/EditMenuItem/index.js:170-172 | filtering distributes over concatenation, so the kept fields keep their relative order |
| `EditMenuItem.WithoutAbsent` | admin/src/components/EditMenuItem/index.js:141-143 | filtering a tab without a field of that name leaves it unchanged |
| `EditMenuItem.Rank` | admin/src/components/EditMenuItem/index.js:185-202 | the comparator has three classes: class 0 exactly for the `id` field, class 1 exactly for `item_type` fields, class 2 for the rest |
| `EditMenuItem.OfRank` | admin/src/components/EditMenuItem/index.js:182-206 | keeps exactly the fields of one comparator class |
| `EditMenuItem.OfRankEmpty` | admin/src/components/EditMenuItem/index.js:182-206 | a class with no member in the tab selects nothing |
| `EditMenuItem.OfRankConcat` | admin/src/components/EditMenuItem/index.js:182-206 | selecting a class distributes over concatenation |
| `EditMenuItem.OfRankOfRank` | admin/src/components/EditMenuItem/index.js:182-206 | selecting a class twice is selecting it once, and selecting two different classes gives nothing |
| `EditMenuItem.CompareFields` | admin/src/components/EditMenuItem/index.js:184-205 | definition: the comparator handed to `sort`, as written; its properties are stated by `CompareFollowsRank` and `PartitionSorted` |
| `EditMenuItem.OfRankPartition` | admin/src/components/EditMenuItem/index.js:184 | the three classes together hold exactly the fields of the tab, as a multiset |
| `EditMenuItem.CompareFollowsRank` | admin/src/components/EditMenuItem/index.js:184-205 | the comparator as written returns at most 0 whenever the first field's class is not after the second's |
| `EditMenuItem.PrioritizeItemType` | admin/src/components/EditMenuItem/index.js:182-206 | the sorted tab is a permutation of the input, is sorted under the source's comparator, and keeps each class in its original order (stable) |
| `EditMenuItem.PartitionSorted` | admin/src/components/EditMenuItem/index.js:184-205 | every earlier field of the partition compares at most 0 against every later one under the source's comparator |
| `EditMenuItem.PartitionStable` | admin/src/components/EditMenuItem/index.js:184 | restricted to any one comparator class, the partition equals the input |
| `EditMenuItem.AddIdField` | admin/src/components/EditMenuItem/index.js:71-98 | no tab is added or removed; a `link` tab gets the `id` descriptor in front; every other tab is unchanged |
| `EditMenuItem.HidesCardTab` | admin/src/components/EditMenuItem/index.js:113-118 | definition: the card fields are hidden when the type is not `card` or the level is 4 |
| `EditMenuItem.HidesIsPinned` | admin/src/components/EditMenuItem/index.js:161-168 | definition: `is_pinned` is hidden for a card and at level 1 or 2 |
| `EditMenuItem.HidesExcludedCardIds` | admin/src/components/EditMenuItem/index.js:136-139 | definition: `excluded_card_ids` is hidden at level 3 or 4 |
| `EditMenuItem.HandleCardFieldsDisplay` | admin/src/components/EditMenuItem/index.js:104-120 | the `card` tab is deleted exactly when the type is not `card` or the level is 4; every remaining tab is unchanged |
| `EditMenuItem.HandleIsPinnedDisplay` | admin/src/components/EditMenuItem/index.js:152-175 | for a card or level 1 or 2, `link` loses its `is_pinned` fields; otherwise the schema is unchanged; other tabs are always unchanged |
| `EditMenuItem.HandleExcludeCardFieldDisplay` | admin/src/components/EditMenuItem/index.js:127-146 | at level 3 or 4, `link` loses its `excluded_card_ids` fields; otherwise the schema is unchanged; other tabs are always unchanged |
| `EditMenuItem.PrioritizeItemTypeInput` | admin/src/components/EditMenuItem/index.js:182-207 | only `link` changes, into a sorted, stable permutation of itself |
| `EditMenuItem.KeepsLinkField` | admin/src/components/EditMenuItem/index.js:136-173 | definition: a `link` field survives both filters when neither hide condition applies to its name |
| `EditMenuItem.KeptLinkFields` | admin/src/components/EditMenuItem/index.js:136-173 | keeps exactly the caller's `link` fields that neither filter hides |
| `EditMenuItem.ScopedLink` | admin/src/components/EditMenuItem/index.js:210-216 | definition: the reference for the scoped `link` tab, the `id` descriptor followed by the kept fields, prioritised; `StepsComputeScopedLink` ties the steps to it and `ScopedLinkShape`, `ScopedLinkMembers` and `ScopedLinkOrder` state what it holds |
| `EditMenuItem.ScopeSchema` | admin/src/components/EditMenuItem/index.js:44-218 | no tab is added; `card` is present exactly when the caller has it and the item is a card not at level 4; `link` is present exactly when the caller has it; every tab other than `link` is the caller's |
| `EditMenuItem.FiltersKeepKeptFields` | admin/src/components/EditMenuItem/index.js:136-173 | the `is_pinned` filter followed by the `excluded_card_ids` filter keeps exactly the kept fields, in order |
| `EditMenuItem.FiltersAfterIdField` | admin/src/components/EditMenuItem/index.js:210-214 | the two filters keep the injected `id` descriptor in front of the kept fields |
| `EditMenuItem.StepsComputeScopedLink` | admin/src/components/EditMenuItem/index.js:210-216 | after the five steps, `link` is the scoped `link` tab |
| `EditMenuItem.StepsComputeScopeSchema` | admin/src/components/EditMenuItem/index.js:210-218 | the five steps, in the component's order, compute the scoped schema |
| `EditMenuItem.PrioritizeAfterIdField` | admin/src/components/EditMenuItem/index.js:185-186 | sorting a tab headed by the `id` descriptor keeps the descriptor first |
| `EditMenuItem.ScopedLinkShape` | admin/src/components/EditMenuItem/index.js:93-97 | the scoped `link` tab is non-empty, starts with the `id` descriptor, and is a permutation of the descriptor plus the kept fields |
| `EditMenuItem.ScopedLinkMembers` | admin/src/components/EditMenuItem/index.js:210-216 | a field is in the scoped `link` tab exactly when it is the descriptor or a caller's field that no filter hides |
| `EditMenuItem.ScopedLinkOrder` | admin/src/components/EditMenuItem/index.js:182-206 | when the caller's `link` has no `id` field, the scoped tab is the descriptor, then the kept `item_type` fields, then the other kept fields, each group in original order |
| `EditMenuItem.ScopedLinkHidesFields` | admin/src/components/EditMenuItem/index.js:161-173 | a card or an item at level 1 or 2 shows no `is_pinned` field; an item at level 3 or 4 shows no `excluded_card_ids` field |
| `EditMenuItem.ItemTypeComesSecond` | admin/src/components/EditMenuItem/index.js:177-206 | with no caller `id` field and a kept `item_type` field, the scoped tab's second field is `item_type` |
| `EditMenuItem.LevelThreeCardExample` | admin/src/components/EditMenuItem/index.js:113-119 | a card two levels below a root is at level 3, keeps its `card` tab, and its scoped `link` tab holds no `excluded_card_ids` and no `is_pinned` field |
| `EditMenuItem.ScopeFields` | admin/src/components/EditMenuItem/index.js:44-218 | the effect body run on a copy of the schema returns the scoped schema of the selected item at its nesting level |
| `EditMenuItem.ErrorsAt` | admin/src/components/EditMenuItem/index.js:26 | definition: `errors.items[itemIndex]`, nothing when `errors.items` is missing or the index is out of range, as at -1 |
| `EditMenuItem.HasItemError` | admin/src/components/EditMenuItem/index.js:26 | definition: `hasItemError`, the item's index has an error entry |
| `EditMenuItem.InputNames` | admin/src/components/EditMenuItem/index.js:34 | the names list has one entry per field of the tab, in order |
| `EditMenuItem.HasTabError` | admin/src/components/EditMenuItem/index.js:28-38 | true exactly when the item's index has an error entry and some field of the caller's (unscoped) tab carries one of its error keys; never true at index -1 |
| `EditMenuItem.TabErrorCountsHiddenFields` | admin/src/components/EditMenuItem/index.js:34 | an error on a `link` field that the pipeline hides still marks the `link` tab, although the field is not on the scoped tab |
| `EditMenuItem.TitleErrorExample` | admin/src/components/EditMenuItem/index.js:28-38 | an error on `title` marks a tab holding a `title` field and not a tab without one |
| `EditMenuItem.JsNot` | admin/src/components/EditMenuItem/index.js:40 | definition: JavaScript's `!` on a number, true exactly for 0 |
| `EditMenuItem.NotFoundGuardAsWritten` | admin/src/components/EditMenuItem/index.js:40 | definition: the guard `! itemIndex && itemIndex !== 0` as written |
| `EditMenuItem.GuardAsWrittenNeverFires` | admin/src/components/EditMenuItem/index.js:40-42 | the guard as written is false for every number, so it never returns `null` |
| `EditMenuItem.MissingItemPassesGuard` | admin/src/components/EditMenuItem/index.js:40-42 | for an id not in the list, `findIndex` gives -1 and the guard as written does not fire |
| `EditMenuItem.ItemNotFound` | admin/src/components/EditMenuItem/index.js:25 | definition: the corrected guard, `findIndex` returned -1 |
| `EditMenuItem.ItemNotFoundIffMissing` | admin/src/components/EditMenuItem/index.js:25 | the corrected guard fires exactly when no item holds the selected id |
| `EditMenuItem.Render` | admin/src/components/EditMenuItem/index.js:40-258 | renders nothing exactly when the item is missing; otherwise shows the index `findIndex` returns, which holds the item, its scoped schema, and one error flag per scoped tab, each flag being `hasTabError` |
| `Wrappers.Coalesce` | admin/src/components/TreeMenuItem/index.js:37-40 | `??` gives the value when there is one and the default otherwise |
| `TreeMenuItem.Actions` | admin/src/components/TreeMenuItem/index.js:49-98 | the action list always has six entries |
| `TreeMenuItem.VisibleEffects` | admin/src/components/TreeMenuItem/index.js:49-98 | an effect is listed exactly when some entry that is not hidden carries it, and the list is never longer than the entries; the assumed behaviour of `Toolbar` |
| `TreeMenuItem.VisibleActionsAre` | admin/src/components/TreeMenuItem/index.js:49-98 | the visible actions, in order: add submenu unless at max depth, move down unless last, move up unless first, delete always, then the single toggle that flips `isOpen` |
| `TreeMenuItem.VisibleTail` | admin/src/components/TreeMenuItem/index.js:77-97 | delete is always visible, followed by exactly one visible toggle |
| `TreeMenuItem.DefaultOpenNode` | admin/src/components/TreeMenuItem/index.js:133-152 | with `defaultProps`, an open node renders no toolbar, because `isActive` defaults to false, and shows its children in `neutral0`/`transparent`; only "Show children" is hidden among its entries |
| `TreeMenuItem.ExactlyOneToggleVisible` | admin/src/components/TreeMenuItem/index.js:86-97 | exactly one of "Show children" and "Hide children" is visible, and the visible one sets `isOpen` to its negation |
| `TreeMenuItem.BoxColors` | admin/src/components/TreeMenuItem/index.js:29-40 | with errors, background `danger100` and border `danger600`; otherwise `neutral0` and `transparent` |
| `TreeMenuItem.TreeNode.constructor` | admin/src/components/TreeMenuItem/index.js:27 | a node starts expanded |
| `TreeMenuItem.TreeNode.Expand` | admin/src/components/TreeMenuItem/index.js:90 | afterwards the node is open, whatever it was before |
| `TreeMenuItem.TreeNode.Collapse` | admin/src/components/TreeMenuItem/index.js:96 | afterwards the node is closed, whatever it was before |
| `TreeMenuItem.AfterEffect` | admin/src/components/TreeMenuItem/index.js:86-97 | definition: `setIsOpen(true)` and `setIsOpen(false)` set `isOpen`; the container callbacks leave it alone |
| `TreeMenuItem.TreeNode.Click` | admin/src/components/TreeMenuItem/index.js:86-97 | clicking an action runs its effect on `isOpen`; the container callbacks leave it unchanged |
| `TreeMenuItem.TreeNode.View` | admin/src/components/TreeMenuItem/index.js:100-137 | the toolbar is shown exactly while active and holds the action list; children are shown exactly while open; the colours follow `hasErrors` |
| `TreeMenuItem.VisibleToggleFlips` | admin/src/components/TreeMenuItem/index.js:86-97 | clicking whichever toggle is visible flips `isOpen` |
| `TreeMenuItem.ChildrenShownIffHideVisible` | admin/src/components/TreeMenuItem/index.js:87-93 | the node is open exactly when "Hide children" is visible and "Show children" is hidden |
| `TreeMenuItem.ToggleIdempotent` | admin/src/components/TreeMenuItem/index.js:90-96 | each toggle sets a fixed value, so running it twice is running it once |
| `TreeMenuItem.ToggleTwice` | admin/src/components/TreeMenuItem/index.js:27-136 | for an active node, whose toolbar is on screen: after a new node's user clicks "Hide children" and then "Show children", the node is open, shows its children and shows the toolbar of an open node (the closed state in between is asserted in the body) |

## Findings

| source | as written | input that shows it | evidently intended | confidence | as-written member | corrected member |
|---|---|---|---|---|---|---|
| admin/src/components/EditMenuItem/index.js:40-42 | `! itemIndex && itemIndex !== 0` is false for every number (`GuardAsWrittenNeverFires`), so the guard never returns `null` | a selected id that no item holds: `findIndex` returns -1, `!(-1)` is false, the form renders, and the effect then reads `item_type` of `undefined` | render nothing when `findIndex` returns -1 | high; not executed | `EditMenuItem.MissingItemPassesGuard` | `EditMenuItem.ItemNotFoundIffMissing` |

## Left out

- React plumbing is not modelled: `useState`/`useEffect` scheduling, the effect's dependency list, JSX, tabs, panels and styled wrappers. Before the first effect runs, the form renders the unscoped `fields`; the model gives only the state after the effect.
- The JSON deep copy is a value copy. Values cannot alias in the model, so the caller's `fields` cannot change.
- A schema is a map. The order of `Object.keys` (the tab order) is not modelled.
- Every field has `input.name`, as the sort's comparator requires. Fields without `input`, which the filters' optional chaining would keep, are not modelled. Neither is a non-array `link` (the `Array.isArray` check at :95).
- Cyclic or dangling parent chains are excluded by the `ChainEnds` precondition. The source recurses without end on a cycle and throws on a missing parent.
- The three handlers each recompute the item and its nesting level. The model computes them once; the results are the same.
- `EditMenuItem.PrioritizeItemType`: if the caller's `link` already has an `id` field, the comparator returns -1 both ways for the two `id` fields, so the JavaScript engine may order them either way. The model keeps their original order, and in the model the other properties (sorted, permutation, descriptor first) still hold. The program gives no such guarantee: with an inconsistent comparator ECMAScript leaves the order implementation-defined, so an engine may put the caller's `id` field ahead of the descriptor.
- `EditMenuItem.Render`: `Render` uses the corrected not-found guard (see Findings) and does not reproduce the crash of the code as written.
- `errors.items[i]` is a set of error keys. Any error object counts as present, as `!!` does for an empty object.
- Translation (`formatMessage`, `getTrad`, `camelToTitle`) is external. Action labels are their default messages.
- `serializeFields`, `FormLayout`, `getBoxProps`, `useMenuData`, `menuItemProps` and `Toolbar` are defined outside the two modelled files. How the toolbar uses `hidden` is assumed: `VisibleEffects` lists the actions that are not hidden.
- The four container callbacks (`onAddSubmenu`, `onMoveDown`, `onMoveUp`, `onDelete`) and `onClick` have no local effect. What they do belongs to the tree container.
- The node's avatar, the "(card)" badge and the "Untitled" placeholder are display only.
- Maximum depth is not enforced here. `isMaxDepth` arrives as a prop.
- `TreeMenuItem.Actions`: its own contract states only the length. The `hidden` flag of each entry is stated by `VisibleActionsAre` and `ExactlyOneToggleVisible`.
- PropTypes and the unused `lodash` import are not modelled.
