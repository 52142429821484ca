# Keyword filters and closest hit node (ArcheryLocationalDamage, `src/Utils.h`)

This project models the two pieces of `src/Utils.h` that hold real logic and
proves their properties in Dafny.

1. **`StringFilterList`, the keyword filter evaluator** (`string_filter.dfy`, module `Filters`).
   It is a class with the ordered filter list `data` and the `flags` bitmask (`bv32`).
   `Valid()` says the flags agree with the data: the bit `1 << type` is set exactly when a filter of
   that type is stored, and no other bit is set. The constructor and `Add` establish and keep it.
   The five loop checks (`FormHasKeywords`, `FormEditorIDMatch`, `ActorHasKeywords`,
   `ArmorHasKeywords`, `ActiveEffectsHasKeywords`) are methods with the source's early-return loops,
   each proved equal to a for-all / there-exists specification predicate.
   `Evaluate` has no loop: it dispatches on the form kind to those checks and is proved equal to
   `Accepts`, the same dispatch over the specification predicates.
   Lemmas then state what these predicates mean.
   Engine objects are plain values:
   - a keyword form is its set of keyword names;
   - an actor is its own keyword form, an inventory of (is armor, count, worn, armor form) and
     an active-effect list of (inactive flag, base effect form);
   - a form is its kind (a character with its actor data, a race, or anything else) plus its editor ID.
2. **`FindClosestHitNode`** (`hit_node.dfy`, module `HitNode`). It is a recursive method with
   the source's loop over the children. It is proved equal to the pure function `Closest`,
   which is mutually recursive with `BestChild`, the loop's state after `k` children.
   Coordinates are integers, so squared distances are exact. The literal sentinel
   1000000 and the strict `<` comparisons are kept.

Regular expressions are parameters, not code:
- the editor-ID full match is `idMatches(pattern, editorID)`;
- the exclusion pattern and the player-node pattern are `Patterns.excluded` and `Patterns.playerNode`.

Near the sentinel the search acts as a range cut-off. An eligible node whose squared distance
exceeds 1000000 is reported as none with distance 1000000 when no child reports a hit, because
the initial `childMinDist` of 1000000 is then strictly smaller than the node's own distance
(lines 173, 214-217; `FarNodeDropped`).
A child result at distance 1000000 or more is never recorded (line 188).

## Model

| member | source | states |
|---|---|---|
| Filters.BitIsShift | src/Utils.h:25-31 | the flag of each type is `1 << type` (1, 2, 4 and 8 for actor, armor, magic and editor-ID filters); `kNone` has no flag because its shift is undefined |
| Filters.FlagStep | src/Utils.h:40 | setting the flag of one type turns on the bit of another type exactly when the two types are the same |
| Filters.HasTypeAppend | src/Utils.h:39 | after `push_back` a type is present exactly when it was present before or is the new filter's type |
| Filters.EmptyFlagsAgree | src/Utils.h:33-34 | an empty filter list with zero flags satisfies the flag invariant |
| Filters.AddKeepsFlagsAgree | src/Utils.h:37-41 | appending a filter and setting its type's bit keeps every flag in agreement with the data |
| Filters.FlagsDetermined | src/Utils.h:33-46 | the stored filters determine the flags: two flag words that agree with the same filters are equal |
| Filters.StringFilterList.constructor | src/Utils.h:33-34 | a new list has no filters and zero flags, and its flags agree with its data |
| Filters.StringFilterList.Add | src/Utils.h:37-41 | the filter becomes the last element, earlier elements are unchanged, its type's bit is ORed into the flags, and the flags still agree with the data; a `kNone` filter is refused by the precondition |
| Filters.StringFilterList.HasFilterType | src/Utils.h:43-46 | reading the flag answers exactly whether some stored filter has the type |
| Filters.StringFilterList.FormHasKeywords | src/Utils.h:48-62 | true iff every filter whose type is the scope (every filter when the scope is `kNone`) has keyword presence different from its negate flag |
| Filters.FormPassesAppend | src/Utils.h:48-62 | a filter of another type never makes the check fail; a filter of the scope adds exactly its own pass test |
| Filters.UnscopedImpliesScoped | src/Utils.h:48-62 | passing the unscoped (`kNone`) check implies passing every scoped check |
| Filters.FlipNegateInverts | src/Utils.h:52-58 | flipping one participating filter's negate flag inverts that filter's test and, when the others pass, the whole check |
| Filters.StringFilterList.FormEditorIDMatch | src/Utils.h:64-77 | true iff every editor-ID filter's pattern fully matches the editor ID; vacuously true with none |
| Filters.StringFilterList.ActiveEffectsHasKeywords | src/Utils.h:79-95 | true without magic filters; otherwise true iff some effect without the inactive flag has a base effect passing every magic filter |
| Filters.InactiveEffectIgnored | src/Utils.h:86-91 | inserting an inactive effect anywhere in the list never changes the magic check |
| Filters.StringFilterList.ActorHasKeywords | src/Utils.h:97-113 | true without actor filters; otherwise true iff every actor filter passes against the actor's own keywords, other types ignored |
| Filters.ActorShortCircuitRedundant | src/Utils.h:97-113 | the early return on missing actor filters gives the same answer as the loop alone |
| Filters.StringFilterList.ArmorHasKeywords | src/Utils.h:115-136 | true without armor filters; otherwise true iff some inventory entry is an armor with count above zero, worn, and passing every armor filter |
| Filters.ArmorNeedsWornArmor | src/Utils.h:115-136 | with armor filters present and no worn armor the armor check is false |
| Filters.ArmorOrderIrrelevant | src/Utils.h:124-133 | reordering the inventory (same multiset of entries) never changes the armor check |
| Filters.AddOtherTypeKeepsArmor | src/Utils.h:37-41 | adding a filter of another type leaves the armor check unchanged |
| Filters.StringFilterList.Evaluate | src/Utils.h:138-155 | a character is accepted iff actor, armor and magic checks all hold; a race iff the editor-ID check holds; any other form is rejected |
| Filters.EmptyListAccepts | src/Utils.h:138-155 | an empty list accepts every character and every race and rejects every other form |
| Filters.AddNarrows | src/Utils.h:37-41 | adding a filter never makes `Evaluate` accept a form it rejected before |
| HitNode.BestChild | src/Utils.h:173-196 | after the child loop, no recorded node means the distance is exactly 1000000, and any recorded distance is below 1000000 |
| HitNode.Closest | src/Utils.h:199-232 | the reported distance is at most 1000000, and it is exactly 1000000 when no node is returned |
| HitNode.FindClosestHitNode | src/Utils.h:171-233 | the search equals `Closest`; a null result reports 1000000; a returned node is an eligible node of the subtree reported with its own squared distance; no eligible node of the subtree is strictly closer |
| HitNode.ClosestSound | src/Utils.h:199-232 | a returned node lies in the subtree, is eligible (collision or player mode, not excluded, player node in player mode) and carries its own squared distance |
| HitNode.BestChildSound | src/Utils.h:177-195 | a node recorded by the child loop lies in one of the children's subtrees, is eligible and carries its squared distance; null and non-node children are skipped |
| HitNode.ClosestMinimal | src/Utils.h:186-220 | the reported distance is at most the squared distance of every eligible node of the subtree |
| HitNode.BestChildMinimal | src/Utils.h:177-195 | the child loop's distance is at most the squared distance of every eligible node below the children |
| HitNode.FindsNodeWithinSentinel | src/Utils.h:173-232 | if some eligible node is strictly closer than 1000000, a node is returned |
| HitNode.NoEligibleNode | src/Utils.h:225-232 | with no eligible node in the subtree the result is null with distance 1000000 |
| HitNode.NodeWinsTies | src/Utils.h:214-220 | an eligible node within 1000000 and no farther than any eligible descendant is returned itself, so ties go to the node |
| HitNode.FarNodeDropped | src/Utils.h:173-217 | an eligible node farther than 1000000 with no child hit gives null with 1000000 |
| HitNode.BestChildIsFirstMinimum | src/Utils.h:186-192 | the recorded hit is the result of the child it returns, the earliest child with the smallest distance: earlier children report strictly more, later ones no less; with no hit every child reports 1000000 or more (a skipped child counts as reporting 1000000) |

## Left out

- `split` (src/Utils.h:158-167): a wrapper over the standard library's regex token iterator, whose behaviour lives in that library.
- Regular-expression semantics. `std::regex_match` for editor IDs, the exclusion pattern and the player-node pattern are parameters of the model. A malformed editor-ID pattern throws when the source compiles it, and that error path is not modelled.
- Floating-point distances: coordinates and squared distances are exact integers, so float rounding is not modelled.
- Host-engine plumbing is replaced by values: `As<TESObjectARMO>`, `AsNode`, the `static_cast` to an actor, the inventory filter lambda, `GetActiveEffectList`, the smart-pointer children and the `#pragma` lines. A non-node child and a null child are both `None`.
- `StringFilter`'s default member values (`kFormEditorID`, not negated) are not a separate constructor; every filter is built with all three fields.
- `FormHasKeywords`' default argument (`kNone`, line 48) is not a default here: callers pass `NoType` explicitly. The enumerator count `kTotal` (line 15) is not a filter type and is not modelled.
- The untyped, classifier-regex variant of the filter list is not in this source file and is not modelled.
- Filters.StringFilterList.HasFilterType: requires `Valid()` and a type other than `kNone`. The source has no precondition, but the shift for `kNone` is undefined there.
