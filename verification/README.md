# Integrity Shield, modelled in Dafny

Integrity Shield is a Kubernetes admission server that lets protected resources through only
with a valid signature, and an operator that installs it. This project models the decisions
of both and proves what they guarantee, in four parts.

- **Object trees** (`Text`, `Tree`, `Keys`, `Wildcards`, `Completeness`, `Mask`, `Shifting`,
  `Idempotence`, `MaskLists`, `Extract`, `Diff`, `Compare`, `Mutation`): JSON trees are
  flattened to dotted paths, looked up, wildcard-expanded, masked, narrowed and compared. Every
  verdict about an object rests on these operations agreeing.
- **The admission decision** (`Pattern`, `RuleTable`, `Policy`, `Matching`, `Hiding`, `Signature`,
  `Patch`, `Validation`, `Handler`, `Status`): which profiles protect a request, when a signature
  counts, the staged decision with its overrides, the label and the JSON Patch that carries it,
  the statistics.
- **Caches** (`Cache`, `RunData`, `Admission`): the expiring cache as a refinement of a log,
  the list loaders over it, the rule table that has to equal its recomputation, and the
  results that span a whole request.
- **The operator** (`Reconcile`, `Convergence`): one `Reconcile` call as a transition of the
  cluster, its safety, and its progress over runs in which API calls fail at will.

Objects whose methods update their fields are classes, loops are methods, and lists that the
code rewrites in place are arrays; each is proved against a function or relation about which
the lemmas speak. Go's map iteration order is an arbitrary choice, so results that depend on
it are relations (`RavelOf`, `IsDiff`), proved to determine one result where they do.
Regular expressions, cryptography, label selectors, parsing, the API server and its dry run
are parameters. The clock is any monotone one.

Where the code does less than one might expect, the model follows the code; the exact condition
is proved, beside an input that shows it where one is not evident:

- A comma list that ends in `*` is taken as one prefix and matches no comma-free value, although
  `docs/README_FOR_RESOURCE_SIGNING_PROFILE.md:35` combines lists and wildcards
  (`Pattern.StarredListMisses`, `Pattern.CommaListMeaning`).
- A key with several `[]` is expanded for outer index 0 only, and one `[]` up to the first gap
  (`Completeness.SecondListMissed`, `Completeness.GapMissed`, `Completeness.CompleteExactly`).
- The expansion never ends if the quotes of a key do not parse
  (`Wildcards.UnbalancedQuoteNeverStops`, `Wildcards.StopsExactly`).
- Rewriting a key in place is idempotent only for stable keys (`Keys.DoubleIndexUnstable`,
  `Keys.RewriteIdempotent`).
- Masking twice may remove more than masking once (`Idempotence.SecondMaskingRemovesMore`,
  `Idempotence.MaskTwiceExactly`).
- Narrowing a list to an element that is not its first moves the element (`Extract.ShiftedList`,
  `Shifting.StaysExactly`, `Extract.ExtractRestrictsExactly`).
- An empty key, or one whose quotes do not parse, masks whole objects, so that a scope with a
  comma at its end covers every change (`Hiding.TrailingCommaCoversAll`,
  `Hiding.OpenQuoteCoversAll`, `Hiding.ScopeCoversAllExactly`, `Hiding.IgnoreCoversAllExactly`);
  so does such a key of the object itself when the comparison is focused elsewhere
  (`Hiding.OpenKeyHidesFocus`, `Hiding.FocusHidesExactly`).
- A value that moves between the elements of a list is no mutation (`Mutation.MovedValueUnmutated`,
  `Mutation.CoveredExactly`).
- Patterns for the scope or the user group of a request never see them (`Handler.UnknownFields`).
- Allowed difference patterns never make contents match, because removing every difference
  leaves an empty result and not an absent one (`Compare.MatchContents`).
- The context's verified flag may be on in a denied run (`Handler.VerifiedFlagAfterDenial`).
- A failing certificate clears a signer that a PGP key had named, and a mounted key that is no
  candidate may then name another (`Signature.MountedSignerTakesOver`,
  `Signature.SignerNamedExactly`).
- A ShieldConfig is never validated (`Validation.ShieldConfigUnchecked`).
- A rule table can lag behind namespaces that another handler cached (`RunData.LaggingTable`,
  `RunData.StaleExactly`), and while profiles cannot be read, the scope test lets protected
  requests through unmonitored (`Admission.FailedReadWavesThrough`,
  `Admission.ScopeAndProtectionTables`, `Admission.NotMonitoredExactly`).
- A label under a key without dots would not override an old one (`Patch.UndottedKeepsOld`), one
  to delete must not hold a slash (`Patch.SlashKeyFails`), each with its condition
  (`Patch.OverridesExactly`, `Patch.StripExactly`); an object without metadata cannot be patched
  (`Patch.NoMetadataFails`).
- Two profiles of one name with different specifications are installed without error, and one of
  them is lost (`Convergence.SuccessLeaves`).

## Model

| member | source | states |
|---|---|---|
| `Tree.NodeRoundTrip` | shield/pkg/util/mapnode/node.go:641-666 | Turning any tree into a plain value and back gives the same tree, so the masked objects that mutation checking passes on as maps lose nothing. |
| `Tree.JsonRoundTrip` | shield/pkg/util/mapnode/node.go:129-156 | The other direction: every plain value survives the tree. |
| `Tree.ChildrenMap` | shield/pkg/util/mapnode/node.go:366-383 | The children map has exactly the segments under which a node has a child, slice elements under their decimal index. |
| `Tree.RenderFromIsJoin` | shield/pkg/util/mapnode/node.go:618-639 | The path string built step by step is the dotted join of the segments when none of them is empty. |
| `Tree.RenderFromPrefix` | shield/pkg/util/mapnode/node.go:618-639 | The key of every ancestor is a string prefix of the key of its descendants. |
| `Tree.RecursiveRavel` | shield/pkg/util/mapnode/node.go:618-639 | Whatever order the maps are walked in, the map gained exactly the rendered leaf keys below the node; colliding keys hold the value of one of their leaves. |
| `Tree.Ravel` | shield/pkg/util/mapnode/node.go:613-639 | Flattening holds, under exactly the rendered leaf paths, the value of a leaf with that path; nulls and empty containers leave no trace. |
| `Tree.RavelExact` | shield/pkg/util/mapnode/node.go:613-639 | If no two leaves render to one key, the flattened map says exactly what the leaves say, both ways. |
| `Tree.RavelDeterministic` | shield/pkg/util/mapnode/node.go:613-639 | Under the same condition flattening is independent of map iteration order. |
| `Keys.IndexedSegment` | shield/pkg/util/mapnode/node.go:896-911 | A segment "name[n]" is read as the name and the index, a bare "[n]" as the index. |
| `Keys.RewriteFixpoint` | shield/pkg/util/mapnode/node.go:879-911 | The key rewrite leaves a key alone if and only if it has no quote and no dotted piece ending in a list index. |
| `Keys.RewriteIdempotent` | shield/pkg/util/mapnode/node.go:425-442 | Rewriting a key twice equals rewriting it once if and only if no segment still holds a quote or a dotted piece that ends in an index, a condition on the key alone. |
| `Keys.DoubleIndexUnstable` | shield/pkg/util/mapnode/node.go:425-442 | A key that a second rewrite changes: "a[1][2]". |
| `Keys.CsvRoundTrip` | shield/pkg/util/mapnode/node.go:883-911 | A path written with quoted segments splits back into exactly its segments, dots and doubled quotes included. |
| `Keys.QuotedLookup` | shield/pkg/util/mapnode/node.go:519-536 | A quoted path reaches its node whatever dots and quotes the segments hold, as long as none ends in a list index. |
| `Keys.WalkIsAt` | shield/pkg/util/mapnode/node.go:587-611 | A lookup that succeeds reaches the node at the path whose indices are written canonically. |
| `Keys.AtIsWalk` | shield/pkg/util/mapnode/node.go:587-611 | Every path of the tree is walkable as written. |
| `Keys.PlainRoundTrip` | shield/pkg/util/mapnode/node.go:883-911 | With keys free of dots, quotes and trailing indices, splitting a rendered path gives the path back. |
| `Keys.PlainDistinct` | shield/pkg/util/mapnode/node.go:613-639 | Such a tree never renders two leaves to one key. |
| `Keys.PathIndex` | shield/pkg/util/mapnode/node.go:519-639 | The flattened map holds v at a key if and only if looking the key up reaches a value node holding v and the key is written canonically. |
| `Keys.NonCanonicalLookup` | shield/pkg/util/mapnode/node.go:587-611 | The canonical-form condition cannot be dropped: "a.01" finds an element that no flattened key names. |
| `Wildcards.BuildKeys` | shield/pkg/util/mapnode/node.go:467-479 | One round of the expansion builds the concrete key and the key whose existence decides the round. |
| `Wildcards.GenerateKeyList` | shield/pkg/util/mapnode/node.go:450-501 | For every tree and every key on which the expansion stops: the concrete keys with all outer indices 0 and the innermost index running over the existing elements, in order. |
| `Wildcards.StopsExactly` | shield/pkg/util/mapnode/node.go:450-501 | For every tree and key the expansion stops if and only if the quotes in front of the last brackets parse. |
| `Wildcards.QuoteFreeStops` | shield/pkg/util/mapnode/node.go:450-501 | In particular it stops for every key without quotes. |
| `Wildcards.UnbalancedQuoteNeverStops` | shield/pkg/util/mapnode/node.go:450-501 | A concrete key on which it never stops, in any tree. |
| `Wildcards.CsvAppend` | shield/pkg/util/mapnode/node.go:883-911 | An index appended to a quoted key is one more segment, and mends no key whose quotes do not parse. |
| `Wildcards.CheckAtMeansChild` | shield/pkg/util/mapnode/node.go:481-498 | The deciding key exists exactly when the node named by the part before the last brackets has that child, or when that part does not parse. |
| `Wildcards.ExpansionSound` | shield/pkg/util/mapnode/node.go:450-501 | Every emitted key extends an existing element and no key is emitted twice. |
| `Wildcards.ExpansionOverList` | shield/pkg/util/mapnode/node.go:450-501 | Over an n-element list the result is exactly the n concrete keys, in order. |
| `Completeness.EmittedIndices` | shield/pkg/util/mapnode/node.go:450-501 | For every choice of one index per pair of brackets: the key with these indices is emitted if and only if all but the innermost are 0 and the innermost is below the number of rounds. |
| `Completeness.ConcreteInjective` | shield/pkg/util/mapnode/node.go:467-479 | Different indices give different keys, so nothing is listed under the name of something else. |
| `Completeness.CompleteExactly` | shield/pkg/util/mapnode/node.go:450-501 | Every element the brackets can stand for is listed, if and only if no element exists at a non-zero outer index and the innermost indices have no gap. |
| `Completeness.OneWildcardComplete` | shield/pkg/util/mapnode/node.go:450-501 | One pair of brackets over a list always lists all of it. |
| `Completeness.SecondListMissed` | shield/pkg/util/mapnode/node.go:450-501 | "a[].b[]" misses the existing element "a.1.b.0" of a list of lists. |
| `Completeness.GapMissed` | shield/pkg/util/mapnode/node.go:450-501 | "a[]" over a map with the keys "0" and "2" stops at the gap. |
| `Wildcards.ValidateKeyList` | shield/pkg/util/mapnode/node.go:425-442 | The caller's array ends up holding the rewritten keys, and the result is their expansion, in order. |
| `Wildcards.RewriteTwice` | shield/pkg/util/mapnode/node.go:425-442 | A second use of the same array finds the same keys if and only if all of them are stable. |
| `Wildcards.ConcreteNoWildcard` | shield/pkg/util/mapnode/node.go:425-442 | Keys without brackets stand for themselves in every tree. |
| `Mask.KeyExistsInList` | shield/pkg/util/mapnode/diff.go:166-192 | Found exactly when some rule lists the key, and then the first such rule. |
| `Mask.StarExpands` | shield/pkg/util/mapnode/diff.go:176-192 | Each star of a rule becomes ".*" in its regular expression, and everything else is taken over. |
| `Mask.RuleKinds` | shield/pkg/util/mapnode/diff.go:176-192 | What a rule lists: the empty one and a single star everything, one without stars itself only, any other what its regular expression finds, besides itself. |
| `Mask.MaskAt` | shield/pkg/util/mapnode/node.go:294-338 | Every node of a masked tree is the masked image of one node of the original, with no listed ancestor. |
| `Mask.MaskOnto` | shield/pkg/util/mapnode/node.go:294-338 | Conversely every unlisted node of the original survives. |
| `Mask.OriginInjective` | shield/pkg/util/mapnode/node.go:294-338 | And it survives at one place only. |
| `Mask.MaskShifts` | shield/pkg/util/mapnode/node.go:321-334 | Masking a slice element moves the later ones to smaller indices, so the next results exclude masked elements. |
| `Mask.MaskLeaves` | shield/pkg/util/mapnode/node.go:288-338 | The leaves of the masked tree are exactly the leaves without a listed ancestor-or-self, both ways, when no slice element is listed. |
| `Mask.MaskNode` | shield/pkg/util/mapnode/node.go:288-338 | Masking rewrites the caller's keys in place and prunes by their expansion in this tree. |
| `Mask.MaskIdempotent` | shield/pkg/util/mapnode/node.go:294-338 | The recursion with one list of expanded keys is idempotent when they list no slice element; with the keys expanded anew, Idempotence.MaskTwiceExactly is the result. |
| `Shifting.StaysExactly` | shield/pkg/util/mapnode/node.go:294-338 | For every tree and rule: the leaves of the masked tree are the unmasked leaves, each at its own path, if and only if no slice element that still shows something comes after a masked one. |
| `Shifting.NothingMoves` | shield/pkg/util/mapnode/node.go:294-338 | In particular when no slice element is masked at all. |
| `Idempotence.SettledExactly` | shield/pkg/util/mapnode/node.go:294-338 | Masking leaves a tree unchanged if and only if it lists none of its paths, slice elements included. |
| `Idempotence.WalkMasked` | shield/pkg/util/mapnode/node.go:294-338 | Whatever can be looked up in a masked tree can be looked up in the original, when no slice element is listed. |
| `Idempotence.ExpansionShrinks` | shield/pkg/util/mapnode/node.go:288-338 | In the masked tree a wildcard key expands to a prefix of what it expanded to before. |
| `Idempotence.MaskTwiceExactly` | shield/pkg/util/mapnode/node.go:288-338 | Masking twice, the keys expanded again in the masked tree, changes nothing more if and only if no wildcard key whose elements are all gone lists a remaining path literally. |
| `Idempotence.MaskTwice` | shield/pkg/util/mapnode/node.go:288-338 | Mask is idempotent for stable keys, wildcards included, when no map key holds a bracket and no wildcard key a star. |
| `Idempotence.SecondMaskingRemovesMore` | shield/pkg/util/mapnode/node.go:288-338 | An object with the map key "a[].b" and the keys "a" and "a[].b": a second masking removes what the first left. |
| `MaskLists.CleanKey` | shield/pkg/util/mapnode/node.go:425-442 | A key without brackets and without two quotes in a row is stable, and rewritten it holds neither quotes nor wildcards. |
| `MaskLists.MutationMaskOneRule` | shield/pkg/shield/utilMutation.go:45-57 | The built-in mask of mutation checking is stable and free of wildcards, quoted keys included. |
| `MaskLists.MessageMaskOneRule` | shield/pkg/shield/signVerifier.go:581-602 | So is the built-in mask of signature checking. |
| `MaskLists.MutationMaskExactly` | shield/pkg/shield/utilMutation.go:45-57 | Mutation checking leaves out exactly the eleven keys, named one by one. |
| `MaskLists.MessageMaskExactly` | shield/pkg/shield/signVerifier.go:581-602 | Signature checking leaves out exactly the twenty keys, named one by one. |
| `MaskLists.EntryNames` | shield/pkg/util/mapnode/node.go:879-911 | A built-in key, a dotted path and a quoted segment, is rewritten to exactly the path followed by the segment without its quotes. |
| `Extract.ExtractNode` | shield/pkg/util/mapnode/node.go:245-285 | The caller's filters are rewritten in place, the masked keys are exactly the dropped leaf keys and parents, and the result is the tree masked by them. |
| `Extract.QuoteFreeMasksStop` | shield/pkg/util/mapnode/node.go:245-285 | Masking by the dropped keys terminates in every tree whose flattened keys hold no quote. |
| `Extract.DroppedKeys` | shield/pkg/util/mapnode/node.go:252-282 | Collects exactly the keys without a filter prefix and the parents no filter reaches. |
| `Extract.KeptHasNoDroppedAncestor` | shield/pkg/util/mapnode/node.go:252-282 | A kept leaf never lies below a dropped parent, because two prefixes of one string are comparable. |
| `Extract.DroppedMeaning` | shield/pkg/util/mapnode/node.go:252-285 | Where flattened keys hold no quotes, brackets or stars, the dropped keys mean themselves: no other key gets listed. |
| `Extract.ManagedFieldsPlain` | shield/pkg/util/mapnode/node.go:613-639 | A map key with quotes over an empty map, as in managed fields, does not count: it leaves no flattened key. |
| `Extract.PlainDistinctPaths` | shield/pkg/util/mapnode/node.go:613-639 | Segments without dots on the way to leaves keep the key of a leaf apart from every other key on the way to one. |
| `Extract.MaskKeepsPlain` | shield/pkg/util/mapnode/node.go:294-338 | Masking keeps such segments, so the masked object never has two leaves under one key. |
| `Extract.ExtractRestricts` | shield/pkg/util/mapnode/node.go:245-338 | Flattening the extracted tree gives exactly the flattened tree restricted to keys that have a filter as prefix, as long as no kept slice element comes after a dropped one. |
| `Extract.KeepsPlacesMeaning` | shield/pkg/util/mapnode/node.go:245-338 | Its condition from the tree and the filters alone. |
| `Extract.ExtractRestrictsExactly` | shield/pkg/util/mapnode/node.go:245-338 | For leaves without dots in their segments the condition is exact: the result is that restriction if and only if no kept slice element comes after a dropped one. |
| `Extract.ShiftedList` | shield/pkg/util/mapnode/node.go:245-338 | A list of two narrowed to its second element: the element moves to index 0, and the result is not the restriction. |
| `Extract.SliceFreeNoElement` | shield/pkg/util/mapnode/node.go:245-338 | Slice-free trees always meet the condition of the restriction result. |
| `Diff.ExtractComparableMap` | shield/pkg/util/mapnode/node.go:760-794 | Keys whose values differ in type become differences and leave both maps; nothing else does. |
| `Diff.RemoveKeyDiffsInListNode` | shield/pkg/util/mapnode/node.go:914-939 | Keeps, in order and with repetitions, exactly the differences that have no twin in the list moving the same value elsewhere in it. |
| `Diff.FindDiff` | shield/pkg/util/mapnode/node.go:796-846 | The result is the difference of the two maps: absent exactly when they are equal, else each reported key once, ascending, with both values. |
| `Diff.DiffUnique` | shield/pkg/util/mapnode/node.go:796-846 | That description leaves one result, whatever order the maps are walked in. |
| `Diff.DiffSymmetric` | shield/pkg/util/mapnode/node.go:796-846 | Comparing the other way round reports the same keys with before and after swapped, for all maps. |
| `Diff.DiffWithoutLists` | shield/pkg/util/mapnode/node.go:796-846 | Without numeric middle segments the reported keys are exactly the differing ones. |
| `Diff.CancellationMeaning` | shield/pkg/util/mapnode/node.go:914-939 | What the list cancellation drops is determined by the two maps, not by the order of the changes. |
| `Diff.TypeDiffsStay` | shield/pkg/util/mapnode/node.go:760-846 | A change of type is never cancelled. |
| `Diff.NumericMiddleExactly` | shield/pkg/util/mapnode/node.go:914-939 | A key takes part in the list cancellation if and only if it has a number between two dots. |
| `Diff.SameTypeExactly` | shield/pkg/util/mapnode/node.go:760-794 | Two values have one type if and only if both are strings, both numbers, or both booleans. |
| `Compare.MatchDifference` | shield/pkg/util/mapnode/diff.go:49-70 | A pattern matches a difference of the same key with the same values, or with strings that its own strings list. |
| `Compare.Remove` | shield/pkg/util/mapnode/diff.go:96-113 | Keeps, in order, exactly the differences no pattern matches. |
| `Compare.Narrow` | shield/pkg/shield/signVerifier.go:406-415 | One object is extracted by the focus keys or, without any, masked by the mask keys; only the list in use is rewritten. |
| `Compare.WellQuotedCanNarrow` | shield/pkg/shield/signVerifier.go:406-415 | Comparison terminates for well-quoted keys and, with focus keys, objects without quotes in their flattened keys. |
| `Compare.MatchContents` | shield/pkg/shield/signVerifier.go:394-436 | Matches exactly when both objects parse and their narrowed forms flatten to equal maps; allowed difference patterns never turn a mismatch into a match; the focus keys are rewritten twice. |
| `Compare.MaskedMatchShown` | shield/pkg/shield/signVerifier.go:394-436 | A masked comparison succeeds if and only if both objects show the same values under the same keys, for every mask: wildcards expanded per object, list elements masked and the rest moved up. |
| `Compare.MaskedMatchCommon` | shield/pkg/shield/signVerifier.go:394-436 | Without any condition on keys: a match means that something shows under the same keys in both objects, with a common value under each. |
| `Compare.MaskedMatchPlain` | shield/pkg/shield/signVerifier.go:394-436 | The same for all objects without dots in the segments of their leaves, with no condition on the mask. |
| `Compare.MaskedMatchMeaning` | shield/pkg/shield/signVerifier.go:394-436 | Where no shown slice element comes after a masked one, those are the values under the unmasked keys of the objects themselves, whatever the mask keys. |
| `Compare.SameKeysBothSides` | shield/pkg/shield/signVerifier.go:409-415 | Although the second object is masked with keys the first use rewrote, stable keys without wildcards mask both by one rule. |
| `Compare.MaskedMatchOneRule` | shield/pkg/shield/signVerifier.go:394-436 | With such keys: the same values under the same keys outside one set of masked ones. |
| `Compare.FocusedMatchMeaning` | shield/pkg/shield/signVerifier.go:394-436 | A focused comparison succeeds if and only if both objects hold the same values under the keys with a focus prefix; lists may occur as long as no kept element comes after a dropped one. |
| `Compare.FocusedMatchOneRule` | shield/pkg/shield/signVerifier.go:394-436 | Stable focus keys without wildcards focus both objects on one and the same prefixes. |
| `Compare.SliceFreeFocusable` | shield/pkg/shield/signVerifier.go:394-436 | Objects without lists always meet the condition. |
| `Mutation.FilterDiff` | shield/pkg/util/mapnode/diff.go:115-134 | Splits the differences, each part in order, by whether a key, followed by a star, lists them as a pattern; the caller's keys get the star appended in place. |
| `Mutation.GenerateMaskKeys` | shield/pkg/shield/utilMutation.go:249-264 | The keys of the rules that apply to the five fields it rebuilds, in a fresh list, so later rewrites never reach the profile. |
| `Mutation.IgnoreRulesExactly` | shield/pkg/apis/resourcesigningprofile/v1alpha1/types.go:152-166 | The rules that count are the ignore and unprotect rules one of whose patterns matches the request. |
| `Mutation.IgnoreKeysExactly` | shield/pkg/shield/utilMutation.go:249-264 | A key counts if and only if it is an attribute of such a rule. |
| `Mutation.MaskBoth` | shield/pkg/shield/utilMutation.go:73-101 | Old and new object are masked by one and the same rule, although the first use rewrites the list. |
| `Mutation.CoveredExactly` | shield/pkg/shield/utilMutation.go:193-247 | All differences are covered if and only if every key that differs, and is not cancelled within its list, is listed by a key with a star. |
| `Mutation.UnmutatedKeeps` | shield/pkg/shield/utilMutation.go:43-137 | An unmutated update keeps the value under every key that has no numeric middle segment, is not masked and is not ignored. |
| `Mutation.NoElementMasked` | shield/pkg/shield/utilMutation.go:45-57 | The built-in mask never takes an element out of a list, in any object. |
| `Mutation.ChangeIsMutation` | shield/pkg/shield/utilMutation.go:43-137 | A value that is gone or changed, at a path outside the eleven keys, without a numeric middle segment and not ignored, makes the update a mutation. |
| `Mutation.MovedValueUnmutated` | shield/pkg/shield/utilMutation.go:193-247 | A value that moves from one list element to another leaves no difference, so the update counts as unmutated. |
| `Mutation.GetMAResult` | shield/pkg/shield/utilMutation.go:193-247 | Not mutated exactly when every difference of the two objects is covered by one of the keys as they were given. |
| `Mutation.Eval` | shield/pkg/shield/utilMutation.go:43-137 | An update counts as unmutated exactly when both objects parse and every difference of the masked objects is covered by an applicable ignore key; no existing list changes. |
| `Pattern.SplitRule` | shield/pkg/common/pattern.go:123-131 | One trimmed, comma-free pattern per piece of the list, in order. |
| `Pattern.TrimmedExactly` | shield/pkg/common/pattern.go:31-49 | Trimming takes white space off both ends and nothing else. |
| `Pattern.PaddedPattern` | shield/pkg/common/pattern.go:31-49 | White space around a pattern does not count. |
| `Pattern.ExactPattern` | shield/pkg/common/pattern.go:31-49 | Without a comma and without a star at its end a pattern matches the value itself only, and "-" also the empty value. |
| `Pattern.PrefixPattern` | shield/pkg/common/pattern.go:31-49 | With stars at its end it matches exactly the values it is a prefix of. |
| `Pattern.CommaListMeaning` | shield/pkg/common/pattern.go:31-49 | A comma list matches a comma-free value if and only if one of its patterns does and the list does not end in a star. |
| `Pattern.StarredListMisses` | shield/pkg/common/pattern.go:31-49 | "a,b*" does not match "b1", although "b*" does. |
| `Pattern.MatchRequest` | shield/pkg/common/profile.go:137-175 | A request pattern matches exactly when it has at least one field and all its fields match; under strict matching the name must be equal, and present for a cluster request. |
| `Pattern.RequestMatchesExactly` | shield/pkg/common/profile.go:137-175 | Field by field: at least one field is given, each given one matches the request's field of the same name, and the name literally under strict matching. |
| `Pattern.MatchWithRequest` | shield/pkg/common/profile.go:85-125 | A rule applies exactly when some match pattern matches and no exclude pattern does. |
| `Pattern.StrictNeedsName` | shield/pkg/common/profile.go:106-175 | A strictly matched cluster request is named, without wildcard, by one of the rule's patterns. |
| `Handler.UnknownFields` | shield/pkg/common/reqcontext.go:75-90 | Requests have no fields "Scope" and "UserGroup": a pattern that names one of them applies only if it matches the empty string there. |
| `Handler.RequestFields` | shield/pkg/common/reqcontext.go:75-90 | The fields of a request under the names that patterns use. |
| `RuleTable.MatchProfile` | shield/pkg/apis/resourcesigningprofile/v1alpha1/types.go:83-120 | Force rules win over ignore rules, which win over protect rules; for a cluster request and a profile outside the shield's namespace all of them match strictly, otherwise none does; the rule handed back is the first that applies in the deciding list. |
| `RuleTable.FirstRuleOnly` | shield/pkg/apis/resourcesigningprofile/v1alpha1/types.go:83-120 | There is one first rule, it is in the list and applies. |
| `RuleTable.TenantNeedsName` | shield/pkg/apis/resourcesigningprofile/v1alpha1/types.go:83-120 | A profile outside the shield's namespace protects a cluster-scoped resource only by a rule that gives its exact name. |
| `RuleTable.SelectsName` | shield/pkg/common/common.go:124-128 | A selector takes the names it includes and does not exclude. |
| `RuleTable.SelectsNamespace` | shield/pkg/common/common.go:110-122 | Without names it goes by labels alone, with names by them alone. |
| `RuleTable.MatchNamespaceList` | shield/pkg/shield/ruleTable.go:109-120 | The names of exactly the selected namespaces, in order. |
| `RuleTable.GetUnionOfArrays` | shield/pkg/common/pattern.go:64-79 | The union function whose members UnionMember gives. |
| `RuleTable.UnionMember` | shield/pkg/common/pattern.go:64-79 | The union has exactly the members of both lists. |
| `RuleTable.TargetNamespaces` | shield/pkg/shield/ruleTable.go:43-53 | A profile targets the namespaces it selects if it lives in the shield's namespace, and its own otherwise. |
| `RuleTable.NewRuleTable` | shield/pkg/shield/ruleTable.go:36-68 | The loop builds one item per profile, in order, with the common ignore rules merged in and its targets. |
| `RuleTable.CountIsZero` | shield/pkg/shield/ruleTable.go:74-80 | Zero targets in all exactly when no item targets anything. |
| `RuleTable.CheckItem` | shield/pkg/shield/ruleTable.go:93-104 | Per item: protected or ignored, and neither for a namespaced request outside its targets. |
| `RuleTable.CheckIfProtected` | shield/pkg/shield/ruleTable.go:89-107 | Returns, in table order, exactly the profiles of the protecting items, and whether some item ignored the request. |
| `RuleTable.NamespacesAreTargets` | shield/pkg/shield/ruleTable.go:36-68 | The table's namespaces are exactly the targets of its items. |
| `RuleTable.ProtectedIsInScope` | shield/pkg/shield/checkFunctions.go:31-46 | A namespaced request that the table protects is in a namespace the table targets. |
| `RuleTable.ItemVerdict` | shield/pkg/apis/resourcesigningprofile/v1alpha1/types.go:83-130 | A profile protects exactly when it targets the request and a force rule matches, or a protect rule does and neither its own nor a common ignore rule. |
| `RuleTable.CommonIgnoreMonotone` | shield/pkg/apis/resourcesigningprofile/v1alpha1/types.go:122-130 | More common ignore rules never protect more, and never change what a force rule decides. |
| `Policy.GetSignerMap` | shield/pkg/common/policy.go:65-80 | Every signer name has an entry, and it is that of the last signer with the name. |
| `Policy.Match` | shield/pkg/common/policy.go:137-179 | True if and only if some policy for the namespace lists a signer with a matching subject whose key config occurs in a verified path; the policy handed back is such a one. |
| `Policy.PolicyApplies` | shield/pkg/common/policy.go:140-152 | Whether a policy is for a namespace, or for cluster scope. |
| `Policy.AppliesExactly` | shield/pkg/common/policy.go:140-152 | Cluster policies are for cluster scope only, all others for the namespaces they include and do not exclude. |
| `Policy.AcceptsExactly` | shield/pkg/common/policy.go:137-179 | Written out: a policy for the namespace lists the name of a signer, no later signer has that name, all eleven fields of one of its subjects match, and a verified path lies under its key config. |
| `Policy.AcceptsWithDistinctNames` | shield/pkg/common/policy.go:137-179 | With distinct signer names the listed signer is simply the one that has the name. |
| `Policy.GetCandidatePubkeys` | shield/pkg/common/policy.go:91-135 | The two candidate lists hold, in order and without overlap, exactly the mounted paths that a signer of a policy for the namespace names, each by the directory it lies in. |
| `Policy.CandidateMeaning` | shield/pkg/common/policy.go:91-135 | A mounted path is a candidate if and only if a signer of an applicable policy names it, and of one kind only. |
| `Signature.GetResourceSignature` | shield/pkg/shield/sign.go:80-177 | The annotation wins over the resource signature, which wins over Helm. The signature is the stored one; its message has to match unless it is empty and there is a scope, and only then is the message generated and the scope checked. |
| `Signature.TakenFromOnly` | shield/pkg/shield/sign.go:80-140 | That leaves one signature for what is stored. |
| `Matching.MatchMessage` | shield/pkg/shield/signVerifier.go:254-360 | Exactly which of the direct comparison and the three simulations may decide, which failing step ends the search, and what each compares: the contents comparison of Compare, with the focus keys as the earlier cases left them. Only the documents of this message have to be comparable. |
| `Matching.TrialFocus` | shield/pkg/shield/signVerifier.go:254-360 | Every comparison sees the protected attributes rewritten an even number of times, at most twice per earlier case. |
| `Matching.MatchAgrees` | shield/pkg/shield/signVerifier.go:254-360 | A match means the request agrees with the message or with an object the message stands for. |
| `Matching.AgreesShows` | shield/pkg/shield/signVerifier.go:254-360 | Agreement without focus keys, whatever the parser and the keys: document and request show something under the same keys once masked, with a common value under each, and the same values altogether where no key stands for two leaves. |
| `Matching.FocusAgreement` | shield/pkg/shield/signVerifier.go:254-360 | Agreement under focus keys, wildcards and unstable keys included: the same values under the keys with a focus prefix, the focus keys expanded in each object. |
| `Matching.StableFocus` | shield/pkg/shield/signVerifier.go:254-360 | Stable attributes without wildcards read the same in every case. |
| `Matching.CheckScope` | shield/pkg/shield/signVerifier.go:109-141 | A scoped signature holds for creations and for updates of a verified object that match it outside the scope keys. |
| `Matching.ScopeKeysRoundTrip` | shield/pkg/util/mapnode/node.go:950-957 | A scope written as a comma list is read as its keys. |
| `Matching.CaseMaskExactly` | shield/pkg/shield/signVerifier.go:254-360 | What a case masks: the built-in keys, the ignored attributes where none is protected, and for a simulated object its name and status. |
| `Matching.QuotedMatchingEnds` | shield/pkg/shield/signVerifier.go:254-360 | Every comparison of a search ends when the attributes are well quoted and, with protected attributes, the compared objects have no quotes in their flattened keys. |
| `Matching.QuotedScopeEnds` | shield/pkg/shield/signVerifier.go:362-369 | The scope comparison ends when the scope keys are well quoted. |
| `Hiding.BlankExactly` | shield/pkg/util/mapnode/node.go:879-911 | A key is rewritten to the empty rule, which lists everything, if and only if it is empty, an empty pair of quotes, or its quotes do not parse. |
| `Hiding.HidesAllExactly` | shield/pkg/util/mapnode/diff.go:166-192 | A mask without stars leaves nothing of any object, if and only if one of its keys is blank in this sense. |
| `Hiding.IndifferentExactly` | shield/pkg/shield/signVerifier.go:394-436 | A mask without stars makes any two objects match, if and only if one of its keys is blank. |
| `Hiding.MessageMaskShows` | shield/pkg/shield/signVerifier.go:581-602 | No key of the built-in mask is blank. |
| `Hiding.ScopeCoversAllExactly` | shield/pkg/shield/signVerifier.go:362-369 | A scope covers every change of every object, if and only if one of its keys is blank. |
| `Hiding.TrailingCommaCoversAll` | shield/pkg/shield/signVerifier.go:362-369 | The scope "spec," has the keys "spec" and "", so every update of a verified object agrees. |
| `Hiding.IgnoreCoversAllExactly` | shield/pkg/shield/signVerifier.go:254-360 | The ignored attributes make every message match every request, if and only if one of them is blank. |
| `Hiding.OpenQuoteCoversAll` | shield/pkg/shield/signVerifier.go:254-360 | An ignored attribute with an open quote makes every message match. |
| `Hiding.BlankLeafHides` | shield/pkg/util/mapnode/node.go:245-285 | Narrowing to focus keys leaves nothing of an object that has a leaf outside the focus whose key is blank. |
| `Hiding.FocusHidesExactly` | shield/pkg/util/mapnode/node.go:245-285 | Where flattened keys hold no brackets and stars, narrowing leaves nothing if and only if one of the dropped keys is blank or they name all members of the object. |
| `Hiding.BlankLeavesMatch` | shield/pkg/shield/signVerifier.go:394-436 | Two objects that both have such a leaf match under the focus, whatever else they hold. |
| `Hiding.OpenKeyHidesFocus` | shield/pkg/shield/signVerifier.go:394-436 | Two objects with a key that opens a quote match although they differ in what is focused on. |
| `Signature.VerifyPgp` | shield/pkg/shield/signVerifier.go:148-175 | Without an error the verified paths are exactly the accepting keys, in order, and the signer is that of the last of them. |
| `Signature.VerifyX509` | shield/pkg/shield/signVerifier.go:176-227 | Likewise for certificates; a failing last path clears the signer, also one a PGP key had named. |
| `Signature.VerifyMounted` | shield/pkg/shield/signVerifier.go:229-246 | The trial names the signer of the first accepting mounted PGP key and adds no verified path. |
| `Signature.CheckGate` | shield/pkg/shield/signVerifier.go:88-141 | The message comparison and the scope comparison that come before any key: open exactly when what the signature demands holds. |
| `Signature.Verify` | shield/pkg/shield/signVerifier.go:67-252 | Nothing is verified unless message and scope conditions hold; then the verified paths are exactly the accepting candidates. |
| `Signature.Eval` | shield/pkg/shield/sign.go:179-312 | Allows if and only if the conditions hold, no key errs, some candidate loads, and the policies accept the signer with an accepting candidate path; the conditions are those of the comparisons it made, also when it denies. |
| `Signature.AllowedIsJustified` | shield/pkg/shield/sign.go:179-312 | An allowed request rests on one candidate path for its own namespace that accepted the signature and with which a policy for that namespace lists the signer. |
| `Signature.StoredMessageCompared` | shield/pkg/shield/sign.go:80-312 | No request is allowed by a signature stored with a message unless it agrees with that message or an object it stands for. |
| `Signature.AcceptingExactly` | shield/pkg/shield/signVerifier.go:148-227 | A path accepts if and only if it is a PGP key that verifies message and signature, or a certificate directory under which the signature's certificate is valid and verifies them. |
| `Signature.AllowedShowsSame` | shield/pkg/shield/sign.go:179-312 | Without protected attributes, an allowed request whose message had to match shows the values of the message, or of a simulated object, under the same keys outside the masked ones; stable ignored attributes mask both objects by one rule. |
| `Signature.AllowedSharesFocus` | shield/pkg/shield/sign.go:179-312 | With protected attributes, wildcards and unstable keys included, it holds the same values under every key with such a prefix, expanded in each object, when the two can be focused; stable attributes without wildcards focus both on the same prefixes. |
| `Signature.ScopeShowsSame` | shield/pkg/shield/sign.go:179-312 | An update allowed by a scoped signature shows the values of the old, verified object outside the keys that the scope masks. |
| `Signature.TrialNeverAllows` | shield/pkg/shield/signVerifier.go:229-246 | If no candidate accepted, the trial over all mounted keys never leads to an allowed request. |
| `Signature.SignerNamedExactly` | shield/pkg/shield/signVerifier.go:148-246 | The policy is asked about a signer that an accepting candidate names, if and only if the candidates settle the signer (an accepting last certificate or, without certificates, an accepting PGP key), or the first accepting mounted key names one that an accepting candidate names too. |
| `Signature.MountedSignerTakesOver` | shield/pkg/shield/signVerifier.go:148-246 | Keys for which it fails: a failing certificate clears the candidate's signer, and a mounted key that is no candidate names another. |
| `Signature.SignerOfAcceptingKey` | shield/pkg/shield/signVerifier.go:148-246 | Whatever the candidates do, it holds when all accepting keys, candidates or mounted, name one identity: that identity is the one the policy is asked about. |
| `Patch.SectionOps` | shield/pkg/shield/utilPatch.go:89-131 | The operations of one section, whose effect SectionMeaning gives. |
| `Patch.CreateJSONPatch` | shield/pkg/shield/utilPatch.go:79-216 | The operations of both sections, or the fixed ones for an object without metadata. |
| `Patch.SectionMeaning` | shield/pkg/shield/utilPatch.go:89-131 | On a plain section, for any values and delete keys: the operations fail exactly when a removal cannot be applied, and else leave the old values overridden by the new ones that get through. |
| `Patch.StripExactly` | shield/pkg/shield/utilPatch.go:95-104 | The removals can be applied if and only if every key they address is free of slashes, which the paths do not escape, still names a member once "~0" and "~1" are read as escapes, and meets a member no earlier one took; then exactly these members go. |
| `Patch.PatchMeaning` | shield/pkg/shield/utilPatch.go:79-216 | Applied as section 4.1 of RFC 6902 says, for any labels, annotations and delete keys: the patch succeeds exactly when its removals do, sets both sections to old values overridden by the new ones that get through, and changes nothing else. |
| `Patch.OverridesExactly` | shield/pkg/shield/utilPatch.go:93-123 | All new values take effect if and only if the removals apply and no new value meets a different old one under a key without dots. |
| `Patch.DottedPatch` | shield/pkg/shield/utilPatch.go:79-216 | With dotted keys throughout, as the shield uses them, the patch always applies and every new value takes effect. |
| `Patch.UndottedKeepsOld` | shield/pkg/shield/utilPatch.go:105-123 | A label "a" keeps its old value. |
| `Patch.SlashKeyFails` | shield/pkg/shield/utilPatch.go:95-104 | Deleting a label "a/b" makes the whole patch fail. |
| `Patch.NoMetadataFails` | shield/pkg/shield/utilPatch.go:133-147 | For an object without a metadata object the patch made of the fixed operations, for labels, annotations or both, cannot be applied. |
| `Patch.BadMetadataFails` | shield/pkg/shield/utilPatch.go:89-131 | Nor can the patch for metadata that is there and no object. |
| `Handler.CheckContext.constructor` | shield/pkg/shield/checkcontext.go:52-69 | A run starts denied, unverified and without a signature result. |
| `Handler.InScopeCheck` | shield/pkg/shield/checkFunctions.go:31-73 | Ends the run, allowing, exactly for unmonitored, dry-run and ignored requests. |
| `Handler.CheckIfInScopeNamespace` | shield/pkg/shield/checkUtils.go:186-192 | Whether the configuration names the namespace. |
| `Handler.FormatCheck` | shield/pkg/shield/checkFunctions.go:75-87 | Ends the run, denying, exactly for requests about the shield's own resources that the validation below refuses. |
| `Validation.ValidateResource` | shield/pkg/shield/utilValidation.go:34-71 | Accepts exactly deletions, profiles that decode and select namespaces only in the shield's own, signatures and signer configurations as below, and every kind it does not know. |
| `Validation.ValidateResourceSignature` | shield/pkg/shield/utilValidation.go:87-114 | Accepts exactly at most one signature with all three labels, and names the missing ones in order. |
| `Validation.ValidateSignerConfig` | shield/pkg/shield/utilValidation.go:127-148 | Accepts exactly a configuration with at least one signer, all of which have subjects. |
| `Validation.ShieldConfigUnchecked` | shield/pkg/shield/utilValidation.go:51-56 | A ShieldConfig passes whatever it holds, because its kind is compared with an API version. |
| `Handler.ShieldResourceCheck` | shield/pkg/shield/checkFunctions.go:89-129 | Ends the run for the shield's own resources, allowing exactly the permitted accounts. |
| `Handler.IsOneOf` | shield/pkg/shield/checkFunctions.go:89-98 | Whether the request is about one of the listed resources, by name, namespace and kind. |
| `Handler.CheckIfAdminRequest` | shield/pkg/shield/checkUtils.go:223-238 | Administrators by group, by user, or as the lifecycle manager. |
| `Handler.LifecycleManagerExactly` | shield/pkg/shield/checkUtils.go:233-235 | One account is an administrator whatever the configuration says. |
| `Handler.CheckIfSystemRequest` | shield/pkg/shield/checkUtils.go:248-269 | The accounts of the cluster itself. |
| `Handler.DeleteCheck` | shield/pkg/shield/checkFunctions.go:131-145 | Ends the run, allowing, exactly for deletions. |
| `Handler.ProtectedCheck` | shield/pkg/shield/checkFunctions.go:147-188 | Ends the run, allowing, exactly when no profile protects the request; otherwise hands on the protecting profiles. |
| `Handler.SingleProfileCheck` | shield/pkg/shield/checkFunctions.go:230-275 | Verdict, reason and signature result of one profile. |
| `Handler.ResourceSigningProfileCheck` | shield/pkg/shield/checkFunctions.go:190-275 | One profile, from the two evaluators' answers: an unmutated update is allowed and leaves the signature result alone, a failing mutation check denies, and otherwise the request is allowed if and only if the signature was checked and allowed; the verified flag is only ever set, and the latest signature result kept. |
| `Handler.CheckProfiles` | shield/pkg/shield/handler.go:120-128 | Allows exactly when every profile does; a denial names the first that does not. |
| `Handler.FirstDenierOnly` | shield/pkg/shield/handler.go:120-128 | There is one first profile that denies, and it does. |
| `Handler.Handler.Check` | shield/pkg/shield/handler.go:88-138 | The stages together decide exactly by the stage-free rule Permits, with its reason; the undetermined fallback is never reached. |
| `Handler.Handler.CheckIfBreakGlassEnabled` | shield/pkg/shield/checkUtils.go:270-310 | On exactly when a condition covers the request's namespace, or cluster scope for a cluster request. |
| `Handler.Handler.OverwriteDecision` | shield/pkg/shield/handler.go:192-221 | Only denials are overridden, by detection mode before break glass. |
| `Handler.ChooseLabel` | shield/pkg/shield/utilPatch.go:41-56 | Which label is due. |
| `Handler.MakeAnnotations` | shield/pkg/shield/utilPatch.go:60-69 | The annotations that go with it: the time, the signer and the signature's UID, as far as known. |
| `Handler.CheckIfPatchEnabled` | shield/pkg/shield/config/shieldconfig.go:152-161 | Whether labels are put on at all. |
| `Handler.Handler.GeneratePatch` | shield/pkg/shield/utilPatch.go:35-77 | A patch is there exactly when a label is due, and it is the patch for that label, for an object with or without metadata. |
| `Handler.Handler.HandleRequest` | shield/pkg/shield/handler.go:53-86 | Allowed exactly when permitted or overridden; context and response agree; the only labels are `verified`, put on exactly when every protecting profile allowed and one did by signature, and `unverified`, exactly when break glass overrode a denial; the patch is the one for that label, with or without metadata; an update that is unmutated for every protecting profile is allowed without a label. |
| `Handler.SigAfterMeaning` | shield/pkg/shield/checkFunctions.go:190-228 | After a series of profiles that all allow, the kept signature result is good exactly when one of them allowed by signature; after a denial it is not. |
| `Handler.VerifiedExactly` | shield/pkg/shield/utilPatch.go:41-53 | The final signature result is good exactly in runs that earn the label, all of which are permitted without override. |
| `Handler.VerifiedSource` | shield/pkg/shield/checkFunctions.go:190-228 | In a verified run the kept signature result is the answer of the evaluator for one of the protecting profiles. |
| `Handler.VerifiedFlagAfterDenial` | shield/pkg/shield/checkFunctions.go:212-227 | The context's verified flag is on in a denied run exactly when the first protecting profile allowed and a later one did not. |
| `Handler.ErrorKeepsEarlierSignature` | shield/pkg/shield/checkFunctions.go:202-210 | The label result needs evaluators that return no error: otherwise an earlier good result would outlive a denial. |
| `Handler.LabelOnObject` | shield/pkg/shield/utilPatch.go:35-77 | On an object with plain metadata, applying the patch sets this label and its annotations beside the old ones and changes nothing else. |
| `Cache.Cache.DeleteKey` | shield/pkg/util/cache/cache.go:70-83 | A new map without exactly the listed keys. |
| `Cache.Cache.ClearExpiredItem` | shield/pkg/util/cache/cache.go:85-93 | Drops every entry that had expired when it began and none that has not expired when it ends, though the clock moves on between entries; so nothing a later lookup could still return. |
| `Cache.Cache.Set` | shield/pkg/util/cache/cache.go:95-103 | Records the object with its expiry; the eviction it does on the way cannot be observed. |
| `Cache.Cache.Unset` | shield/pkg/util/cache/cache.go:105-110 | Records the removal. |
| `Cache.Cache.Get` | shield/pkg/util/cache/cache.go:112-124 | Answers what a log that never evicts would: the latest object set, not unset since and not past its expiry. |
| `Cache.LookupsAgree` | shield/pkg/util/cache/cache.go:112-124 | Table and log give the same answer for every name at every later time. |
| `Cache.EvictKeepsAgreement` | shield/pkg/util/cache/cache.go:85-93 | Evicting entries that have expired keeps table and log in agreement. |
| `Cache.SetKeepsAgreement` | shield/pkg/util/cache/cache.go:95-103 | So does setting an entry. |
| `Cache.UnsetKeepsAgreement` | shield/pkg/util/cache/cache.go:105-110 | So does removing one. |
| `Cache.AbsentUntilSet` | shield/pkg/util/cache/cache.go:112-124 | A name that reads as absent stays absent until somebody sets it. |
| `RunData.AnswerIsRecent` | shield/pkg/shield/rspLoader.go:76-95 | Whatever the cache answers under a loader's key is a list stored at most its lifetime ago. |
| `RunData.ListLoader.Load` | shield/pkg/shield/rspLoader.go:70-104 | A live cache entry wins, else the API if allowed; an API error leaves the list alone; a cached list is never older than its lifetime; only a non-empty API answer is stored. |
| `RunData.ListLoader.GetData` | shield/pkg/shield/namespaceLoader.go:52-58 | A non-empty list is kept; otherwise as Load. |
| `RunData.ListLoader.ClearCache` | shield/pkg/shield/rspLoader.go:124-126 | Afterwards the list reads as absent. |
| `RunData.TargetsGrow` | shield/pkg/shield/runData.go:63-71 | A table that targets something without knowing namespaces still does once it knows some. |
| `RunData.RunData.SetRuleTable` | shield/pkg/shield/runData.go:63-71 | Stores the table of the lists exactly when it is not empty and targets something. |
| `RunData.RunData.Init` | shield/pkg/shield/runData.go:105-114 | Takes the lists from the cache only; from no table, the table is then the one the lists stand for. |
| `RunData.RunData.RefreshLists` | shield/pkg/shield/runData.go:74-87 | Brings both lists up to date with the loaders and says where each came from. |
| `RunData.RunData.GetRuleTable` | shield/pkg/shield/runData.go:73-103 | An invariant of any series of calls: the table equals its recomputation from the current lists, except exactly when the namespaces came out of the cache, filled by another handler, after the table was built. Lists that are not empty are kept. |
| `RunData.StaleExactly` | shield/pkg/shield/runData.go:88-93 | In that exception the kept table is wrong if and only if some profile's targets changed. |
| `RunData.LaggingTable` | shield/pkg/shield/runData.go:88-93 | Two profiles and a namespace for which it is wrong. |
| `RunData.RunData.ResetRuleTableCache` | shield/pkg/shield/runData.go:116-121 | Afterwards both lists read as absent. |
| `Admission.ProtectedIsMonitored` | shield/pkg/shield/checkFunctions.go:31-46 | A request the table protects is never waved through as unmonitored on the same table, requests about namespaces included. |
| `Admission.ScopeAndProtectionTables` | shield/pkg/shield/checkFunctions.go:147-150 | The tables of the two tests of one request: the scope test asks only about a namespace that the configuration does not name; from nothing it sees the table of the first API answers, and the protection test that of the first non-empty ones; once both lists are known, both see the same table. |
| `Admission.NotMonitoredExactly` | shield/pkg/shield/checkFunctions.go:31-46 | A request is let through as unmonitored if and only if it is about a namespace that the configuration does not name and that no profile known at the scope test targets. |
| `Admission.FailedReadWavesThrough` | shield/pkg/shield/checkUtils.go:178-184 | A failed first read of the profiles and a successful second one: a request that the profile protects is let through unmonitored. |
| `Admission.GetName` | shield/pkg/common/common.go:345-356 | The common name, else the e-mail address, else the name. |
| `Admission.EvaluateProfile` | shield/pkg/shield/checkFunctions.go:230-275 | The two evaluators, called as they are: unmutated only if every difference of the masked objects is covered and mutated only if one is not; allowed only for a signature that is, under its signer's name and UID, and refused only for one that is not; neither returns an error. |
| `Admission.AllowedIsVouched` | shield/pkg/shield/sign.go:179-312 | An allowed signature speaks about the request, and its final signer is accepted for an accepting candidate path. |
| `Admission.AdmittedIsJustified` | shield/pkg/shield/handler.go:88-138 | What the rules let through was, for every protecting profile, an update of this very object whose masked differences the profile all ignores, or vouched for: the signature agrees with this request, a candidate key of its namespace accepted it, and a policy of its namespace accepts the signer it ended with. |
| `Admission.AdmittedCarriesSigned` | shield/pkg/shield/handler.go:88-138 | Every admitted request that a profile protects keeps the old values, as an update without differences that matter, or carries the signed ones: it shows those of the message, or of an object the message stands for, outside the masked keys, or holds them under the protected ones, and keeps those of the old object outside the scope. |
| `Admission.VerifiedMeansVouched` | shield/pkg/shield/utilPatch.go:41-69 | What the label `verified` stands for: a protecting profile for which the signature was vouched for, whose accepted signer, time and signature UID are the ones the annotations give. |
| `Admission.MutationCheck` | shield/pkg/shield/utilMutation.go:37-41 | With an empty profile: mutated exactly when both objects parse and the masked objects have a difference left. |
| `Admission.Finalize` | shield/pkg/shield/handler.go:223-248 | The lists are dropped from the cache exactly after an allowed request that creates or deletes a namespace, changes one, or touches a profile without being the shield. |
| `Admission.NextTable` | shield/pkg/shield/handler.go:173-190 | After that the next handler's table is the table of what the API server answers. |
| `Status.ResourceSigningProfile.UpdateStatus` | shield/pkg/apis/resourcesigningprofile/v1alpha1/types.go:168-207 | The method's three updates come to one step of the statistics below. |
| `Status.CountedExact` | shield/pkg/apis/resourcesigningprofile/v1alpha1/types.go:173-192 | Counting one denial keeps one entry per kind with its exact count. |
| `Status.StatusConservation` | shield/pkg/apis/resourcesigningprofile/v1alpha1/types.go:168-207 | After every run of denials: the total is their number and the sum of the counts, each kind has one entry with its exact count, and the latest are the last three, newest first. |
| `Status.GroupVersionKindInjective` | shield/pkg/common/profile.go:306-313 | Two requests share an entry only if group, version and kind agree. |
| `Reconcile.ContainsString` | integrity-shield-operator/controllers/integrityshield_controller.go:324-331 | True exactly for members. |
| `Reconcile.RemoveString` | integrity-shield-operator/controllers/integrityshield_controller.go:333-341 | The list without the string; Without says that everything else keeps its place and number. |
| `Reconcile.Without` | integrity-shield-operator/controllers/integrityshield_controller.go:333-341 | No occurrence is left, all other strings keep their number, and a list without the string is unchanged. |
| `Reconcile.Reconciler.CreateOrUpdate` | integrity-shield-operator/controllers/integrityshield.go:59-109 | One step in its three variants: create only, update in place, update and requeue, with every API failure. |
| `Reconcile.Reconciler.DeleteResource` | integrity-shield-operator/controllers/integrityshield.go:1125-1149 | Deletion of one resource: absence is no error, a failing call changes nothing. |
| `Reconcile.Reconciler.IsKeyRingReady` | integrity-shield-operator/controllers/integrityshield.go:801-817 | Ready exactly when every key secret can be read; otherwise the first that cannot is named. |
| `Reconcile.Reconciler.DeleteRoles` | integrity-shield-operator/controllers/integrityshield_controller.go:267-290 | The webhook, the pod security policy and the cluster roles, in order. |
| `Reconcile.Reconciler.DeleteCrds` | integrity-shield-operator/controllers/integrityshield_controller.go:292-318 | The custom resource definitions, in order. |
| `Reconcile.Reconciler.DeleteClusterScopedChildren` | integrity-shield-operator/controllers/integrityshield_controller.go:263-321 | Deletes in order up to the first error. |
| `Reconcile.Reconciler.InstallCrds` | integrity-shield-operator/controllers/integrityshield_controller.go:104-131 | The custom resource definitions, in order. |
| `Reconcile.Reconciler.InstallCrs` | integrity-shield-operator/controllers/integrityshield_controller.go:133-152 | The configurations and the profiles, in order. |
| `Reconcile.Reconciler.InstallAccounts` | integrity-shield-operator/controllers/integrityshield_controller.go:154-188 | The secret, the service account and the roles of the server, in order. |
| `Reconcile.Reconciler.InstallAdmin` | integrity-shield-operator/controllers/integrityshield_controller.go:190-215 | The roles of the administrators, unless they are disabled. |
| `Reconcile.Reconciler.InstallServer` | integrity-shield-operator/controllers/integrityshield_controller.go:217-233 | The pod security policy, the deployment and the service, in order. |
| `Reconcile.Reconciler.Install` | integrity-shield-operator/controllers/integrityshield_controller.go:98-254 | The normal path: keys, then the resources below one by one up to the first step that does not pass, then the webhook. |
| `Reconcile.Reconciler.Reconcile` | integrity-shield-operator/controllers/integrityshield_controller.go:52-254 | The whole call, missing instance, finalizer and API errors included, is the transition the results below are about. |
| `Convergence.StepEffect` | integrity-shield-operator/controllers/integrityshield.go:947-999 | Exactly when a step passes, and the only changes it can make. |
| `Convergence.CallEffect` | integrity-shield-operator/controllers/integrityshield_controller.go:98-254 | Every call does one of: nothing but inline updates, add one planned resource, roll the deployment out, remove the webhook. |
| `Convergence.WebhookSafety` | integrity-shield-operator/controllers/integrityshield_controller.go:233-248 | Whatever fails: at most one resource is added, only the webhook removed; it is created only when all earlier resources were there and the deployment available; an unavailable deployment leaves none. |
| `Convergence.EverythingExactly` | integrity-shield-operator/controllers/integrityshield_controller.go:104-233 | The plan is in place if and only if every resource, by kind and name, is. |
| `Convergence.WebhookComesLast` | integrity-shield-operator/controllers/integrityshield_controller.go:233-248 | A call that succeeds leaves every one of them and the webhook; a call that adds the webhook finds every one of them, and the deployment available. |
| `Convergence.AddedInOrder` | integrity-shield-operator/controllers/integrityshield_controller.go:98-254 | A step adds its resource only after the resources of all earlier steps were there. |
| `Convergence.DeploymentAfterAccounts` | integrity-shield-operator/controllers/integrityshield_controller.go:154-228 | So the deployment is created only once the TLS secret, the service account and the roles are there. |
| `Convergence.DoneExactly` | integrity-shield-operator/controllers/integrityshield_controller.go:98-254 | Without faults a call succeeds exactly when the keys are ready, nothing is missing or stale, and the deployment is available. |
| `Convergence.CallProgress` | integrity-shield-operator/controllers/integrityshield_controller.go:98-254 | While the deployment stays available no call loses progress, and each call without faults makes one step of it. |
| `Convergence.ProgressDespiteFaults` | integrity-shield-operator/controllers/integrityshield_controller.go:98-254 | Over every run with arbitrary API failures, the number of steps left falls with every faultless call. |
| `Convergence.Converges` | integrity-shield-operator/controllers/integrityshield_controller.go:98-254 | Hence after that many faultless calls, in any mix with failing ones, the next faultless call succeeds. |
| `Convergence.ConvergesExactly` | integrity-shield-operator/controllers/integrityshield_controller.go:98-254 | Without faults call n succeeds if and only if n is at least the missing resources plus one for a stale deployment. |
| `Convergence.DoneMeansExpected` | integrity-shield-operator/controllers/integrityshield.go:59-109 | If steps for one compared resource expect the same of it, a run that passes leaves every resource as expected. |
| `Convergence.SuccessLeaves` | integrity-shield-operator/controllers/integrityshield_controller.go:98-254 | A successful call leaves everything that is planned, the webhook, and all other resources as they were; everything is as expected if and only if profiles of one name have one specification. |
| `Convergence.DeletesExactly` | integrity-shield-operator/controllers/integrityshield_controller.go:263-321 | Deletion touches only the listed resources and, without error, leaves none of them. |
| `Convergence.ChildrenComplete` | integrity-shield-operator/controllers/integrityshield_controller.go:263-321 | The deleted resources are exactly the cluster-scoped ones that installation creates. |
| `Convergence.FinalizeMeaning` | integrity-shield-operator/controllers/integrityshield_controller.go:81-95 | The finalizer goes only when all cluster-scoped children are gone, goes in every call without failures, and stays on any error; namespaced resources are untouched. |
| `Convergence.FinalizerGuardsCleanup` | integrity-shield-operator/controllers/integrityshield_controller.go:81-95 | Over every run under deletion: either the instance is unchanged, or its finalizer is gone and the cluster is clean. |

## Left out

- Cryptography, key ring and certificate loading, the regular expression engine, YAML, JSON, base64 and gzip decoding, label selectors, serial numbers of certificates: parameters.
- Dry run, strategic merge and apply patch: uninterpreted functions from documents to optional documents.
- The Helm plugin beyond the fact that it verifies no key path.
- `Node.Merge`, JSON path lookup, YAML output, `DiffSpecificType` and the other filtered differences, kustomize name overriding: only easy members.
- Messages and the error codes of denials: a denial by a profile has one reason; HTTP, logging, events, observer, generated clients.
- The operator's resource builders and default merging: resources are ids with the part of the specification that is compared; the webhook's certificate bundle and event are not modelled.
- The cache's lock: cache operations are atomic.
- Quoted keys with line breaks, decimal indices beyond 64 bits and white space outside ASCII.
- Path syntax of the JSON getter other than dots, such as wildcards and modifiers, and empty keys.
- Wildcards.GenerateKeyList: needs a key on which the expansion stops, a condition Wildcards.StopsExactly gives, because the code does not return on others.
- Wildcards.ValidateKeyList: needs the expansions it starts to stop, as above.
- Mask.MaskNode: needs the expansions it starts to stop, as above.
- Extract.ExtractNode: needs the expansions it starts to stop, as above.
- Compare.Narrow: needs the expansions it starts to stop, as above.
- Compare.MatchContents: needs the expansions it starts to stop, as above.
- Matching.MatchMessage: needs the comparisons with the documents of its cases to end, a condition Matching.QuotedMatchingEnds meets.
- Matching.CheckScope: needs the comparison with the old object to end, a condition Matching.QuotedScopeEnds meets.
- Signature.CheckGate: needs the comparisons it starts to end, as above.
- Signature.Verify: needs the comparisons it starts to end, as above.
- Signature.Eval: needs the comparisons it starts to end, as above.
- Admission.EvaluateProfile: needs the comparisons it starts to end, as above.
- Extract.ExtractRestricts: for trees whose flattened keys hold no quotes, brackets or stars and are distinct, and in which no kept slice element comes after a dropped one; Extract.ExtractRestrictsExactly says that the last is needed, for segments without dots.
- Compare.FocusedMatchMeaning: for objects as in Extract.ExtractRestricts.
- Idempotence.MaskTwiceExactly: for masks that list no slice element, as masking one shifts the others onto other keys (Mask.MaskShifts).
- Hiding.HidesAllExactly: for keys without stars, as what a starred key lists is up to the regular expression engine.
- Hiding.FocusHidesExactly: for flattened keys without brackets and stars, as above.
- Mutation.UnmutatedKeeps: says nothing about keys with a numeric middle segment, as their changes may cancel.
- Validation.ValidateResource: strict JSON decoding into the shield's types is a parameter.
- Diff.RemoveKeyDiffsInListNode: whether two keys differ in list indices only is an arbitrary relation on keys, the regular expression built from the first.
- Policy.Match: subject matching is exact about fields, with serial numbers compared by a parameter.
- Convergence.Converges: assumes that the deployment is seen to be available once it exists and that a deployment equals itself.
