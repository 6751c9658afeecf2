# GO sentence rules and annotation selection, in Dafny

This project models the part of the WormBase gene-description generator that turns the GO
annotations of one gene into English sentences, and the selection of those annotations:

- `descriptions_rules.py`, which has four parts:
  - the sentence text (`compose_go_sentence`, `_get_single_go_sentence`);
  - the merge of postfix phrases (`GOSentencesCollection.merge_postfix_phrases`);
  - the two walks over the ontology (`get_all_go_parent_names`, `get_all_term_paths_to_root`);
  - the two term reductions, which are the removal of parent terms
    (`get_term_ids_without_parents_from_terms_names`) and the merge by common ancestor
    (`get_merged_term_ids_by_common_ancestor_from_term_names`).

  It also covers the grouping of annotations by (aspect, evidence group) with its special cases
  and its in-place insertions into the priority list (`generate_go_sentences`), and the sentence
  collection (`GOSentencesCollection.set_sentence`, `get_sentences`).
- `genedescriptions/data_fetcher.py`: the module-level `get_parents`, `DataFetcher.get_annotations`
  (filter, then one annotation per GO id by evidence-code priority) and the filtering loop of
  `get_gene_data`.

Modules, one per file:

| file | module | models |
|---|---|---|
| `wrappers.dfy` | `Wrappers` | `Option`, the escaping Python exceptions (`Outcome`), `defaultdict` reads |
| `text.dfy` | `Text` | `str` operations: `startswith`, `join`, `replace`, `strip`, `str(int)`, the English list rule |
| `listing.dfy` | `Listing` | listing a Python `set` in an unspecified order |
| `ontology.dfy` | `GoOntology` | the ontology as a map from id to term; both walks |
| `term_reduction.dfy` | `TermReduction` | parent removal and the merge by common ancestor, with its two path tables |
| `sentences.dfy` | `Sentences` | `GOSentence`, `compose_go_sentence`, `_get_single_go_sentence`, `merge_postfix_phrases` |
| `collection.dfy` | `Collection` | the priority list (shared and mutable), `GOSentencesCollection`, `GOSentenceMerger` |
| `generation.dfy` | `Generation` | `generate_go_sentences` |
| `data_fetch.dfy` | `DataFetch` | `get_parents`, `get_annotations`, `get_gene_data` |

The code that changes state in place is modelled with methods, loops and classes:

- the merge's path tables;
- the priority list, which is one Python list shared by the caller and the collection;
- the collection's sentence map;
- the fetcher's `defaultdict` fields;
- the `desc_stats` counters.

Each method is proved against a function or predicate that specifies it. The lemmas then
state what the source promises about that specification.

Python sets are iterated in an order that depends on hashing, and the model leaves that order
open. Listing a set (`Listing.ListOf`) yields some order. Where a later step could depend on
the order, a lemma shows that it does not (`PrunedIdsSetOnly`, `MergedIdsSetOnly`). Where the
order reaches the output (the term order inside a sentence), the contracts speak of the set of
names, not their order.

Three points about the code that decide what the model computes:

- **The ontology walks follow the `parents` links only.** `get_all_go_parent_names` and
  `get_all_term_paths_to_root` climb through `query_term(..).parents` (`descriptions_rules.py:239`,
  `descriptions_rules.py:270`). Part-of relationships enter only through the module-level
  `get_parents` (`genedescriptions/data_fetcher.py:22-28`), which the walks do not call; it is
  modelled on its own (`DataFetch.GetParents`).
- **The merge by common ancestor never walks inward.** The test at `descriptions_rules.py:339`
  compares each related path, which is a tuple, with `curr_path[-1]`, which is a str. In Python
  that is always false, so once any related path exists the inward walk stops at once. The merge
  therefore returns exactly the outermost ids ending the root paths of two or more ids of the
  input terms (`TermReduction.MergedAreClimbEnds`). The walk is still modelled step by step
  (`TermReduction.WalkInward`), and it is proved to be a no-op whenever related paths exist.
- **No exclusion list in the reductions.** `descriptions_rules.py` filters no term out of the
  results of pruning or merging. The only exclusion list, `go_terms_exclusion_list`, is applied
  by the GO loader (`genedescriptions/data_fetcher.py:259-260`) to the annotations before they
  reach the code modelled here.

## Model

| member | source | states |
|---|---|---|
| `Text.JoinSnoc` | descriptions_rules.py:373 | appending one item to a `", "`-joined list adds exactly one separator and the item |
| `Text.OxfordCons` | descriptions_rules.py:372-373 | from four items on, the English list is the first item, a comma and the English list of the rest: the serial comma holds all the way down |
| `Text.EnglishListContains` | descriptions_rules.py:372-377 | every term name occurs in the English list of the names, in all three shapes |
| `Text.JoinContains` | descriptions_rules.py:373 | every item of a joined list occurs in it, at a position the lemma returns |
| `Text.RemoveAllAbsent` | descriptions_rules.py:133 | removing a piece that does not occur leaves the text unchanged |
| `Text.NatToString` | descriptions_rules.py:191 | `str()` of a number is never empty, so a numbered sub-group name is longer than its group name |
| `Listing.ListOf` | descriptions_rules.py:84 | `list(s)` lists every element of the set exactly once, in some order |
| `Listing.Enumeration` | descriptions_rules.py:205 | one listing of a set, each element once |
| `Listing.EnumerationSize` | descriptions_rules.py:316 | a listing of a set without repetition is exactly as long as the set, so `len(names)` is the number of distinct names |
| `Listing.NonEmptyListing` | descriptions_rules.py:104 | a listing is empty exactly when its set is empty |
| `GoOntology.ParentNamesAreNonRootAncestors` | descriptions_rules.py:238-244 | a name is listed exactly when it is the name of some strict ancestor that is not a root; root parents are never listed (both directions) |
| `GoOntology.ListedNameIsAncestor` | descriptions_rules.py:239-243 | every listed name belongs to a non-root strict ancestor, which the lemma returns |
| `GoOntology.AncestorNameIsListed` | descriptions_rules.py:239-243 | the name of every non-root strict ancestor is listed |
| `GoOntology.PathsToRoot` | descriptions_rules.py:261-277 | every path returned extends the `previous_path` it was given |
| `GoOntology.PathsThroughMembership` | descriptions_rules.py:270-276 | the paths collected over the parents are exactly those returned through one of the parents |
| `GoOntology.PathsToRootMembership` | descriptions_rules.py:261-277 | for a start term at depth `min_distance_from_root` or more, a path is returned exactly when it is the previous path followed by a complete climb from the term's id: each later id is a parent of the one before, all at that depth or more, ending where the walk stops |
| `GoOntology.PathsToRootSound` | descriptions_rules.py:264-276 | every returned path is such a climb |
| `GoOntology.PathsToRootComplete` | descriptions_rules.py:264-276 | every such climb is returned |
| `GoOntology.RootPathsEdges` | descriptions_rules.py:265-277 | a start term shallower than the minimum yields only the empty path; a parentless one yields only the path of its own id |
| `GoOntology.ClimbEndIsAncestor` | descriptions_rules.py:267-275 | a climb of two or more ids ends at a strict ancestor of the id where it starts |
| `GoOntology.ClimbEndIsClosed` | descriptions_rules.py:265-277 | a climb ends at a known id at the minimum depth or more, which is a root or has a parent shallower than the minimum |
| `TermReduction.AncestorNamesOfAllMembership` | descriptions_rules.py:293-295 | a name is discarded exactly when it is a listed ancestor name of one of the input terms |
| `TermReduction.Survivors` | descriptions_rules.py:292-295 | the surviving names are input names |
| `TermReduction.PrunedIds` | descriptions_rules.py:296 | every returned id is the id of an input name, so the result is a subset of the input ids |
| `TermReduction.PruneParents` | descriptions_rules.py:292-296 | the nested discard loops return the pruned ids when every name has an id, and `KeyError` when one does not |
| `TermReduction.SurvivorMeaning` | descriptions_rules.py:292-296 | a name survives exactly when it is an input name and is not the name of a non-root strict ancestor of any input term |
| `TermReduction.PruneIdempotent` | descriptions_rules.py:292-296 | pruning the survivors again changes nothing |
| `TermReduction.PrunedIdsSetOnly` | descriptions_rules.py:292-296 | the pruning depends only on which names are listed, not on their order or repetitions |
| `TermReduction.IdsOf` | descriptions_rules.py:321 | the comprehension over the names gives, position by position, the id of each name |
| `TermReduction.RootPathIsClimb` | descriptions_rules.py:322-327 | a root path of a main id starts with that id and is a complete climb |
| `TermReduction.ClimbIsRootPath` | descriptions_rules.py:322-327 | a complete climb from a main id is one of its root paths |
| `TermReduction.OutermostAreClimbEnds` | descriptions_rules.py:321-327 | the last ids of the root paths longer than one id are exactly the ends of the indexed climbs |
| `TermReduction.DiscardAllGet` | descriptions_rules.py:344-348 | discarding the related paths removes from each table entry exactly the related paths filed under it, and nothing else |
| `TermReduction.DiscardPaths` | descriptions_rules.py:347-348 | the discard loop computes that discard |
| `TermReduction.WalkInward` | descriptions_rules.py:336-345 | when any related path exists, the inward walk changes neither the selection nor the tables; with none, it selects the popped path's second id and deletes the ancestor-table entries of every id after the first |
| `TermReduction.FileOne` | descriptions_rules.py:325-327 | filing one more indexed path keeps both tables consistent and only adds to the path table |
| `TermReduction.IndexPaths` | descriptions_rules.py:318-327 | step 1 files every root path longer than one id, under its start id and under its last id, and nothing else |
| `TermReduction.IndexTerm` | descriptions_rules.py:321-327 | one pass of step 1 files all the indexed paths of one more input id |
| `TermReduction.SelectStep` | descriptions_rules.py:330-349 | selecting a popped path's last id removes that path and every related path from the tables, and keeps the step 2 invariant |
| `TermReduction.SelectOutermost` | descriptions_rules.py:329-353 | step 2 selects exactly the ids that end an indexed root path (both directions) |
| `TermReduction.SelectFrom` | descriptions_rules.py:330-352 | one pass of step 2 keeps the invariant and leaves no path of that input id unprocessed |
| `TermReduction.MergeByCommonAncestor` | descriptions_rules.py:316-355 | the merge returns the specified id set when every name has an id, and `KeyError` when one does not |
| `TermReduction.MergedAreClimbEnds` | descriptions_rules.py:316-353 | above the threshold, an id is returned exactly when it ends a complete climb of two or more ids from an input id |
| `TermReduction.MergedAreAncestors` | descriptions_rules.py:316-353 | above the threshold, every returned id is a strict ancestor of an input term, lies at the minimum depth or more, and is where a walk stops |
| `TermReduction.MergedIdsSetOnly` | descriptions_rules.py:316-355 | the merge depends only on which names are listed and how many there are, not on their order |
| `TermReduction.MergedIdsKnown` | descriptions_rules.py:316-355 | every returned id is a known term |
| `Sentences.PostfixTail` | descriptions_rules.py:370-371 | the postfix is appended with one leading space, or not at all when it is empty |
| `Sentences.ComposeGoSentence` | descriptions_rules.py:369-377 | the sentence starts with the prefix and a space, ends with `" " + postfix` (or with the last name when the postfix is empty), and contains every name |
| `Sentences.ComposedContains` | descriptions_rules.py:369-377 | a sentence built around an English list starts with its prefix and contains every name |
| `Sentences.ComposedEnds` | descriptions_rules.py:370-377 | such a sentence ends with its postfix, or with its last name when the postfix is empty |
| `Sentences.EnglishListEndsWithLast` | descriptions_rules.py:372-377 | an English list ends with its last item |
| `Sentences.ComposeShapes` | descriptions_rules.py:369-377 | the three shapes: one name; two names joined by `" and "`; three or more joined by `", "` with `", and "` before the last |
| `Sentences.SingleGoSentence` | descriptions_rules.py:399-406 | `None` exactly for an empty name list; `KeyError` when the (aspect, group) has no prefix and postfix; otherwise a sentence with the map's prefix and postfix, the given names, ids, aspect and group, and the composed text |
| `Sentences.ShortestIndex` | descriptions_rules.py:118-119 | the stable sort by length puts first the earliest phrase of minimal length |
| `Sentences.Shortest` | descriptions_rules.py:118-119 | the chosen phrase is one of the phrases, and no phrase is shorter |
| `Sentences.CommonPrefixLen` | descriptions_rules.py:121-125 | the count of agreeing leading letters never exceeds the shortest phrase |
| `Sentences.CommonSuffixLen` | descriptions_rules.py:127-132 | the count of agreeing trailing letters never exceeds the shortest phrase |
| `Sentences.MergePostfixPhrases` | descriptions_rules.py:107-143 | the method computes the specified merged phrase; a one-phrase list is returned unchanged |
| `Sentences.LeadingPart` | descriptions_rules.py:120-125 | the loop builds the first part |
| `Sentences.TrailingPart` | descriptions_rules.py:126-132 | the loop builds the last part |
| `Sentences.CommonPrefixAgrees` | descriptions_rules.py:121-123 | every position before the count is one where all phrases agree with the shortest |
| `Sentences.CommonSuffixAgrees` | descriptions_rules.py:127-130 | every position before the count, from the end, is one where all phrases agree |
| `Sentences.CommonPrefixStops` | descriptions_rules.py:124-125 | the count stops at a position where some phrase disagrees |
| `Sentences.CommonSuffixStops` | descriptions_rules.py:131-132 | the count from the end stops at a position where some phrase disagrees |
| `Sentences.FirstPartIsLongestCommonPrefix` | descriptions_rules.py:118-125 | the first part starts every phrase, and it cannot be extended within the shortest phrase |
| `Sentences.LastPartIsLongestCommonSuffix` | descriptions_rules.py:118-132 | the last part ends every phrase, and it cannot be extended within the shortest phrase |
| `Sentences.MergedPostfixShape` | descriptions_rules.py:133-141 | with two or more phrases, the merged phrase starts with the first part and ends with the last part, pluralised when it is one word |
| `Collection.EvidenceGroupList.constructor` | descriptions_rules.py:25 | the priority list holds the given groups |
| `Collection.PresentGroups` | descriptions_rules.py:58-59 | a group is read exactly when it is in the priority list and has a sentence for the aspect |
| `Collection.ReadGroups` | descriptions_rules.py:58-74 | only present groups are read, and at most one when only the best group is kept |
| `Collection.PresentGroupsPrefix` | descriptions_rules.py:58-59 | the present groups among the first `i` come first, in order, among all present groups |
| `Collection.BestGroupIsFirstPresent` | descriptions_rules.py:58-74 | keeping only the best group reads nothing exactly when no group is present; otherwise exactly the earliest present group of the priority list |
| `Collection.FirstPresent` | descriptions_rules.py:58-74 | there is an earliest present group, and none before it is present |
| `Collection.FirstPresentIsBest` | descriptions_rules.py:58-74 | when the `i`-th group is the first present one, it is all that is read with `keep_only_best_group` |
| `Collection.SentencesOf` | descriptions_rules.py:72 | without merging, the sentences read are the stored ones of the read groups, position by position |
| `Collection.UnmergedSentencesOfAspect` | descriptions_rules.py:38-39 | when every sentence is filed under its own key, as `set_sentence` files it, every sentence read belongs to the requested aspect and to the group read at its position |
| `Collection.GroupsWithPrefix` | descriptions_rules.py:61 | exactly the read groups whose prefix phrase is the given one |
| `Collection.Collect` | descriptions_rules.py:57-70 | merging the read groups succeeds exactly when each of them has a prefix and postfix; otherwise it raises `KeyError` |
| `Collection.CollectShape` | descriptions_rules.py:57-70 | the prefixes are listed once each, in first-appearance order, and are exactly the mergers' keys; every merger has a postfix phrase; its ids come from the sentences read |
| `Collection.CollectSnoc` | descriptions_rules.py:60-70 | reading one more group folds it into the merger of its prefix, and appends the prefix when it is new |
| `Collection.CollectGathers` | descriptions_rules.py:60-70 | each merger holds exactly the groups with its prefix, in priority order; their postfix phrases in that order; and the union of their term names |
| `Collection.PresentBefore` | descriptions_rules.py:58-59 | the present groups among the first `i` all have sentences |
| `Collection.PresentBeforeIsPrefix` | descriptions_rules.py:58-59 | the loop's record of present groups is the present groups of the prefix |
| `Collection.ReadAll` | descriptions_rules.py:58-74 | once the loop has passed every group, it has read what `get_sentences` reads |
| `Collection.ReadStops` | descriptions_rules.py:73-74 | with `keep_only_best_group`, the loop stops at the first present group |
| `Collection.ReadFails` | descriptions_rules.py:61 | a present group without prefix and postfix makes the merge raise `KeyError` |
| `Collection.ReducedSpecs` | descriptions_rules.py:76-95 | every prefix has its merger's reduced names and ids |
| `Collection.Kept` | descriptions_rules.py:104 | only prefixes with a non-empty reduced term list get a sentence |
| `Collection.KeptSnoc` | descriptions_rules.py:104 | one more prefix is kept exactly when its reduced term list is not empty |
| `Collection.AllFitSnoc` | descriptions_rules.py:96-104 | appending a fitting sentence for one more prefix keeps the whole list fitting |
| `Collection.GOSentencesCollection.constructor` | descriptions_rules.py:23-30 | the collection shares the given priority list, keeps the settings, and starts with no sentence |
| `Collection.GOSentencesCollection.SetSentence` | descriptions_rules.py:32-39 | `None` changes nothing; a sentence is stored under its own (aspect, group), replacing any earlier one; every sentence stays filed under its own key |
| `Collection.GOSentencesCollection.ReadPresentGroups` | descriptions_rules.py:56-74 | the first loop yields the sentences of the read groups (without merging) or their per-prefix mergers (with merging) |
| `Collection.GOSentencesCollection.ReadGroup` | descriptions_rules.py:59-72 | one pass over a present group appends its sentence, or folds it into its prefix's merger; it fails exactly when merging and the group has no prefix |
| `Collection.GOSentencesCollection.GetSentences` | descriptions_rules.py:41-105 | without merging: the read groups' sentences in priority order; with merging: `KeyError` when a read group has no prefix or when a term name has no id, otherwise one sentence per prefix in first-appearance order, skipping prefixes left without terms |
| `Collection.GOSentencesCollection.ReduceAll` | descriptions_rules.py:76-95 | every merger is reduced in prefix order; `KeyError` exactly when some merger cannot be reduced |
| `Collection.GOSentencesCollection.BuildSentences` | descriptions_rules.py:96-104 | one sentence per prefix with terms: its reduced names and ids, the merged postfix, the composed text, and the groups joined with `", "` |
| `Collection.GOSentencesCollection.ReduceMerger` | descriptions_rules.py:77-95 | the merger's names after parent removal and merge as configured, and the id map as the code leaves it; it fails exactly when the specification raises |
| `Collection.MergedSentence` | descriptions_rules.py:96-103 | the sentence of one prefix: its terms and ids, the merged postfix, the composed text, and the evidence groups joined with `", "` |
| `Collection.RemoveParentTerms` | descriptions_rules.py:78-86 | the names of the ids that survive pruning, each once, and the id map restricted to them; `KeyError` exactly as specified |
| `Collection.PruneStageListed` | descriptions_rules.py:78-86 | the stage computed from any listing of the term set equals the stage of the set |
| `Collection.MergeTerms` | descriptions_rules.py:88-95 | the names of the merged ids and the id map left as it was, since line 94 assigns another attribute; non-empty exactly when the specified names are |
| `Generation.FirstMatch` | descriptions_rules.py:188-198 | the first special case whose text starts the term name, and no earlier case matches; none when no case matches |
| `Generation.IndexOf` | descriptions_rules.py:194 | `list.index` gives the first position of the item |
| `Generation.InsertSubGroupPlacement` | descriptions_rules.py:192-197 | a new sub-group is inserted immediately after the first occurrence of its group, once, with the rest of the list unchanged; an already listed one leaves the list as is; a missing group raises `ValueError` |
| `Generation.InsertSubGroupOnce` | descriptions_rules.py:192-197 | inserting the same sub-group a second time changes nothing |
| `Generation.Bucketing` | descriptions_rules.py:182-199 | the grouping loop can only fail with `ValueError` |
| `Generation.BucketingStops` | descriptions_rules.py:184-199 | once the loop has raised, later annotations change nothing |
| `Generation.GroupedMembers` | descriptions_rules.py:184-199 | a group exists exactly when some annotation is filed under it, and it holds exactly the (name, id) pairs of those annotations; annotations whose evidence code has no group are dropped |
| `Generation.GroupedSnoc` | descriptions_rules.py:199 | one more annotation adds its pair to its group, or changes nothing when it has no group |
| `Generation.BucketingGroups` | descriptions_rules.py:182-199 | when the loop does not raise, it builds exactly the reference groups |
| `Generation.RouteGroups` | descriptions_rules.py:184-199 | one pass that does not raise adds the annotation's pair to its group |
| `Generation.BucketingKeepsList` | descriptions_rules.py:192-197 | no group ever leaves the priority list |
| `Generation.BucketingSucceeds` | descriptions_rules.py:194 | no `ValueError` is raised when every group a special case redirects from is in the priority list |
| `Generation.TermNames` | descriptions_rules.py:205 | the names of the pairs, position by position |
| `Generation.LastWins` | descriptions_rules.py:206 | the dictionary comprehension has a key for every pair's name, and each entry is one of the pairs |
| `Generation.NamedIds` | descriptions_rules.py:211-213 | the (name, main id) pair of each listed id, position by position |
| `Generation.UnreducedGroup` | descriptions_rules.py:205-206 | without pruning or merging, the sentence lists each of the group's names once, with ids taken from the group's pairs |
| `Generation.ReducedIdsNameTheirTerms` | descriptions_rules.py:211-220 | after pruning or merging, each name maps to the main id of a term with that name, and the names and id keys are the same |
| `Generation.NamedIdsNameTheirTerms` | descriptions_rules.py:211-213 | the same for the pairs built from any list of known ids |
| `Generation.NamedIdsAreMain` | descriptions_rules.py:211-213 | the id map rebuilt from term objects maps every name to the main id of a term with that name |
| `Generation.PairsUsable` | descriptions_rules.py:205-206 | when every pair carries a known id, every name has a known id in the dictionary |
| `Generation.NamesHaveIds` | descriptions_rules.py:205-206 | the names of a list of pairs are exactly the keys of its dictionary |
| `Generation.PrunedFromGroup` | descriptions_rules.py:207-213 | the ids left by pruning are ids of the group's own terms |
| `Generation.MergedFromGroup` | descriptions_rules.py:214-220 | at or below the threshold, the merged ids are exactly the group's ids; above it, each is a strict ancestor of one of them, at the minimum depth or more |
| `Generation.MergeStartsUsable` | descriptions_rules.py:207-217 | every name that reaches the merge has a main id |
| `Generation.PruneGroup` | descriptions_rules.py:207-210 | lists, as known ids, exactly the ids that pruning leaves |
| `Generation.MergeGroup` | descriptions_rules.py:214-217 | lists, as known ids, exactly the merged ids |
| `Generation.PrunePairsUsable` | descriptions_rules.py:211-217 | the names and ids passed to the merge have main ids |
| `Generation.ReduceGroup` | descriptions_rules.py:204-225 | one group's sentence is the specified sentence for the listings its sets went through; any sentence carries the group's aspect and evidence group, the prefix and postfix mapped to them, and the composed text; without reduction it is `None` exactly for an empty group, raises `KeyError` for a non-empty group without prefix and postfix, and maps each name to an id the group pairs it with; with reduction every name maps to the main id of a term with that name |
| `Generation.ReducePairs` | descriptions_rules.py:205-220 | the group's pairs after pruning and merging are the specified pairs for those listings; without reduction they are the group's pairs, each once; with reduction each is the name and main id of a known term |
| `Generation.FinalPairsShape` | descriptions_rules.py:205-213 | the same two facts about the specified pairs, for any listings that fit |
| `Generation.StoredUpdate` | descriptions_rules.py:39 | storing under one key leaves what is stored under the others |
| `Generation.FillStep` | descriptions_rules.py:221-225 | storing a new group's sentence keeps every group done so far done, and makes the new group done |
| `Generation.GenerateGoSentences` | descriptions_rules.py:146-226 | `None` and no change for no annotations; the priority list updated in place as the grouping loop specifies; `ValueError` when that loop raises; otherwise `KeyError` only when some group's sentence raises, or a new collection sharing the priority list in which every group's sentence is stored (nothing for groups left without terms) and nothing else |
| `Generation.FileAnnotation` | descriptions_rules.py:184-199 | one pass of the grouping loop: the new priority list and groups are those of the specification |
| `Generation.GroupAnnotations` | descriptions_rules.py:183-199 | the grouping loop leaves the priority list and groups the specification gives |
| `Generation.FillSentences` | descriptions_rules.py:204-225 | the per-group loop stores every group's sentence, and only groups' sentences, or raises `KeyError` because some group fails |
| `Generation.FillOne` | descriptions_rules.py:204-225 | one pass of that loop records the group's listings and stores its sentence, or raises `KeyError` because that group fails |
| `DataFetch.GetParents` | genedescriptions/data_fetcher.py:22-28 | the parents are always included; without a non-empty relationship holding `part_of` the result is exactly the parents; any extra id is a `part_of` target |
| `DataFetch.PartOfTargetsAreParents` | genedescriptions/data_fetcher.py:25-26 | every `part_of` target is returned |
| `DataFetch.LastIndex` | genedescriptions/data_fetcher.py:156 | the last position of a code in the priority list |
| `DataFetch.PriorityMap` | genedescriptions/data_fetcher.py:156 | a code has a priority exactly when it is in the list, and priorities lie between 0 and the list length |
| `DataFetch.HigherPriorityIsEarlier` | genedescriptions/data_fetcher.py:156 | a higher priority means an earlier (last) position in the list, and the converse |
| `DataFetch.FirstCodeIsBest` | genedescriptions/data_fetcher.py:123-124 | in a list without repetitions the first code has the top priority |
| `DataFetch.Filtered` | genedescriptions/data_fetcher.py:157-159 | an annotation is kept exactly when it is admitted: not obsolete unless obsolete ones are included, and not qualified `NOT` unless negative ones are included |
| `DataFetch.Select` | genedescriptions/data_fetcher.py:162-170 | the dictionary's keys are its listed ids, listed once each; each entry has its GO id, a code of the priority list, and comes from the input |
| `DataFetch.SelectedKnownAndUnique` | genedescriptions/data_fetcher.py:162-173 | the values returned have known codes, come from the input, and have distinct GO ids |
| `DataFetch.SelectBest` | genedescriptions/data_fetcher.py:164-170 | every GO id with a known code is selected, with a priority at least that of each of its annotations |
| `DataFetch.SelectFirstBest` | genedescriptions/data_fetcher.py:166-170 | the selected annotation is the first one seen with the highest priority: every earlier one with that id has a strictly lower priority |
| `DataFetch.FirstOccurrences` | genedescriptions/data_fetcher.py:162-173 | each element at its first occurrence, none lost or added |
| `DataFetch.SelectOrder` | genedescriptions/data_fetcher.py:162-173 | the output follows the first appearance of each GO id among the admitted annotations with known codes |
| `DataFetch.PrioritizedSound` | genedescriptions/data_fetcher.py:156-173 | every annotation returned is the gene's own, admitted, with a code of the priority list; no two share a GO id |
| `DataFetch.PrioritizedBest` | genedescriptions/data_fetcher.py:164-170 | no admitted annotation of the same GO id has a better code than the one returned |
| `DataFetch.PrioritizedComplete` | genedescriptions/data_fetcher.py:164-170 | every GO id of an admitted annotation with a listed code is returned |
| `DataFetch.KeptGenesPositions` | genedescriptions/data_fetcher.py:232-234 | the genes yielded are exactly those of the items passing the dead and pseudo filter, in item order |
| `DataFetch.SelectByPriority` | genedescriptions/data_fetcher.py:162-170 | the selection loop builds the specified dictionary |
| `DataFetch.DataFetcher.Loaded` | genedescriptions/data_fetcher.py:89-95 | the fetcher's `go_data` and `do_data` dictionaries and its `gene_data` hold the data its loaders would have read |
| `DataFetch.DataFetcher.GetAnnotations` | genedescriptions/data_fetcher.py:121-173 | the specified prioritised annotations of the gene; reading a missing gene inserts an empty list for it; with `desc_stats`, the admitted count and the returned count |
| `DataFetch.DataFetcher.GetGeneData` | genedescriptions/data_fetcher.py:232-234 | the kept genes of `gene_data`, in order |

## Left out

- File download, caching and decompression; GAF, OBO, tar and JSON reading; URL and path assembly; the loaders (`load_go_data`, `load_disease_data`, `load_gene_data`). These are I/O. A fetcher is built already loaded (`DataFetcher.Loaded`).
- The regex renaming of term names while loading. It needs a regex engine.
- `inflect`'s `plural`. It is a parameter of the merge of postfix phrases (`plural: string -> string`).
- `genedescriptions/ontology_tools.py` and its set-cover selector. They are not part of this model, and they compute with floating point.
- `OntoTerm` and the `Ontology` base class. `query_term` is a map from every known id to its term (`GoOntology.Ontology`); an alternative id maps to the same term.
- A GO id that `query_term` does not know. The caller then fails with `AttributeError` when it reads the result. The model requires known ids instead: `TermReduction.PruneParents`, `Collection.GOSentencesCollection.GetSentences` and `Generation.GenerateGoSentences` require it.
- `get_gene_data`'s lazy load when `gene_data` is empty is I/O. It is also a generator; the model returns the list it yields.
- `RawDataFetcher` and `DataFetcher` are merged into one class. `desc_stats` holds a `SingleDescStats` that has exactly the two counters written here.
- The order in which Python lists a set or a set-keyed dictionary is left open (`Listing.ListOf`). A ghost `Listings` value records which order occurred. The sentences' term order is stated only up to that order.
- `GOSentenceMerger` is a value (`Collection.Merger`) that is rebuilt on each update. Its `term_postfix_dict` and `term_evgroup_dict` are written but never read, so they are not modelled.
- `re.match(re.escape(text), name)` is modelled as `name` starting with `text`, which is exactly what an escaped pattern matches.
- `Generation.GenerateGoSentences`: requires main ids (not alternative ids) for the annotated GO terms whenever parent removal or the merge runs. The source needs main ids only when the merge runs above its threshold (`len(go_terms_names) > min_number_of_terms`, `descriptions_rules.py:316`): there its step 2 loops forever on an alternative id, because paths are discarded under their first id, the main one, while the loop waits on the alternative one. At or below the threshold (`descriptions_rules.py:354-355`), and with parent removal alone, the source also accepts alternative ids; the model does not cover those cases. The loaders store `query_term(..).id`, a main id, in every annotation (`genedescriptions/data_fetcher.py:263`), so every caller meets the requirement.
- `TermReduction.MergeByCommonAncestor`: above the threshold it requires main ids, for the same reason.
- `Collection.GOSentencesCollection.GetSentences`: when merging with a positive `merge_num_terms_threshold`, it requires main ids in the id map of every stored sentence, of every aspect and group, read or not. The source needs them only for the merged groups whose term count exceeds the threshold. The sentences are built from loader data that carry main ids (`genedescriptions/data_fetcher.py:263`), so every caller meets the requirement.
- `Sentences.ComposeGoSentence`: requires a non-empty name list. The source reads the first name and raises `IndexError` on an empty one, and every caller checks for that first.
- `Sentences.MergePostfixPhrases`: requires a non-empty phrase list. The source raises `IndexError` on an empty one, and its only caller always passes a merger's list, which has at least one phrase (`Collection.CollectShape`).
