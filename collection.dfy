/** `GOSentencesCollection`: the GO sentences of one gene indexed by (aspect, evidence group),
    read back either one sentence per evidence group in priority order, or merged into one
    sentence per prefix. */
module Collection {
  import opened Wrappers
  import opened Text
  import opened GoOntology
  import opened TermReduction
  import opened Sentences
  import opened Listing

  /** The evidence groups priority list. It is one Python list shared by reference: the caller
      passes it to the sentence generator, which inserts special-case groups into it and hands
      the same list to the collection it builds. */
  class EvidenceGroupList {
    var groups: seq<string>

    constructor(groups: seq<string>)
      ensures this.groups == groups
    {
      this.groups := groups;
    }
  }

  type SentenceMap = map<(string, string), GOSentence>

  // ---------------------------------------------------------------------------
  // Reading the groups in priority order
  // ---------------------------------------------------------------------------

  /** The evidence groups, in priority order, that have a sentence for `aspect`. */
  function PresentGroups(groups: seq<string>, aspect: string, sm: SentenceMap): (r: seq<string>)
    ensures forall g :: g in r <==> g in groups && (aspect, g) in sm
    ensures |r| <= |groups|
  {
    if groups == [] then []
    else
      var g := groups[|groups| - 1];
      PresentGroups(groups[..|groups| - 1], aspect, sm) + if (aspect, g) in sm then [g] else []
  }

  /** The groups `get_sentences` reads: all present ones, or only the first when it keeps only
      the best group. */
  function ReadGroups(groups: seq<string>, aspect: string, sm: SentenceMap, keepBest: bool): (r: seq<string>)
    ensures forall g | g in r :: g in groups && (aspect, g) in sm
    ensures keepBest ==> |r| <= 1
  {
    var present := PresentGroups(groups, aspect, sm);
    if keepBest && |present| > 1 then present[..1] else present
  }

  /** The groups present among the first `i` come first among all the present groups. */
  lemma {:induction false} PresentGroupsPrefix(groups: seq<string>, i: nat, aspect: string, sm: SentenceMap)
    requires i <= |groups|
    ensures var front := PresentGroups(groups[..i], aspect, sm);
            front <= PresentGroups(groups, aspect, sm)
  {
    if i < |groups| {
      var n := |groups|;
      assert groups[..n - 1][..i] == groups[..i];
      PresentGroupsPrefix(groups[..n - 1], i, aspect, sm);
    } else {
      assert groups[..i] == groups;
    }
  }

  /** Keeping only the best group reads the earliest group of the priority list that has a
      sentence for the aspect, and nothing when none has. */
  lemma {:induction false} BestGroupIsFirstPresent(groups: seq<string>, aspect: string, sm: SentenceMap)
    ensures var r := ReadGroups(groups, aspect, sm, true);
            && (r == [] <==> forall g | g in groups :: (aspect, g) !in sm)
            && (r != [] ==> exists i | 0 <= i < |groups| ::
                              && r == [groups[i]] && (aspect, groups[i]) in sm
                              && forall j | 0 <= j < i :: (aspect, groups[j]) !in sm)
  {
    var present := PresentGroups(groups, aspect, sm);
    if present != [] {
      assert present[0] in present;
      var i := FirstPresent(groups, aspect, sm);
      NoneBefore(groups, i, aspect, sm);
      assert groups[..i + 1][..i] == groups[..i];
      assert PresentGroups(groups[..i + 1], aspect, sm) == [groups[i]];
      PresentGroupsPrefix(groups, i + 1, aspect, sm);
      var r := ReadGroups(groups, aspect, sm, true);
      assert r == [groups[i]] && (aspect, groups[i]) in sm && forall j | 0 <= j < i :: (aspect, groups[j]) !in sm;
    }
  }

  /** The position of the earliest group with a sentence, and no group before it has one. */
  lemma {:induction false} FirstPresent(groups: seq<string>, aspect: string, sm: SentenceMap) returns (i: nat)
    requires PresentGroups(groups, aspect, sm) != []
    ensures i < |groups| && (aspect, groups[i]) in sm
    ensures PresentGroups(groups[..i], aspect, sm) == []
  {
    var n := |groups|;
    var front := groups[..n - 1];
    if PresentGroups(front, aspect, sm) != [] {
      i := FirstPresent(front, aspect, sm);
      assert front[..i] == groups[..i] && front[i] == groups[i];
    } else {
      i := n - 1;
      assert PresentGroups(groups, aspect, sm) == if (aspect, groups[i]) in sm then [groups[i]] else [];
      assert groups[..i] == front;
    }
  }

  /** No group before a prefix without present groups is present. */
  lemma NoneBefore(groups: seq<string>, i: nat, aspect: string, sm: SentenceMap)
    requires i <= |groups| && PresentGroups(groups[..i], aspect, sm) == []
    ensures forall j | 0 <= j < i :: (aspect, groups[j]) !in sm
  {
    forall j | 0 <= j < i ensures (aspect, groups[j]) !in sm {
      assert groups[j] in groups[..i];
    }
  }

  /** The sentences of the given groups, in order. */
  function SentencesOf(gs: seq<string>, aspect: string, sm: SentenceMap): (r: seq<GOSentence>)
    requires forall g | g in gs :: (aspect, g) in sm
    ensures |r| == |gs| && forall i | 0 <= i < |gs| :: r[i] == sm[(aspect, gs[i])]
  {
    if gs == [] then [] else SentencesOf(gs[..|gs| - 1], aspect, sm) + [sm[(aspect, gs[|gs| - 1])]]
  }

  // ---------------------------------------------------------------------------
  // Merging the groups that share a prefix
  // ---------------------------------------------------------------------------

  /** `GOSentenceMerger`, with the fields that `get_sentences` reads back. */
  datatype Merger = Merger(postfixList: seq<string>, terms: set<string>, termsIds: map<string, string>,
                           evidenceGroups: seq<string>)

  const EmptyMerger := Merger([], {}, map[], [])

  /** One evidence group's sentence folded into the merger of its prefix; `dict.update` lets
      the later group's ids win. */
  function AddGroup(mg: Merger, postfix: string, s: GOSentence, eg: string): Merger
  {
    Merger(mg.postfixList + [postfix], mg.terms + (set t | t in s.terms), mg.termsIds + s.termIds,
           mg.evidenceGroups + [eg])
  }

  /** The groups among `gs` whose prefix phrase is `p`, in order. */
  function GroupsWithPrefix(gs: seq<string>, aspect: string, prepost: PrePostfixMap, p: string): (r: seq<string>)
    requires forall g | g in gs :: (aspect, g) in prepost
    ensures forall g :: g in r <==> g in gs && prepost[(aspect, g)].0 == p
  {
    if gs == [] then []
    else
      var g := gs[|gs| - 1];
      GroupsWithPrefix(gs[..|gs| - 1], aspect, prepost, p) + if prepost[(aspect, g)].0 == p then [g] else []
  }

  /** Every id value of the sentences of the groups `gs`. */
  function IdValues(gs: seq<string>, aspect: string, sm: SentenceMap): set<string>
  {
    set g, n | g in gs && (aspect, g) in sm && n in sm[(aspect, g)].termIds :: sm[(aspect, g)].termIds[n]
  }

  /** `merged_sentences` after the groups `gs` were read: the prefixes in the order they first
      appeared, and the merger of each. The prefix of a group missing from `prepost` raises
      `KeyError`. */
  function Collect(gs: seq<string>, aspect: string, sm: SentenceMap, prepost: PrePostfixMap)
    : (r: Outcome<(seq<string>, map<string, Merger>)>)
    requires forall g | g in gs :: (aspect, g) in sm
    ensures r.Ok? <==> forall g | g in gs :: (aspect, g) in prepost
    ensures r.Raised? ==> r.error == KeyError
  {
    if gs == [] then Ok(([], map[]))
    else
      var g := gs[|gs| - 1];
      var front := gs[..|gs| - 1];
      match Collect(front, aspect, sm, prepost)
      case Raised(e) => Raised(e)
      case Ok((prefixes, mergers)) =>
        if (aspect, g) !in prepost then Raised(KeyError)
        else
          var prefix := prepost[(aspect, g)].0;
          var mg := GetOr(mergers, prefix, EmptyMerger);
          Ok((if prefix in mergers then prefixes else prefixes + [prefix],
              mergers[prefix := AddGroup(mg, prepost[(aspect, g)].1, sm[(aspect, g)], g)]))
  }

  /** The prefixes are listed once each and are exactly the keys of the mergers; every merger
      has at least one postfix phrase, and its ids come from the sentences read. */
  lemma {:induction false} CollectShape(gs: seq<string>, aspect: string, sm: SentenceMap, prepost: PrePostfixMap)
    requires forall g | g in gs :: (aspect, g) in sm
    requires Collect(gs, aspect, sm, prepost).Ok?
    ensures var (prefixes, mergers) := Collect(gs, aspect, sm, prepost).value;
            && (forall p :: p in prefixes <==> p in mergers)
            && (forall i, j | 0 <= i < j < |prefixes| :: prefixes[i] != prefixes[j])
            && (forall p | p in mergers :: |mergers[p].postfixList| > 0)
            && (forall p, n | p in mergers && n in mergers[p].termsIds :: mergers[p].termsIds[n] in IdValues(gs, aspect, sm))
  {
    if gs != [] {
      var front := gs[..|gs| - 1];
      CollectShape(front, aspect, sm, prepost);
      assert IdValues(front, aspect, sm) <= IdValues(gs, aspect, sm);
    }
  }

  /** Reading one more group with a prefix phrase adds it to the merger of that prefix, and the
      prefix to the list when it is new. */
  lemma CollectSnoc(gs: seq<string>, g: string, aspect: string, sm: SentenceMap, prepost: PrePostfixMap,
                    prefixes: seq<string>, mergers: map<string, Merger>)
    requires forall h | h in gs :: (aspect, h) in sm
    requires (aspect, g) in sm && (aspect, g) in prepost
    requires Collect(gs, aspect, sm, prepost) == Ok((prefixes, mergers))
    ensures var prefix := prepost[(aspect, g)].0;
            var mg := GetOr(mergers, prefix, EmptyMerger);
            Collect(gs + [g], aspect, sm, prepost) ==
              Ok((if prefix in mergers then prefixes else prefixes + [prefix],
                  mergers[prefix := AddGroup(mg, prepost[(aspect, g)].1, sm[(aspect, g)], g)]))
  {
    assert (gs + [g])[..|gs|] == gs;
  }

  /** Reading one more group appends it when it is present. */
  ghost function PresentBefore(groups: seq<string>, i: nat, aspect: string, sm: SentenceMap): (r: seq<string>)
    requires i <= |groups|
    ensures forall g | g in r :: (aspect, g) in sm
  {
    if i == 0 then []
    else PresentBefore(groups, i - 1, aspect, sm) + if (aspect, groups[i - 1]) in sm then [groups[i - 1]] else []
  }

  /** The present groups among the first `i`, counted by position. */
  lemma {:induction false} PresentBeforeIsPrefix(groups: seq<string>, i: nat, aspect: string, sm: SentenceMap)
    requires i <= |groups|
    ensures PresentBefore(groups, i, aspect, sm) == PresentGroups(groups[..i], aspect, sm)
  {
    if i > 0 {
      PresentBeforeIsPrefix(groups, i - 1, aspect, sm);
      assert groups[..i][..i - 1] == groups[..i - 1];
    }
  }

  /** A loop over all the groups has read what `get_sentences` reads. */
  lemma ReadAll(groups: seq<string>, aspect: string, sm: SentenceMap, keepBest: bool)
    requires keepBest ==> PresentBefore(groups, |groups|, aspect, sm) == []
    ensures ReadGroups(groups, aspect, sm, keepBest) == PresentBefore(groups, |groups|, aspect, sm)
  {
    PresentBeforeIsPrefix(groups, |groups|, aspect, sm);
    assert groups[..|groups|] == groups;
  }

  /** Keeping only the best group, the loop stops at the first present group. */
  lemma ReadStops(groups: seq<string>, i: nat, aspect: string, sm: SentenceMap)
    requires i < |groups| && (aspect, groups[i]) in sm && PresentBefore(groups, i, aspect, sm) == []
    ensures ReadGroups(groups, aspect, sm, true) == [groups[i]]
  {
    PresentBeforeIsPrefix(groups, i, aspect, sm);
    FirstPresentIsBest(groups, i, aspect, sm);
  }

  /** A present group without prefix and postfix makes collecting what is read fail. */
  lemma ReadFails(groups: seq<string>, i: nat, aspect: string, sm: SentenceMap, keepBest: bool, prepost: PrePostfixMap)
    requires i < |groups| && (aspect, groups[i]) in sm && (aspect, groups[i]) !in prepost
    requires keepBest ==> PresentBefore(groups, i, aspect, sm) == []
    ensures Collect(ReadGroups(groups, aspect, sm, keepBest), aspect, sm, prepost) == Raised(KeyError)
  {
    if keepBest {
      ReadStops(groups, i, aspect, sm);
    } else {
      assert groups[i] in PresentGroups(groups, aspect, sm);
    }
  }

  /** When the `i`-th group is the first present one, it is all that is read when only the best
      group is kept. */
  lemma FirstPresentIsBest(groups: seq<string>, i: nat, aspect: string, sm: SentenceMap)
    requires i < |groups| && (aspect, groups[i]) in sm
    requires PresentGroups(groups[..i], aspect, sm) == []
    ensures ReadGroups(groups, aspect, sm, true) == [groups[i]]
  {
    assert groups[..i + 1][..i] == groups[..i];
    assert PresentGroups(groups[..i + 1], aspect, sm) == [groups[i]];
    PresentGroupsPrefix(groups, i + 1, aspect, sm);
  }

  /** Each merger gathers exactly the groups with its prefix: their names in order, their
      postfix phrases in the same order, and the union of their term names. */
  lemma {:induction false} CollectGathers(gs: seq<string>, aspect: string, sm: SentenceMap, prepost: PrePostfixMap, p: string)
    requires forall g | g in gs :: (aspect, g) in sm && (aspect, g) in prepost
    ensures var mergers := Collect(gs, aspect, sm, prepost).value.1;
            var mine := GroupsWithPrefix(gs, aspect, prepost, p);
            && (p in mergers <==> mine != [])
            && (p in mergers ==>
                  && mergers[p].evidenceGroups == mine
                  && |mergers[p].postfixList| == |mine|
                  && (forall j | 0 <= j < |mine| :: mergers[p].postfixList[j] == prepost[(aspect, mine[j])].1)
                  && forall t :: t in mergers[p].terms <==> exists g | g in mine :: t in sm[(aspect, g)].terms)
  {
    if gs != [] {
      var g := gs[|gs| - 1];
      var front := gs[..|gs| - 1];
      CollectGathers(front, aspect, sm, prepost, p);
      var before := Collect(front, aspect, sm, prepost).value.1;
      var mergers := Collect(gs, aspect, sm, prepost).value.1;
      var mine := GroupsWithPrefix(gs, aspect, prepost, p);
      var mineBefore := GroupsWithPrefix(front, aspect, prepost, p);
      if prepost[(aspect, g)].0 == p {
        assert mine == mineBefore + [g];
        var mg := GetOr(before, p, EmptyMerger);
        assert mergers[p] == AddGroup(mg, prepost[(aspect, g)].1, sm[(aspect, g)], g);
        forall t ensures t in mergers[p].terms <==> exists h | h in mine :: t in sm[(aspect, h)].terms {
          if t in mergers[p].terms && t !in mg.terms {
            assert t in sm[(aspect, g)].terms;
          }
          if exists h | h in mine :: t in sm[(aspect, h)].terms {
            var h :| h in mine && t in sm[(aspect, h)].terms;
            if h != g {
              assert h in mineBefore;
            }
          }
        }
      } else {
        assert mine == mineBefore;
        assert p in mergers <==> p in before;
      }
    }
  }

  /** `ids` values are all known terms, and main ids when the merge by common ancestor runs. */
  predicate IdsUsable(o: Ontology, ids: map<string, string>, merging: bool) {
    forall n | n in ids :: ids[n] in o && (merging ==> Canonical(o, ids[n]))
  }

  /** The removal of parent terms (`remove_parent_terms`): the names of the surviving ids, and
      the id map restricted to them. A name without an id raises `KeyError`. */
  ghost function PruneStage(o: Ontology, terms: set<string>, ids: map<string, string>, removeParents: bool)
    : (r: Outcome<(set<string>, map<string, string>)>)
    requires Valid(o) && IdsUsable(o, ids, false)
    ensures r.Ok? ==> forall k | k in r.value.1 :: k in ids && r.value.1[k] == ids[k]
  {
    if !removeParents then Ok((terms, ids))
    else if exists n | n in terms :: n !in ids then Raised(KeyError)
    else
      var kept := set x | x in PrunedIds(o, Enumeration(terms), ids) :: o[x].name;
      Ok((kept, map k | k in ids && k in kept :: ids[k]))
  }

  /** The merge by common ancestor (`merge_num_terms_threshold > 0`): the names of the merged
      ids. The id map stays the one from before the merge: the merged map is stored under
      another attribute name and never read. A name without an id raises `KeyError`. */
  ghost function MergeStage(o: Ontology, terms: set<string>, ids: map<string, string>, threshold: int, minDist: int)
    : Outcome<(set<string>, map<string, string>)>
    requires Valid(o) && IdsUsable(o, ids, threshold > 0)
  {
    if threshold <= 0 then Ok((terms, ids))
    else if exists n | n in terms :: n !in ids then Raised(KeyError)
    else
      var names := Enumeration(terms);
      MergedIdsKnown(o, names, ids, minDist, threshold);
      Ok((set x | x in MergedIds(o, names, ids, minDist, threshold) :: o[x].name, ids))
  }

  /** The names and the id map of one merger after both stages. */
  ghost function Reduced(o: Ontology, mg: Merger, removeParents: bool, threshold: int, minDist: int)
    : Outcome<(set<string>, map<string, string>)>
    requires Valid(o) && IdsUsable(o, mg.termsIds, threshold > 0)
  {
    match PruneStage(o, mg.terms, mg.termsIds, removeParents)
    case Raised(e) => Raised(e)
    case Ok((terms, ids)) => MergeStage(o, terms, ids, threshold, minDist)
  }

  /** `s` is the merged sentence for `prefix`: its merger's reduced names (in some order) and
      id map, its postfix phrases merged, its evidence groups joined with ", ". */
  ghost predicate Fits(s: GOSentence, prefix: string, mergers: map<string, Merger>,
                       specs: map<string, (set<string>, map<string, string>)>, aspect: string, plural: string -> string)
  {
    && prefix in mergers && prefix in specs
    && var mg := mergers[prefix];
    && s.prefix == prefix && s.goAspect == aspect
    && (forall t :: t in s.terms <==> t in specs[prefix].0) && s.termIds == specs[prefix].1
    && |mg.postfixList| > 0 && s.postfix == MergedPostfix(mg.postfixList, plural)
    && s.evidenceGroup == Join(", ", mg.evidenceGroups)
    && |s.terms| > 0 && s.text == ComposeGoSentence(prefix, s.terms, s.postfix)
  }

  /** Each sentence fits the prefix at the same position. */
  ghost predicate AllFit(sentences: seq<GOSentence>, kept: seq<string>, mergers: map<string, Merger>,
                         specs: map<string, (set<string>, map<string, string>)>, aspect: string, plural: string -> string)
  {
    |sentences| == |kept| && forall i | 0 <= i < |kept| :: Fits(sentences[i], kept[i], mergers, specs, aspect, plural)
  }

  lemma AllFitSnoc(sentences: seq<GOSentence>, kept: seq<string>, s: GOSentence, p: string, mergers: map<string, Merger>,
                   specs: map<string, (set<string>, map<string, string>)>, aspect: string, plural: string -> string)
    requires AllFit(sentences, kept, mergers, specs, aspect, plural) && Fits(s, p, mergers, specs, aspect, plural)
    ensures AllFit(sentences + [s], kept + [p], mergers, specs, aspect, plural)
  {
    forall i | 0 <= i < |kept| + 1 ensures Fits((sentences + [s])[i], (kept + [p])[i], mergers, specs, aspect, plural) {
      if i < |kept| {
        assert (sentences + [s])[i] == sentences[i] && (kept + [p])[i] == kept[i];
      }
    }
  }

  /** Every merger can be reduced without error. */
  ghost predicate AllReduce(o: Ontology, ps: seq<string>, mergers: map<string, Merger>, removeParents: bool,
                            threshold: int, minDist: int)
  {
    forall p | p in ps ::
      && p in mergers && Valid(o) && IdsUsable(o, mergers[p].termsIds, threshold > 0)
      && Reduced(o, mergers[p], removeParents, threshold, minDist).Ok?
  }

  /** The reduced names and id map of every merger. */
  ghost function ReducedSpecs(o: Ontology, ps: seq<string>, mergers: map<string, Merger>, removeParents: bool,
                              threshold: int, minDist: int): (r: map<string, (set<string>, map<string, string>)>)
    requires AllReduce(o, ps, mergers, removeParents, threshold, minDist)
    ensures forall p | p in ps :: p in r && r[p] == Reduced(o, mergers[p], removeParents, threshold, minDist).value
  {
    map p | p in ps :: Reduced(o, mergers[p], removeParents, threshold, minDist).value
  }

  /** The prefixes whose reduced names are not empty: those that get a sentence. */
  function Kept(ps: seq<string>, specs: map<string, (set<string>, map<string, string>)>): (r: seq<string>)
    ensures forall p | p in r :: p in ps && p in specs && specs[p].0 != {}
  {
    if ps == [] then []
    else
      var p := ps[|ps| - 1];
      Kept(ps[..|ps| - 1], specs) + if p in specs && specs[p].0 != {} then [p] else []
  }

  /** Going through one more prefix keeps it when its reduced names are not empty. */
  lemma KeptSnoc(ps: seq<string>, k: nat, specs: map<string, (set<string>, map<string, string>)>)
    requires k < |ps|
    ensures Kept(ps[..k + 1], specs) == Kept(ps[..k], specs) + if ps[k] in specs && specs[ps[k]].0 != {} then [ps[k]] else []
  {
    assert ps[..k + 1][..k] == ps[..k];
  }

  /** A merger's reduction as computed (names listed in some order) agrees with the
      specification. */
  ghost predicate ReducedFits(red: (seq<string>, map<string, string>), spec: Outcome<(set<string>, map<string, string>)>)
  {
    && spec.Ok?
    && (forall t :: t in red.0 <==> t in spec.value.0) && red.1 == spec.value.1
    && (|red.0| > 0 <==> spec.value.0 != {})
  }

  /** What `get_sentences` returns when it merges groups with the same prefix, given the
      mergers it collected: the first `KeyError`, or one sentence per prefix whose reduced
      names are not empty, in the order the prefixes first appeared. */
  ghost predicate MergedSentences(r: Outcome<seq<GOSentence>>, o: Ontology,
                                  collected: Outcome<(seq<string>, map<string, Merger>)>, aspect: string,
                                  removeParents: bool, threshold: int, minDist: int, plural: string -> string)
  {
    match collected
    case Raised(e) => r == Raised(e)
    case Ok((prefixes, mergers)) =>
      if !AllReduce(o, prefixes, mergers, removeParents, threshold, minDist) then r == Raised(KeyError)
      else
        var specs := ReducedSpecs(o, prefixes, mergers, removeParents, threshold, minDist);
        var kept := Kept(prefixes, specs);
        r.Ok? && AllFit(r.value, kept, mergers, specs, aspect, plural)
  }

  /** Every sentence is filed under its own (aspect, evidence group), as `set_sentence` files it. */
  predicate Keyed(sm: SentenceMap) {
    forall k | k in sm :: (sm[k].goAspect, sm[k].evidenceGroup) == k
  }

  /** Without merging, every sentence read belongs to the requested aspect and to a group of the
      priority list, the groups coming in list order. */
  lemma UnmergedSentencesOfAspect(groups: seq<string>, aspect: string, sm: SentenceMap, keepBest: bool)
    requires Keyed(sm)
    ensures var read := ReadGroups(groups, aspect, sm, keepBest);
            var r := SentencesOf(read, aspect, sm);
            forall i | 0 <= i < |r| :: r[i].goAspect == aspect && r[i].evidenceGroup == read[i] && read[i] in groups
  {
  }

  class GOSentencesCollection {
    const evidenceGroupsList: EvidenceGroupList
    const prePostfix: PrePostfixMap
    var sentencesMap: SentenceMap
    const mergeMinDistanceFromRoot: int
    const mergeNumTermsThreshold: int
    const removeParentTerms: bool

    constructor(groups: EvidenceGroupList, prepost: PrePostfixMap, minDist: int, threshold: int, removeParents: bool)
      ensures evidenceGroupsList == groups && prePostfix == prepost && sentencesMap == map[]
      ensures mergeMinDistanceFromRoot == minDist && mergeNumTermsThreshold == threshold
      ensures removeParentTerms == removeParents
    {
      evidenceGroupsList := groups;
      prePostfix := prepost;
      sentencesMap := map[];
      mergeMinDistanceFromRoot := minDist;
      mergeNumTermsThreshold := threshold;
      removeParentTerms := removeParents;
    }

    /** `set_sentence`: file a sentence under its (aspect, evidence group); `None` is ignored. */
    method SetSentence(s: Option<GOSentence>)
      modifies this
      ensures s.None? ==> sentencesMap == old(sentencesMap)
      ensures s.Some? ==> sentencesMap == old(sentencesMap)[(s.value.goAspect, s.value.evidenceGroup) := s.value]
      ensures Keyed(old(sentencesMap)) ==> Keyed(sentencesMap)
    {
      if s.Some? {
        sentencesMap := sentencesMap[(s.value.goAspect, s.value.evidenceGroup) := s.value];
      }
    }

    /** The first loop of `get_sentences`: the groups read in priority order, with their
        sentences when they are not merged, or their mergers per prefix when they are. */
    method ReadPresentGroups(aspect: string, keepBest: bool, merge: bool)
      returns (sentences: seq<GOSentence>, r: Outcome<(seq<string>, map<string, Merger>)>)
      ensures var read := ReadGroups(evidenceGroupsList.groups, aspect, sentencesMap, keepBest);
              && (!merge ==> sentences == SentencesOf(read, aspect, sentencesMap))
              && (merge ==> r == Collect(read, aspect, sentencesMap, prePostfix))
    {
      var groups := evidenceGroupsList.groups;
      sentences := [];
      var prefixes: seq<string> := [];
      var mergers: map<string, Merger> := map[];
      ghost var read: seq<string> := [];
      var i := 0;
      while i < |groups|
        invariant 0 <= i <= |groups|
        invariant read == PresentBefore(groups, i, aspect, sentencesMap)
        invariant keepBest ==> read == []
        invariant !merge ==> sentences == SentencesOf(read, aspect, sentencesMap)
        invariant merge ==> Collect(read, aspect, sentencesMap, prePostfix) == Ok((prefixes, mergers))
      {
        var eg := groups[i];
        if (aspect, eg) in sentencesMap {
          var failed;
          sentences, failed, prefixes, mergers := ReadGroup(aspect, eg, merge, read, sentences, prefixes, mergers);
          if failed {
            ReadFails(groups, i, aspect, sentencesMap, keepBest, prePostfix);
            return sentences, Raised(KeyError);
          }
          read := read + [eg];
          if keepBest {
            ReadStops(groups, i, aspect, sentencesMap);
            return sentences, Ok((prefixes, mergers));
          }
        }
        i := i + 1;
      }
      ReadAll(groups, aspect, sentencesMap, keepBest);
      r := Ok((prefixes, mergers));
    }

    /** One pass of that loop over a present group: its sentence appended, or its postfix phrase
        and terms added to the merger of its prefix; `failed` when the group has no prefix. */
    method ReadGroup(aspect: string, eg: string, merge: bool, ghost read: seq<string>, sentences: seq<GOSentence>,
                     prefixes: seq<string>, mergers: map<string, Merger>)
      returns (sentences': seq<GOSentence>, failed: bool, prefixes': seq<string>, mergers': map<string, Merger>)
      requires (aspect, eg) in sentencesMap && forall g | g in read :: (aspect, g) in sentencesMap
      requires !merge ==> sentences == SentencesOf(read, aspect, sentencesMap)
      requires merge ==> Collect(read, aspect, sentencesMap, prePostfix) == Ok((prefixes, mergers))
      ensures failed <==> merge && (aspect, eg) !in prePostfix
      ensures !merge ==> sentences' == SentencesOf(read + [eg], aspect, sentencesMap)
      ensures merge && !failed ==> Collect(read + [eg], aspect, sentencesMap, prePostfix) == Ok((prefixes', mergers'))
    {
      sentences', failed, prefixes', mergers' := sentences, false, prefixes, mergers;
      if merge {
        if (aspect, eg) !in prePostfix {
          return sentences, true, prefixes, mergers;
        }
        var prefix := prePostfix[(aspect, eg)].0;
        var mg := GetOr(mergers, prefix, EmptyMerger);
        CollectSnoc(read, eg, aspect, sentencesMap, prePostfix, prefixes, mergers);
        if prefix !in mergers {
          prefixes' := prefixes + [prefix];
        }
        mergers' := mergers[prefix := AddGroup(mg, prePostfix[(aspect, eg)].1, sentencesMap[(aspect, eg)], eg)];
      } else {
        assert (read + [eg])[..|read|] == read;
        sentences' := sentences + [sentencesMap[(aspect, eg)]];
      }
    }

    /** `get_sentences(aspect, ontology, keep_only_best_group, merge_groups_with_same_prefix)`,
        with `inflect`'s `plural` as a parameter. Without merging: the sentences of the groups
        read, in priority order. With merging: see `MergedSentences`. */
    method GetSentences(aspect: string, o: Ontology, keepBest: bool, merge: bool, plural: string -> string)
      returns (r: Outcome<seq<GOSentence>>)
      requires merge ==> Valid(o) && forall k | k in sentencesMap ::
                           IdsUsable(o, sentencesMap[k].termIds, mergeNumTermsThreshold > 0)
      ensures var read := ReadGroups(evidenceGroupsList.groups, aspect, sentencesMap, keepBest);
              && (!merge ==> r == Ok(SentencesOf(read, aspect, sentencesMap)))
              && (merge ==> MergedSentences(r, o, Collect(read, aspect, sentencesMap, prePostfix), aspect,
                                            removeParentTerms, mergeNumTermsThreshold, mergeMinDistanceFromRoot, plural))
    {
      var sentences, collected := ReadPresentGroups(aspect, keepBest, merge);
      if !merge {
        return Ok(sentences);
      }
      ghost var read := ReadGroups(evidenceGroupsList.groups, aspect, sentencesMap, keepBest);
      if collected.Raised? {
        return Raised(collected.error);
      }
      var prefixes, mergers := collected.value.0, collected.value.1;
      CollectShape(read, aspect, sentencesMap, prePostfix);
      forall p | p in mergers ensures IdsUsable(o, mergers[p].termsIds, mergeNumTermsThreshold > 0) {
        forall n | n in mergers[p].termsIds
          ensures mergers[p].termsIds[n] in o && (mergeNumTermsThreshold > 0 ==> Canonical(o, mergers[p].termsIds[n]))
        {
          assert mergers[p].termsIds[n] in IdValues(read, aspect, sentencesMap);
        }
      }
      var reduced := ReduceAll(o, prefixes, mergers);
      if reduced.Raised? {
        return Raised(reduced.error);
      }
      ghost var specs := ReducedSpecs(o, prefixes, mergers, removeParentTerms, mergeNumTermsThreshold, mergeMinDistanceFromRoot);
      sentences := BuildSentences(o, prefixes, mergers, reduced.value, aspect, plural, specs);
      r := Ok(sentences);
    }

    /** The first loop over the merged sentences: every merger reduced, in prefix order; the
        first failure raises. */
    method ReduceAll(o: Ontology, prefixes: seq<string>, mergers: map<string, Merger>)
      returns (r: Outcome<map<string, (seq<string>, map<string, string>)>>)
      requires Valid(o) && forall p | p in prefixes :: p in mergers && IdsUsable(o, mergers[p].termsIds, mergeNumTermsThreshold > 0)
      requires forall i, j | 0 <= i < j < |prefixes| :: prefixes[i] != prefixes[j]
      ensures r.Raised? <==> !AllReduce(o, prefixes, mergers, removeParentTerms, mergeNumTermsThreshold, mergeMinDistanceFromRoot)
      ensures r.Raised? ==> r.error == KeyError
      ensures r.Ok? ==> forall p | p in prefixes ::
                p in r.value &&
                ReducedFits(r.value[p], Reduced(o, mergers[p], removeParentTerms, mergeNumTermsThreshold, mergeMinDistanceFromRoot))
    {
      var done: map<string, (seq<string>, map<string, string>)> := map[];
      for k := 0 to |prefixes|
        invariant forall j | 0 <= j < k :: prefixes[j] in done &&
                    ReducedFits(done[prefixes[j]], Reduced(o, mergers[prefixes[j]], removeParentTerms,
                                                           mergeNumTermsThreshold, mergeMinDistanceFromRoot))
      {
        var p := prefixes[k];
        var red := ReduceMerger(o, mergers[p]);
        if red.Raised? {
          assert p in prefixes;
          return Raised(red.error);
        }
        done := done[p := red.value];
      }
      r := Ok(done);
    }

    /** The closing list comprehension of `get_sentences`: one sentence per prefix whose term
        list is not empty. */
    method BuildSentences(o: Ontology, prefixes: seq<string>, mergers: map<string, Merger>,
                          reduced: map<string, (seq<string>, map<string, string>)>, aspect: string,
                          plural: string -> string, ghost specs: map<string, (set<string>, map<string, string>)>)
      returns (sentences: seq<GOSentence>)
      requires forall p | p in prefixes :: p in mergers && |mergers[p].postfixList| > 0
      requires forall p | p in prefixes :: p in reduced && p in specs && ReducedFits(reduced[p], Ok(specs[p]))
      ensures AllFit(sentences, Kept(prefixes, specs), mergers, specs, aspect, plural)
    {
      sentences := [];
      ghost var kept: seq<string> := [];
      for k := 0 to |prefixes|
        invariant kept == Kept(prefixes[..k], specs)
        invariant AllFit(sentences, kept, mergers, specs, aspect, plural)
      {
        var p := prefixes[k];
        KeptSnoc(prefixes, k, specs);
        var terms, ids := reduced[p].0, reduced[p].1;
        if |terms| > 0 {
          var sentence := MergedSentence(p, mergers[p], terms, ids, aspect, plural);
          assert Fits(sentence, p, mergers, specs, aspect, plural);
          AllFitSnoc(sentences, kept, sentence, p, mergers, specs, aspect, plural);
          sentences := sentences + [sentence];
          kept := kept + [p];
        }
      }
      assert prefixes[..|prefixes|] == prefixes;
    }

    /** The removal of parent terms and the merge by common ancestor applied to one merger:
        its term names as a list, and its id map. */
    method ReduceMerger(o: Ontology, mg: Merger) returns (r: Outcome<(seq<string>, map<string, string>)>)
      requires Valid(o) && IdsUsable(o, mg.termsIds, mergeNumTermsThreshold > 0)
      ensures var spec := Reduced(o, mg, removeParentTerms, mergeNumTermsThreshold, mergeMinDistanceFromRoot);
              && (r.Raised? <==> spec.Raised?)
              && (r.Raised? ==> r.error == KeyError)
              && (r.Ok? ==> (forall t :: t in r.value.0 <==> t in spec.value.0) && r.value.1 == spec.value.1)
              && (r.Ok? ==> (|r.value.0| > 0 <==> spec.value.0 != {}))
    {
      var terms := ListOf(mg.terms);
      var ids := mg.termsIds;
      ghost var names := mg.terms;
      if removeParentTerms {
        var pr := RemoveParentTerms(o, terms, ids, names);
        if pr.Raised? {
          return Raised(pr.error);
        }
        terms, ids := pr.value.0, pr.value.1;
        names := PruneStage(o, mg.terms, mg.termsIds, true).value.0;
      }
      if mergeNumTermsThreshold > 0 {
        r := MergeTerms(o, terms, ids, mergeNumTermsThreshold, mergeMinDistanceFromRoot, names);
      } else {
        r := Ok((terms, ids));
        NonEmptyListing(terms, names);
      }
    }
  }

  /** One element of the closing comprehension of `get_sentences`: the sentence of one prefix,
      its postfix phrases merged and its evidence groups joined with ", ". */
  method MergedSentence(prefix: string, mg: Merger, terms: seq<string>, ids: map<string, string>, aspect: string,
                        plural: string -> string) returns (s: GOSentence)
    requires |mg.postfixList| > 0 && |terms| > 0
    ensures s.prefix == prefix && s.terms == terms && s.termIds == ids && s.goAspect == aspect
    ensures s.postfix == MergedPostfix(mg.postfixList, plural)
    ensures s.text == ComposeGoSentence(prefix, terms, s.postfix)
    ensures s.evidenceGroup == Join(", ", mg.evidenceGroups)
  {
    var postfix := MergePostfixPhrases(mg.postfixList, plural);
    var text := ComposeGoSentence(prefix, terms, postfix);
    s := GOSentence(prefix, terms, ids, postfix, text, aspect, Join(", ", mg.evidenceGroups));
  }

  /** Lines 76-83 of `get_sentences`: the ids left after pruning, their names listed in some
      order, and the id map restricted to those names. */
  method RemoveParentTerms(o: Ontology, terms: seq<string>, ids: map<string, string>, ghost names: set<string>)
    returns (r: Outcome<(seq<string>, map<string, string>)>)
    requires Valid(o) && IdsUsable(o, ids, false) && Enumerates(terms, names)
    ensures var spec := PruneStage(o, names, ids, true);
            && (r.Raised? <==> spec.Raised?)
            && (r.Raised? ==> r.error == KeyError)
            && (r.Ok? ==> Enumerates(r.value.0, spec.value.0) && r.value.1 == spec.value.1)
  {
    var pr := PruneParents(o, terms, ids);
    if pr.Raised? {
      return Raised(pr.error);
    }
    var kept := set x | x in pr.value :: o[x].name;
    PruneStageListed(o, terms, names, ids);
    var listed := ListOf(kept);
    r := Ok((listed, map k | k in ids && k in kept :: ids[k]));
  }

  /** The pruning stage computed from one listing of the names is the stage of the set. */
  lemma PruneStageListed(o: Ontology, terms: seq<string>, names: set<string>, ids: map<string, string>)
    requires Valid(o) && IdsUsable(o, ids, false) && Enumerates(terms, names)
    requires forall n | n in terms :: n in ids
    ensures var kept := set x | x in PrunedIds(o, terms, ids) :: o[x].name;
            PruneStage(o, names, ids, true) == Ok((kept, map k | k in ids && k in kept :: ids[k]))
  {
    PrunedIdsSetOnly(o, terms, Enumeration(names), ids);
  }

  /** Lines 85-92 of `get_sentences`: the names of the merged ids, one per id, and the id map
      as it was. */
  method MergeTerms(o: Ontology, terms: seq<string>, ids: map<string, string>, threshold: int, minDist: int,
                    ghost names: set<string>)
    returns (r: Outcome<(seq<string>, map<string, string>)>)
    requires Valid(o) && threshold > 0 && IdsUsable(o, ids, true) && Enumerates(terms, names)
    ensures var spec := MergeStage(o, names, ids, threshold, minDist);
            && (r.Raised? <==> spec.Raised?)
            && (r.Raised? ==> r.error == KeyError)
            && (r.Ok? ==> (forall t :: t in r.value.0 <==> t in spec.value.0) && r.value.1 == spec.value.1)
            && (r.Ok? ==> (|r.value.0| > 0 <==> spec.value.0 != {}))
  {
    var mr := MergeByCommonAncestor(o, terms, ids, minDist, threshold);
    if mr.Raised? {
      return Raised(mr.error);
    }
    EnumerationSize(terms, names);
    EnumerationSize(Enumeration(names), names);
    MergedIdsSetOnly(o, terms, Enumeration(names), ids, minDist, threshold);
    MergedIdsKnown(o, terms, ids, minDist, threshold);
    var merged := ListOf(mr.value);
    var listed := seq(|merged|, i requires 0 <= i < |merged| => o[merged[i]].name);
    forall t | t in listed ensures exists x | x in mr.value :: o[x].name == t {
      var i :| 0 <= i < |listed| && listed[i] == t;
      assert merged[i] in mr.value;
    }
    forall x | x in mr.value ensures o[x].name in listed {
      var i :| 0 <= i < |merged| && merged[i] == x;
      assert listed[i] == o[x].name;
    }
    r := Ok((listed, ids));
    NonEmptyListing(listed, MergeStage(o, names, ids, threshold, minDist).value.0);
  }
}
