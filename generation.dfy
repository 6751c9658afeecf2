/** `generate_go_sentences`: the annotations of a gene grouped by (aspect, evidence group), with
    special cases redirected to numbered sub-groups, and one sentence per group. */
module Generation {
  import opened Wrappers
  import opened Text
  import opened GoOntology
  import opened TermReduction
  import opened Sentences
  import opened Listing
  import opened Collection
  import opened DataFetch

  /** A special case of an (aspect, group): its number, the text a term name must start with,
      and a prefix and postfix that this function does not read. */
  datatype SpecialCase = SpecialCase(id: int, matchText: string, prefix: string, postfix: string)

  type SpecialCasesMap = map<(string, string), seq<SpecialCase>>

  /** `go_terms_groups`: the (name, id) pairs of the terms of each (aspect, group). */
  type TermGroups = map<(string, string), set<(string, string)>>

  // ---------------------------------------------------------------------------
  // Routing one annotation
  // ---------------------------------------------------------------------------

  /** The position of the first special case whose text starts the term name. */
  function FirstMatch(cases: seq<SpecialCase>, name: string): (r: Option<nat>)
    ensures r.Some? ==> r.value < |cases| && StartsWith(name, cases[r.value].matchText)
    ensures forall j | 0 <= j < |cases| && (r.None? || j < r.value) :: !StartsWith(name, cases[j].matchText)
  {
    if cases == [] then None
    else if StartsWith(name, cases[0].matchText) then Some(0)
    else match FirstMatch(cases[1..], name)
      case None => None
      case Some(j) => Some(j + 1)
  }

  /** The sub-group an annotation is redirected to: its group followed by the number of the first
      special case of its (aspect, group) that matches its term name, if any. */
  function SubGroup(a: Annotation, ecgm: map<string, string>, special: SpecialCasesMap): Option<string>
    requires a.evidence in ecgm
  {
    var group := ecgm[a.evidence];
    var key := (a.aspect, group);
    if key !in special then None
    else match FirstMatch(special[key], a.goName)
      case None => None
      case Some(j) => Some(group + IntToString(special[key][j].id))
  }

  /** The group an annotation is filed under; `None` when its evidence code has no group. */
  function GroupKey(a: Annotation, ecgm: map<string, string>, special: SpecialCasesMap): Option<(string, string)>
  {
    if a.evidence !in ecgm then None
    else match SubGroup(a, ecgm, special)
      case None => Some((a.aspect, ecgm[a.evidence]))
      case Some(sub) => Some((a.aspect, sub))
  }

  /** `list.index(x)`: the first position of `x`. */
  function IndexOf(list: seq<string>, x: string): (r: nat)
    requires x in list
    ensures r < |list| && list[r] == x
    ensures forall j | 0 <= j < r :: list[j] != x
  {
    if list[0] == x then 0 else 1 + IndexOf(list[1..], x)
  }

  /** Lines 192-196: a sub-group not yet in the priority list is inserted right after the first
      occurrence of its group; `list.index` raises `ValueError` when the group is missing. */
  function InsertSubGroup(list: seq<string>, group: string, sub: string): Outcome<seq<string>>
  {
    if sub in list then Ok(list)
    else if group !in list then Raised(ValueError)
    else
      var i := IndexOf(list, group);
      Ok(list[..i + 1] + [sub] + list[i + 1..])
  }

  /** A new sub-group lands immediately after its group, once, with the list around it
      unchanged; one already listed leaves the list as it is. */
  lemma InsertSubGroupPlacement(list: seq<string>, group: string, sub: string)
    ensures sub in list ==> InsertSubGroup(list, group, sub) == Ok(list)
    ensures sub !in list && group !in list ==> InsertSubGroup(list, group, sub) == Raised(ValueError)
    ensures sub !in list && group in list ==>
              var i := IndexOf(list, group);
              var r := InsertSubGroup(list, group, sub);
              && r.Ok? && |r.value| == |list| + 1
              && r.value[i] == group && r.value[i + 1] == sub
              && r.value[..i + 1] == list[..i + 1] && r.value[i + 2..] == list[i + 1..]
              && forall j | 0 <= j < |r.value| && r.value[j] == sub :: j == i + 1
  {
    if sub !in list && group in list {
      var i := IndexOf(list, group);
      var r := InsertSubGroup(list, group, sub).value;
      assert r == list[..i + 1] + [sub] + list[i + 1..];
      forall j | 0 <= j < |r| && j != i + 1 ensures r[j] != sub {
        if j <= i {
          assert r[j] == list[j];
        } else {
          assert r[j] == list[j - 1];
        }
      }
    }
  }

  /** Inserting the same sub-group again changes nothing: each sub-group enters the list once. */
  lemma InsertSubGroupOnce(list: seq<string>, group: string, sub: string)
    requires InsertSubGroup(list, group, sub).Ok?
    ensures InsertSubGroup(InsertSubGroup(list, group, sub).value, group, sub) == InsertSubGroup(list, group, sub)
  {
    if sub !in list {
      InsertSubGroupPlacement(list, group, sub);
      var i := IndexOf(list, group);
      assert InsertSubGroup(list, group, sub).value[i + 1] == sub;
    }
  }

  /** `go_terms_groups[key].add(t)` on a `defaultdict(set)`. */
  function AddTerm(groups: TermGroups, key: (string, string), t: (string, string)): TermGroups
  {
    groups[key := GetOr(groups, key, {}) + {t}]
  }

  /** One pass of the loop at lines 184-199: the priority list and the groups after it, or the
      `ValueError` that stops the loop with the list as it stands. */
  function Route(a: Annotation, list: seq<string>, groups: TermGroups, ecgm: map<string, string>,
                 special: SpecialCasesMap): (seq<string>, Outcome<TermGroups>)
  {
    if a.evidence !in ecgm then (list, Ok(groups))
    else
      var t := (a.goName, a.goId);
      match SubGroup(a, ecgm, special)
      case None => (list, Ok(AddTerm(groups, (a.aspect, ecgm[a.evidence]), t)))
      case Some(sub) =>
        match InsertSubGroup(list, ecgm[a.evidence], sub)
        case Raised(e) => (list, Raised(e))
        case Ok(l) => (l, Ok(AddTerm(groups, (a.aspect, sub), t)))
  }

  /** The loop at lines 184-199 over all the annotations. */
  function Bucketing(anns: seq<Annotation>, list: seq<string>, ecgm: map<string, string>, special: SpecialCasesMap)
    : (r: (seq<string>, Outcome<TermGroups>))
    ensures r.1.Raised? ==> r.1.error == ValueError
  {
    if anns == [] then (list, Ok(map[]))
    else
      var prev := Bucketing(anns[..|anns| - 1], list, ecgm, special);
      if prev.1.Raised? then prev
      else Route(anns[|anns| - 1], prev.0, prev.1.value, ecgm, special)
  }

  /** Once the loop has raised, later annotations change nothing. */
  lemma {:induction false} BucketingStops(anns: seq<Annotation>, i: nat, list: seq<string>,
                                          ecgm: map<string, string>, special: SpecialCasesMap)
    requires i <= |anns| && Bucketing(anns[..i], list, ecgm, special).1.Raised?
    ensures Bucketing(anns, list, ecgm, special) == Bucketing(anns[..i], list, ecgm, special)
    decreases |anns|
  {
    if i < |anns| {
      var front := anns[..|anns| - 1];
      assert front[..i] == anns[..i];
      BucketingStops(front, i, list, ecgm, special);
    } else {
      assert anns[..i] == anns;
    }
  }

  // ---------------------------------------------------------------------------
  // What the grouping means
  // ---------------------------------------------------------------------------

  /** The groups as a reference definition: each group holds the (name, id) pairs of exactly the
      annotations filed under it. */
  function Grouped(anns: seq<Annotation>, ecgm: map<string, string>, special: SpecialCasesMap): TermGroups
  {
    var keys := set a | a in anns && GroupKey(a, ecgm, special).Some? :: GroupKey(a, ecgm, special).value;
    map k | k in keys :: set a | a in anns && GroupKey(a, ecgm, special) == Some(k) :: (a.goName, a.goId)
  }

  /** A group of the reference definition holds the pair of an annotation exactly when the
      annotation is filed under it. */
  lemma GroupedMembers(anns: seq<Annotation>, ecgm: map<string, string>, special: SpecialCasesMap,
                       k: (string, string), x: (string, string))
    ensures k in Grouped(anns, ecgm, special) <==> exists b | b in anns :: GroupKey(b, ecgm, special) == Some(k)
    ensures k in Grouped(anns, ecgm, special) ==>
              (x in Grouped(anns, ecgm, special)[k] <==>
                 exists b | b in anns && GroupKey(b, ecgm, special) == Some(k) :: (b.goName, b.goId) == x)
  {
    if exists b | b in anns :: GroupKey(b, ecgm, special) == Some(k) {
      var b :| b in anns && GroupKey(b, ecgm, special) == Some(k);
      assert GroupKey(b, ecgm, special).Some?;
    }
  }

  /** Appending an annotation adds its pair to its group, or changes nothing when it has no
      group. */
  lemma GroupedSnoc(front: seq<Annotation>, a: Annotation, ecgm: map<string, string>, special: SpecialCasesMap)
    ensures var g := Grouped(front, ecgm, special);
            var key := GroupKey(a, ecgm, special);
            Grouped(front + [a], ecgm, special) ==
              if key.None? then g else AddTerm(g, key.value, (a.goName, a.goId))
  {
    var g := Grouped(front, ecgm, special);
    var key := GroupKey(a, ecgm, special);
    var h := if key.None? then g else AddTerm(g, key.value, (a.goName, a.goId));
    GroupedSnocKeys(front, a, ecgm, special, h);
    forall k | k in h ensures Grouped(front + [a], ecgm, special)[k] == h[k] {
      GroupedSnocGroup(front, a, ecgm, special, h, k);
    }
  }

  lemma GroupedSnocKeys(front: seq<Annotation>, a: Annotation, ecgm: map<string, string>, special: SpecialCasesMap,
                        h: TermGroups)
    requires var g := Grouped(front, ecgm, special);
             var key := GroupKey(a, ecgm, special);
             h == if key.None? then g else AddTerm(g, key.value, (a.goName, a.goId))
    ensures forall k :: k in Grouped(front + [a], ecgm, special) <==> k in h
  {
    var anns := front + [a];
    forall k ensures k in Grouped(anns, ecgm, special) <==> k in h {
      GroupedMembers(anns, ecgm, special, k, ("", ""));
      GroupedMembers(front, ecgm, special, k, ("", ""));
      if exists b | b in anns :: GroupKey(b, ecgm, special) == Some(k) {
        var b :| b in anns && GroupKey(b, ecgm, special) == Some(k);
        if b != a {
          assert b in front;
        }
      }
    }
  }

  lemma GroupedSnocGroup(front: seq<Annotation>, a: Annotation, ecgm: map<string, string>, special: SpecialCasesMap,
                         h: TermGroups, k: (string, string))
    requires var g := Grouped(front, ecgm, special);
             var key := GroupKey(a, ecgm, special);
             h == if key.None? then g else AddTerm(g, key.value, (a.goName, a.goId))
    requires k in h && k in Grouped(front + [a], ecgm, special)
    ensures Grouped(front + [a], ecgm, special)[k] == h[k]
  {
    var anns := front + [a];
    forall x ensures x in Grouped(anns, ecgm, special)[k] <==> x in h[k] {
      GroupedMembers(anns, ecgm, special, k, x);
      GroupedMembers(front, ecgm, special, k, x);
      if exists b | b in anns && GroupKey(b, ecgm, special) == Some(k) :: (b.goName, b.goId) == x {
        var b :| b in anns && GroupKey(b, ecgm, special) == Some(k) && (b.goName, b.goId) == x;
        if b != a {
          assert b in front;
        }
      }
    }
  }

  /** The grouping loop, when it does not raise, builds exactly the reference groups: annotations
      with an unknown evidence code are dropped, the others are filed under their group or the
      sub-group of their first matching special case. */
  lemma {:induction false} BucketingGroups(anns: seq<Annotation>, list: seq<string>, ecgm: map<string, string>,
                                           special: SpecialCasesMap)
    requires Bucketing(anns, list, ecgm, special).1.Ok?
    ensures Bucketing(anns, list, ecgm, special).1.value == Grouped(anns, ecgm, special)
  {
    if anns != [] {
      var front := anns[..|anns| - 1];
      var a := anns[|anns| - 1];
      assert anns == front + [a];
      var prev := Bucketing(front, list, ecgm, special);
      assert prev.1.Ok?;
      BucketingGroups(front, list, ecgm, special);
      RouteGroups(a, prev.0, prev.1.value, ecgm, special);
      GroupedSnoc(front, a, ecgm, special);
    }
  }

  /** One pass that does not raise adds the annotation's pair to its group, if it has one. */
  lemma RouteGroups(a: Annotation, list: seq<string>, groups: TermGroups, ecgm: map<string, string>,
                    special: SpecialCasesMap)
    requires Route(a, list, groups, ecgm, special).1.Ok?
    ensures var key := GroupKey(a, ecgm, special);
            Route(a, list, groups, ecgm, special).1.value ==
              if key.None? then groups else AddTerm(groups, key.value, (a.goName, a.goId))
  {
  }

  /** Every group of the priority list stays in it, whatever happens. */
  lemma {:induction false} BucketingKeepsList(anns: seq<Annotation>, list: seq<string>, ecgm: map<string, string>,
                                              special: SpecialCasesMap)
    ensures forall x | x in list :: x in Bucketing(anns, list, ecgm, special).0
  {
    if anns != [] {
      var front := anns[..|anns| - 1];
      var a := anns[|anns| - 1];
      BucketingKeepsList(front, list, ecgm, special);
      var prev := Bucketing(front, list, ecgm, special);
      if prev.1.Ok? && a.evidence in ecgm && SubGroup(a, ecgm, special).Some? {
        InsertSubGroupPlacement(prev.0, ecgm[a.evidence], SubGroup(a, ecgm, special).value);
        var l := prev.0;
        var sub := SubGroup(a, ecgm, special).value;
        if sub !in l && ecgm[a.evidence] in l {
          var i := IndexOf(l, ecgm[a.evidence]);
          var l' := InsertSubGroup(l, ecgm[a.evidence], sub).value;
          forall x | x in l ensures x in l' {
            var j :| 0 <= j < |l| && l[j] == x;
            if j <= i {
              assert l'[j] == x;
            } else {
              assert l'[j + 1] == x;
            }
          }
        }
      }
    }
  }

  /** No `ValueError` is raised when every group that a special case redirects from is already in
      the priority list. */
  lemma {:induction false} BucketingSucceeds(anns: seq<Annotation>, list: seq<string>, ecgm: map<string, string>,
                                             special: SpecialCasesMap)
    requires forall a | a in anns && a.evidence in ecgm && SubGroup(a, ecgm, special).Some? :: ecgm[a.evidence] in list
    ensures Bucketing(anns, list, ecgm, special).1.Ok?
  {
    if anns != [] {
      var front := anns[..|anns| - 1];
      var a := anns[|anns| - 1];
      assert anns == front + [a];
      BucketingSucceeds(front, list, ecgm, special);
      BucketingKeepsList(front, list, ecgm, special);
    }
  }

  // ---------------------------------------------------------------------------
  // The reduction of one group (lines 204-225)
  // ---------------------------------------------------------------------------

  /** `[term[0] for term in pairs]` */
  function TermNames(pairs: seq<(string, string)>): (r: seq<string>)
    ensures |r| == |pairs| && forall i | 0 <= i < |pairs| :: r[i] == pairs[i].0
  {
    seq(|pairs|, i requires 0 <= i < |pairs| => pairs[i].0)
  }

  /** A dictionary comprehension over (key, value) pairs: a later pair for the same key wins. */
  function LastWins(pairs: seq<(string, string)>): (r: map<string, string>)
    ensures forall n | n in r :: (n, r[n]) in pairs
    ensures forall i | 0 <= i < |pairs| :: pairs[i].0 in r
  {
    if pairs == [] then map[]
    else
      var p := pairs[|pairs| - 1];
      assert pairs == pairs[..|pairs| - 1] + [p];
      LastWins(pairs[..|pairs| - 1])[p.0 := p.1]
  }

  /** The (name, main id) pair of each listed id. */
  function NamedIds(o: Ontology, ids: seq<string>): (r: seq<(string, string)>)
    requires forall x | x in ids :: x in o
    ensures |r| == |ids| && forall i | 0 <= i < |ids| :: r[i] == (o[ids[i]].name, o[ids[i]].id)
  {
    seq(|ids|, i requires 0 <= i < |ids| => (o[ids[i]].name, o[ids[i]].id))
  }

  /** The orders in which a group's sets happened to be listed: its (name, id) pairs, the ids
      left by pruning, and the merged ids. */
  datatype Listings = Listings(terms: seq<(string, string)>, pruned: seq<string>, merged: seq<string>)

  /** The pairs the group holds after pruning, in listing order. */
  function PrunePairs(o: Ontology, ls: Listings, removeParents: bool): (r: seq<(string, string)>)
    requires removeParents ==> forall x | x in ls.pruned :: x in o
  {
    if removeParents then NamedIds(o, ls.pruned) else ls.terms
  }

  /** The pairs the group holds after the merge, in listing order. */
  function FinalPairs(o: Ontology, ls: Listings, removeParents: bool, threshold: int): (r: seq<(string, string)>)
    requires removeParents ==> forall x | x in ls.pruned :: x in o
    requires threshold > 0 ==> forall x | x in ls.merged :: x in o
  {
    if threshold > 0 then NamedIds(o, ls.merged) else PrunePairs(o, ls, removeParents)
  }

  /** `ls` lists the sets a group of pairs passes through. */
  ghost predicate ListingsFit(o: Ontology, terms: set<(string, string)>, ls: Listings, removeParents: bool,
                              threshold: int, minDist: int)
  {
    && Valid(o)
    && Enumerates(ls.terms, terms)
    && ((removeParents || threshold > 0) ==> forall t | t in terms :: Canonical(o, t.1))
    && (removeParents ==> PruneListed(o, ls.terms, ls.pruned))
    && (threshold > 0 ==> MergeListed(o, PrunePairs(o, ls, removeParents), ls.merged, threshold, minDist))
  }

  /** `pruned` lists, as known ids, the ids that pruning the listed pairs leaves. */
  ghost predicate PruneListed(o: Ontology, listed: seq<(string, string)>, pruned: seq<string>)
  {
    && Valid(o)
    && (forall n | n in TermNames(listed) :: n in LastWins(listed) && LastWins(listed)[n] in o)
    && (forall x | x in pruned :: x in o)
    && Enumerates(pruned, PrunedIds(o, TermNames(listed), LastWins(listed)))
  }

  /** `merged` lists, as known ids, the ids that merging the pairs yields. */
  ghost predicate MergeListed(o: Ontology, pairs: seq<(string, string)>, merged: seq<string>, threshold: int, minDist: int)
  {
    && Valid(o)
    && (forall n | n in TermNames(pairs) :: n in LastWins(pairs))
    && (forall x | x in merged :: x in o)
    && Enumerates(merged, MergedIds(o, TermNames(pairs), LastWins(pairs), minDist, threshold))
  }

  /** The sentence a group yields for the listings it went through. */
  ghost function GroupSentence(o: Ontology, terms: set<(string, string)>, key: (string, string), ls: Listings,
                               prepost: PrePostfixMap, removeParents: bool, threshold: int, minDist: int)
    : Outcome<Option<GOSentence>>
    requires ListingsFit(o, terms, ls, removeParents, threshold, minDist)
  {
    var pairs := FinalPairs(o, ls, removeParents, threshold);
    SingleGoSentence(TermNames(pairs), LastWins(pairs), key.0, key.1, prepost)
  }

  /** Without pruning or merging, the sentence names the group's terms, each once, with ids
      taken from the group's pairs. */
  lemma UnreducedGroup(o: Ontology, terms: set<(string, string)>, ls: Listings, minDist: int)
    requires ListingsFit(o, terms, ls, false, 0, minDist)
    ensures var pairs := FinalPairs(o, ls, false, 0);
            && |TermNames(pairs)| == |terms|
            && (forall n :: n in TermNames(pairs) <==> exists t | t in terms :: t.0 == n)
            && (forall n | n in LastWins(pairs) :: (n, LastWins(pairs)[n]) in terms)
  {
    EnumerationSize(ls.terms, terms);
    var names := TermNames(ls.terms);
    forall n ensures n in names <==> exists t | t in terms :: t.0 == n {
      if n in names {
        var i :| 0 <= i < |names| && names[i] == n;
        assert ls.terms[i] in terms;
      }
      if exists t | t in terms :: t.0 == n {
        var t :| t in terms && t.0 == n;
        var i :| 0 <= i < |ls.terms| && ls.terms[i] == t;
        assert names[i] == n;
      }
    }
  }

  /** After pruning or merging, the sentence's id map sends every name to the main id of a term
      with that name, and names exactly the listed ids. */
  lemma ReducedIdsNameTheirTerms(o: Ontology, ls: Listings, removeParents: bool, threshold: int)
    requires Valid(o) && (removeParents || threshold > 0)
    requires removeParents ==> forall x | x in ls.pruned :: x in o
    requires threshold > 0 ==> forall x | x in ls.merged :: x in o
    ensures var pairs := FinalPairs(o, ls, removeParents, threshold);
            && (forall n | n in LastWins(pairs) :: Canonical(o, LastWins(pairs)[n]) && o[LastWins(pairs)[n]].name == n)
            && (forall n :: n in TermNames(pairs) <==> n in LastWins(pairs))
  {
    var xs := if threshold > 0 then ls.merged else ls.pruned;
    assert FinalPairs(o, ls, removeParents, threshold) == NamedIds(o, xs);
    NamedIdsNameTheirTerms(o, xs);
  }

  /** The id map of the (name, main id) pairs of known ids sends every name to the main id of
      a term with that name, and has exactly their names. */
  lemma NamedIdsNameTheirTerms(o: Ontology, xs: seq<string>)
    requires Valid(o) && forall x | x in xs :: x in o
    ensures var pairs := NamedIds(o, xs);
            && (forall n | n in LastWins(pairs) :: Canonical(o, LastWins(pairs)[n]) && o[LastWins(pairs)[n]].name == n)
            && (forall n :: n in TermNames(pairs) <==> n in LastWins(pairs))
  {
    NamedIdsAreMain(o, xs);
    NamesHaveIds(NamedIds(o, xs));
  }

  lemma NamedIdsAreMain(o: Ontology, xs: seq<string>)
    requires Valid(o) && forall x | x in xs :: x in o
    ensures var ids := LastWins(NamedIds(o, xs));
            forall n | n in ids :: Canonical(o, ids[n]) && o[ids[n]].name == n
  {
    var pairs := NamedIds(o, xs);
    var ids := LastWins(pairs);
    forall n | n in ids ensures Canonical(o, ids[n]) && o[ids[n]].name == n {
      var i :| 0 <= i < |pairs| && pairs[i] == (n, ids[n]);
      assert o[o[xs[i]].id] == o[xs[i]];
    }
  }

  /** The names of a list of pairs are the keys of their dictionary. */
  lemma NamesHaveIds(pairs: seq<(string, string)>)
    ensures forall n :: n in TermNames(pairs) <==> n in LastWins(pairs)
  {
    var ids := LastWins(pairs);
    forall n ensures n in TermNames(pairs) <==> n in ids {
      if n in ids {
        var i :| 0 <= i < |pairs| && pairs[i] == (n, ids[n]);
        assert TermNames(pairs)[i] == n;
      }
    }
  }

  /** The ids left by pruning are ids of the group's own terms. */
  lemma PrunedFromGroup(o: Ontology, terms: set<(string, string)>, ls: Listings, threshold: int, minDist: int)
    requires ListingsFit(o, terms, ls, true, threshold, minDist)
    ensures forall x | x in ls.pruned :: exists t | t in terms :: t.1 == x
  {
    var names := TermNames(ls.terms);
    var ids := LastWins(ls.terms);
    forall x | x in ls.pruned ensures exists t | t in terms :: t.1 == x {
      assert x in PrunedIds(o, names, ids);
      var n :| n in names && ids[n] == x;
      assert (n, ids[n]) in ls.terms;
    }
  }

  /** The merged ids of a group with more names than the threshold are ancestors, at least
      `minDist` deep, of the ids the merge started from; with no more names than the threshold
      they are exactly those ids. */
  lemma MergedFromGroup(o: Ontology, terms: set<(string, string)>, ls: Listings, removeParents: bool,
                        threshold: int, minDist: int)
    requires threshold > 0 && ListingsFit(o, terms, ls, removeParents, threshold, minDist)
    ensures var pairs := PrunePairs(o, ls, removeParents);
            forall n | n in TermNames(pairs) :: n in LastWins(pairs) && LastWins(pairs)[n] in o
    ensures forall x | x in ls.merged :: x in o
    ensures var pairs := PrunePairs(o, ls, removeParents);
            var names := TermNames(pairs);
            var ids := LastWins(pairs);
            && (|names| <= threshold ==> forall x :: x in ls.merged <==> exists n | n in names :: ids[n] == x)
            && (|names| > threshold ==>
                  forall x | x in ls.merged :: o[x].depth >= minDist && exists n | n in names :: IsAncestor(o, x, ids[n]))
  {
    var pairs := PrunePairs(o, ls, removeParents);
    var names := TermNames(pairs);
    var ids := LastWins(pairs);
    MergeStartsUsable(o, terms, ls, removeParents, threshold, minDist);
    if |names| > threshold {
      forall x | x in ls.merged ensures o[x].depth >= minDist && exists n | n in names :: IsAncestor(o, x, ids[n]) {
        MergedAreAncestors(o, names, ids, minDist, threshold, x);
      }
    }
  }

  /** Every name the merge starts from has a canonical id. */
  lemma MergeStartsUsable(o: Ontology, terms: set<(string, string)>, ls: Listings, removeParents: bool,
                          threshold: int, minDist: int)
    requires threshold > 0 && ListingsFit(o, terms, ls, removeParents, threshold, minDist)
    ensures var pairs := PrunePairs(o, ls, removeParents);
            forall n | n in TermNames(pairs) :: n in LastWins(pairs) && Canonical(o, LastWins(pairs)[n])
  {
    var pairs := PrunePairs(o, ls, removeParents);
    var names := TermNames(pairs);
    var ids := LastWins(pairs);
    forall n | n in names ensures n in ids && Canonical(o, ids[n]) {
      var i :| 0 <= i < |names| && names[i] == n;
      assert pairs[i].0 == n;
      if removeParents {
        ReducedIdsNameTheirTerms(o, ls, true, 0);
      } else {
        assert (n, ids[n]) in ls.terms;
      }
    }
  }

  /** Every name of a list of pairs with known ids has a known id in their dictionary. */
  lemma PairsUsable(o: Ontology, pairs: seq<(string, string)>)
    requires forall t | t in pairs :: t.1 in o
    ensures forall n | n in TermNames(pairs) :: n in LastWins(pairs) && LastWins(pairs)[n] in o
  {
    forall n | n in TermNames(pairs) ensures n in LastWins(pairs) && LastWins(pairs)[n] in o {
      var i :| 0 <= i < |pairs| && TermNames(pairs)[i] == n;
      assert (n, LastWins(pairs)[n]) in pairs;
    }
  }

  /** Lines 207-211: the ids that survive pruning, listed in some order. */
  method PruneGroup(o: Ontology, listed: seq<(string, string)>) returns (pruned: seq<string>)
    requires Valid(o) && forall t | t in listed :: Canonical(o, t.1)
    requires forall n | n in TermNames(listed) :: n in LastWins(listed) && LastWins(listed)[n] in o
    ensures PruneListed(o, listed, pruned)
  {
    var names := TermNames(listed);
    var ids := LastWins(listed);
    var pr := PruneParents(o, names, ids);
    pruned := ListOf(pr.value);
  }

  /** Lines 214-219: the merged ids, listed in some order. */
  method MergeGroup(o: Ontology, pairs: seq<(string, string)>, threshold: int, minDist: int) returns (merged: seq<string>)
    requires Valid(o) && threshold > 0
    requires forall n | n in TermNames(pairs) :: n in LastWins(pairs) && Canonical(o, LastWins(pairs)[n])
    ensures MergeListed(o, pairs, merged, threshold, minDist)
  {
    var names := TermNames(pairs);
    var ids := LastWins(pairs);
    var mr := MergeByCommonAncestor(o, names, ids, minDist, threshold);
    MergedIdsKnown(o, names, ids, minDist, threshold);
    merged := ListOf(mr.value);
  }

  /** The names and ids the merge starts from have main ids of known terms. */
  lemma PrunePairsUsable(o: Ontology, ls: Listings, removeParents: bool)
    requires Valid(o) && forall t | t in ls.terms :: Canonical(o, t.1)
    requires removeParents ==> forall x | x in ls.pruned :: x in o
    ensures var pairs := PrunePairs(o, ls, removeParents);
            forall n | n in TermNames(pairs) :: n in LastWins(pairs) && Canonical(o, LastWins(pairs)[n])
  {
    var pairs := PrunePairs(o, ls, removeParents);
    if removeParents {
      ReducedIdsNameTheirTerms(o, ls, true, 0);
    } else {
      forall n | n in TermNames(pairs) ensures n in LastWins(pairs) && Canonical(o, LastWins(pairs)[n]) {
        var i :| 0 <= i < |pairs| && TermNames(pairs)[i] == n;
        assert (n, LastWins(pairs)[n]) in pairs;
      }
    }
  }

  /** The reduction of one group, as lines 205-225 run it on the group's pairs: the sentence it
      yields, and how its sets were listed. */
  method ReduceGroup(o: Ontology, key: (string, string), terms: set<(string, string)>, prepost: PrePostfixMap,
                     removeParents: bool, threshold: int, minDist: int)
    returns (s: Outcome<Option<GOSentence>>, ghost ls: Listings)
    requires Valid(o) && ((removeParents || threshold > 0) ==> forall t | t in terms :: Canonical(o, t.1))
    ensures ListingsFit(o, terms, ls, removeParents, threshold, minDist)
    ensures s == GroupSentence(o, terms, key, ls, prepost, removeParents, threshold, minDist)
    ensures s.Ok? && s.value.Some? ==>
              var g := s.value.value;
              && key in prepost && g.goAspect == key.0 && g.evidenceGroup == key.1
              && g.prefix == prepost[key].0 && g.postfix == prepost[key].1
              && g.text == ComposeGoSentence(g.prefix, g.terms, g.postfix)
    ensures !removeParents && threshold <= 0 ==>
              && (s == Ok(None) <==> terms == {})
              && (terms != {} && key !in prepost ==> s == Raised(KeyError))
              && (s.Ok? && s.value.Some? ==>
                    forall n | n in s.value.value.termIds :: (n, s.value.value.termIds[n]) in terms)
    ensures (removeParents || threshold > 0) && s.Ok? && s.value.Some? ==>
              var ids := s.value.value.termIds;
              forall n | n in ids :: Canonical(o, ids[n]) && o[ids[n]].name == n
  {
    var pairs;
    pairs, ls := ReducePairs(o, terms, removeParents, threshold, minDist);
    s := SingleGoSentence(TermNames(pairs), LastWins(pairs), key.0, key.1, prepost);
  }

  /** Lines 205-219: the group's pairs listed, then pruned and merged as configured. */
  method ReducePairs(o: Ontology, terms: set<(string, string)>, removeParents: bool, threshold: int, minDist: int)
    returns (pairs: seq<(string, string)>, ghost ls: Listings)
    requires Valid(o) && ((removeParents || threshold > 0) ==> forall t | t in terms :: Canonical(o, t.1))
    ensures ListingsFit(o, terms, ls, removeParents, threshold, minDist)
    ensures pairs == FinalPairs(o, ls, removeParents, threshold)
    ensures !removeParents && threshold <= 0 ==> |pairs| == |terms| && forall t :: t in pairs <==> t in terms
    ensures (removeParents || threshold > 0) ==> forall t | t in pairs :: Canonical(o, t.1) && o[t.1].name == t.0
  {
    var listed := ListOf(terms);
    pairs := listed;
    var pruned: seq<string> := [];
    var merged: seq<string> := [];
    if removeParents {
      PairsUsable(o, listed);
      pruned := PruneGroup(o, listed);
      pairs := NamedIds(o, pruned);
    }
    ls := Listings(listed, pruned, merged);
    assert pairs == PrunePairs(o, ls, removeParents);
    if threshold > 0 {
      PrunePairsUsable(o, ls, removeParents);
      merged := MergeGroup(o, pairs, threshold, minDist);
      pairs := NamedIds(o, merged);
      ls := Listings(listed, pruned, merged);
    }
    FinalPairsShape(o, terms, ls, removeParents, threshold, minDist);
  }

  /** Without reduction the final pairs list the group's pairs, each once; with it, each final
      pair is the name and main id of a known term. */
  lemma FinalPairsShape(o: Ontology, terms: set<(string, string)>, ls: Listings, removeParents: bool,
                        threshold: int, minDist: int)
    requires ListingsFit(o, terms, ls, removeParents, threshold, minDist)
    ensures var pairs := FinalPairs(o, ls, removeParents, threshold);
            && (!removeParents && threshold <= 0 ==> |pairs| == |terms| && forall t :: t in pairs <==> t in terms)
            && ((removeParents || threshold > 0) ==> forall t | t in pairs :: Canonical(o, t.1) && o[t.1].name == t.0)
  {
    if !removeParents && threshold <= 0 {
      EnumerationSize(ls.terms, terms);
    } else {
      var xs := if threshold > 0 then ls.merged else ls.pruned;
      assert FinalPairs(o, ls, removeParents, threshold) == NamedIds(o, xs);
    }
  }

  // ---------------------------------------------------------------------------
  // generate_go_sentences
  // ---------------------------------------------------------------------------

  /** The collection holds what a group's sentence says: the sentence under its key, or nothing
      for a group left without terms. */
  ghost predicate Stored(sm: SentenceMap, key: (string, string), s: Outcome<Option<GOSentence>>) {
    match s
    case Raised(_) => false
    case Ok(None) => key !in sm
    case Ok(Some(sentence)) => key in sm && sm[key] == sentence
  }

  /** Group `k` has been reduced, through the listings recorded for it, and its sentence stored. */
  ghost predicate GroupDone(sm: SentenceMap, o: Ontology, groups: TermGroups, listings: map<(string, string), Listings>,
                            k: (string, string), prepost: PrePostfixMap, removeParents: bool, threshold: int, minDist: int)
  {
    && k in groups && k in listings
    && ListingsFit(o, groups[k], listings[k], removeParents, threshold, minDist)
    && Stored(sm, k, GroupSentence(o, groups[k], k, listings[k], prepost, removeParents, threshold, minDist))
  }

  /** Some group with recorded listings fails to yield a sentence. */
  ghost predicate SomeGroupFails(o: Ontology, groups: TermGroups, listings: map<(string, string), Listings>,
                                 prepost: PrePostfixMap, removeParents: bool, threshold: int, minDist: int)
  {
    exists k | k in groups && k in listings ::
      && ListingsFit(o, groups[k], listings[k], removeParents, threshold, minDist)
      && GroupSentence(o, groups[k], k, listings[k], prepost, removeParents, threshold, minDist).Raised?
  }

  /** Every group with recorded listings is done. */
  ghost predicate AllDone(sm: SentenceMap, o: Ontology, groups: TermGroups, listings: map<(string, string), Listings>,
                          prepost: PrePostfixMap, removeParents: bool, threshold: int, minDist: int)
  {
    forall j {:trigger GroupDone(sm, o, groups, listings, j, prepost, removeParents, threshold, minDist)} | j in listings ::
      GroupDone(sm, o, groups, listings, j, prepost, removeParents, threshold, minDist)
  }

  /** Storing a sentence under one key leaves what is stored under the others. */
  lemma StoredUpdate(sm: SentenceMap, k: (string, string), s: GOSentence, j: (string, string), x: Outcome<Option<GOSentence>>)
    requires j != k && Stored(sm, j, x)
    ensures Stored(sm[k := s], j, x)
  {
  }

  /** `set_sentence` of the sentence of a new group `k` keeps every group done so far done, and
      makes `k` done. */
  lemma FillStep(sm: SentenceMap, o: Ontology, groups: TermGroups, before: map<(string, string), Listings>,
                 k: (string, string), ls: Listings, after: map<(string, string), Listings>, s: Option<GOSentence>,
                 prepost: PrePostfixMap, removeParents: bool, threshold: int, minDist: int)
    requires k in groups && k !in before && sm.Keys <= before.Keys && after == before[k := ls]
    requires AllDone(sm, o, groups, before, prepost, removeParents, threshold, minDist)
    requires ListingsFit(o, groups[k], ls, removeParents, threshold, minDist)
    requires GroupSentence(o, groups[k], k, ls, prepost, removeParents, threshold, minDist) == Ok(s)
    ensures var sm' := if s.Some? then sm[(s.value.goAspect, s.value.evidenceGroup) := s.value] else sm;
            && sm'.Keys <= after.Keys
            && AllDone(sm', o, groups, after, prepost, removeParents, threshold, minDist)
  {
    var sm' := if s.Some? then sm[(s.value.goAspect, s.value.evidenceGroup) := s.value] else sm;
    forall j | j in after ensures GroupDone(sm', o, groups, after, j, prepost, removeParents, threshold, minDist) {
      if j != k {
        assert GroupDone(sm, o, groups, before, j, prepost, removeParents, threshold, minDist);
        var x := GroupSentence(o, groups[j], j, before[j], prepost, removeParents, threshold, minDist);
        if s.Some? {
          StoredUpdate(sm, k, s.value, j, x);
        }
      }
    }
  }

  /** The groups are filled in the order of the annotations, special cases redirected to
      sub-groups inserted into the caller's priority list; then each group's terms are pruned,
      merged and composed into one sentence. No annotations give `None`. A `ValueError` from a
      missing parent group and a `KeyError` from a group without prefix and postfix propagate.
      The ghost `listings` record how each group's sets were listed. */
  method GenerateGoSentences(anns: seq<Annotation>, o: Ontology, priority: EvidenceGroupList,
                             prepost: PrePostfixMap, special: SpecialCasesMap, ecgm: map<string, string>,
                             removeParents: bool, threshold: int, minDist: int)
    returns (r: Outcome<Option<GOSentencesCollection>>, ghost listings: map<(string, string), Listings>)
    requires Valid(o)
    requires (removeParents || threshold > 0) ==> forall a | a in anns && a.evidence in ecgm :: Canonical(o, a.goId)
    modifies priority
    ensures anns == [] ==> r == Ok(None) && priority.groups == old(priority.groups)
    ensures anns != [] ==> priority.groups == Bucketing(anns, old(priority.groups), ecgm, special).0
    ensures anns != [] && Bucketing(anns, old(priority.groups), ecgm, special).1.Raised? ==> r == Raised(ValueError)
    ensures anns != [] && Bucketing(anns, old(priority.groups), ecgm, special).1.Ok? ==>
              var groups := Grouped(anns, ecgm, special);
              && (r.Raised? ==>
                    r.error == KeyError && SomeGroupFails(o, groups, listings, prepost, removeParents, threshold, minDist))
              && (r.Ok? ==>
                    && r.value.Some?
                    && var c := r.value.value;
                    && fresh(c)
                    && c.evidenceGroupsList == priority && c.prePostfix == prepost
                    && c.removeParentTerms == removeParents && c.mergeNumTermsThreshold == threshold
                    && c.mergeMinDistanceFromRoot == minDist
                    && c.sentencesMap.Keys <= groups.Keys
                    && forall k | k in groups ::
                         GroupDone(c.sentencesMap, o, groups, listings, k, prepost, removeParents, threshold, minDist))
  {
    listings := map[];
    if |anns| == 0 {
      return Ok(None), listings;
    }
    var grouped := GroupAnnotations(anns, priority, ecgm, special);
    if grouped.Raised? {
      return Raised(grouped.error), listings;
    }
    BucketingGroups(anns, old(priority.groups), ecgm, special);
    var c := new GOSentencesCollection(priority, prepost, minDist, threshold, removeParents);
    var filled;
    filled, listings := FillSentences(c, o, grouped.value, removeParents, threshold, minDist);
    if filled.Raised? {
      return Raised(filled.error), listings;
    }
    r := Ok(Some(c));
  }

  /** One pass of the loop at lines 184-199: files the annotation's pair under its group, or
      under the sub-group of the first special case whose text starts its name, inserting that
      sub-group into the priority list when it is new. */
  method FileAnnotation(a: Annotation, priority: EvidenceGroupList, groups: TermGroups, ecgm: map<string, string>,
                        special: SpecialCasesMap) returns (r: Outcome<TermGroups>)
    modifies priority
    ensures (priority.groups, r) == Route(a, old(priority.groups), groups, ecgm, special)
  {
    if a.evidence !in ecgm {
      return Ok(groups);
    }
    var group := ecgm[a.evidence];
    var key := (a.aspect, group);
    if key in special {
      var cases := special[key];
      for j := 0 to |cases|
        invariant key == (a.aspect, group) && priority.groups == old(priority.groups)
        invariant forall q | 0 <= q < j :: !StartsWith(a.goName, cases[q].matchText)
      {
        if StartsWith(a.goName, cases[j].matchText) {
          assert FirstMatch(cases, a.goName) == Some(j);
          var sub := group + IntToString(cases[j].id);
          key := (a.aspect, sub);
          if sub !in priority.groups {
            if group !in priority.groups {
              return Raised(ValueError);
            }
            var idx := IndexOf(priority.groups, group);
            priority.groups := priority.groups[..idx + 1] + [sub] + priority.groups[idx + 1..];
          }
          break;
        }
      }
    }
    r := Ok(AddTerm(groups, key, (a.goName, a.goId)));
  }

  /** The loop at lines 184-199: the groups of all the annotations, the priority list updated in
      place, or the `ValueError` that stops the loop. */
  method GroupAnnotations(anns: seq<Annotation>, priority: EvidenceGroupList, ecgm: map<string, string>,
                          special: SpecialCasesMap) returns (r: Outcome<TermGroups>)
    modifies priority
    ensures (priority.groups, r) == Bucketing(anns, old(priority.groups), ecgm, special)
  {
    var groups: TermGroups := map[];
    for i := 0 to |anns|
      invariant Bucketing(anns[..i], old(priority.groups), ecgm, special) == (priority.groups, Ok(groups))
    {
      assert anns[..i + 1] == anns[..i] + [anns[i]];
      assert anns[..i + 1][..i] == anns[..i];
      var filed := FileAnnotation(anns[i], priority, groups, ecgm, special);
      if filed.Raised? {
        BucketingStops(anns, i + 1, old(priority.groups), ecgm, special);
        return filed;
      }
      groups := filed.value;
    }
    assert anns[..|anns|] == anns;
    r := Ok(groups);
  }

  /** The loop at lines 204-225: each group reduced and its sentence stored, groups taken in
      some order; the first `KeyError` stops the loop. */
  method FillSentences(c: GOSentencesCollection, o: Ontology, groups: TermGroups, removeParents: bool,
                       threshold: int, minDist: int)
    returns (r: Outcome<()>, ghost listings: map<(string, string), Listings>)
    requires Valid(o) && c.sentencesMap == map[]
    requires (removeParents || threshold > 0) ==> forall k, t | k in groups && t in groups[k] :: Canonical(o, t.1)
    modifies c
    ensures r.Raised? ==> r.error == KeyError && SomeGroupFails(o, groups, listings, c.prePostfix, removeParents, threshold, minDist)
    ensures r.Ok? ==>
              && c.sentencesMap.Keys <= groups.Keys
              && groups.Keys <= listings.Keys
              && AllDone(c.sentencesMap, o, groups, listings, c.prePostfix, removeParents, threshold, minDist)
  {
    listings := map[];
    var remaining := groups.Keys;
    while remaining != {}
      invariant listings.Keys == groups.Keys - remaining && remaining <= groups.Keys
      invariant c.sentencesMap.Keys <= listings.Keys
      invariant AllDone(c.sentencesMap, o, groups, listings, c.prePostfix, removeParents, threshold, minDist)
      decreases remaining
    {
      var k :| k in remaining;
      ghost var after;
      r, after := FillOne(c, o, groups, listings, k, removeParents, threshold, minDist);
      listings := after;
      if r.Raised? {
        return;
      }
      remaining := remaining - {k};
    }
    r := Ok(());
  }

  /** One pass of the loop at lines 204-225: group `k` reduced and its sentence stored. */
  method FillOne(c: GOSentencesCollection, o: Ontology, groups: TermGroups, ghost listings: map<(string, string), Listings>,
                 k: (string, string), removeParents: bool, threshold: int, minDist: int)
    returns (r: Outcome<()>, ghost after: map<(string, string), Listings>)
    requires Valid(o) && k in groups && k !in listings && c.sentencesMap.Keys <= listings.Keys
    requires (removeParents || threshold > 0) ==> forall t | t in groups[k] :: Canonical(o, t.1)
    requires AllDone(c.sentencesMap, o, groups, listings, c.prePostfix, removeParents, threshold, minDist)
    modifies c
    ensures after.Keys == listings.Keys + {k}
    ensures r.Raised? ==> r.error == KeyError && SomeGroupFails(o, groups, after, c.prePostfix, removeParents, threshold, minDist)
    ensures r.Ok? ==>
              && c.sentencesMap.Keys <= after.Keys
              && AllDone(c.sentencesMap, o, groups, after, c.prePostfix, removeParents, threshold, minDist)
  {
    var s, ls := ReduceGroup(o, k, groups[k], c.prePostfix, removeParents, threshold, minDist);
    after := listings[k := ls];
    if s.Raised? {
      assert k in groups && k in after;
      return Raised(s.error), after;
    }
    ghost var sm := c.sentencesMap;
    c.SetSentence(s.value);
    FillStep(sm, o, groups, listings, k, ls, after, s.value, c.prePostfix, removeParents, threshold, minDist);
    r := Ok(());
  }
}
