/** The two ways the description rules shrink a list of term names before they are written
    out: dropping every term that is an ancestor of another listed term
    (`get_term_ids_without_parents_from_terms_names`), and replacing terms by the ancestors
    their root paths end in (`get_merged_term_ids_by_common_ancestor_from_term_names`). */
module TermReduction {
  import opened Wrappers
  import opened GoOntology

  // ---------------------------------------------------------------------------
  // get_term_ids_without_parents_from_terms_names
  // ---------------------------------------------------------------------------

  /** Every name listed as a non-root ancestor of one of the terms named in `cs`. */
  function AncestorNamesOfAll(o: Ontology, ids: map<string, string>, cs: seq<string>): set<string>
    requires Valid(o) && forall c | c in cs :: c in ids && ids[c] in o
  {
    if cs == [] then {}
    else
      var listed := ParentNames(o, ids[cs[|cs| - 1]]);
      AncestorNamesOfAll(o, ids, cs[..|cs| - 1]) + set x | x in listed
  }

  lemma {:induction false} AncestorNamesOfAllMembership(o: Ontology, ids: map<string, string>, cs: seq<string>, x: string)
    requires Valid(o) && forall c | c in cs :: c in ids && ids[c] in o
    ensures x in AncestorNamesOfAll(o, ids, cs) <==> exists c | c in cs :: x in ParentNames(o, ids[c])
  {
    if cs != [] {
      var front := cs[..|cs| - 1];
      AncestorNamesOfAllMembership(o, ids, front, x);
      if exists c | c in cs :: x in ParentNames(o, ids[c]) {
        var c :| c in cs && x in ParentNames(o, ids[c]);
        if c != cs[|cs| - 1] {
          assert c in front;
        }
      }
    }
  }

  /** The names that survive pruning: listed, and not an ancestor name of any listed term. */
  function Survivors(o: Ontology, names: seq<string>, ids: map<string, string>): (r: set<string>)
    requires Valid(o) && forall n | n in names :: n in ids && ids[n] in o
    ensures forall n | n in r :: n in names
  {
    set n | n in names && n !in AncestorNamesOfAll(o, ids, names)
  }

  /** The ids the pruning returns: those of the surviving names. */
  function PrunedIds(o: Ontology, names: seq<string>, ids: map<string, string>): (r: set<string>)
    requires Valid(o) && forall n | n in names :: n in ids && ids[n] in o
    ensures forall x | x in r :: exists n | n in names :: ids[n] == x
  {
    set n | n in Survivors(o, names, ids) :: ids[n]
  }

  /** `get_term_ids_without_parents_from_terms_names`: start from the set of names, discard
      every ancestor name of every listed term, and map what is left to ids. A name missing
      from `ids` raises `KeyError`. */
  method PruneParents(o: Ontology, names: seq<string>, ids: map<string, string>) returns (r: Outcome<set<string>>)
    requires Valid(o) && forall n | n in names && n in ids :: ids[n] in o
    ensures (forall n | n in names :: n in ids) ==> r == Ok(PrunedIds(o, names, ids))
    ensures (exists n | n in names :: n !in ids) ==> r == Raised(KeyError)
  {
    var keep := set n | n in names;
    var i := 0;
    while i < |names|
      invariant 0 <= i <= |names|
      invariant forall k | 0 <= k < i :: names[k] in ids
      invariant keep == (set n | n in names) - AncestorNamesOfAll(o, ids, names[..i])
    {
      if names[i] !in ids {
        assert names[i] in names;
        return Raised(KeyError);
      }
      var parents := ParentNames(o, ids[names[i]]);
      var j := 0;
      while j < |parents|
        invariant 0 <= j <= |parents|
        invariant keep == (set n | n in names) - AncestorNamesOfAll(o, ids, names[..i]) - set x | x in parents[..j]
      {
        keep := keep - {parents[j]};
        j := j + 1;
      }
      assert parents[..j] == parents;
      assert names[..i + 1][..i] == names[..i];
      i := i + 1;
    }
    assert names[..i] == names;
    assert keep == Survivors(o, names, ids);
    r := Ok(set n | n in keep :: ids[n]);
  }

  /** A name survives exactly when it is listed and no listed term has a non-root ancestor of
      that name. */
  lemma SurvivorMeaning(o: Ontology, names: seq<string>, ids: map<string, string>, n: string)
    requires Valid(o) && forall k | k in names :: k in ids && ids[k] in o
    ensures n in Survivors(o, names, ids) <==>
              n in names &&
              forall k, a | k in names && a in o && IsAncestor(o, a, ids[k]) && |o[a].parents| > 0 :: o[a].name != n
  {
    AncestorNamesOfAllMembership(o, ids, names, n);
    if n in Survivors(o, names, ids) {
      forall k, a | k in names && a in o && IsAncestor(o, a, ids[k]) && |o[a].parents| > 0
        ensures o[a].name != n
      {
        ParentNamesAreNonRootAncestors(o, ids[k], o[a].name);
      }
    }
    if n in names && n !in Survivors(o, names, ids) {
      var k :| k in names && n in ParentNames(o, ids[k]);
      var a := ListedNameIsAncestor(o, ids[k], n);
    }
  }

  /** Pruning the survivors again changes nothing. */
  lemma PruneIdempotent(o: Ontology, names: seq<string>, again: seq<string>, ids: map<string, string>)
    requires Valid(o) && forall k | k in names :: k in ids && ids[k] in o
    requires forall n :: n in again <==> n in Survivors(o, names, ids)
    ensures Survivors(o, again, ids) == Survivors(o, names, ids)
  {
    forall n ensures n in Survivors(o, again, ids) <==> n in Survivors(o, names, ids) {
      AncestorNamesOfAllMembership(o, ids, names, n);
      AncestorNamesOfAllMembership(o, ids, again, n);
    }
  }

  /** Pruning depends only on which names are listed, not on their order or repetition: the
      names may come from iterating a Python `set` in any order. */
  lemma PrunedIdsSetOnly(o: Ontology, a: seq<string>, b: seq<string>, ids: map<string, string>)
    requires Valid(o) && forall k | k in a :: k in ids && ids[k] in o
    requires forall n :: n in a <==> n in b
    ensures PrunedIds(o, a, ids) == PrunedIds(o, b, ids)
  {
    forall n ensures n in Survivors(o, a, ids) <==> n in Survivors(o, b, ids) {
      AncestorNamesOfAllMembership(o, ids, a, n);
      AncestorNamesOfAllMembership(o, ids, b, n);
    }
    assert Survivors(o, a, ids) == Survivors(o, b, ids);
  }

  // ---------------------------------------------------------------------------
  // get_merged_term_ids_by_common_ancestor_from_term_names
  // ---------------------------------------------------------------------------

  /** `term_paths`: input id to the set of its root paths still to process. */
  type PathTable = map<string, set<seq<string>>>

  /** `ancestor_paths`: outermost ancestor id to the list of root paths ending there. */
  type AncestorTable = map<string, seq<seq<string>>>

  /** The two kinds of Python value compared at line 340: a path is a tuple, an id a str, and
      `==` between a tuple and a str is always false. */
  datatype PyValue = Str(s: string) | Tuple(items: seq<string>)

  /** The ids of the listed names, in order (`[term_ids_dict[n] for n in names]`). */
  function IdsOf(names: seq<string>, ids: map<string, string>): (r: seq<string>)
    requires forall n | n in names :: n in ids
    ensures |r| == |names| && forall i | 0 <= i < |names| :: r[i] == ids[names[i]]
  {
    if names == [] then [] else IdsOf(names[..|names| - 1], ids) + [ids[names[|names| - 1]]]
  }

  /** `p` is a root path that step 1 indexes for one of the input ids `ls`: a complete climb
      of two or more ids from an input id. */
  ghost predicate IndexedPath(o: Ontology, ls: seq<string>, m: int, p: seq<string>)
  {
    |p| > 1 && p[0] in ls && RootChain(o, p, m)
  }

  /** `x` ends some indexed root path. */
  ghost predicate EndsIndexedPath(o: Ontology, ls: seq<string>, m: int, x: string) {
    exists p | IndexedPath(o, ls, m, p) :: p[|p| - 1] == x
  }

  /** The last ids of the root paths, longer than one id, of the input ids. */
  function Outermost(o: Ontology, ls: seq<string>, m: int): set<string>
    requires Valid(o)
  {
    set t, p | t in ls && t in o && p in RootPaths(o, t, m) && |p| > 1 :: p[|p| - 1]
  }

  /** What the merge returns for names that all have ids. */
  function MergedIds(o: Ontology, names: seq<string>, ids: map<string, string>, m: int, minNumber: int): set<string>
    requires Valid(o) && forall n | n in names :: n in ids
  {
    if |names| > minNumber then Outermost(o, IdsOf(names, ids), m) else set n | n in names :: ids[n]
  }

  /** A root path of a main id starts with that id and is a complete climb. */
  lemma RootPathIsClimb(o: Ontology, t: string, m: int, p: seq<string>)
    requires Valid(o) && Canonical(o, t) && p in RootPaths(o, t, m)
    ensures |p| > 0 ==> p[0] == t && RootChain(o, p, m)
  {
    if o[t].depth >= m {
      PathsToRootSound(o, t, m, [], p);
      assert p[0..] == p;
    } else {
      assert p == [];
    }
  }

  /** A complete climb from a main id is one of its root paths. */
  lemma ClimbIsRootPath(o: Ontology, m: int, p: seq<string>)
    requires Valid(o) && |p| > 0 && Canonical(o, p[0]) && RootChain(o, p, m)
    ensures p in RootPaths(o, p[0], m)
  {
    assert p[0..] == p;
    PathsToRootComplete(o, p[0], m, [], p);
  }

  /** For main input ids, the ids ending a long root path are the ids ending an indexed climb. */
  lemma OutermostAreClimbEnds(o: Ontology, ls: seq<string>, m: int, x: string)
    requires Valid(o) && forall t | t in ls :: Canonical(o, t)
    ensures x in Outermost(o, ls, m) <==> EndsIndexedPath(o, ls, m, x)
  {
    if x in Outermost(o, ls, m) {
      var t, p :| t in ls && t in o && p in RootPaths(o, t, m) && |p| > 1 && p[|p| - 1] == x;
      RootPathIsClimb(o, t, m, p);
      assert IndexedPath(o, ls, m, p);
    }
    if EndsIndexedPath(o, ls, m, x) {
      var p :| IndexedPath(o, ls, m, p) && p[|p| - 1] == x;
      ClimbIsRootPath(o, m, p);
    }
  }

  /** `term_paths[path[0]].discard(path)` for every path of `rs`, in order. */
  function DiscardAll(tp: PathTable, rs: seq<seq<string>>): PathTable
  {
    if rs == [] then tp
    else
      var q := rs[|rs| - 1];
      var rest := DiscardAll(tp, rs[..|rs| - 1]);
      if |q| > 0 then rest[q[0] := GetOr(rest, q[0], {}) - {q}] else rest
  }

  /** Discarding removes from each entry exactly the listed paths filed under it. */
  lemma {:induction false} DiscardAllGet(tp: PathTable, rs: seq<seq<string>>, k: string)
    ensures GetOr(DiscardAll(tp, rs), k, {}) == GetOr(tp, k, {}) - set q | q in rs && |q| > 0 && q[0] == k
  {
    if rs != [] {
      var front := rs[..|rs| - 1];
      DiscardAllGet(tp, front, k);
      assert forall q :: q in rs <==> q in front || q == rs[|rs| - 1];
    }
  }

  /** The loop of lines 348-349 (and 344-345). */
  method DiscardPaths(tp: PathTable, related: seq<seq<string>>) returns (r: PathTable)
    ensures r == DiscardAll(tp, related)
  {
    r := tp;
    for i := 0 to |related|
      invariant r == DiscardAll(tp, related[..i])
    {
      var path := related[i];
      assert related[..i + 1][..i] == related[..i];
      if |path| > 0 {
        r := r[path[0] := GetOr(r, path[0], {}) - {path}];
      }
    }
    assert related[..|related|] == related;
  }

  /** Lines 336-345: walk the popped path `curr0` inward while every related path is long
      enough and equals the next id inward. A path never equals an id, so with any related
      path the walk stops at once; with none it runs to the id after the start term, dropping
      the ancestor-table entries it passes. */
  method WalkInward(curr0: seq<string>, related: seq<seq<string>>, sel0: string, ap0: AncestorTable, tp0: PathTable)
    returns (sel: string, ap: AncestorTable, tp: PathTable)
    ensures related != [] ==> sel == sel0 && ap == ap0 && tp == tp0
    ensures related == [] ==> tp == tp0
    ensures related == [] && |curr0| > 1 ==> sel == curr0[1] && ap == ap0 - set x | x in curr0[1..]
    ensures related == [] && |curr0| <= 1 ==> sel == sel0 && ap == ap0
  {
    var curr := curr0;
    sel, ap, tp := sel0, ap0, tp0;
    while |curr| > 1
      invariant 1 <= |curr| <= |curr0| || curr == curr0
      invariant curr == curr0[..|curr|]
      invariant related != [] ==> sel == sel0 && ap == ap0 && tp == tp0 && curr == curr0
      invariant related == [] ==> tp == tp0 && ap == ap0 - set x | x in curr0[|curr|..]
      invariant related == [] && |curr| < |curr0| ==> sel == curr0[|curr|]
      invariant |curr| == |curr0| ==> sel == sel0
      decreases |curr|
    {
      var highest := curr[|curr| - 1];
      curr := curr[..|curr| - 1];
      if !(forall x | x in related :: |x| >= |curr|)
        || !(forall x | x in related :: Tuple(x) == Str(curr[|curr| - 1]))
      {
        break;
      }
      sel := highest;
      if sel in ap {
        ap := ap - {sel};
      }
      tp := DiscardPaths(tp, related);
      assert curr0[|curr|..] == [curr0[|curr|]] + curr0[|curr| + 1..];
    }
    if |curr0| <= 1 && related == [] {
      assert (set x | x in curr0[|curr|..]) == {};
      assert ap0 - {} == ap0;
    }
  }

  /** What step 2 keeps true: the paths still to process are indexed, filed under their
      start id and listed under their last id; the ancestor table lists only indexed paths
      under their last id; an indexed path is still to process or its last id is selected;
      and only such last ids are selected. */
  ghost predicate MergeInv(o: Ontology, ls: seq<string>, m: int, tp: PathTable, ap: AncestorTable, selected: set<string>)
  {
    && Filed(o, ls, m, tp, ap)
    && Covered(o, ls, m, tp, selected)
    && (forall x | x in selected :: EndsIndexedPath(o, ls, m, x))
  }

  /** Every indexed path is still to process or its last id is selected. */
  ghost predicate Covered(o: Ontology, ls: seq<string>, m: int, tp: PathTable, selected: set<string>)
  {
    forall p {:trigger IndexedPath(o, ls, m, p)} | IndexedPath(o, ls, m, p) :: p in GetOr(tp, p[0], {}) || p[|p| - 1] in selected
  }

  /** `tp'` is `tp` with the paths of `rs` discarded from the entries they are filed under. */
  ghost predicate DiscardedFrom(tp: PathTable, tp': PathTable, rs: seq<seq<string>>)
  {
    forall k :: GetOr(tp', k, {}) == GetOr(tp, k, {}) - set q | q in rs && |q| > 0 && q[0] == k
  }

  /** Every path in the path table is indexed, filed under its start id and listed under its
      last id; every path in the ancestor table is indexed and listed under its last id. */
  ghost predicate Filed(o: Ontology, ls: seq<string>, m: int, tp: PathTable, ap: AncestorTable)
  {
    PathsFiled(o, ls, m, tp, ap) && AncestorsFiled(o, ls, m, ap)
  }

  /** Every path in the path table is indexed, filed under its start id and listed under its
      last id in the ancestor table. */
  ghost predicate PathsFiled(o: Ontology, ls: seq<string>, m: int, tp: PathTable, ap: AncestorTable)
  {
    forall k, p | p in GetOr(tp, k, {}) :: IndexedPath(o, ls, m, p) && p[0] == k && p in GetOr(ap, p[|p| - 1], [])
  }

  /** Every path in the ancestor table is indexed and listed under its last id. */
  ghost predicate AncestorsFiled(o: Ontology, ls: seq<string>, m: int, ap: AncestorTable)
  {
    forall a, q | q in GetOr(ap, a, []) :: IndexedPath(o, ls, m, q) && q[|q| - 1] == a
  }

  /** The tables step 1 has built once it has gone through the input ids `done`: every
      indexed path of those ids is filed. */
  ghost predicate Indexed(o: Ontology, done: seq<string>, m: int, tp: PathTable, ap: AncestorTable)
  {
    && Filed(o, done, m, tp, ap)
    && (forall p {:trigger IndexedPath(o, done, m, p)} | IndexedPath(o, done, m, p) :: p in GetOr(tp, p[0], {}))
  }

  /** Filing one more indexed path (lines 325-326) keeps the tables filed, and only adds. */
  lemma FileOne(o: Ontology, ls: seq<string>, m: int, tp: PathTable, ap: AncestorTable, path: seq<string>,
                tp': PathTable, ap': AncestorTable)
    requires Filed(o, ls, m, tp, ap) && IndexedPath(o, ls, m, path)
    requires tp' == tp[path[0] := GetOr(tp, path[0], {}) + {path}]
    requires ap' == ap[path[|path| - 1] := GetOr(ap, path[|path| - 1], []) + [path]]
    ensures Filed(o, ls, m, tp', ap')
    ensures forall k :: GetOr(tp, k, {}) <= GetOr(tp', k, {})
  {
    FileOneAncestors(o, ls, m, ap, path, ap');
    FileOnePaths(o, ls, m, tp, ap, path, tp', ap');
  }

  lemma FileOneAncestors(o: Ontology, ls: seq<string>, m: int, ap: AncestorTable, path: seq<string>, ap': AncestorTable)
    requires AncestorsFiled(o, ls, m, ap) && IndexedPath(o, ls, m, path)
    requires ap' == ap[path[|path| - 1] := GetOr(ap, path[|path| - 1], []) + [path]]
    ensures AncestorsFiled(o, ls, m, ap')
  {
    var last := path[|path| - 1];
    forall a, q | q in GetOr(ap', a, []) ensures IndexedPath(o, ls, m, q) && q[|q| - 1] == a {
      if a == last {
        assert GetOr(ap', a, []) == GetOr(ap, a, []) + [path];
        if q != path {
          assert q in GetOr(ap, a, []);
        }
      } else {
        assert GetOr(ap', a, []) == GetOr(ap, a, []);
      }
    }
  }

  lemma FileOnePaths(o: Ontology, ls: seq<string>, m: int, tp: PathTable, ap: AncestorTable, path: seq<string>,
                     tp': PathTable, ap': AncestorTable)
    requires PathsFiled(o, ls, m, tp, ap) && IndexedPath(o, ls, m, path)
    requires tp' == tp[path[0] := GetOr(tp, path[0], {}) + {path}]
    requires ap' == ap[path[|path| - 1] := GetOr(ap, path[|path| - 1], []) + [path]]
    ensures PathsFiled(o, ls, m, tp', ap')
    ensures forall k :: GetOr(tp, k, {}) <= GetOr(tp', k, {})
  {
    var t := path[0];
    forall k, p | p in GetOr(tp', k, {})
      ensures IndexedPath(o, ls, m, p) && p[0] == k && p in GetOr(ap', p[|p| - 1], [])
    {
      if k == t {
        assert GetOr(tp', k, {}) == GetOr(tp, k, {}) + {path};
      } else {
        assert GetOr(tp', k, {}) == GetOr(tp, k, {});
      }
      if p != path {
        assert p in GetOr(tp, k, {});
        var l := p[|p| - 1];
        assert p in GetOr(ap, l, []);
        assert GetOr(ap, l, []) <= GetOr(ap', l, []);
      }
    }
  }

  /** Step 1 (lines 318-327): file every root path longer than one id under its start id and
      under its last id. */
  method IndexPaths(o: Ontology, ls: seq<string>, m: int) returns (tp: PathTable, ap: AncestorTable)
    requires Valid(o) && forall t | t in ls :: Canonical(o, t)
    ensures MergeInv(o, ls, m, tp, ap, {})
  {
    tp, ap := map[], map[];
    for i := 0 to |ls|
      invariant Indexed(o, ls[..i], m, tp, ap)
    {
      assert ls[..i + 1] == ls[..i] + [ls[i]];
      tp, ap := IndexTerm(o, ls[..i], ls[i], m, tp, ap);
    }
    assert ls[..|ls|] == ls;
  }

  /** One pass of step 1's outer loop: the root paths of the input id `t`. */
  method IndexTerm(o: Ontology, done: seq<string>, t: string, m: int, tp0: PathTable, ap0: AncestorTable)
    returns (tp: PathTable, ap: AncestorTable)
    requires Valid(o) && Canonical(o, t)
    requires Indexed(o, done, m, tp0, ap0)
    ensures Indexed(o, done + [t], m, tp, ap)
  {
    tp, ap := tp0, ap0;
    var rest := RootPaths(o, t, m);
    ghost var all := rest;
    forall p | IndexedPath(o, done + [t], m, p) && p[0] == t ensures p in all {
      ClimbIsRootPath(o, m, p);
    }
    forall k, p | p in GetOr(tp, k, {}) ensures IndexedPath(o, done + [t], m, p) {
      assert IndexedPath(o, done, m, p);
    }
    while rest != {}
      invariant rest <= all
      invariant Filed(o, done + [t], m, tp, ap)
      invariant forall p {:trigger IndexedPath(o, done, m, p)} | IndexedPath(o, done, m, p) :: p in GetOr(tp, p[0], {})
      invariant forall p {:trigger IndexedPath(o, done + [t], m, p)} | IndexedPath(o, done + [t], m, p) && p[0] == t && p !in rest :: p in GetOr(tp, t, {})
      decreases |rest|
    {
      var path :| path in rest;
      rest := rest - {path};
      RootPathIsClimb(o, t, m, path);
      if |path| > 1 {
        assert IndexedPath(o, done + [t], m, path);
        var tp' := tp[t := GetOr(tp, t, {}) + {path}];
        var ap' := ap[path[|path| - 1] := GetOr(ap, path[|path| - 1], []) + [path]];
        FileOne(o, done + [t], m, tp, ap, path, tp', ap');
        tp, ap := tp', ap';
      }
    }
    forall p | IndexedPath(o, done + [t], m, p) ensures p in GetOr(tp, p[0], {}) {
      if p[0] != t {
        assert IndexedPath(o, done, m, p);
      }
    }
  }

  /** Removing one path's related paths (lines 331-349): what the selection of `path`'s last id
      does to the tables, and that it keeps `MergeInv`. */
  lemma SelectStep(o: Ontology, ls: seq<string>, m: int, tp: PathTable, ap: AncestorTable, selected: set<string>,
                   t: string, path: seq<string>)
    requires MergeInv(o, ls, m, tp, ap, selected) && path in GetOr(tp, t, {})
    ensures |path| > 1 && path in GetOr(ap, path[|path| - 1], [])
    ensures var sel := path[|path| - 1];
            var tp' := DiscardAll(tp, GetOr(ap, sel, []));
            && MergeInv(o, ls, m, tp', ap - {sel}, selected + {sel})
            && (forall k :: GetOr(tp', k, {}) <= GetOr(tp, k, {}))
            && path !in GetOr(tp', t, {})
  {
    var sel := path[|path| - 1];
    var related := GetOr(ap, sel, []);
    var tp' := DiscardAll(tp, related);
    DiscardAllFrom(tp, related);
    SelectKeepsFiled(o, ls, m, tp, ap, sel, tp');
    SelectKeepsCovered(o, ls, m, tp, ap, selected, sel, tp');
    assert IndexedPath(o, ls, m, path);
    assert EndsIndexedPath(o, ls, m, sel);
  }

  lemma DiscardAllFrom(tp: PathTable, rs: seq<seq<string>>)
    ensures DiscardedFrom(tp, DiscardAll(tp, rs), rs)
  {
    forall k ensures GetOr(DiscardAll(tp, rs), k, {}) == GetOr(tp, k, {}) - set q | q in rs && |q| > 0 && q[0] == k {
      DiscardAllGet(tp, rs, k);
    }
  }

  lemma SelectKeepsFiled(o: Ontology, ls: seq<string>, m: int, tp: PathTable, ap: AncestorTable, sel: string, tp': PathTable)
    requires Filed(o, ls, m, tp, ap) && DiscardedFrom(tp, tp', GetOr(ap, sel, []))
    ensures Filed(o, ls, m, tp', ap - {sel})
  {
    var ap' := ap - {sel};
    forall k, p | p in GetOr(tp', k, {})
      ensures IndexedPath(o, ls, m, p) && p[0] == k && p in GetOr(ap', p[|p| - 1], [])
    {
      assert p in GetOr(tp, k, {});
      assert p !in GetOr(ap, sel, []);
      assert p[|p| - 1] != sel;
    }
    forall a, q | q in GetOr(ap', a, []) ensures IndexedPath(o, ls, m, q) && q[|q| - 1] == a {
      assert q in GetOr(ap, a, []);
    }
  }

  lemma SelectKeepsCovered(o: Ontology, ls: seq<string>, m: int, tp: PathTable, ap: AncestorTable,
                           selected: set<string>, sel: string, tp': PathTable)
    requires Filed(o, ls, m, tp, ap) && Covered(o, ls, m, tp, selected)
    requires DiscardedFrom(tp, tp', GetOr(ap, sel, []))
    ensures Covered(o, ls, m, tp', selected + {sel})
  {
    forall p | IndexedPath(o, ls, m, p) ensures p in GetOr(tp', p[0], {}) || p[|p| - 1] in selected + {sel} {
      if p in GetOr(tp, p[0], {}) && p !in GetOr(tp', p[0], {}) {
        assert p in GetOr(ap, sel, []);
      }
    }
  }

  /** A subset that misses an element of the larger set is smaller. */
  lemma {:induction false} SubsetMissingSmaller<T>(a: set<T>, b: set<T>, x: T)
    requires a <= b && x in b && x !in a
    ensures |a| < |b|
  {
    assert a <= b - {x};
    SubsetNotLarger(a, b - {x});
  }

  lemma {:induction false} SubsetNotLarger<T>(a: set<T>, b: set<T>)
    requires a <= b
    ensures |a| <= |b|
    decreases |a|
  {
    if a != {} {
      var x :| x in a;
      SubsetNotLarger(a - {x}, b - {x});
    }
  }

  /** Step 2 (lines 329-353): for each input id in turn, repeatedly take one of its remaining
      paths (in the order the set yields them), select its last id, and drop every remaining
      path ending there. Whatever the order, the selected ids are the ends of the indexed
      paths. */
  method SelectOutermost(o: Ontology, ls: seq<string>, m: int, tp0: PathTable, ap0: AncestorTable)
    returns (selected: set<string>)
    requires MergeInv(o, ls, m, tp0, ap0, {})
    ensures forall x :: x in selected <==> EndsIndexedPath(o, ls, m, x)
  {
    var tp, ap := tp0, ap0;
    selected := {};
    for j := 0 to |ls|
      invariant MergeInv(o, ls, m, tp, ap, selected)
      invariant forall k | k in ls[..j] :: GetOr(tp, k, {}) == {}
    {
      tp, ap, selected := SelectFrom(o, ls, m, tp, ap, selected, j);
    }
    assert ls[..|ls|] == ls;
    forall x | EndsIndexedPath(o, ls, m, x) ensures x in selected {
      var p :| IndexedPath(o, ls, m, p) && p[|p| - 1] == x;
      assert GetOr(tp, p[0], {}) == {};
    }
  }

  /** One pass of step 2's outer loop: the remaining paths of the `j`-th input id, taken one at
      a time until none is left. */
  method SelectFrom(o: Ontology, ls: seq<string>, m: int, tp0: PathTable, ap0: AncestorTable, selected0: set<string>,
                    j: nat)
    returns (tp: PathTable, ap: AncestorTable, selected: set<string>)
    requires j < |ls| && MergeInv(o, ls, m, tp0, ap0, selected0)
    requires forall k | k in ls[..j] :: GetOr(tp0, k, {}) == {}
    ensures MergeInv(o, ls, m, tp, ap, selected)
    ensures forall k | k in ls[..j + 1] :: GetOr(tp, k, {}) == {}
  {
    tp, ap, selected := tp0, ap0, selected0;
    var t := ls[j];
    var copy := GetOr(tp, t, {});
    while |copy| > 0
      invariant MergeInv(o, ls, m, tp, ap, selected)
      invariant forall k | k in ls[..j] :: GetOr(tp, k, {}) == {}
      invariant copy == GetOr(tp, t, {})
      decreases |copy|
    {
      var path :| path in copy;
      SelectStep(o, ls, m, tp, ap, selected, t, path);
      ghost var before := copy;
      copy := copy - {path};
      var curr := path[..|path| - 1];
      var sel := path[|path| - 1];
      var related := GetOr(ap, sel, []);
      ap := ap - {sel};
      sel, ap, tp := WalkInward(curr, related, sel, ap, tp);
      selected := selected + {sel};
      tp := DiscardPaths(tp, related);
      SubsetMissingSmaller(GetOr(tp, t, {}), before, path);
      if |GetOr(tp, t, {})| > 0 {
        copy := GetOr(tp, t, {});
      } else {
        break;
      }
    }
    assert ls[..j + 1] == ls[..j] + [t];
  }

  /** `get_merged_term_ids_by_common_ancestor_from_term_names(names, ids, min_distance_from_root=m,
      min_number_of_terms=minNumber)`: more than `minNumber` names are merged into the last ids
      of their root paths; otherwise their ids are returned as they are. A name missing from
      `ids` raises `KeyError`. */
  method MergeByCommonAncestor(o: Ontology, names: seq<string>, ids: map<string, string>, m: int, minNumber: int)
    returns (r: Outcome<set<string>>)
    requires Valid(o)
    requires forall n | n in names && n in ids :: |names| > minNumber ==> Canonical(o, ids[n])
    ensures (forall n | n in names :: n in ids) ==> r == Ok(MergedIds(o, names, ids, m, minNumber))
    ensures (exists n | n in names :: n !in ids) ==> r == Raised(KeyError)
  {
    var ls := [];
    for i := 0 to |names|
      invariant forall k | 0 <= k < i :: names[k] in ids
      invariant ls == IdsOf(names[..i], ids)
    {
      if names[i] !in ids {
        assert names[i] in names;
        return Raised(KeyError);
      }
      assert names[..i + 1][..i] == names[..i];
      ls := ls + [ids[names[i]]];
    }
    assert names[..|names|] == names;
    assert ls == IdsOf(names, ids);
    if |names| > minNumber {
      forall t | t in ls ensures Canonical(o, t) {
        var k :| 0 <= k < |ls| && ls[k] == t;
        assert names[k] in names;
      }
      var tp, ap := IndexPaths(o, ls, m);
      var selected := SelectOutermost(o, ls, m, tp, ap);
      forall x ensures x in selected <==> x in Outermost(o, ls, m) {
        OutermostAreClimbEnds(o, ls, m, x);
      }
      assert selected == Outermost(o, ls, m);
      r := Ok(selected);
    } else {
      r := Ok(set x | x in ls);
      assert (set x | x in ls) == set n | n in names :: ids[n] by {
        forall n | n in names ensures ids[n] in ls {
          var k :| 0 <= k < |names| && names[k] == n;
          assert ls[k] == ids[n];
        }
      }
    }
  }

  /** Above the threshold, the merged ids are exactly the ends of the complete climbs of two or
      more ids that start at an input id. */
  lemma MergedAreClimbEnds(o: Ontology, names: seq<string>, ids: map<string, string>, m: int, minNumber: int, x: string)
    requires Valid(o) && |names| > minNumber
    requires forall n | n in names :: n in ids && Canonical(o, ids[n])
    ensures x in MergedIds(o, names, ids, m, minNumber) <==>
              exists p | |p| > 1 && p[0] in IdsOf(names, ids) && RootChain(o, p, m) :: p[|p| - 1] == x
  {
    var ls := IdsOf(names, ids);
    forall t | t in ls ensures Canonical(o, t) {
      var k :| 0 <= k < |ls| && ls[k] == t;
      assert names[k] in names;
    }
    OutermostAreClimbEnds(o, ls, m, x);
    if exists p | |p| > 1 && p[0] in ls && RootChain(o, p, m) :: p[|p| - 1] == x {
      var p :| |p| > 1 && p[0] in ls && RootChain(o, p, m) && p[|p| - 1] == x;
      assert IndexedPath(o, ls, m, p);
    }
  }

  /** Above the threshold, every merged id is a strict ancestor of an input term, lies at
      depth `m` or more, and is where a walk to the root stops. */
  lemma MergedAreAncestors(o: Ontology, names: seq<string>, ids: map<string, string>, m: int, minNumber: int, x: string)
    requires Valid(o) && |names| > minNumber
    requires forall n | n in names :: n in ids && Canonical(o, ids[n])
    requires x in MergedIds(o, names, ids, m, minNumber)
    ensures x in o && o[x].depth >= m && Closed(o, x, m)
    ensures exists n | n in names && ids[n] in o :: IsAncestor(o, x, ids[n])
  {
    MergedAreClimbEnds(o, names, ids, m, minNumber, x);
    var p :| |p| > 1 && p[0] in IdsOf(names, ids) && RootChain(o, p, m) && p[|p| - 1] == x;
    ClimbEndIsAncestor(o, p, m);
    ClimbEndIsClosed(o, p, m);
    var n := NameOfId(names, ids, p[0]);
  }

  /** Every id of `IdsOf` is the id of one of the names. */
  lemma NameOfId(names: seq<string>, ids: map<string, string>, t: string) returns (n: string)
    requires forall n | n in names :: n in ids
    requires t in IdsOf(names, ids)
    ensures n in names && n in ids && ids[n] == t
  {
    var ls := IdsOf(names, ids);
    var k :| 0 <= k < |ls| && ls[k] == t;
    n := names[k];
  }

  /** The merge depends only on which names are listed and on how many there are, not on
      their order. */
  lemma MergedIdsSetOnly(o: Ontology, a: seq<string>, b: seq<string>, ids: map<string, string>, m: int, minNumber: int)
    requires Valid(o) && forall n | n in a :: n in ids
    requires (forall n :: n in a <==> n in b) && |a| == |b|
    ensures MergedIds(o, a, ids, m, minNumber) == MergedIds(o, b, ids, m, minNumber)
  {
    var la := IdsOf(a, ids);
    var lb := IdsOf(b, ids);
    forall t | t in la ensures t in lb {
      var k :| 0 <= k < |la| && la[k] == t;
      assert a[k] in a && a[k] in b;
      var j :| 0 <= j < |b| && b[j] == a[k];
      assert lb[j] == t;
    }
    forall t | t in lb ensures t in la {
      var k :| 0 <= k < |lb| && lb[k] == t;
      assert b[k] in b && b[k] in a;
      var j :| 0 <= j < |a| && a[j] == b[k];
      assert la[j] == t;
    }
    assert Outermost(o, la, m) == Outermost(o, lb, m);
  }

  /** Every merged id is a known term. */
  lemma MergedIdsKnown(o: Ontology, names: seq<string>, ids: map<string, string>, m: int, minNumber: int)
    requires Valid(o) && forall n | n in names :: n in ids && ids[n] in o
    requires |names| > minNumber ==> forall n | n in names :: Canonical(o, ids[n])
    ensures forall x | x in MergedIds(o, names, ids, m, minNumber) :: x in o
  {
    if |names| > minNumber {
      forall x | x in MergedIds(o, names, ids, m, minNumber) ensures x in o {
        MergedAreAncestors(o, names, ids, m, minNumber, x);
      }
    }
  }
}
