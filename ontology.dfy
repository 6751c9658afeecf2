/** The ontology as the description rules read it (`go_ontology.query_term(id)` and the
    `name`, `depth`, `id` and `parents` of the term it returns), and the two recursive walks
    over it: `get_all_go_parent_names` and `get_all_term_paths_to_root`. */
module GoOntology {

  /** A term as `query_term` returns it. `id` is the term's main id (an alternative id
      looks up the same term); `depth` is the length of the longest path to a root. */
  datatype Term = Term(id: string, name: string, depth: nat, parents: seq<string>)

  /** `query_term` as a read-only map from every known id to its term. */
  type Ontology = map<string, Term>

  /** What the walks rely on: the id a term reports is itself known and names the same
      term; parents are known main ids, and a parent lies strictly closer to a root than its
      child (so the ontology is acyclic and the recursions end). */
  ghost predicate Valid(o: Ontology) {
    && (forall k | k in o :: o[k].id in o && o[o[k].id] == o[k])
    && (forall k, p | k in o && p in o[k].parents :: p in o && o[p].id == p && o[p].depth < o[k].depth)
  }

  /** `id` is the main id of a known term. */
  predicate Canonical(o: Ontology, id: string) {
    id in o && o[id].id == id
  }

  /** `a` is reached from `x` by following one or more parent links. */
  ghost predicate IsAncestor(o: Ontology, a: string, x: string)
    requires Valid(o) && x in o
    decreases o[x].depth
  {
    exists p | p in o[x].parents :: p == a || IsAncestor(o, a, p)
  }

  // ---------------------------------------------------------------------------
  // get_all_go_parent_names
  // ---------------------------------------------------------------------------

  /** `get_all_go_parent_names(id)`: for each parent that is not a root, its name followed by
      the names found above it (duplicates kept, as the Python list keeps them). */
  function ParentNames(o: Ontology, id: string): seq<string>
    requires Valid(o) && id in o
    decreases o[id].depth, 1, 0
  {
    ParentNamesOf(o, o[id].parents, o[id].depth)
  }

  /** The loop of `get_all_go_parent_names` over the parents `ps`, all shallower than `bound`. */
  function ParentNamesOf(o: Ontology, ps: seq<string>, bound: nat): seq<string>
    requires Valid(o) && forall p | p in ps :: p in o && o[p].depth < bound
    decreases bound, 0, |ps|
  {
    if ps == [] then []
    else
      var p := ps[0];
      (if |o[p].parents| > 0 then [o[p].name] + ParentNames(o, p) else [])
      + ParentNamesOf(o, ps[1..], bound)
  }

  /** The names listed are exactly the names of the ancestors that are not roots. */
  lemma ParentNamesAreNonRootAncestors(o: Ontology, id: string, n: string)
    requires Valid(o) && id in o
    ensures n in ParentNames(o, id) <==>
              exists a | a in o :: IsAncestor(o, a, id) && |o[a].parents| > 0 && o[a].name == n
  {
    if n in ParentNames(o, id) {
      var a := ListedNameIsAncestor(o, id, n);
    }
    if exists a | a in o :: IsAncestor(o, a, id) && |o[a].parents| > 0 && o[a].name == n {
      var a :| a in o && IsAncestor(o, a, id) && |o[a].parents| > 0 && o[a].name == n;
      AncestorNameIsListed(o, id, a);
    }
  }

  /** Every name listed is the name of an ancestor that is not a root. */
  lemma {:induction false} ListedNameIsAncestor(o: Ontology, id: string, n: string) returns (a: string)
    requires Valid(o) && id in o && n in ParentNames(o, id)
    ensures a in o && IsAncestor(o, a, id) && |o[a].parents| > 0 && o[a].name == n
    decreases o[id].depth, 1, 0
  {
    var p;
    p, a := ListedNameIsAncestorOf(o, o[id].parents, o[id].depth, n);
  }

  lemma {:induction false} ListedNameIsAncestorOf(o: Ontology, ps: seq<string>, bound: nat, n: string)
    returns (p: string, a: string)
    requires Valid(o) && forall q | q in ps :: q in o && o[q].depth < bound
    requires n in ParentNamesOf(o, ps, bound)
    ensures p in ps && a in o && (p == a || IsAncestor(o, a, p)) && |o[a].parents| > 0 && o[a].name == n
    decreases bound, 0, |ps|
  {
    var q := ps[0];
    var here := if |o[q].parents| > 0 then [o[q].name] + ParentNames(o, q) else [];
    assert ParentNamesOf(o, ps, bound) == here + ParentNamesOf(o, ps[1..], bound);
    if n in here {
      p := q;
      if n == o[q].name && |o[q].parents| > 0 {
        a := q;
      } else {
        a := ListedNameIsAncestor(o, q, n);
      }
    } else {
      p, a := ListedNameIsAncestorOf(o, ps[1..], bound, n);
    }
  }

  /** Every ancestor that is not a root has its name listed. */
  lemma {:induction false} AncestorNameIsListed(o: Ontology, id: string, a: string)
    requires Valid(o) && id in o && a in o && IsAncestor(o, a, id) && |o[a].parents| > 0
    ensures o[a].name in ParentNames(o, id)
    decreases o[id].depth, 1, 0
  {
    var p :| p in o[id].parents && (p == a || IsAncestor(o, a, p));
    AncestorNameIsListedOf(o, o[id].parents, o[id].depth, p, a);
  }

  lemma {:induction false} AncestorNameIsListedOf(o: Ontology, ps: seq<string>, bound: nat, p: string, a: string)
    requires Valid(o) && forall q | q in ps :: q in o && o[q].depth < bound
    requires p in ps && a in o && (p == a || IsAncestor(o, a, p)) && |o[a].parents| > 0
    ensures o[a].name in ParentNamesOf(o, ps, bound)
    decreases bound, 0, |ps|
  {
    var q := ps[0];
    var here := if |o[q].parents| > 0 then [o[q].name] + ParentNames(o, q) else [];
    assert ParentNamesOf(o, ps, bound) == here + ParentNamesOf(o, ps[1..], bound);
    if p == q {
      if p != a {
        assert |o[q].parents| > 0;
        AncestorNameIsListed(o, q, a);
      }
      assert o[a].name in here;
    } else {
      assert p in ps[1..];
      AncestorNameIsListedOf(o, ps[1..], bound, p, a);
    }
  }

  // ---------------------------------------------------------------------------
  // get_all_term_paths_to_root
  // ---------------------------------------------------------------------------

  /** `get_all_term_paths_to_root(id, min_distance_from_root=m, previous_path=prev)`: a term at
      depth `m` or more extends the path with its id and recurses into every parent (a
      parentless term ends the path there); a term shallower than `m` returns the path it was
      given, unextended. Every path returned extends `prev`. */
  function PathsToRoot(o: Ontology, id: string, m: int, prev: seq<string>): (r: set<seq<string>>)
    requires Valid(o) && id in o
    ensures forall path | path in r :: |prev| <= |path| && path[..|prev|] == prev
    decreases o[id].depth, 1, 0
  {
    var t := o[id];
    if t.depth >= m then
      var path := prev + [t.id];
      if |t.parents| > 0 then PathsThrough(o, t.parents, m, path, t.depth) else {path}
    else {prev}
  }

  /** The loop of `get_all_term_paths_to_root` over the parents `ps`: the union of the paths
      found through each of them. */
  function PathsThrough(o: Ontology, ps: seq<string>, m: int, path: seq<string>, bound: nat): (r: set<seq<string>>)
    requires Valid(o) && forall p | p in ps :: p in o && o[p].depth < bound
    ensures forall q | q in r :: |path| <= |q| && q[..|path|] == path
    decreases bound, 0, |ps|
  {
    if ps == [] then {}
    else PathsToRoot(o, ps[0], m, path) + PathsThrough(o, ps[1..], m, path, bound)
  }

  /** The call with its default `previous_path=None`. */
  function RootPaths(o: Ontology, id: string, m: int): set<seq<string>>
    requires Valid(o) && id in o
  {
    PathsToRoot(o, id, m, [])
  }

  /** A start term shallower than `m` yields only the empty path; a parentless start term at
      depth `m` or more yields only the path of its own id. */
  lemma RootPathsEdges(o: Ontology, id: string, m: int)
    requires Valid(o) && id in o
    ensures o[id].depth < m ==> RootPaths(o, id, m) == {[]}
    ensures o[id].depth >= m && o[id].parents == [] ==> RootPaths(o, id, m) == {[o[id].id]}
  {
  }

  /** A climb may stop at `x` when `x` is a root or has a parent shallower than `m`. */
  ghost predicate Closed(o: Ontology, x: string, m: int)
    requires x in o
  {
    o[x].parents == [] || exists p | p in o[x].parents :: p in o && o[p].depth < m
  }

  /** A complete path of the walk: known ids at depth `m` or more, each followed by one of its
      parents, ending at an id where the walk stops. */
  ghost predicate RootChain(o: Ontology, c: seq<string>, m: int)
    decreases |c|
  {
    && |c| > 0 && c[0] in o && o[c[0]].depth >= m
    && if |c| == 1 then Closed(o, c[0], m) else c[1] in o[c[0]].parents && RootChain(o, c[1..], m)
  }

  /** A path in the union over parents is a path through one of them. */
  lemma {:induction false} PathsThroughMembership(o: Ontology, ps: seq<string>, m: int, path: seq<string>, bound: nat, q: seq<string>)
    requires Valid(o) && forall p | p in ps :: p in o && o[p].depth < bound
    ensures q in PathsThrough(o, ps, m, path, bound) <==> exists p | p in ps :: q in PathsToRoot(o, p, m, path)
    decreases |ps|
  {
    if ps != [] {
      PathsThroughMembership(o, ps[1..], m, path, bound, q);
      if exists p | p in ps :: q in PathsToRoot(o, p, m, path) {
        var p :| p in ps && q in PathsToRoot(o, p, m, path);
        if p != ps[0] {
          assert p in ps[1..];
        }
      }
    }
  }

  /** `q` is `prev` followed by a complete climb that starts at `x`. */
  ghost predicate ClimbAfter(o: Ontology, prev: seq<string>, x: string, q: seq<string>, m: int) {
    |q| > |prev| && q[..|prev|] == prev && q[|prev|] == x && RootChain(o, q[|prev|..], m)
  }

  /** For a start term at depth `m` or more, the paths returned are exactly `prev` followed by
      a complete climb that starts at the term's id. */
  lemma PathsToRootMembership(o: Ontology, id: string, m: int, prev: seq<string>, q: seq<string>)
    requires Valid(o) && id in o && o[id].depth >= m
    ensures q in PathsToRoot(o, id, m, prev) <==> ClimbAfter(o, prev, o[id].id, q, m)
  {
    if q in PathsToRoot(o, id, m, prev) {
      PathsToRootSound(o, id, m, prev, q);
    }
    if ClimbAfter(o, prev, o[id].id, q, m) {
      PathsToRootComplete(o, id, m, prev, q);
    }
  }

  lemma {:induction false} PathsToRootSound(o: Ontology, id: string, m: int, prev: seq<string>, q: seq<string>)
    requires Valid(o) && id in o && o[id].depth >= m && q in PathsToRoot(o, id, m, prev)
    ensures ClimbAfter(o, prev, o[id].id, q, m)
    decreases o[id].depth
  {
    var t := o[id];
    var x := t.id;
    var path := prev + [x];
    var ps := t.parents;
    assert o[x] == t;
    if |ps| == 0 {
      assert q == path;
      ClimbStop(o, prev, x, m);
    } else {
      PathsThroughMembership(o, ps, m, path, t.depth, q);
      var p :| p in ps && q in PathsToRoot(o, p, m, path);
      if o[p].depth >= m {
        PathsToRootSound(o, p, m, path, q);
        assert o[p].id == p;
        ClimbStep(o, prev, x, p, q, m);
      } else {
        assert q == path;
        ClimbStop(o, prev, x, m);
      }
    }
  }

  /** The walk stopping at `x` yields a complete climb. */
  lemma ClimbStop(o: Ontology, prev: seq<string>, x: string, m: int)
    requires x in o && o[x].depth >= m && Closed(o, x, m)
    ensures ClimbAfter(o, prev, x, prev + [x], m)
  {
    assert (prev + [x])[|prev|..] == [x];
  }

  /** A complete climb from a parent `p` of `x`, after `prev + [x]`, is a complete climb from `x`. */
  lemma ClimbStep(o: Ontology, prev: seq<string>, x: string, p: string, q: seq<string>, m: int)
    requires x in o && o[x].depth >= m && p in o[x].parents && ClimbAfter(o, prev + [x], p, q, m)
    ensures ClimbAfter(o, prev, x, q, m)
  {
    var path := prev + [x];
    assert q[..|path|] == path;
    assert q[..|prev|] == prev;
    var c := q[|prev|..];
    assert c[1..] == q[|path|..];
  }

  lemma {:induction false} PathsToRootComplete(o: Ontology, id: string, m: int, prev: seq<string>, q: seq<string>)
    requires Valid(o) && id in o && o[id].depth >= m && ClimbAfter(o, prev, o[id].id, q, m)
    ensures q in PathsToRoot(o, id, m, prev)
    decreases o[id].depth
  {
    var t := o[id];
    var x := t.id;
    var path := prev + [x];
    var ps := t.parents;
    assert o[x] == t;
    var c := q[|prev| + 1..];
    assert q[|prev|..] == [x] + c;
    assert q == path + c;
    if c == [] {
      assert q == path;
      if |ps| > 0 {
        assert Closed(o, x, m);
        var p :| p in ps && p in o && o[p].depth < m;
        assert q in PathsToRoot(o, p, m, path);
        PathsThroughMembership(o, ps, m, path, t.depth, q);
      }
    } else {
      assert q[|prev|..][1..] == c;
      assert RootChain(o, c, m) && c[0] in ps;
      var p := c[0];
      assert q[|path|..] == c;
      assert q[..|path|] == path;
      assert q[|path|] == p;
      assert o[p].id == p;
      assert ClimbAfter(o, path, p, q, m);
      PathsToRootComplete(o, p, m, path, q);
      PathsThroughMembership(o, ps, m, path, t.depth, q);
    }
  }

  /** A complete climb of two or more ids ends at an ancestor of where it starts. */
  lemma {:induction false} ClimbEndIsAncestor(o: Ontology, c: seq<string>, m: int)
    requires Valid(o) && RootChain(o, c, m) && |c| > 1
    ensures IsAncestor(o, c[|c| - 1], c[0])
    decreases |c|
  {
    var c' := c[1..];
    if |c| > 2 {
      ClimbEndIsAncestor(o, c', m);
      assert c'[|c'| - 1] == c[|c| - 1];
    }
  }

  /** A complete climb ends at a known id at depth `m` or more where the walk stops. */
  lemma {:induction false} ClimbEndIsClosed(o: Ontology, c: seq<string>, m: int)
    requires RootChain(o, c, m)
    ensures c[|c| - 1] in o && o[c[|c| - 1]].depth >= m && Closed(o, c[|c| - 1], m)
    decreases |c|
  {
    if |c| > 1 {
      var c' := c[1..];
      ClimbEndIsClosed(o, c', m);
      assert c'[|c'| - 1] == c[|c| - 1];
    }
  }
}
