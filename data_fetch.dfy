/** The annotation selection of `genedescriptions/data_fetcher.py`: the parent ids of a term,
    the choice of one annotation per GO id by evidence-code priority, and the gene filter. */
module DataFetch {
  import opened Wrappers
  import opened Text

  // ---------------------------------------------------------------------------
  // Records
  // ---------------------------------------------------------------------------

  /** The `Qualifier` field of an annotation: a list of qualifiers for GO annotations read from
      a GAF file, the raw text column for disease annotations. */
  datatype Qualifier = QualifierList(items: seq<string>) | QualifierText(text: string)

  /** `"NOT" in annotation["Qualifier"]`: list membership for a list, a substring test for a
      text. */
  predicate Negated(q: Qualifier) {
    match q
    case QualifierList(items) => "NOT" in items
    case QualifierText(text) => Contains(text, "NOT")
  }

  /** One annotation record, with the fields the selection reads. */
  datatype Annotation = Annotation(goId: string, goName: string, aspect: string, evidence: string,
                                   qualifier: Qualifier, isObsolete: bool)

  /** The `Gene` named tuple. */
  datatype Gene = Gene(id: string, name: string, dead: bool, pseudo: bool)

  datatype AnnotationType = GO | DO

  /** The statistics object whose two counters `get_annotations` writes. */
  class SingleDescStats {
    var totalNumGoAnnotations: int
    var numPrioritizedGoAnnotations: int

    constructor(total: int, prioritized: int)
      ensures totalNumGoAnnotations == total && numPrioritizedGoAnnotations == prioritized
    {
      totalNumGoAnnotations := total;
      numPrioritizedGoAnnotations := prioritized;
    }
  }

  // ---------------------------------------------------------------------------
  // get_parents
  // ---------------------------------------------------------------------------

  /** `get_parents`: the parents of a term, together with its `part_of` targets when it has a
      `relationship` attribute that lists some. A term without the attribute reads as one with
      an empty relationship map. */
  function GetParents(parents: set<string>, relationship: Option<map<string, set<string>>>): (r: set<string>)
    ensures parents <= r
    ensures (relationship.None? || "part_of" !in relationship.value) ==> r == parents
    ensures forall x | x in r && x !in parents :: relationship.Some? && "part_of" in relationship.value
                                                 && x in relationship.value["part_of"]
  {
    match relationship
    case Some(rel) => if |rel| > 0 && "part_of" in rel then parents + rel["part_of"] else parents
    case None => parents
  }

  /** Every `part_of` target of a term is among its parents as `get_parents` returns them. */
  lemma PartOfTargetsAreParents(parents: set<string>, rel: map<string, set<string>>, x: string)
    requires "part_of" in rel && x in rel["part_of"]
    ensures x in GetParents(parents, Some(rel))
  {
    assert "part_of" in rel.Keys;
  }

  // ---------------------------------------------------------------------------
  // Evidence-code priorities
  // ---------------------------------------------------------------------------

  /** The last position of `c` in `codes`. */
  function LastIndex(codes: seq<string>, c: string): (r: nat)
    requires c in codes
    ensures r < |codes| && codes[r] == c
    ensures forall j | r < j < |codes| :: codes[j] != c
  {
    if codes[|codes| - 1] == c then |codes| - 1 else LastIndex(codes[..|codes| - 1], c)
  }

  /** `dict(zip(priority_list, reversed(range(len(priority_list)))))`: position k gets
      len - 1 - k, and a code listed twice keeps the value of its last position. */
  function PriorityMap(codes: seq<string>): (r: map<string, int>)
    ensures forall c :: c in r <==> c in codes
    ensures forall c | c in r :: 0 <= r[c] < |codes|
  {
    map c | c in codes :: |codes| - 1 - LastIndex(codes, c)
  }

  /** A higher priority means an earlier (last) position in the priority list; in a list
      without repeated codes, simply an earlier position. */
  lemma HigherPriorityIsEarlier(codes: seq<string>, c: string, d: string)
    requires c in codes && d in codes
    ensures PriorityMap(codes)[c] > PriorityMap(codes)[d] <==> LastIndex(codes, c) < LastIndex(codes, d)
  {
  }

  /** In a priority list without repetitions the first code has the highest priority. */
  lemma FirstCodeIsBest(codes: seq<string>, d: string)
    requires |codes| > 0 && d in codes
    requires forall i, j | 0 <= i < j < |codes| :: codes[i] != codes[j]
    ensures PriorityMap(codes)[codes[0]] >= PriorityMap(codes)[d]
    ensures PriorityMap(codes)[codes[0]] == |codes| - 1
  {
  }

  // ---------------------------------------------------------------------------
  // Filtering
  // ---------------------------------------------------------------------------

  /** The condition of the list comprehension at lines 157-159. */
  predicate Admitted(a: Annotation, includeObsolete: bool, includeNegative: bool) {
    (includeObsolete || !a.isObsolete) && (includeNegative || !Negated(a.qualifier))
  }

  /** The annotations the comprehension keeps, in their order. */
  function Filtered(anns: seq<Annotation>, includeObsolete: bool, includeNegative: bool): (r: seq<Annotation>)
    ensures |r| <= |anns|
    ensures forall a :: a in r <==> a in anns && Admitted(a, includeObsolete, includeNegative)
  {
    if anns == [] then []
    else
      var rest := Filtered(anns[..|anns| - 1], includeObsolete, includeNegative);
      var a := anns[|anns| - 1];
      assert anns == anns[..|anns| - 1] + [a];
      if Admitted(a, includeObsolete, includeNegative) then rest + [a] else rest
  }

  // ---------------------------------------------------------------------------
  // Selection of one annotation per GO id
  // ---------------------------------------------------------------------------

  /** The loop at lines 162-170 over `anns`, as the dictionary it builds: its keys in insertion
      order and its entries. A known code is entered under its GO id when the id is new, and
      replaces the entry only when its priority is strictly higher; a replaced entry keeps its
      place. */
  function Select(anns: seq<Annotation>, pm: map<string, int>): (r: (seq<string>, map<string, Annotation>))
    ensures forall g :: g in r.0 <==> g in r.1
    ensures forall i, j | 0 <= i < j < |r.0| :: r.0[i] != r.0[j]
    ensures forall g | g in r.1 :: r.1[g].goId == g && r.1[g].evidence in pm && r.1[g] in anns
  {
    if anns == [] then ([], map[])
    else
      var prev := Select(anns[..|anns| - 1], pm);
      var a := anns[|anns| - 1];
      assert anns == anns[..|anns| - 1] + [a];
      if a.evidence !in pm then prev
      else if a.goId in prev.1 then
        if pm[a.evidence] > pm[prev.1[a.goId].evidence] then (prev.0, prev.1[a.goId := a]) else prev
      else (prev.0 + [a.goId], prev.1[a.goId := a])
  }

  /** `list(id_selected_annotation.values())` */
  function Selected(anns: seq<Annotation>, pm: map<string, int>): (r: seq<Annotation>)
  {
    var sel := Select(anns, pm);
    seq(|sel.0|, i requires 0 <= i < |sel.0| => sel.1[sel.0[i]])
  }

  /** What `get_annotations` returns for the annotations of a gene. */
  function Prioritized(anns: seq<Annotation>, includeObsolete: bool, includeNegative: bool,
                       priorityList: seq<string>): (r: seq<Annotation>)
  {
    Selected(Filtered(anns, includeObsolete, includeNegative), PriorityMap(priorityList))
  }

  /** The selection keeps only known codes, and at most one annotation per GO id, each one
      taken from the input. */
  lemma SelectedKnownAndUnique(anns: seq<Annotation>, pm: map<string, int>)
    ensures forall i | 0 <= i < |Selected(anns, pm)| :: Selected(anns, pm)[i].evidence in pm
    ensures forall i | 0 <= i < |Selected(anns, pm)| :: Selected(anns, pm)[i] in anns
    ensures forall i, j | 0 <= i < j < |Selected(anns, pm)| :: Selected(anns, pm)[i].goId != Selected(anns, pm)[j].goId
  {
    var sel := Select(anns, pm);
    forall i | 0 <= i < |sel.0| ensures Selected(anns, pm)[i].goId == sel.0[i] {
      assert sel.0[i] in sel.1;
    }
  }

  /** Every GO id of an annotation with a known code is selected, with an annotation whose
      priority is at least as high. */
  lemma {:induction false} SelectBest(anns: seq<Annotation>, pm: map<string, int>, a: Annotation)
    requires a in anns && a.evidence in pm
    ensures a.goId in Select(anns, pm).1
    ensures pm[a.evidence] <= pm[Select(anns, pm).1[a.goId].evidence]
  {
    var front := anns[..|anns| - 1];
    var b := anns[|anns| - 1];
    assert anns == front + [b];
    if a in front {
      SelectBest(front, pm, a);
    }
  }

  /** The selected annotation of a GO id is the first one seen with the highest priority: every
      annotation before it with the same id and a known code has a strictly lower priority. */
  lemma {:induction false} SelectFirstBest(anns: seq<Annotation>, pm: map<string, int>, g: string) returns (i: nat)
    requires g in Select(anns, pm).1
    ensures i < |anns| && anns[i] == Select(anns, pm).1[g]
    ensures forall j | 0 <= j < i && anns[j].goId == g && anns[j].evidence in pm ::
              pm[anns[j].evidence] < pm[anns[i].evidence]
  {
    var front := anns[..|anns| - 1];
    var b := anns[|anns| - 1];
    assert anns == front + [b];
    var prev := Select(front, pm);
    var chosen := Select(anns, pm).1[g];
    if g in prev.1 && chosen == prev.1[g] {
      i := SelectFirstBest(front, pm, g);
      assert anns[i] == front[i];
      forall j | 0 <= j < i && anns[j].goId == g && anns[j].evidence in pm
        ensures pm[anns[j].evidence] < pm[anns[i].evidence]
      {
        assert anns[j] == front[j];
      }
    } else {
      i := |anns| - 1;
      forall j | 0 <= j < i && anns[j].goId == g && anns[j].evidence in pm
        ensures pm[anns[j].evidence] < pm[anns[i].evidence]
      {
        assert anns[j] == front[j];
        SelectBest(front, pm, front[j]);
      }
    }
  }

  /** The GO ids of the annotations with a known code, in their order. */
  function EligibleIds(anns: seq<Annotation>, pm: map<string, int>): (r: seq<string>)
  {
    if anns == [] then []
    else
      var a := anns[|anns| - 1];
      EligibleIds(anns[..|anns| - 1], pm) + (if a.evidence in pm then [a.goId] else [])
  }

  /** Each element at its first occurrence, in order. */
  function FirstOccurrences(xs: seq<string>): (r: seq<string>)
    ensures forall x :: x in r <==> x in xs
  {
    if xs == [] then []
    else
      var prev := FirstOccurrences(xs[..|xs| - 1]);
      var x := xs[|xs| - 1];
      assert xs == xs[..|xs| - 1] + [x];
      if x in prev then prev else prev + [x]
  }

  /** The selected GO ids come in the order in which each first appears with a known code. */
  lemma {:induction false} SelectOrder(anns: seq<Annotation>, pm: map<string, int>)
    ensures Select(anns, pm).0 == FirstOccurrences(EligibleIds(anns, pm))
  {
    if anns != [] {
      var front := anns[..|anns| - 1];
      var a := anns[|anns| - 1];
      SelectOrder(front, pm);
      assert anns == front + [a];
      var prev := Select(front, pm);
      if a.evidence in pm {
        var ids := EligibleIds(front, pm) + [a.goId];
        assert ids[..|ids| - 1] == EligibleIds(front, pm);
        assert EligibleIds(anns, pm) == ids;
        assert a.goId in prev.1 <==> a.goId in prev.0;
      } else {
        assert EligibleIds(anns, pm) == EligibleIds(front, pm) + [];
        assert EligibleIds(front, pm) + [] == EligibleIds(front, pm);
      }
    }
  }

  /** Every annotation `get_annotations` returns is one of the gene's, passes the filter and has
      a code of the priority list; no two share a GO id. */
  lemma PrioritizedSound(anns: seq<Annotation>, includeObsolete: bool, includeNegative: bool, priorityList: seq<string>)
    ensures var r := Prioritized(anns, includeObsolete, includeNegative, priorityList);
            && (forall i | 0 <= i < |r| :: r[i] in anns && Admitted(r[i], includeObsolete, includeNegative)
                                           && r[i].evidence in priorityList)
            && (forall i, j | 0 <= i < j < |r| :: r[i].goId != r[j].goId)
  {
    SelectedKnownAndUnique(Filtered(anns, includeObsolete, includeNegative), PriorityMap(priorityList));
  }

  /** No admitted annotation of the same GO id has a code of higher priority than the one
      returned. */
  lemma PrioritizedBest(anns: seq<Annotation>, includeObsolete: bool, includeNegative: bool,
                        priorityList: seq<string>, i: int, b: Annotation)
    requires 0 <= i < |Prioritized(anns, includeObsolete, includeNegative, priorityList)|
    requires b in anns && Admitted(b, includeObsolete, includeNegative) && b.evidence in priorityList
    requires b.goId == Prioritized(anns, includeObsolete, includeNegative, priorityList)[i].goId
    ensures PriorityMap(priorityList)[b.evidence]
            <= PriorityMap(priorityList)[Prioritized(anns, includeObsolete, includeNegative, priorityList)[i].evidence]
  {
    var pm := PriorityMap(priorityList);
    var filtered := Filtered(anns, includeObsolete, includeNegative);
    var sel := Select(filtered, pm);
    assert sel.0[i] in sel.1;
    SelectBest(filtered, pm, b);
  }

  /** Every GO id of an admitted annotation with a code of the priority list is returned. */
  lemma PrioritizedComplete(anns: seq<Annotation>, includeObsolete: bool, includeNegative: bool,
                            priorityList: seq<string>, b: Annotation) returns (i: nat)
    requires b in anns && Admitted(b, includeObsolete, includeNegative) && b.evidence in priorityList
    ensures i < |Prioritized(anns, includeObsolete, includeNegative, priorityList)|
    ensures Prioritized(anns, includeObsolete, includeNegative, priorityList)[i].goId == b.goId
  {
    var pm := PriorityMap(priorityList);
    var filtered := Filtered(anns, includeObsolete, includeNegative);
    SelectBest(filtered, pm, b);
    var sel := Select(filtered, pm);
    i :| 0 <= i < |sel.0| && sel.0[i] == b.goId;
  }

  // ---------------------------------------------------------------------------
  // get_gene_data
  // ---------------------------------------------------------------------------

  /** The condition of the generator at line 233. */
  predicate GeneKept(g: Gene, includeDead: bool, includePseudo: bool) {
    (includeDead || !g.dead) && (includePseudo || !g.pseudo)
  }

  /** The genes the generator yields from the `gene_data` items, in their order. */
  function KeptGenes(items: seq<(string, Gene)>, includeDead: bool, includePseudo: bool): (r: seq<Gene>)
    ensures |r| <= |items|
  {
    if items == [] then []
    else
      var rest := KeptGenes(items[..|items| - 1], includeDead, includePseudo);
      var g := items[|items| - 1].1;
      if GeneKept(g, includeDead, includePseudo) then rest + [g] else rest
  }

  /** The kept genes are exactly the genes of the items passing the filter, in item order:
      `idx` lists the positions of those items, increasing, and picks out each kept gene. */
  lemma {:induction false} KeptGenesPositions(items: seq<(string, Gene)>, includeDead: bool, includePseudo: bool)
    returns (idx: seq<nat>)
    ensures var r := KeptGenes(items, includeDead, includePseudo);
            && |idx| == |r|
            && (forall i | 0 <= i < |idx| :: idx[i] < |items| && items[idx[i]].1 == r[i])
            && (forall i, j | 0 <= i < j < |idx| :: idx[i] < idx[j])
            && (forall p :: p in idx <==> 0 <= p < |items| && GeneKept(items[p].1, includeDead, includePseudo))
  {
    if items == [] {
      idx := [];
    } else {
      var front := items[..|items| - 1];
      var prev := KeptGenesPositions(front, includeDead, includePseudo);
      if GeneKept(items[|items| - 1].1, includeDead, includePseudo) {
        idx := prev + [|items| - 1];
      } else {
        idx := prev;
      }
    }
  }

  /** The loop at lines 162-170 of `get_annotations`: it builds the dictionary of the best
      annotation per GO id, keeping the order in which the ids first appear. */
  method SelectByPriority(annotations: seq<Annotation>, pm: map<string, int>)
    returns (ids: seq<string>, selected: map<string, Annotation>)
    ensures (ids, selected) == Select(annotations, pm)
  {
    ids := [];
    selected := map[];
    for k := 0 to |annotations|
      invariant (ids, selected) == Select(annotations[..k], pm)
    {
      var a := annotations[k];
      assert annotations[..k + 1] == annotations[..k] + [a];
      if a.evidence in pm {
        if a.goId in selected {
          if pm[a.evidence] > pm[selected[a.goId].evidence] {
            selected := selected[a.goId := a];
          }
        } else {
          ids := ids + [a.goId];
          selected := selected[a.goId := a];
        }
      }
    }
    assert annotations[..|annotations|] == annotations;
  }

  // ---------------------------------------------------------------------------
  // The fetcher
  // ---------------------------------------------------------------------------

  /** A data fetcher once its data are loaded: the GO and disease annotations per gene id (the
      `defaultdict(list)` fields) and the `gene_data` items in insertion order. */
  class DataFetcher {
    var goData: map<string, seq<Annotation>>
    var doData: map<string, seq<Annotation>>
    var geneData: seq<(string, Gene)>

    /** The fetcher with the contents its loaders would have read. */
    constructor Loaded(goData: map<string, seq<Annotation>>, doData: map<string, seq<Annotation>>,
                       geneData: seq<(string, Gene)>)
      ensures this.goData == goData && this.doData == doData && this.geneData == geneData
    {
      this.goData := goData;
      this.doData := doData;
      this.geneData := geneData;
    }

    /** `get_annotations`: the admitted annotations of the gene, one per GO id, each with the
        best-priority known code, in order of first appearance. Reading a gene the
        `defaultdict` does not hold inserts an empty list for it. When `descStats` is given,
        its counters receive the number of admitted annotations and the number returned. */
    method GetAnnotations(geneId: string, annotType: AnnotationType, includeObsolete: bool,
                          includeNegative: bool, priorityList: seq<string>, descStats: SingleDescStats?)
      returns (r: seq<Annotation>)
      modifies this, descStats
      ensures var dataset := if annotType == GO then old(goData) else old(doData);
              var anns := GetOr(dataset, geneId, []);
              && r == Prioritized(anns, includeObsolete, includeNegative, priorityList)
              && (descStats != null ==>
                    && descStats.totalNumGoAnnotations == |Filtered(anns, includeObsolete, includeNegative)|
                    && descStats.numPrioritizedGoAnnotations == |r|)
      ensures annotType == GO ==> goData == old(goData)[geneId := GetOr(old(goData), geneId, [])] && doData == old(doData)
      ensures annotType == DO ==> doData == old(doData)[geneId := GetOr(old(doData), geneId, [])] && goData == old(goData)
      ensures geneData == old(geneData)
    {
      var anns: seq<Annotation>;
      if annotType == GO {
        anns := GetOr(goData, geneId, []);
        goData := goData[geneId := anns];
      } else {
        anns := GetOr(doData, geneId, []);
        doData := doData[geneId := anns];
      }
      var pm := PriorityMap(priorityList);
      var annotations := Filtered(anns, includeObsolete, includeNegative);
      if descStats != null {
        descStats.totalNumGoAnnotations := |annotations|;
      }
      var ids, selected := SelectByPriority(annotations, pm);
      if descStats != null {
        descStats.numPrioritizedGoAnnotations := |ids|;
      }
      r := seq(|ids|, i requires 0 <= i < |ids| => selected[ids[i]]);
    }

    /** The filtering loop of `get_gene_data`: the genes of `gene_data`, in order, that pass the
        dead and pseudo filter. */
    method GetGeneData(includeDead: bool, includePseudo: bool) returns (genes: seq<Gene>)
      ensures genes == KeptGenes(geneData, includeDead, includePseudo)
    {
      genes := [];
      for k := 0 to |geneData|
        invariant genes == KeptGenes(geneData[..k], includeDead, includePseudo)
      {
        assert geneData[..k + 1][..k] == geneData[..k];
        var gene := geneData[k].1;
        if GeneKept(gene, includeDead, includePseudo) {
          genes := genes + [gene];
        }
      }
      assert geneData[..|geneData|] == geneData;
    }
  }
}
