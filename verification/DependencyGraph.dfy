/** The publication catalog's dependency check: indexing, edge checks and
    Kahn's loop. */
module DependencyGraph {
  import opened Collections
  import opened Wrappers
  import opened Graphs
  import opened Kahn

  type Ref = (string, string)

  datatype Role =
    | Monolith | Core | Authorization | SafeEffects | Evidence | Privacy | Binding | Conformance

  datatype DocumentKind = MonolithKind | CoreKind | ExtensionKind | BindingKind | ConformanceKind

  datatype Document = Document(ref: Ref, path: string, kind: DocumentKind, role: Role,
                               publicationOrder: int, dependencies: seq<Ref>)

  function KindRoles(kind: DocumentKind): set<Role> {
    match kind
    case MonolithKind => {Monolith}
    case CoreKind => {Core}
    case ExtensionKind => {Authorization, SafeEffects, Evidence, Privacy}
    case BindingKind => {Binding}
    case ConformanceKind => {Conformance}
  }

  function RoleDependencies(role: Role): set<Role> {
    match role
    case Monolith => {}
    case Core => {}
    case Authorization => {Core}
    case SafeEffects => {Core, Authorization}
    case Evidence => {Core, Authorization, SafeEffects}
    case Privacy => {Core, Authorization, SafeEffects, Evidence}
    case Binding => {Core, Authorization, SafeEffects, Evidence, Privacy}
    case Conformance => {Core, Authorization, SafeEffects, Evidence, Privacy, Binding}
  }

  function RequiredDependencies(role: Role): set<Role> {
    match role
    case Monolith => {}
    case Core => {}
    case Authorization => {Core}
    case SafeEffects => {Core, Authorization}
    case _ => {Core}
  }

  datatype GraphError =
    | RepeatedDependency
    | SelfDependency
    | UnknownDependency
    | ForbiddenRole
    | OrderViolated
    | MissingRole
    | CyclicGraph

  // ----- _index_documents -----

  ghost predicate Indexed(documents: seq<Document>) {
    && (forall i :: 0 <= i < |documents| ==>
                      documents[i].publicationOrder == i && documents[i].role in KindRoles(documents[i].kind))
    && forall i, j :: 0 <= i < j < |documents| ==>
                        documents[i].ref.0 != documents[j].ref.0 && documents[i].path != documents[j].path
  }

  ghost predicate IndexOf(documents: seq<Document>, n: nat, byRef: map<Ref, Document>)
    requires n <= |documents|
  {
    && (forall i :: 0 <= i < n ==> documents[i].ref in byRef && byRef[documents[i].ref] == documents[i])
    && forall r {:trigger HasRef(documents, n, r)} :: r in byRef ==> HasRef(documents, n, r)
  }

  predicate HasRef(documents: seq<Document>, n: nat, r: Ref)
    requires n <= |documents|
  {
    exists i :: 0 <= i < n && documents[i].ref == r
  }

  ghost function Ids(documents: seq<Document>): set<string> {
    if documents == [] then {} else Ids(documents[..|documents| - 1]) + {documents[|documents| - 1].ref.0}
  }

  ghost function DocumentPaths(documents: seq<Document>): set<string> {
    if documents == [] then {} else DocumentPaths(documents[..|documents| - 1]) + {documents[|documents| - 1].path}
  }

  lemma {:induction false} NameTaken(documents: seq<Document>, i: nat)
    requires i < |documents|
    ensures documents[i].ref.0 in Ids(documents) && documents[i].path in DocumentPaths(documents)
  {
    if i < |documents| - 1 {
      NameTaken(documents[..|documents| - 1], i);
    }
  }

  lemma {:induction false} IdOwner(documents: seq<Document>, id: string) returns (i: nat)
    requires id in Ids(documents)
    ensures i < |documents| && documents[i].ref.0 == id
  {
    i := |documents| - 1;
    if documents[i].ref.0 != id {
      i := IdOwner(documents[..i], id);
    }
  }

  lemma {:induction false} PathOwner(documents: seq<Document>, path: string) returns (i: nat)
    requires path in DocumentPaths(documents)
    ensures i < |documents| && documents[i].path == path
  {
    i := |documents| - 1;
    if documents[i].path != path {
      i := PathOwner(documents[..i], path);
    }
  }

  lemma IndexStep(documents: seq<Document>, n: nat, byRef: map<Ref, Document>)
    requires n < |documents| && IndexOf(documents, n, byRef) && documents[n].ref !in byRef
    ensures IndexOf(documents, n + 1, byRef[documents[n].ref := documents[n]])
  {
    var byRef' := byRef[documents[n].ref := documents[n]];
    forall r | r in byRef'
      ensures HasRef(documents, n + 1, r)
    {
      if r in byRef {
        assert HasRef(documents, n, r);
      } else {
        assert documents[n].ref == r;
      }
    }
  }

  lemma NameClash(documents: seq<Document>, n: nat, byRef: map<Ref, Document>)
    requires n < |documents| && IndexOf(documents, n, byRef)
    requires documents[n].ref in byRef || documents[n].ref.0 in Ids(documents[..n])
             || documents[n].path in DocumentPaths(documents[..n])
    ensures !Indexed(documents)
  {
    if documents[n].ref in byRef {
      assert HasRef(documents, n, documents[n].ref);
    } else if documents[n].ref.0 in Ids(documents[..n]) {
      var i := IdOwner(documents[..n], documents[n].ref.0);
      assert documents[i].ref.0 == documents[n].ref.0;
    } else {
      var i := PathOwner(documents[..n], documents[n].path);
      assert documents[i].path == documents[n].path;
    }
  }

  lemma IndexedStep(documents: seq<Document>, n: nat)
    requires n < |documents| && Indexed(documents[..n])
    requires documents[n].ref.0 !in Ids(documents[..n]) && documents[n].path !in DocumentPaths(documents[..n])
    requires documents[n].publicationOrder == n && documents[n].role in KindRoles(documents[n].kind)
    ensures Indexed(documents[..n + 1])
  {
    forall i | 0 <= i < n
      ensures documents[i].ref.0 != documents[n].ref.0 && documents[i].path != documents[n].path
    {
      NameTaken(documents[..n], i);
    }
    assert documents[..n + 1] == documents[..n] + [documents[n]];
  }

  /** `_index_documents`: None where the catalog is refused. */
  method IndexDocuments(documents: seq<Document>) returns (r: Option<map<Ref, Document>>)
    ensures r.Some? <==> Indexed(documents)
    ensures r.Some? ==> IndexOf(documents, |documents|, r.value)
  {
    if exists i :: 0 <= i < |documents| && documents[i].publicationOrder != i {
      return None;
    }
    var byRef: map<Ref, Document> := map[];
    var ids: set<string>, paths: set<string> := {}, {};
    for n := 0 to |documents|
      invariant IndexOf(documents, n, byRef) && Indexed(documents[..n])
      invariant ids == Ids(documents[..n]) && paths == DocumentPaths(documents[..n])
    {
      var document := documents[n];
      assert documents[..n + 1][..n] == documents[..n];
      if document.ref in byRef || document.ref.0 in ids || document.path in paths {
        NameClash(documents, n, byRef);
        return None;
      }
      ids := ids + {document.ref.0};
      paths := paths + {document.path};
      IndexStep(documents, n, byRef);
      byRef := byRef[document.ref := document];
      if document.role !in KindRoles(document.kind) {
        return None;
      }
      IndexedStep(documents, n);
    }
    assert documents[..|documents|] == documents;
    r := Some(byRef);
  }

  // ----- the graph of a catalog -----

  ghost function DependenciesOf(byRef: map<Ref, Document>): Graph<Ref> {
    map d | d in byRef :: Elements(byRef[d].dependencies)
  }

  // ----- the whole check -----

  predicate EdgeChecked(document: Document, byRef: map<Ref, Document>, d: Ref) {
    && d != document.ref
    && d in byRef
    && byRef[d].role in RoleDependencies(document.role)
    && byRef[d].publicationOrder < document.publicationOrder
  }

  predicate RoleSelected(byRef: map<Ref, Document>, dependencies: seq<Ref>, role: Role) {
    exists d :: d in dependencies && d in byRef && byRef[d].role == role
  }

  /** One document passes every edge check. */
  ghost predicate EdgesChecked(byRef: map<Ref, Document>, document: Document) {
    && Distinct(document.dependencies)
    && (forall d :: d in document.dependencies ==> EdgeChecked(document, byRef, d))
    && forall role :: role in RequiredDependencies(document.role) ==> RoleSelected(byRef, document.dependencies, role)
  }

  ghost predicate AllChecked(documents: seq<Document>, byRef: map<Ref, Document>) {
    forall i :: 0 <= i < |documents| ==> EdgesChecked(byRef, documents[i])
  }

  /** Edges that go backwards in publication order cannot close a cycle. */
  lemma OrderedIsAcyclic(documents: seq<Document>, byRef: map<Ref, Document>)
    requires IndexOf(documents, |documents|, byRef) && AllChecked(documents, byRef)
    ensures Closed(DependenciesOf(byRef)) && Acyclic(DependenciesOf(byRef))
  {
    var g := DependenciesOf(byRef);
    var rank := map d | d in byRef :: byRef[d].publicationOrder;
    forall d, u | d in g && u in g[d]
      ensures u in g && rank[u] < rank[d]
    {
      assert HasRef(documents, |documents|, d);
      var i :| 0 <= i < |documents| && documents[i].ref == d;
      assert EdgeChecked(documents[i], byRef, u);
    }
    RankedIsAcyclic(g, rank);
  }

  function RoleRank(role: Role): int {
    match role
    case Monolith => 0
    case Core => 0
    case Authorization => 1
    case SafeEffects => 2
    case Evidence => 3
    case Privacy => 4
    case Binding => 5
    case Conformance => 6
  }

  /** The role table alone already rules cycles out, whatever the order says. */
  lemma RolesAreAcyclic(byRef: map<Ref, Document>)
    requires forall d, u :: d in byRef && u in byRef[d].dependencies ==>
                              u in byRef && byRef[u].role in RoleDependencies(byRef[d].role)
    ensures Acyclic(DependenciesOf(byRef))
  {
    var g := DependenciesOf(byRef);
    var rank := map d | d in byRef :: RoleRank(byRef[d].role);
    forall d, u | d in g && u in g[d]
      ensures u in rank && rank[u] < rank[d]
    {
      assert u in byRef[d].dependencies;
    }
    RankedIsAcyclic(g, rank);
  }

  // ----- recording the edges -----

  /** `u` is recorded as a dependency of `d` when the loops have gone through
      the first `i` documents and the first `j` dependencies of the next. */
  ghost predicate Recorded(documents: seq<Document>, i: nat, j: nat, u: Ref, d: Ref)
    requires i <= |documents| && (i < |documents| ==> j <= |documents[i].dependencies|)
  {
    || (exists k :: 0 <= k < i && Depends(documents[k], u, d))
    || (i < |documents| && documents[i].ref == d && u in documents[i].dependencies[..j])
  }

  predicate Depends(document: Document, u: Ref, d: Ref) {
    document.ref == d && u in document.dependencies
  }

  function CountedSoFar(documents: seq<Document>, i: nat, j: nat, k: nat): nat
    requires k < |documents|
  {
    if k < i then |documents[k].dependencies| else if k == i then j else 0
  }

  ghost predicate Recording(documents: seq<Document>, i: nat, j: nat, refs: set<Ref>,
                            indegree: map<Ref, int>, dependents: map<Ref, seq<Ref>>)
    requires i <= |documents| && (i < |documents| ==> j <= |documents[i].dependencies|)
  {
    && indegree.Keys == dependents.Keys == refs
    && (forall k :: 0 <= k < |documents| ==>
                      documents[k].ref in refs && indegree[documents[k].ref] == CountedSoFar(documents, i, j, k))
    && forall u :: u in refs ==> RecordedAt(documents, i, j, u, dependents[u])
  }

  ghost predicate RecordedAt(documents: seq<Document>, i: nat, j: nat, u: Ref, list: seq<Ref>)
    requires i <= |documents| && (i < |documents| ==> j <= |documents[i].dependencies|)
  {
    Distinct(list) && forall d :: d in list <==> Recorded(documents, i, j, u, d)
  }

  lemma RecordStep(documents: seq<Document>, i: nat, j: nat, refs: set<Ref>,
                   indegree: map<Ref, int>, dependents: map<Ref, seq<Ref>>)
    requires Indexed(documents) && i < |documents| && j < |documents[i].dependencies|
    requires documents[i].dependencies[j] !in documents[i].dependencies[..j]
    requires documents[i].dependencies[j] in refs
    requires Recording(documents, i, j, refs, indegree, dependents)
    ensures var u, d := documents[i].dependencies[j], documents[i].ref;
            Recording(documents, i, j + 1, refs, indegree[d := indegree[d] + 1], dependents[u := dependents[u] + [d]])
  {
    var list := documents[i].dependencies;
    var u, d := list[j], documents[i].ref;
    var dependents' := dependents[u := dependents[u] + [d]];
    assert list[..j + 1] == list[..j] + [u];
    assert !Recorded(documents, i, j, u, d);
    forall v | v in refs
      ensures RecordedAt(documents, i, j + 1, v, dependents'[v])
    {
      assert RecordedAt(documents, i, j, v, dependents[v]);
      forall e
        ensures Recorded(documents, i, j + 1, v, e) <==> Recorded(documents, i, j, v, e) || (v == u && e == d)
      {}
    }
    assert forall k :: 0 <= k < |documents| && k != i ==> documents[k].ref != d;
  }

  lemma RecordNext(documents: seq<Document>, i: nat, refs: set<Ref>, indegree: map<Ref, int>, dependents: map<Ref, seq<Ref>>)
    requires i < |documents| && Recording(documents, i, |documents[i].dependencies|, refs, indegree, dependents)
    ensures Recording(documents, i + 1, 0, refs, indegree, dependents)
  {
    var list := documents[i].dependencies;
    assert list[..|list|] == list;
    forall u | u in refs
      ensures RecordedAt(documents, i + 1, 0, u, dependents[u])
    {
      assert RecordedAt(documents, i, |list|, u, dependents[u]);
      forall e
        ensures Recorded(documents, i + 1, 0, u, e) <==> Recorded(documents, i, |list|, u, e)
      {
        if Depends(documents[i], u, e) {
          assert 0 <= i < i + 1;
        }
      }
    }
  }

  lemma RecordedCount(documents: seq<Document>, byRef: map<Ref, Document>, indegree: map<Ref, int>, d: Ref)
    requires IndexOf(documents, |documents|, byRef) && AllChecked(documents, byRef) && d in byRef
    requires d in indegree
    requires forall k :: 0 <= k < |documents| && documents[k].ref == d ==> indegree[d] == |documents[k].dependencies|
    ensures Count(DependenciesOf(byRef), {}, [], indegree, d)
  {
    assert HasRef(documents, |documents|, d);
    var k :| 0 <= k < |documents| && documents[k].ref == d;
    assert EdgesChecked(byRef, documents[k]);
    DistinctSize(documents[k].dependencies);
    assert Elements(documents[k].dependencies) - {} == Elements(documents[k].dependencies);
  }

  lemma RecordedReverse(documents: seq<Document>, byRef: map<Ref, Document>, u: Ref, list: seq<Ref>)
    requires IndexOf(documents, |documents|, byRef)
    requires RecordedAt(documents, |documents|, 0, u, list)
    ensures ReversesAt(DependenciesOf(byRef), u, list)
  {
    var g := DependenciesOf(byRef);
    forall d | d in g && u in g[d]
      ensures d in list
    {
      assert HasRef(documents, |documents|, d);
      var k :| 0 <= k < |documents| && documents[k].ref == d;
      assert Depends(documents[k], u, d);
      assert Recorded(documents, |documents|, 0, u, d);
    }
    forall d | d in list
      ensures d in g && u in g[d]
    {
      assert Recorded(documents, |documents|, 0, u, d);
      var k :| 0 <= k < |documents| && Depends(documents[k], u, d);
    }
  }

  lemma RecordedCounts(documents: seq<Document>, byRef: map<Ref, Document>, indegree: map<Ref, int>)
    requires IndexOf(documents, |documents|, byRef) && AllChecked(documents, byRef)
    requires indegree.Keys == byRef.Keys
    requires forall k :: 0 <= k < |documents| ==> indegree[documents[k].ref] == |documents[k].dependencies|
    ensures Counts(DependenciesOf(byRef), {}, [], indegree)
  {
    var g := DependenciesOf(byRef);
    assert g.Keys == byRef.Keys;
    forall d | d in byRef
      ensures Count(g, {}, [], indegree, d)
    {
      RecordedCount(documents, byRef, indegree, d);
    }
  }

  lemma RecordedReverses(documents: seq<Document>, byRef: map<Ref, Document>, indegree: map<Ref, int>, dependents: map<Ref, seq<Ref>>)
    requires IndexOf(documents, |documents|, byRef)
    requires Recording(documents, |documents|, 0, byRef.Keys, indegree, dependents)
    ensures Reverses(DependenciesOf(byRef), dependents)
  {
    forall u | u in byRef
      ensures ReversesAt(DependenciesOf(byRef), u, dependents[u])
    {
      RecordedReverse(documents, byRef, u, dependents[u]);
    }
  }

  lemma RecordStart(documents: seq<Document>, byRef: map<Ref, Document>, indegree: map<Ref, int>, dependents: map<Ref, seq<Ref>>)
    requires IndexOf(documents, |documents|, byRef)
    requires indegree == map d | d in byRef :: 0
    requires dependents == map d | d in byRef :: []
    ensures Recording(documents, 0, 0, byRef.Keys, indegree, dependents)
  {
    forall u | u in byRef
      ensures RecordedAt(documents, 0, 0, u, dependents[u])
    {}
  }

  /** The first `j` edges of a document have passed. */
  ghost predicate EdgesSoFar(byRef: map<Ref, Document>, document: Document, j: nat, seen: set<Ref>, selected: set<Role>)
    requires j <= |document.dependencies|
  {
    var front := document.dependencies[..j];
    && Distinct(front)
    && seen == Elements(front)
    && (forall d :: d in front ==> EdgeChecked(document, byRef, d))
    && forall role :: role in selected <==> RoleSelected(byRef, front, role)
  }

  lemma EdgesStep(byRef: map<Ref, Document>, document: Document, j: nat, seen: set<Ref>, selected: set<Role>)
    requires j < |document.dependencies| && EdgesSoFar(byRef, document, j, seen, selected)
    requires document.dependencies[j] !in seen && EdgeChecked(document, byRef, document.dependencies[j])
    ensures var d := document.dependencies[j];
            EdgesSoFar(byRef, document, j + 1, seen + {d}, selected + {byRef[d].role})
    ensures document.dependencies[j] !in document.dependencies[..j]
  {
    SelectedStep(byRef, document.dependencies, j);
    assert document.dependencies[..j + 1] == document.dependencies[..j] + [document.dependencies[j]];
  }

  lemma EdgesEnd(byRef: map<Ref, Document>, document: Document, seen: set<Ref>, selected: set<Role>)
    requires EdgesSoFar(byRef, document, |document.dependencies|, seen, selected)
    ensures EdgesChecked(byRef, document) <==> RequiredDependencies(document.role) <= selected
  {
    assert document.dependencies[..|document.dependencies|] == document.dependencies;
  }

  /** The error of the first check that an edge fails. */
  function EdgeError(byRef: map<Ref, Document>, document: Document, d: Ref, seen: set<Ref>): (error: Option<GraphError>)
    ensures error.None? <==> d !in seen && EdgeChecked(document, byRef, d)
    ensures error != Some(CyclicGraph)
  {
    if d in seen then Some(RepeatedDependency)
    else if d == document.ref then Some(SelfDependency)
    else if d !in byRef then Some(UnknownDependency)
    else if byRef[d].role !in RoleDependencies(document.role) then Some(ForbiddenRole)
    else if byRef[d].publicationOrder >= document.publicationOrder then Some(OrderViolated)
    else None
  }

  lemma EdgeFails(byRef: map<Ref, Document>, document: Document, j: nat, seen: set<Ref>, selected: set<Role>)
    requires j < |document.dependencies| && EdgesSoFar(byRef, document, j, seen, selected)
    requires EdgeError(byRef, document, document.dependencies[j], seen).Some?
    ensures !EdgesChecked(byRef, document)
  {
    if document.dependencies[j] in seen {
      Repeated(document.dependencies, j);
    } else {
      assert document.dependencies[j] in document.dependencies;
    }
  }

  /** The inner loop: the edges of one document. */
  method RecordEdges(documents: seq<Document>, byRef: map<Ref, Document>, i: nat, counts: map<Ref, int>, lists: map<Ref, seq<Ref>>)
    returns (error: Option<GraphError>, indegree: map<Ref, int>, dependents: map<Ref, seq<Ref>>)
    requires Indexed(documents) && IndexOf(documents, |documents|, byRef) && i < |documents|
    requires Recording(documents, i, 0, byRef.Keys, counts, lists)
    ensures error.None? <==> EdgesChecked(byRef, documents[i])
    ensures error != Some(CyclicGraph)
    ensures error.None? ==> Recording(documents, i + 1, 0, byRef.Keys, indegree, dependents)
  {
    var document := documents[i];
    indegree, dependents := counts, lists;
    var seen: set<Ref>, selected: set<Role> := {}, {};
    for j := 0 to |document.dependencies|
      invariant Recording(documents, i, j, byRef.Keys, indegree, dependents)
      invariant EdgesSoFar(byRef, document, j, seen, selected)
    {
      var dependency := document.dependencies[j];
      error := EdgeError(byRef, document, dependency, seen);
      if error.Some? {
        EdgeFails(byRef, document, j, seen, selected);
        return;
      }
      EdgesStep(byRef, document, j, seen, selected);
      RecordStep(documents, i, j, byRef.Keys, indegree, dependents);
      seen := seen + {dependency};
      selected := selected + {byRef[dependency].role};
      indegree := indegree[document.ref := indegree[document.ref] + 1];
      dependents := dependents[dependency := dependents[dependency] + [document.ref]];
    }
    EdgesEnd(byRef, document, seen, selected);
    RecordNext(documents, i, byRef.Keys, indegree, dependents);
    error := if RequiredDependencies(document.role) <= selected then None else Some(MissingRole);
  }

  lemma Repeated(list: seq<Ref>, j: nat)
    requires j < |list| && list[j] in list[..j]
    ensures !Distinct(list)
  {
    var t :| 0 <= t < j && list[..j][t] == list[j];
    assert list[t] == list[j];
  }

  lemma SelectedStep(byRef: map<Ref, Document>, list: seq<Ref>, j: nat)
    requires j < |list| && list[j] in byRef
    ensures forall role :: RoleSelected(byRef, list[..j + 1], role) <==>
                           RoleSelected(byRef, list[..j], role) || role == byRef[list[j]].role
  {
    assert list[..j + 1] == list[..j] + [list[j]];
    forall role | RoleSelected(byRef, list[..j], role) || role == byRef[list[j]].role
      ensures RoleSelected(byRef, list[..j + 1], role)
    {
      if RoleSelected(byRef, list[..j], role) {
        var d :| d in list[..j] && d in byRef && byRef[d].role == role;
        assert d in list[..j + 1];
      } else {
        assert list[j] in list[..j + 1];
      }
    }
  }

  function Refs(documents: seq<Document>): (refs: seq<Ref>)
    ensures |refs| == |documents|
  {
    seq(|documents|, i requires 0 <= i < |documents| => documents[i].ref)
  }

  /** `_validate_dependency_graph` on a catalog that has been indexed: it passes
      exactly when every edge check does, and never gets as far as reporting a
      cycle. */
  method ValidateDependencyGraph(documents: seq<Document>, byRef: map<Ref, Document>) returns (error: Option<GraphError>)
    requires Indexed(documents) && IndexOf(documents, |documents|, byRef)
    ensures error.None? <==> AllChecked(documents, byRef)
    ensures error != Some(CyclicGraph)
  {
    var indegree := map d | d in byRef :: 0;
    var dependents: map<Ref, seq<Ref>> := map d | d in byRef :: [];
    RecordStart(documents, byRef, indegree, dependents);
    for i := 0 to |documents|
      invariant Recording(documents, i, 0, byRef.Keys, indegree, dependents)
      invariant forall k :: 0 <= k < i ==> EdgesChecked(byRef, documents[k])
    {
      error, indegree, dependents := RecordEdges(documents, byRef, i, indegree, dependents);
      if error.Some? {
        return;
      }
    }
    OrderedIsAcyclic(documents, byRef);
    RecordedCounts(documents, byRef, indegree);
    RecordedReverses(documents, byRef, indegree, dependents);
    RefsAreKeys(documents, byRef);
    var visited := VisitAll(DependencyMap(byRef), Refs(documents), indegree, dependents);
    error := if visited != |documents| then Some(CyclicGraph) else None;
  }

  function DependencyMap(byRef: map<Ref, Document>): (g: Graph<Ref>)
    ensures g == DependenciesOf(byRef)
  {
    map d | d in byRef :: set u | u in byRef[d].dependencies
  }

  lemma RefsAreKeys(documents: seq<Document>, byRef: map<Ref, Document>)
    requires Indexed(documents) && IndexOf(documents, |documents|, byRef)
    ensures Distinct(Refs(documents)) && Elements(Refs(documents)) == byRef.Keys
  {
    forall d | d in byRef
      ensures d in Refs(documents)
    {
      assert HasRef(documents, |documents|, d);
      var i :| 0 <= i < |documents| && documents[i].ref == d;
      assert Refs(documents)[i] == d;
    }
  }
}
