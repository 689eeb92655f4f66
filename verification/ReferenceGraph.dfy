/** Which components the public paths of a document reach, and the worklist that finds them. */
module ReferenceGraph {
  import opened Json
  import opened OpenApiReferences
  import opened Options

  function Component(document: Json, id: ComponentId): Json {
    Get(Get(Get(document, "components"), SectionKey(id.section)), id.name)
  }

  /** The references mentioned by the component that a reference denotes. */
  function Edges(document: Json, reference: string): set<string> {
    match ParseReference(reference)
    case Some(id) => Mentions(Component(document, id))
    case None => {}
  }

  /** A chain of references, each mentioned by the component of the one before. */
  ghost predicate Chain(document: Json, p: seq<string>) {
    |p| > 0 && forall i :: 0 <= i < |p| - 1 ==> p[i + 1] in Edges(document, p[i])
  }

  ghost predicate ReachableBy(document: Json, roots: set<string>, reference: string, p: seq<string>) {
    Chain(document, p) && p[0] in roots && p[|p| - 1] == reference
  }

  ghost predicate Reachable(document: Json, roots: set<string>, reference: string) {
    exists p :: ReachableBy(document, roots, reference, p)
  }

  /** A component the paths refer to, directly or through other components. */
  ghost predicate Referenced(document: Json, paths: Json, id: ComponentId) {
    SimpleName(id.name) && Reachable(document, Mentions(paths), Reference(id))
  }

  /** The reference denotes a component that mentions the next one. */
  ghost predicate LeadsTo(document: Json, reference: string, next: string) {
    exists id :: ParseReference(reference) == Some(id) && Mentioned(Component(document, id), next)
  }

  ghost predicate Leads(document: Json, paths: Json, id: ComponentId, p: seq<string>) {
    && |p| > 0 && Mentioned(paths, p[0]) && p[|p| - 1] == Reference(id)
    && forall i :: 0 <= i < |p| - 1 ==> LeadsTo(document, p[i], p[i + 1])
  }

  /** Being referred to, in terms of the parts of the document alone. */
  lemma ReferencedIff(document: Json, paths: Json, id: ComponentId)
    ensures Referenced(document, paths, id) <==> SimpleName(id.name) && exists p :: Leads(document, paths, id, p)
  {
    forall p: seq<string> | |p| > 0
      ensures ReachableBy(document, Mentions(paths), Reference(id), p) <==> Leads(document, paths, id, p)
    {
      LeadsIff(document, paths, id, p);
    }
  }

  lemma LeadsIff(document: Json, paths: Json, id: ComponentId, p: seq<string>)
    requires |p| > 0
    ensures ReachableBy(document, Mentions(paths), Reference(id), p) <==> Leads(document, paths, id, p)
  {
    MentionsIff(paths, p[0]);
    forall i | 0 <= i < |p| - 1 ensures p[i + 1] in Edges(document, p[i]) <==> LeadsTo(document, p[i], p[i + 1]) {
      EdgeIff(document, p[i], p[i + 1]);
    }
  }

  lemma EdgeIff(document: Json, reference: string, next: string)
    ensures next in Edges(document, reference) <==> LeadsTo(document, reference, next)
  {
    var found := ParseReference(reference);
    if found.Some? { MentionsIff(Component(document, found.value), next); }
  }

  lemma RootIsReachable(document: Json, roots: set<string>, reference: string)
    requires reference in roots
    ensures Reachable(document, roots, reference)
  {
    assert ReachableBy(document, roots, reference, [reference]);
  }

  lemma EdgeIsReachable(document: Json, roots: set<string>, reference: string, next: string)
    requires Reachable(document, roots, reference) && next in Edges(document, reference)
    ensures Reachable(document, roots, next)
  {
    var p :| ReachableBy(document, roots, reference, p);
    assert ReachableBy(document, roots, next, p + [next]);
  }

  lemma ChainPrefix(document: Json, p: seq<string>)
    requires Chain(document, p) && |p| > 1
    ensures Chain(document, p[..|p| - 1]) && p[|p| - 1] in Edges(document, p[|p| - 2])
  {
  }

  lemma ChainStep(document: Json, p: seq<string>)
    requires |p| > 1 && Chain(document, p[..|p| - 1]) && p[|p| - 1] in Edges(document, p[|p| - 2])
    ensures Chain(document, p)
  {
    var before := p[..|p| - 1];
    forall i | 0 <= i < |p| - 1 ensures p[i + 1] in Edges(document, p[i]) {
      if i < |p| - 2 { assert before[i] == p[i] && before[i + 1] == p[i + 1]; }
    }
  }

  /** A set that holds the roots and every edge out of itself holds all that is reachable. */
  lemma {:induction false} ReachableStaysInside(document: Json, roots: set<string>, s: set<string>, p: seq<string>)
    requires roots <= s && forall v :: v in s ==> Edges(document, v) <= s
    requires Chain(document, p) && p[0] in roots
    ensures p[|p| - 1] in s
  {
    if |p| > 1 {
      ReachableStaysInside(document, roots, s, p[..|p| - 1]);
      assert p[|p| - 1] in Edges(document, p[|p| - 2]);
    }
  }

  /** Everything that can ever become pending. */
  function AllMentions(document: Json, paths: Json): set<string> {
    Mentions(paths) + Mentions(Get(document, "components"))
  }

  lemma EdgesAreMentions(document: Json, paths: Json, reference: string)
    ensures Edges(document, reference) <= AllMentions(document, paths)
  {
    match ParseReference(reference)
    case Some(id) =>
      var components := Get(document, "components");
      MentionsOfMember(Get(components, SectionKey(id.section)), id.name);
      MentionsOfMember(components, SectionKey(id.section));
    case None =>
  }

  /** The component names to keep, per section. */
  type Names = map<Section, set<string>>

  /** The visited references, sorted into sections as component names. */
  ghost predicate Sorted(references: Names, visited: set<string>) {
    && AllSections(references)
    && forall id: ComponentId :: id.name in references[id.section] <==> Collected(visited, id)
  }

  ghost predicate Collected(visited: set<string>, id: ComponentId) {
    SimpleName(id.name) && Reference(id) in visited
  }

  ghost predicate AllSections(references: Names) { forall s: Section :: s in references }

  function EmptyReferences(): Names {
    map[
      Schemas := {}, Responses := {}, Parameters := {}, Examples := {}, RequestBodies := {}, Headers := {},
      SecuritySchemesSection := {}, Links := {}, Callbacks := {}
    ]
  }

  lemma EmptyReferencesAreSorted()
    ensures Sorted(EmptyReferences(), {})
  {
    forall s: Section ensures s in EmptyReferences() && EmptyReferences()[s] == {} {
      assert s == Schemas || s == Responses || s == Parameters || s == Examples || s == RequestBodies
        || s == Headers || s == SecuritySchemesSection || s == Links || s == Callbacks;
    }
  }

  /** The worklist so far: it holds the roots and every edge out of a visited reference, and
      nothing unreachable. */
  ghost predicate Exploring(document: Json, paths: Json, visited: set<string>, pending: set<string>) {
    && Mentions(paths) <= visited + pending <= AllMentions(document, paths)
    && (forall r :: r in visited + pending ==> Reachable(document, Mentions(paths), r))
    && (forall v :: v in visited ==> Edges(document, v) <= visited + pending)
  }

  lemma ExploringStarts(document: Json, paths: Json)
    ensures Exploring(document, paths, {}, Mentions(paths))
  {
    forall r | r in Mentions(paths) ensures Reachable(document, Mentions(paths), r) {
      RootIsReachable(document, Mentions(paths), r);
    }
  }

  lemma ExploringSkips(document: Json, paths: Json, visited: set<string>, pending: set<string>, reference: string)
    requires Exploring(document, paths, visited, pending) && reference in pending && reference in visited
    ensures Exploring(document, paths, visited, pending - {reference})
  {
    assert visited + (pending - {reference}) == visited + pending;
  }

  lemma ExploringVisits(document: Json, paths: Json, visited: set<string>, pending: set<string>, reference: string)
    requires Exploring(document, paths, visited, pending) && reference in pending
    ensures Exploring(document, paths, visited + {reference}, pending - {reference} + Edges(document, reference))
  {
    var edges := Edges(document, reference);
    assert visited + {reference} + (pending - {reference} + edges) == visited + pending + edges;
    EdgesAreMentions(document, paths, reference);
    forall r | r in Edges(document, reference) ensures Reachable(document, Mentions(paths), r) {
      EdgeIsReachable(document, Mentions(paths), reference, r);
    }
  }

  lemma ExploringEnds(document: Json, paths: Json, visited: set<string>)
    requires Exploring(document, paths, visited, {})
    ensures forall r :: r in visited <==> Reachable(document, Mentions(paths), r)
  {
    forall r | Reachable(document, Mentions(paths), r) ensures r in visited {
      var p :| ReachableBy(document, Mentions(paths), r, p);
      ReachableStaysInside(document, Mentions(paths), visited, p);
    }
  }

  /** The sections after one more reference has been visited. */
  function WithReference(references: Names, reference: string): Names
    requires AllSections(references)
  {
    match ParseReference(reference)
    case Some(id) => references[id.section := references[id.section] + {id.name}]
    case None => references
  }

  lemma SortedAfterVisit(references: Names, visited: set<string>, reference: string)
    requires Sorted(references, visited)
    ensures Sorted(WithReference(references, reference), visited + {reference})
  {
    forall id ensures Collected(visited + {reference}, id)
                      <==> Collected(visited, id) || ParseReference(reference) == Some(id)
    {
      ParseInvertsReference(reference, id);
    }
  }

  /** One visit: notes the component the reference denotes and collects what that mentions. */
  method VisitReference(document: Json, reference: string, names: Names, pending: StringSet)
    returns (references: Names)
    requires AllSections(names)
    modifies pending
    ensures pending.items == old(pending.items) + Edges(document, reference)
    ensures references == WithReference(names, reference)
  {
    references := names;
    var found := ParseReference(reference);
    if found == None { return; }
    var id := found.value;
    references := references[id.section := references[id.section] + {id.name}];
    var component := Component(document, id);
    CollectReferences(component, pending);
    CollectSecuritySchemes(component, pending);
  }

  /** The worklist closure: whatever order references are taken in, the names collected per
      section are exactly those of the referenced components. */
  method ReferencedComponents(document: Json, paths: Json) returns (references: Names)
    ensures AreReferencedNames(document, paths, references)
    ensures forall id: ComponentId ::
              id.name in references[id.section]
              <==> SimpleName(id.name) && exists p :: Leads(document, paths, id, p)
  {
    references := EmptyReferences();
    var pending := new StringSet();
    var visited := new StringSet();
    CollectReferences(paths, pending);
    CollectSecuritySchemes(paths, pending);
    ExploringStarts(document, paths);
    EmptyReferencesAreSorted();
    while pending.items != {}
      invariant pending != visited && fresh(pending) && fresh(visited)
      invariant Exploring(document, paths, visited.items, pending.items)
      invariant Sorted(references, visited.items)
      decreases AllMentions(document, paths) - visited.items, pending.items
    {
      var reference :| reference in pending.items;
      ghost var all := pending.items;
      pending.Delete(reference);
      if reference in visited.items {
        ExploringSkips(document, paths, visited.items, all, reference);
        continue;
      }
      ExploringVisits(document, paths, visited.items, all, reference);
      SortedAfterVisit(references, visited.items, reference);
      visited.Add(reference);
      references := VisitReference(document, reference, references, pending);
    }
    ExploringEnds(document, paths, visited.items);
    forall id: ComponentId
      ensures Referenced(document, paths, id) <==> SimpleName(id.name) && exists p :: Leads(document, paths, id, p)
    {
      ReferencedIff(document, paths, id);
    }
  }

  // ---------- the names as a function of the document ----------

  ghost predicate AreReferencedNames(document: Json, paths: Json, names: Names) {
    && AllSections(names)
    && forall id: ComponentId :: id.name in names[id.section] <==> Referenced(document, paths, id)
  }

  /** The names of the referenced components, per section. */
  ghost function ReferencedNames(document: Json, paths: Json): (names: Names)
    ensures AreReferencedNames(document, paths, names)
  {
    var reached := set r | r in AllMentions(document, paths) && Reachable(document, Mentions(paths), r);
    assert Exploring(document, paths, reached, {}) by { ReachedIsExplored(document, paths, reached); }
    ExploringEnds(document, paths, reached);
    NamesOfExist(reached);
    var names :| Sorted(names, reached);
    names
  }

  lemma ReachedIsExplored(document: Json, paths: Json, reached: set<string>)
    requires reached == set r | r in AllMentions(document, paths) && Reachable(document, Mentions(paths), r)
    ensures Exploring(document, paths, reached, {})
  {
    forall r | r in Mentions(paths) ensures r in reached {
      RootIsReachable(document, Mentions(paths), r);
    }
    forall v, r | v in reached && r in Edges(document, v) ensures r in reached {
      EdgesAreMentions(document, paths, v);
      EdgeIsReachable(document, Mentions(paths), v, r);
    }
    assert reached + {} == reached;
  }

  lemma {:induction false} NamesOfExist(references: set<string>)
    ensures exists names :: Sorted(names, references)
  {
    if references == {} {
      EmptyReferencesAreSorted();
    } else {
      var r :| r in references;
      NamesOfExist(references - {r});
      var names :| Sorted(names, references - {r});
      SortedAfterVisit(names, references - {r}, r);
      assert references - {r} + {r} == references;
    }
  }

  lemma NamesAreUnique(document: Json, paths: Json, names: Names)
    requires AreReferencedNames(document, paths, names)
    ensures names == ReferencedNames(document, paths)
  {
    var other := ReferencedNames(document, paths);
    forall s: Section ensures s in names && s in other && names[s] == other[s] {
      forall n ensures n in names[s] <==> n in other[s] {
        assert ComponentId(s, n).name == n;
      }
    }
  }
}
