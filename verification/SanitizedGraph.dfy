/** What is reached from the public paths of a document when the server objects inside its
    components are ignored. */
module SanitizedGraph {
  import opened Json
  import opened OpenApiReferences
  import opened Options
  import opened ReferenceGraph
  import opened OpenApiSanitizer
  import opened SanitizedMentions

  function SanitizeComponent(section: Section, component: Json): Json {
    match section
    case Responses => SanitizeResponse(component)
    case Callbacks => SanitizeCallback(component)
    case Links => SanitizeLink(component)
    case _ => component
  }

  /** No server object inside the component mentions anything. */
  predicate QuietComponent(section: Section, component: Json) {
    match section
    case Responses => QuietResponse(component)
    case Callbacks => QuietCallback(component)
    case Links => QuietLink(component)
    case _ => true
  }

  lemma ComponentMentions(section: Section, component: Json)
    ensures Mentions(SanitizeComponent(section, component)) <= Mentions(component)
    ensures QuietComponent(section, component) ==>
              Mentions(component) <= Mentions(SanitizeComponent(section, component))
  {
    match section
    case Responses => ResponseMentions(component);
    case Callbacks => CallbackMentions(component);
    case Links => LinkMentions(component);
    case _ =>
  }

  /** The references that the component of a reference mentions outside of server objects. */
  function SanitizedEdges(document: Json, reference: string): set<string> {
    match ParseReference(reference)
    case Some(id) => Mentions(SanitizeComponent(id.section, Component(document, id)))
    case None => {}
  }

  lemma SanitizedEdgesAreEdges(document: Json, reference: string)
    ensures SanitizedEdges(document, reference) <= Edges(document, reference)
  {
    var found := ParseReference(reference);
    if found.Some? { ComponentMentions(found.value.section, Component(document, found.value)); }
  }

  ghost predicate SanitizedChain(document: Json, p: seq<string>) {
    |p| > 0 && forall i :: 0 <= i < |p| - 1 ==> p[i + 1] in SanitizedEdges(document, p[i])
  }

  ghost predicate ReachableOutsideServersBy(document: Json, roots: set<string>, reference: string, p: seq<string>) {
    SanitizedChain(document, p) && p[0] in roots && p[|p| - 1] == reference
  }

  ghost predicate ReachableOutsideServers(document: Json, roots: set<string>, reference: string) {
    exists p :: ReachableOutsideServersBy(document, roots, reference, p)
  }

  /** A component that the paths refer to by a chain that passes no server object. */
  ghost predicate ReferencedOutsideServers(document: Json, paths: Json, id: ComponentId) {
    SimpleName(id.name) && ReachableOutsideServers(document, Mentions(paths), Reference(id))
  }

  /** Such a chain stays within what has no way out. */
  lemma {:induction false} SanitizedChainStaysInside(document: Json, s: set<string>, p: seq<string>)
    requires SanitizedChain(document, p) && p[0] in s
    requires forall v :: v in s ==> SanitizedEdges(document, v) <= s
    ensures p[|p| - 1] in s
  {
    if |p| > 1 {
      SanitizedChainStaysInside(document, s, p[..|p| - 1]);
      assert p[|p| - 1] in SanitizedEdges(document, p[|p| - 2]);
    }
  }

  lemma SanitizedChainPrefix(document: Json, p: seq<string>)
    requires SanitizedChain(document, p) && |p| > 1
    ensures SanitizedChain(document, p[..|p| - 1]) && p[|p| - 1] in SanitizedEdges(document, p[|p| - 2])
  {
  }

  lemma SanitizedChainStep(document: Json, p: seq<string>)
    requires |p| > 1 && SanitizedChain(document, p[..|p| - 1])
    requires p[|p| - 1] in SanitizedEdges(document, p[|p| - 2])
    ensures SanitizedChain(document, p)
  {
    var before := p[..|p| - 1];
    forall i | 0 <= i < |p| - 1 ensures p[i + 1] in SanitizedEdges(document, p[i]) {
      assert i < |p| - 2 ==> before[i + 1] in SanitizedEdges(document, before[i]);
    }
  }

  lemma {:induction false} SanitizedChainIsChain(document: Json, p: seq<string>)
    requires SanitizedChain(document, p)
    ensures Chain(document, p)
  {
    forall i | 0 <= i < |p| - 1 ensures p[i + 1] in Edges(document, p[i]) {
      SanitizedEdgesAreEdges(document, p[i]);
    }
  }
}
