/** What the projected document promises: exactly the referenced components are kept, and
    projecting again changes nothing unless a server object held the only reference to one. */
module PublicContract {
  import opened Json
  import opened OpenApiReferences
  import opened Options
  import opened ReferenceGraph
  import opened SanitizedGraph
  import opened OpenApiSanitizer
  import opened SanitizedMentions
  import opened PublicOpenApi

  /** The document has a component of this section and name. */
  predicate HasComponent(document: Json, id: ComponentId) { Has(ComponentSection(document, id.section), id.name) }

  ghost function PathsOf(document: Json): Json { PublicPaths(Get(document, "paths")) }

  // ---------- reading the projected document ----------

  lemma AssembledMembers(document: Json, paths: Json, components: Json)
    ensures var p := Assemble(document, paths, components);
            && Get(p, "openapi") == Get(document, "openapi")
            && Get(p, "info") == PublicInfo(Get(document, "info"))
            && Get(p, "paths") == paths
            && Get(p, "components") == components
            && Get(p, "tags") == PublicTags(Get(document, "tags"), TagsOf(paths))
  {
  }

  lemma ProjectionMembers(document: Json)
    ensures var p := Projection(document);
            && Get(p, "openapi") == Get(document, "openapi")
            && Get(p, "info") == PublicInfo(Get(document, "info"))
            && Get(p, "paths") == PathsOf(document)
            && Get(p, "components") == PublicComponents(document, ReferencedNames(document, PathsOf(document)))
            && Get(p, "tags") == PublicTags(Get(document, "tags"), TagsOf(PathsOf(document)))
  {
    var paths := PathsOf(document);
    AssembledMembers(document, paths, PublicComponents(document, ReferencedNames(document, paths)));
  }

  lemma ProjectedSection(document: Json, references: Names, section: Section)
    requires AllSections(references)
    ensures Get(PublicComponents(document, references), SectionKey(section))
            == PublicSection(document, references, section)
  {
    SectionOfKey(section);
    assert SectionKey(section) in SectionKeys();
    assert SectionKey(section) in PublicSections(document, references, SectionKeys());
  }

  lemma ProjectionSection(document: Json, section: Section)
    ensures ComponentSection(Projection(document), section)
            == PublicSection(document, ReferencedNames(document, PathsOf(document)), section)
  {
    ProjectionMembers(document);
    ProjectedSection(document, ReferencedNames(document, PathsOf(document)), section);
  }

  lemma SanitizedSection(section: Section, source: Json, names: set<string>, name: string)
    ensures var kept := SanitizeSection(section, PickReferenced(source, names));
            && (Has(kept, name) <==> Has(source, name) && name in names)
            && (Has(kept, name) ==> kept.fields[name] == SanitizeComponent(section, source.fields[name]))
  {
    if Has(source, name) && name in names {
      assert name in Picked(source, names);
    }
  }

  // ---------- closed and minimal ----------

  /** A component is kept exactly when the source has it and the public paths reach it; it is
      kept as it was, but for its server objects. */
  lemma ComponentKeptIff(document: Json, id: ComponentId)
    ensures HasComponent(Projection(document), id)
            <==> HasComponent(document, id) && Referenced(document, PathsOf(document), id)
    ensures HasComponent(Projection(document), id) ==>
              Component(Projection(document), id) == SanitizeComponent(id.section, Component(document, id))
  {
    var references := ReferencedNames(document, PathsOf(document));
    ProjectionSection(document, id.section);
    SanitizedSection(id.section, ComponentSection(document, id.section), references[id.section], id.name);
  }

  /** What the document uses: what its paths mention, or a component of it. */
  ghost predicate UsedBy(document: Json, reference: string) {
    || reference in Mentions(Get(document, "paths"))
    || exists id :: HasComponent(document, id) && reference in Mentions(Component(document, id))
  }

  /** The projected document has every component it uses and the source has. */
  lemma ProjectionIsClosed(document: Json, reference: string, id: ComponentId)
    requires UsedBy(Projection(document), reference)
    requires ParseReference(reference) == Some(id) && HasComponent(document, id)
    ensures HasComponent(Projection(document), id)
  {
    var roots := Mentions(PathsOf(document));
    ProjectionMembers(document);
    if reference in roots {
      RootIsReachable(document, roots, reference);
    } else {
      var user :| HasComponent(Projection(document), user)
                  && reference in Mentions(Component(Projection(document), user));
      ComponentKeptIff(document, user);
      ComponentMentions(user.section, Component(document, user));
      ParseInvertsReference(Reference(user), user);
      EdgeIsReachable(document, roots, Reference(user), reference);
    }
    ParseInvertsReference(reference, id);
    ComponentKeptIff(document, id);
  }

  /** What the information and the tags of a projected document mention; nobody follows that. */
  ghost function MetadataMentions(document: Json): set<string> {
    Mentions(Get(document, "openapi")) + Mentions(Get(document, "info")) + Mentions(Get(document, "tags"))
  }

  ghost function KeptMetadataMentions(document: Json): set<string> {
    Mentions(Get(document, "openapi")) + Mentions(PublicInfo(Get(document, "info")))
    + Mentions(PublicTags(Get(document, "tags"), TagsOf(PathsOf(document))))
  }

  /** Nothing is left dangling: whatever component of the source it mentions anywhere, it has. */
  ghost predicate NothingDangles(document: Json) {
    var p := Projection(document);
    forall reference, id ::
      (UsedBy(p, reference) || reference in MetadataMentions(p)) && DenotesComponent(document, reference, id) ==>
        HasComponent(p, id)
  }

  ghost predicate DenotesComponent(document: Json, reference: string, id: ComponentId) {
    ParseReference(reference) == Some(id) && HasComponent(document, id)
  }

  /** The information and tags kept mention no component of the source but those that the
      public paths refer to. */
  ghost predicate MetadataAddsNothing(document: Json) {
    forall reference, id ::
      reference in KeptMetadataMentions(document) && DenotesComponent(document, reference, id) ==>
        Referenced(document, PathsOf(document), id)
  }

  /** Nothing dangles exactly then. */
  lemma NothingDanglesIff(document: Json)
    ensures NothingDangles(document) <==> MetadataAddsNothing(document)
  {
    MetadataOfProjection(document);
    forall reference, id | DenotesComponent(document, reference, id)
      ensures HasComponent(Projection(document), id) <==> Referenced(document, PathsOf(document), id)
      ensures UsedBy(Projection(document), reference) ==> HasComponent(Projection(document), id)
    {
      UsedIsKept(document, reference, id);
    }
  }

  lemma UsedIsKept(document: Json, reference: string, id: ComponentId)
    requires DenotesComponent(document, reference, id)
    ensures HasComponent(Projection(document), id) <==> Referenced(document, PathsOf(document), id)
    ensures UsedBy(Projection(document), reference) ==> HasComponent(Projection(document), id)
  {
    ComponentKeptIff(document, id);
    if UsedBy(Projection(document), reference) { ProjectionIsClosed(document, reference, id); }
  }

  lemma MetadataOfProjection(document: Json)
    ensures MetadataMentions(Projection(document)) == KeptMetadataMentions(document)
  {
    ProjectionMembers(document);
  }

  /** A security scheme required by a public operation is kept exactly when the source has it
      and its name is one the reference pattern accepts. */
  lemma RequiredSchemeKeptIff(document: Json, name: string)
    requires SchemeReference(name) in Mentions(PathsOf(document))
    ensures HasComponent(Projection(document), ComponentId(SecuritySchemesSection, name))
            <==> HasComponent(document, ComponentId(SecuritySchemesSection, name)) && SimpleName(name)
  {
    var id := ComponentId(SecuritySchemesSection, name);
    SchemeReferenceIs(name);
    RootIsReachable(document, Mentions(PathsOf(document)), Reference(id));
    ComponentKeptIff(document, id);
  }

  lemma SchemeReferenceIs(name: string)
    ensures Reference(ComponentId(SecuritySchemesSection, name)) == SchemeReference(name)
  {
    assert PREFIX + "securitySchemes" + "/" == "#/components/securitySchemes/";
  }

  // ---------- no server anywhere ----------

  predicate CleanComponent(section: Section, component: Json) {
    match section
    case Responses => CleanResponse(component)
    case Callbacks => CleanCallback(component)
    case Links => CleanLink(component)
    case _ => true
  }

  lemma SanitizedComponentIsClean(section: Section, component: Json)
    ensures CleanComponent(section, SanitizeComponent(section, component))
  {
    if section == Callbacks { SanitizedCallbackIsClean(component); }
  }

  lemma PublicOperationIsClean(operation: Json)
    ensures CleanOperation(PublicOperation(operation))
  {
    SanitizedOperationIsClean(operation);
  }

  lemma PublicMethodIsClean(path: Json, m: string)
    requires m in METHODS
    ensures CleanOperation(Get(PublicPath(path), m))
  {
    PublicPathMember(path, m);
    PublicOperationIsClean(Get(path, m));
  }

  lemma CleanByMember(path: Json)
    requires Get(path, "servers") == Undefined && forall m :: m in METHODS ==> CleanOperation(Get(path, m))
    ensures CleanPath(path)
  {
  }

  lemma NoServersInPublicPath(path: Json)
    ensures Get(PublicPath(path), "servers") == Undefined
  {
    PublicPathMember(path, "servers");
  }

  lemma PublicPathIsClean(path: Json)
    ensures CleanPath(PublicPath(path))
  {
    NoServersInPublicPath(path);
    forall m | m in METHODS ensures CleanOperation(Get(PublicPath(path), m)) {
      PublicMethodIsClean(path, m);
    }
    CleanByMember(PublicPath(path));
  }

  lemma PublicPathsAreClean(paths: Json)
    ensures forall route :: route in PublicPaths(paths).fields ==> CleanPath(PublicPaths(paths).fields[route])
  {
    forall route | route in PublicPaths(paths).fields ensures CleanPath(PublicPaths(paths).fields[route]) {
      PublicPathIsClean(Fields(paths)[route]);
    }
  }

  lemma KeptComponentIsClean(document: Json, id: ComponentId)
    requires HasComponent(Projection(document), id)
    ensures CleanComponent(id.section, Component(Projection(document), id))
  {
    ComponentKeptIff(document, id);
    SanitizedComponentIsClean(id.section, Component(document, id));
  }

  /** No server is left in the projected document, in its paths or in its components, at any
      depth of operations, callbacks, responses and links. */
  lemma ProjectionIsClean(document: Json)
    ensures Get(Projection(document), "servers") == Undefined
    ensures var paths := Get(Projection(document), "paths");
            paths.Obj? && forall route :: route in paths.fields ==> CleanPath(paths.fields[route])
    ensures forall id :: HasComponent(Projection(document), id) ==>
              CleanComponent(id.section, Component(Projection(document), id))
  {
    NoServersInProjection(document);
    ProjectedPathsAreClean(document);
    forall id | HasComponent(Projection(document), id)
      ensures CleanComponent(id.section, Component(Projection(document), id))
    {
      KeptComponentIsClean(document, id);
    }
  }

  lemma NoServersInProjection(document: Json)
    ensures Get(Projection(document), "servers") == Undefined
  {
  }

  lemma ProjectedPathsAreClean(document: Json)
    ensures var paths := Get(Projection(document), "paths");
            paths.Obj? && forall route :: route in paths.fields ==> CleanPath(paths.fields[route])
  {
    ProjectionMembers(document);
    PublicPathsAreClean(Get(document, "paths"));
  }

  // ---------- projecting twice ----------

  lemma PublicOperationIdempotent(operation: Json)
    ensures PublicOperation(PublicOperation(operation)) == PublicOperation(operation)
    ensures IsPublic(PublicOperation(operation)) <==> IsPublic(operation)
    ensures !LacksSecurity(operation) ==> !LacksSecurity(PublicOperation(operation))
  {
    if IsPublic(operation) {
      OperationIdempotent(operation);
      OperationMember(operation, "x-api-audience");
      OperationMember(operation, "security");
    }
  }

  lemma PublicPathMember(path: Json, key: string)
    ensures Get(PublicPath(path), key)
            == if key in METHODS then PublicOperation(Get(path, key))
               else if key == "summary" || key == "description" || key == "parameters" then Get(path, key)
               else Undefined
    ensures key in METHODS ==> key != "summary" && key != "description" && key != "parameters"
  {
  }

  lemma PublicPathIdempotent(path: Json)
    ensures PublicPath(PublicPath(path)) == PublicPath(path)
    ensures HasPublicOperation(PublicPath(path)) <==> HasPublicOperation(path)
    ensures PathSecured(path) ==> PathSecured(PublicPath(path))
  {
    var once := PublicPath(path);
    forall m | m in METHODS
      ensures PublicOperation(Get(once, m)) == PublicOperation(Get(path, m))
      ensures IsPublic(Get(once, m)) <==> IsPublic(Get(path, m))
      ensures !LacksSecurity(Get(path, m)) ==> !LacksSecurity(Get(once, m))
    {
      PublicPathMember(path, m);
      PublicOperationIdempotent(Get(path, m));
    }
    PublicPathMember(path, "summary");
    PublicPathMember(path, "description");
    PublicPathMember(path, "parameters");
    assert PublicOperations(once, METHODS) == PublicOperations(path, METHODS);
    if HasPublicOperation(path) {
      var m :| m in METHODS && IsPublic(Get(path, m));
      assert IsPublic(Get(once, m));
    }
  }

  lemma PublicPathsIdempotent(paths: Json)
    ensures PublicPaths(PublicPaths(paths)) == PublicPaths(paths)
    ensures AllSecured(paths) ==> AllSecured(PublicPaths(paths))
  {
    var once := PublicPaths(paths);
    forall route | route in once.fields
      ensures route in PublicPaths(once).fields && PublicPaths(once).fields[route] == once.fields[route]
      ensures AllSecured(paths) ==> PathSecured(once.fields[route])
    {
      RouteIdempotent(paths, route);
    }
    assert PublicPaths(once).fields == once.fields;
  }

  lemma RouteIdempotent(paths: Json, route: string)
    requires route in PublicPaths(paths).fields
    ensures var once := PublicPaths(paths);
            && route in PublicPaths(once).fields && PublicPaths(once).fields[route] == once.fields[route]
            && (AllSecured(paths) ==> PathSecured(once.fields[route]))
  {
    var once := PublicPaths(paths);
    var path := Fields(paths)[route];
    assert once.fields[route] == PublicPath(path);
    PublicPathIdempotent(path);
  }

  lemma {:induction false} KeepTagsIdempotent(tags: seq<Json>, names: set<Json>)
    ensures KeepTags(KeepTags(tags, names), names) == KeepTags(tags, names)
  {
    if tags != [] {
      KeepTagsIdempotent(tags[1..], names);
      var rest := KeepTags(tags[1..], names);
      if Get(tags[0], "name") in names {
        assert ([tags[0]] + rest)[1..] == rest;
        assert KeepTags(tags, names) == [tags[0]] + rest;
      } else {
        assert KeepTags(tags, names) == rest;
      }
    }
  }

  lemma InfoIdempotent(info: Json)
    ensures PublicInfo(PublicInfo(info)) == PublicInfo(info)
  {
  }

  /** Every component the public paths refer to is also referred to outside of server objects. */
  ghost predicate NoneOnlyInServers(document: Json) {
    forall id :: HasComponent(document, id) && Referenced(document, PathsOf(document), id) ==>
      ReferencedOutsideServers(document, PathsOf(document), id)
  }

  /** Projecting the projection gives it back exactly when no component of the document is
      referred to in server objects only. */
  lemma ProjectionIdempotentIff(document: Json)
    ensures Projection(Projection(document)) == Projection(document) <==> NoneOnlyInServers(document)
  {
    var once := Projection(document);
    var twice := Projection(once);
    var paths := PathsOf(document);
    SelfContainedIff(document);
    ProjectionMembers(document);
    ProjectionMembers(once);
    PublicPathsIdempotent(Get(document, "paths"));
    if twice == once {
      forall id | HasComponent(once, id) ensures Referenced(once, paths, id) {
        ComponentKeptIff(once, id);
      }
    }
    if SelfContained(document) {
      InfoIdempotent(Get(document, "info"));
      ComponentsTwice(document);
      if Get(document, "tags").Arr? {
        KeepTagsIdempotent(Get(document, "tags").items, TagsOf(paths));
      }
    }
  }

  // ---------- what the projection itself reaches ----------

  /** Every component the projection keeps is reached within the projection itself. */
  ghost predicate SelfContained(document: Json) {
    var p := Projection(document);
    forall id :: HasComponent(p, id) ==> Referenced(p, PathsOf(document), id)
  }

  lemma SelfContainedIff(document: Json)
    ensures SelfContained(document) <==> NoneOnlyInServers(document)
  {
    forall id ensures Referenced(Projection(document), PathsOf(document), id)
                      <==> ReferencedOutsideServers(document, PathsOf(document), id)
    {
      ReachedInProjectionIff(document, Reference(id));
    }
    forall id ensures HasComponent(Projection(document), id)
                      <==> HasComponent(document, id) && Referenced(document, PathsOf(document), id)
    {
      ComponentKeptIff(document, id);
    }
  }

  /** The projection reaches what the document reaches outside of server objects. */
  lemma ReachedInProjectionIff(document: Json, reference: string)
    ensures Reachable(Projection(document), Mentions(PathsOf(document)), reference)
            <==> ReachableOutsideServers(document, Mentions(PathsOf(document)), reference)
  {
    var once, roots := Projection(document), Mentions(PathsOf(document));
    if Reachable(once, roots, reference) {
      var p :| ReachableBy(once, roots, reference, p);
      ChainOfProjection(document, p);
      assert ReachableOutsideServersBy(document, roots, reference, p);
    }
    if ReachableOutsideServers(document, roots, reference) {
      var p :| ReachableOutsideServersBy(document, roots, reference, p);
      ChainInProjection(document, p);
      assert ReachableBy(once, roots, reference, p);
    }
  }

  lemma {:induction false} ChainOfProjection(document: Json, p: seq<string>)
    requires Chain(Projection(document), p) && p[0] in Mentions(PathsOf(document))
    ensures SanitizedChain(document, p)
  {
    if |p| > 1 {
      ChainPrefix(Projection(document), p);
      ChainOfProjection(document, p[..|p| - 1]);
      SanitizedChainReaches(document, p[..|p| - 1]);
      ProjectedEdges(document, p[|p| - 2]);
      SanitizedChainStep(document, p);
    }
  }

  lemma {:induction false} ChainInProjection(document: Json, p: seq<string>)
    requires SanitizedChain(document, p) && p[0] in Mentions(PathsOf(document))
    ensures Chain(Projection(document), p)
  {
    if |p| > 1 {
      SanitizedChainPrefix(document, p);
      ChainInProjection(document, p[..|p| - 1]);
      SanitizedChainReaches(document, p[..|p| - 1]);
      ProjectedEdges(document, p[|p| - 2]);
      ChainStep(Projection(document), p);
    }
  }

  lemma SanitizedChainReaches(document: Json, p: seq<string>)
    requires SanitizedChain(document, p) && p[0] in Mentions(PathsOf(document))
    ensures Reachable(document, Mentions(PathsOf(document)), p[|p| - 1])
  {
    SanitizedChainIsChain(document, p);
    assert ReachableBy(document, Mentions(PathsOf(document)), p[|p| - 1], p);
  }

  /** A reference the document reaches has in the projection what it has outside of server objects. */
  lemma ProjectedEdges(document: Json, reference: string)
    requires Reachable(document, Mentions(PathsOf(document)), reference)
    ensures Edges(Projection(document), reference) == SanitizedEdges(document, reference)
  {
    var found := ParseReference(reference);
    if found.Some? {
      var id := found.value;
      ParseInvertsReference(reference, id);
      ComponentKeptIff(document, id);
      AbsentIsUndefined(document, id);
      AbsentIsUndefined(Projection(document), id);
    }
  }

  lemma AbsentIsUndefined(document: Json, id: ComponentId)
    ensures !HasComponent(document, id) ==>
              Component(document, id) == Undefined && Mentions(SanitizeComponent(id.section, Undefined)) == {}
    ensures Mentions(Undefined) == {}
  {
  }

  lemma ComponentsTwice(document: Json)
    requires SelfContained(document)
    ensures var once := Projection(document);
            PublicComponents(once, ReferencedNames(once, PathsOf(document))) == Get(once, "components")
  {
    var once := Projection(document);
    var paths := PathsOf(document);
    var first, second := ReferencedNames(document, paths), ReferencedNames(once, paths);
    ProjectionMembers(document);
    forall section: Section
      ensures PublicSection(once, second, section) == PublicSection(document, first, section)
    {
      SectionTwice(document, section);
    }
    SameSections(once, second, document, first);
  }

  lemma SameSections(document: Json, names: Names, other: Json, otherNames: Names)
    requires AllSections(names) && AllSections(otherNames)
    requires forall section: Section ::
               PublicSection(document, names, section) == PublicSection(other, otherNames, section)
    ensures PublicComponents(document, names) == PublicComponents(other, otherNames)
  {
    SameSectionMaps(document, names, other, otherNames, SectionKeys());
  }

  lemma SameSectionMaps(document: Json, names: Names, other: Json, otherNames: Names, keys: set<string>)
    requires AllSections(names) && AllSections(otherNames)
    requires forall section: Section ::
               PublicSection(document, names, section) == PublicSection(other, otherNames, section)
    ensures PublicSections(document, names, keys) == PublicSections(other, otherNames, keys)
  {
  }

  lemma SectionTwice(document: Json, section: Section)
    requires SelfContained(document)
    ensures var once := Projection(document);
            PublicSection(once, ReferencedNames(once, PathsOf(document)), section)
            == PublicSection(document, ReferencedNames(document, PathsOf(document)), section)
  {
    var once := Projection(document);
    var paths := PathsOf(document);
    var first, second := ReferencedNames(document, paths), ReferencedNames(once, paths);
    ProjectionSection(document, section);
    var picked := PickReferenced(ComponentSection(document, section), first[section]);
    var kept := SanitizeSection(section, picked);
    assert ComponentSection(once, section) == kept;
    forall n | n in Fields(kept) ensures n in second[section] {
      assert HasComponent(once, ComponentId(section, n));
    }
    PickedAgain(section, picked, second[section]);
  }

  lemma PickedAgain(section: Section, picked: Json, names: set<string>)
    requires picked.Undefined? || (picked.Obj? && picked.fields != map[])
    requires forall n :: n in Fields(SanitizeSection(section, picked)) ==> n in names
    ensures SanitizeSection(section, PickReferenced(SanitizeSection(section, picked), names))
            == SanitizeSection(section, picked)
  {
    var kept := SanitizeSection(section, picked);
    assert Picked(kept, names) == Fields(kept);
    SanitizeSectionIdempotent(section, picked);
    if picked.Obj? {
      var n :| n in picked.fields;
      assert n in kept.fields;
    }
  }

  lemma SanitizeSectionIdempotent(section: Section, picked: Json)
    ensures SanitizeSection(section, SanitizeSection(section, picked)) == SanitizeSection(section, picked)
  {
    ResponsesIdempotent(picked);
    CallbacksIdempotent(picked);
    LinksIdempotent(picked);
  }

  // ---------- documents whose server objects mention nothing ----------

  /** No server object inside a component that the paths refer to holds a reference or a
      security requirement. */
  ghost predicate QuietComponents(document: Json) {
    forall id :: HasComponent(document, id) && Referenced(document, PathsOf(document), id) ==>
      QuietComponent(id.section, Component(document, id))
  }

  /** Then projecting twice is projecting once. */
  lemma QuietProjectionIdempotent(document: Json)
    requires QuietComponents(document)
    ensures Projection(Projection(document)) == Projection(document)
  {
    var roots := Mentions(PathsOf(document));
    forall id | Referenced(document, PathsOf(document), id)
      ensures ReferencedOutsideServers(document, PathsOf(document), id)
    {
      var p :| ReachableBy(document, roots, Reference(id), p);
      QuietChain(document, p);
      assert ReachableOutsideServersBy(document, roots, Reference(id), p);
    }
    ProjectionIdempotentIff(document);
  }

  lemma {:induction false} QuietChain(document: Json, p: seq<string>)
    requires QuietComponents(document) && Chain(document, p) && p[0] in Mentions(PathsOf(document))
    ensures SanitizedChain(document, p)
  {
    if |p| > 1 {
      ChainPrefix(document, p);
      QuietChain(document, p[..|p| - 1]);
      SanitizedChainReaches(document, p[..|p| - 1]);
      QuietEdges(document, p[|p| - 2]);
      SanitizedChainStep(document, p);
    }
  }

  lemma QuietEdges(document: Json, reference: string)
    requires QuietComponents(document) && Reachable(document, Mentions(PathsOf(document)), reference)
    ensures Edges(document, reference) <= SanitizedEdges(document, reference)
  {
    var found := ParseReference(reference);
    if found.Some? {
      var id := found.value;
      ParseInvertsReference(reference, id);
      AbsentIsUndefined(document, id);
      ComponentMentions(id.section, Component(document, id));
    }
  }

  // ---------- a document whose projection is not ----------

  const LINK: ComponentId := ComponentId(Links, "L")
  const SCHEMA: ComponentId := ComponentId(Schemas, "S")

  /** An object with one member. */
  function One(key: string, value: Json): Json { Obj(map[key := value]) }

  function ReferenceTo(id: ComponentId): Json { One("$ref", Str(Reference(id))) }

  /** A link component whose server object holds the only reference to a schema. */
  function LinkWithServer(): Json { One("server", ReferenceTo(SCHEMA)) }

  function OperationWithLink(): Json {
    Obj(map["x-api-audience" := Str("public-support"), "security" := Arr([]), "responses" := Obj(map[]),
            "x-link" := ReferenceTo(LINK)])
  }

  function ExampleComponents(): Json {
    Obj(map["links" := One("L", LinkWithServer()), "schemas" := One("S", Obj(map[]))])
  }

  function DocumentWithServer(): Json {
    Obj(map["paths" := One("/a", One("get", OperationWithLink())), "components" := ExampleComponents()])
  }

  lemma MentionsOfOne(key: string, value: Json)
    requires key != "$ref" && key != "security"
    ensures Mentions(One(key, value)) == Mentions(value)
  {
    var one := One(key, value);
    assert Get(one, key) == value;
    MentionsOfMember(one, key);
    assert MemberReferences(one, one.fields.Keys) == References(value);
    assert MemberSecuritySchemes(one, one.fields.Keys) == SecuritySchemes(value);
  }

  lemma MentionsOfReferenceTo(id: ComponentId)
    ensures Mentions(ReferenceTo(id)) == {Reference(id)}
  {
    var one := ReferenceTo(id);
    assert Get(one, "$ref") == Str(Reference(id)) && Get(one, "security") == Undefined;
    assert MemberReferences(one, one.fields.Keys) == {} && MemberSecuritySchemes(one, one.fields.Keys) == {};
  }

  /** The paths reach only a link, and the link refers to a schema only in its server object. */
  ghost predicate OnlyServerReaches(document: Json, link: ComponentId, schema: ComponentId) {
    && link.section == Links && SimpleName(link.name) && SimpleName(schema.name)
    && Reference(link) != Reference(schema)
    && HasComponent(document, link) && HasComponent(document, schema)
    && Mentions(PathsOf(document)) == {Reference(link)}
    && Mentions(Component(document, link)) == {Reference(schema)}
    && Mentions(SanitizeLink(Component(document, link))) == {}
  }

  /** Then the first projection keeps the schema and the second does not. */
  lemma ServerReferenceIsLost(document: Json, link: ComponentId, schema: ComponentId)
    requires OnlyServerReaches(document, link, schema)
    ensures Projection(Projection(document)) != Projection(document)
  {
    SchemaIsReferenced(document, link, schema);
    OnlyInServer(document, link, schema);
    assert !NoneOnlyInServers(document);
    ProjectionIdempotentIff(document);
  }

  lemma SchemaIsReferenced(document: Json, link: ComponentId, schema: ComponentId)
    requires OnlyServerReaches(document, link, schema)
    ensures Referenced(document, PathsOf(document), schema)
  {
    RootIsReachable(document, Mentions(PathsOf(document)), Reference(link));
    EdgesOfReference(document, link);
    EdgeIsReachable(document, Mentions(PathsOf(document)), Reference(link), Reference(schema));
  }

  lemma OnlyInServer(document: Json, link: ComponentId, schema: ComponentId)
    requires OnlyServerReaches(document, link, schema)
    ensures !ReferencedOutsideServers(document, PathsOf(document), schema)
  {
    EdgesOfReference(document, link);
    NothingBeyond(document, Reference(link), Reference(schema));
  }

  lemma EdgesOfReference(document: Json, id: ComponentId)
    requires SimpleName(id.name)
    ensures Edges(document, Reference(id)) == Mentions(Component(document, id))
    ensures SanitizedEdges(document, Reference(id)) == Mentions(SanitizeComponent(id.section, Component(document, id)))
  {
    ParseInvertsReference(Reference(id), id);
  }

  lemma NothingBeyond(document: Json, root: string, reference: string)
    requires SanitizedEdges(document, root) == {} && reference != root
    ensures !ReachableOutsideServers(document, {root}, reference)
  {
    if p :| ReachableOutsideServersBy(document, {root}, reference, p) {
      SanitizedChainStaysInside(document, {root}, p);
    }
  }

  lemma ServerReferenceBreaksIdempotence()
    ensures AllSecured(Get(DocumentWithServer(), "paths"))
    ensures Projection(Projection(DocumentWithServer())) != Projection(DocumentWithServer())
  {
    PathsOfExample();
    ComponentsOfExample();
    LinkWithServerMentions();
    assert Reference(SCHEMA) != Reference(LINK) by {
      ParseInvertsReference(Reference(LINK), LINK);
      ParseInvertsReference(Reference(LINK), SCHEMA);
    }
    ServerReferenceIsLost(DocumentWithServer(), LINK, SCHEMA);
  }

  lemma ComponentsOfExample()
    ensures HasComponent(DocumentWithServer(), LINK) && HasComponent(DocumentWithServer(), SCHEMA)
    ensures Component(DocumentWithServer(), LINK) == LinkWithServer()
  {
    assert Get(DocumentWithServer(), "components") == ExampleComponents();
    assert Get(ExampleComponents(), "links") == One("L", LinkWithServer());
    assert Get(ExampleComponents(), "schemas") == One("S", Obj(map[]));
  }

  lemma LinkWithServerMentions()
    ensures Mentions(LinkWithServer()) == {Reference(SCHEMA)}
    ensures Mentions(SanitizeLink(LinkWithServer())) == {}
  {
    MentionsOfReferenceTo(SCHEMA);
    MentionsOfOne("server", ReferenceTo(SCHEMA));
    assert SanitizeLink(LinkWithServer()) == One("server", Undefined);
    MentionsOfOne("server", Undefined);
  }

  lemma PathsOfExample()
    ensures Mentions(PathsOf(DocumentWithServer())) == {Reference(LINK)}
    ensures AllSecured(Get(DocumentWithServer(), "paths"))
  {
    assert Get(DocumentWithServer(), "paths") == One("/a", One("get", OperationWithLink()));
    OperationWithLinkIsPublic();
    OneOperationPaths("/a", OperationWithLink());
    OperationWithLinkMentions();
  }

  lemma OperationWithLinkIsPublic()
    ensures IsPublic(OperationWithLink()) && !LacksSecurity(OperationWithLink())
  {
    assert Get(OperationWithLink(), "security") == Arr([]);
  }

  lemma OneOperationPaths(route: string, operation: Json)
    requires IsPublic(operation) && !LacksSecurity(operation) && route != "$ref" && route != "security"
    ensures var paths := One(route, One("get", operation));
            Mentions(PublicPaths(paths)) == Mentions(SanitizeOperation(operation)) && AllSecured(paths)
  {
    OneOperationIsPublic(operation);
    OneRoute(route, One("get", operation));
    OneOperationMentions(operation);
    MentionsOfOne(route, PublicPath(One("get", operation)));
  }

  lemma OneRoute(route: string, path: Json)
    requires HasPublicOperation(path) && PathSecured(path)
    ensures PublicPaths(One(route, path)) == One(route, PublicPath(path)) && AllSecured(One(route, path))
  {
    var paths := One(route, path);
    assert Fields(paths) == map[route := path];
    assert PublicRoutes(paths, Fields(paths).Keys) == map[route := PublicPath(path)];
  }

  lemma OneOperationMember(operation: Json, key: string)
    requires IsPublic(operation)
    ensures Get(PublicPath(One("get", operation)), key)
            == if key == "get" then SanitizeOperation(operation) else Undefined
  {
    PublicPathMember(One("get", operation), key);
  }

  lemma OneOperationIsPublic(operation: Json)
    requires IsPublic(operation) && !LacksSecurity(operation)
    ensures HasPublicOperation(One("get", operation)) && PathSecured(One("get", operation))
  {
    assert IsPublic(Get(One("get", operation), "get"));
  }

  lemma OneOperationMentions(operation: Json)
    requires IsPublic(operation)
    ensures Mentions(PublicPath(One("get", operation))) == Mentions(SanitizeOperation(operation))
  {
    var path, clean := PublicPath(One("get", operation)), One("get", SanitizeOperation(operation));
    forall k ensures Get(path, k) == Get(clean, k) {
      OneOperationMember(operation, k);
    }
    SameMemberMentions(path, clean);
    MentionsOfOne("get", SanitizeOperation(operation));
  }

  lemma OperationWithLinkMentions()
    ensures Mentions(SanitizeOperation(OperationWithLink())) == {Reference(LINK)}
  {
    var operation := OperationWithLink();
    var clean := SanitizeOperation(operation);
    var bare := One("x-link", ReferenceTo(LINK));
    forall k ensures Mentions(Get(clean, k)) == Mentions(Get(bare, k)) {
      OperationMember(operation, k);
    }
    OperationMember(operation, "$ref");
    OperationMember(operation, "security");
    assert OwnSchemes(clean) == {} && OwnReference(clean) == {};
    SameMemberMentions(clean, bare);
    MentionsOfOne("x-link", ReferenceTo(LINK));
    MentionsOfReferenceTo(LINK);
  }

  lemma SameMemberMentions(a: Json, b: Json)
    requires a.Obj? && b.Obj? && forall k :: Mentions(Get(a, k)) == Mentions(Get(b, k))
    requires OwnReference(a) == OwnReference(b) && OwnSchemes(a) == OwnSchemes(b)
    ensures Mentions(a) == Mentions(b)
  {
    assert forall k :: k in a.fields ==> a.fields[k] == Get(a, k);
    assert forall k :: k in b.fields ==> b.fields[k] == Get(b, k);
    MentionsByMember(a, b);
    MentionsByMember(b, a);
  }

  // ---------- a scheme whose name the pattern refuses ----------

  const SLASHED: string := "a/b"

  function SecuredOperation(): Json {
    Obj(map["x-api-audience" := Str("public-support"), "security" := Arr([One(SLASHED, Arr([]))]),
            "responses" := Obj(map[])])
  }

  function DocumentWithSlash(): Json {
    Obj(map["paths" := One("/a", One("get", SecuredOperation())),
            "components" := One("securitySchemes", One(SLASHED, Obj(map[])))])
  }

  /** A public operation requires a scheme that the source has and the projection drops. */
  lemma SlashedSchemeIsDropped()
    ensures var document, id := DocumentWithSlash(), ComponentId(SecuritySchemesSection, SLASHED);
            && AllSecured(Get(document, "paths")) && SchemeReference(SLASHED) in Mentions(PathsOf(document))
            && HasComponent(document, id) && !HasComponent(Projection(document), id)
  {
    PathsOfSlash();
    ComponentsOfSlash();
    assert SLASHED[1] == '/';
    RequiredSchemeKeptIff(DocumentWithSlash(), SLASHED);
  }

  lemma ComponentsOfSlash()
    ensures HasComponent(DocumentWithSlash(), ComponentId(SecuritySchemesSection, SLASHED))
  {
    assert Get(DocumentWithSlash(), "components") == One("securitySchemes", One(SLASHED, Obj(map[])));
    assert Get(Get(DocumentWithSlash(), "components"), "securitySchemes") == One(SLASHED, Obj(map[]));
  }

  lemma PathsOfSlash()
    ensures SchemeReference(SLASHED) in Mentions(PathsOf(DocumentWithSlash()))
    ensures AllSecured(Get(DocumentWithSlash(), "paths"))
  {
    assert Get(DocumentWithSlash(), "paths") == One("/a", One("get", SecuredOperation()));
    SchemesOfSecured();
    OneOperationPaths("/a", SecuredOperation());
  }

  lemma SchemesOfSecured()
    ensures IsPublic(SecuredOperation()) && !LacksSecurity(SecuredOperation())
    ensures SchemeReference(SLASHED) in Mentions(SanitizeOperation(SecuredOperation()))
  {
    var operation := SecuredOperation();
    var requirements := [One(SLASHED, Arr([]))];
    assert Get(operation, "security") == Arr(requirements);
    OperationMember(operation, "security");
    assert requirements[0].Obj? && SLASHED in requirements[0].fields.Keys;
    assert SchemeReference(SLASHED) in RequiredSchemes(requirements);
  }

  // ---------- a reference that nobody follows ----------

  function DocumentWithInfo(): Json {
    Obj(map["paths" := Obj(map[]), "info" := ReferenceTo(SCHEMA), "components" := One("schemas", One("S", Obj(map[])))])
  }

  /** A reference in the information of a document with no public paths dangles in the projection. */
  lemma InfoReferenceDangles()
    ensures AllSecured(Get(DocumentWithInfo(), "paths")) && !NothingDangles(DocumentWithInfo())
  {
    NothingInPaths();
    SchemaOfInfo();
    InfoKeepsReference();
    assert !MetadataAddsNothing(DocumentWithInfo());
    NothingDanglesIff(DocumentWithInfo());
  }

  lemma NothingInPaths()
    ensures AllSecured(Get(DocumentWithInfo(), "paths"))
    ensures !Referenced(DocumentWithInfo(), PathsOf(DocumentWithInfo()), SCHEMA)
  {
    assert Get(DocumentWithInfo(), "paths") == Obj(map[]);
    assert PathsOf(DocumentWithInfo()) == Obj(map[]);
    assert Mentions(PathsOf(DocumentWithInfo())) == {};
  }

  lemma SchemaOfInfo()
    ensures DenotesComponent(DocumentWithInfo(), Reference(SCHEMA), SCHEMA)
  {
    assert Get(DocumentWithInfo(), "components") == One("schemas", One("S", Obj(map[])));
    assert Get(Get(DocumentWithInfo(), "components"), "schemas") == One("S", Obj(map[]));
    ParseInvertsReference(Reference(SCHEMA), SCHEMA);
  }

  lemma InfoKeepsReference()
    ensures Reference(SCHEMA) in KeptMetadataMentions(DocumentWithInfo())
  {
    assert Get(DocumentWithInfo(), "info") == ReferenceTo(SCHEMA);
    assert Get(PublicInfo(ReferenceTo(SCHEMA)), "$ref") == Str(Reference(SCHEMA));
  }
}
