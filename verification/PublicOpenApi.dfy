/** The projection of an OpenAPI document onto its public support operations. */
module PublicOpenApi {
  import opened Json
  import opened OpenApiReferences
  import opened Options
  import opened ReferenceGraph
  import opened OpenApiSanitizer
  import opened SanitizedMentions

  /** A public operation must say what security it requires; the first one that does not
      makes the whole projection fail. */
  datatype MissingSecurity = MissingSecurity(httpMethod: string, route: string)

  datatype Result<T> = Success(value: T) | Failure(error: MissingSecurity)

  const METHOD_ORDER: seq<string> := ["get", "put", "post", "delete", "options", "head", "patch", "trace"]

  predicate IsPublic(operation: Json) {
    operation.Obj? && Get(operation, "x-api-audience") == Str("public-support")
  }

  predicate LacksSecurity(operation: Json) {
    IsPublic(operation) && !Get(operation, "security").Arr?
  }

  function Fields(j: Json): map<string, Json> { if j.Obj? then j.fields else map[] }

  // ---------- what the projection is ----------

  function PublicOperation(operation: Json): Json {
    if IsPublic(operation) then SanitizeOperation(operation) else Undefined
  }

  function PublicOperations(path: Json, methods: set<string>): map<string, Json> {
    map m | m in methods :: PublicOperation(Get(path, m))
  }

  predicate HasPublicOperation(path: Json) { exists m :: m in METHODS && IsPublic(Get(path, m)) }

  function PublicPath(path: Json): Json {
    Obj(map["summary" := Get(path, "summary"),
            "description" := Get(path, "description"),
            "parameters" := Get(path, "parameters")]
        + PublicOperations(path, METHODS))
  }

  function PublicRoutes(paths: Json, routes: set<string>): map<string, Json> {
    map route | route in routes && route in Fields(paths) && HasPublicOperation(Fields(paths)[route]) ::
      PublicPath(Fields(paths)[route])
  }

  function PublicPaths(paths: Json): Json { Obj(PublicRoutes(paths, Fields(paths).Keys)) }

  /** No public operation lacks its security requirements. */
  ghost predicate AllSecured(paths: Json) {
    forall route :: route in Fields(paths) ==> PathSecured(Fields(paths)[route])
  }

  ghost predicate PathSecured(path: Json) {
    forall m :: m in METHODS ==> !LacksSecurity(Get(path, m))
  }

  function Picked(source: Json, names: set<string>): map<string, Json> {
    map n | n in Fields(source) && n in names :: Fields(source)[n]
  }

  function PickReferenced(source: Json, names: set<string>): Json {
    if Picked(source, names) == map[] then Undefined else Obj(Picked(source, names))
  }

  function SectionKeys(): set<string> {
    {"schemas", "responses", "parameters", "examples", "requestBodies", "headers", "securitySchemes", "links",
     "callbacks"}
  }

  function ComponentSection(document: Json, section: Section): Json {
    Get(Get(document, "components"), SectionKey(section))
  }

  function SanitizeSection(section: Section, components: Json): Json {
    match section
    case Responses => SanitizeResponses(components)
    case Callbacks => SanitizeCallbacks(components)
    case Links => SanitizeLinks(components)
    case _ => components
  }

  function PublicSection(document: Json, references: Names, section: Section): Json
    requires AllSections(references)
  {
    SanitizeSection(section, PickReferenced(ComponentSection(document, section), references[section]))
  }

  function PublicSections(document: Json, references: Names, keys: set<string>): map<string, Json>
    requires AllSections(references)
  {
    map key | key in keys && SectionOf(key).Some? ::
      PublicSection(document, references, SectionOf(key).value)
  }

  function PublicComponents(document: Json, references: Names): Json
    requires AllSections(references)
  {
    var sections := PublicSections(document, references, SectionKeys());
    if forall key :: key in sections ==> sections[key] == Undefined then Undefined else Obj(sections)
  }

  /** The tags named by the operations of some paths. */
  function TagsOf(paths: Json): set<Json> {
    set route, m, i | route in Fields(paths).Keys && m in METHODS
                      && 0 <= i < |Items(Get(Get(Fields(paths)[route], m), "tags"))|
      :: Items(Get(Get(Fields(paths)[route], m), "tags"))[i]
  }

  function Items(j: Json): seq<Json> { if j.Arr? then j.items else [] }

  function KeepTags(tags: seq<Json>, names: set<Json>): seq<Json> {
    if tags == [] then []
    else (if Get(tags[0], "name") in names then [tags[0]] else []) + KeepTags(tags[1..], names)
  }

  function PublicTags(tags: Json, names: set<Json>): Json {
    if tags.Arr? then Arr(KeepTags(tags.items, names)) else Undefined
  }

  function PublicInfo(info: Json): Json {
    Obj(Fields(info)["title" := Str("Telecom Public Support API")]
        ["description" := Str("Contrat borné du portail public, du widget et des adaptateurs de support.")])
  }

  function Assemble(document: Json, paths: Json, components: Json): Json {
    Obj(map["openapi" := Get(document, "openapi"),
            "info" := PublicInfo(Get(document, "info")),
            "paths" := paths,
            "components" := components,
            "tags" := PublicTags(Get(document, "tags"), TagsOf(paths))])
  }

  /** The projected document. */
  ghost function Projection(document: Json): Json {
    var paths := PublicPaths(Get(document, "paths"));
    Assemble(document, paths, PublicComponents(document, ReferencedNames(document, paths)))
  }

  // ---------- the projecting code ----------

  /** The first method, in the order they are looked at, whose operation lacks security. */
  function FirstInsecure(path: Json, methods: seq<string>): (r: Option<string>)
    ensures r.Some? ==> exists i :: 0 <= i < |methods| && IsFirstInsecure(path, methods, i) && methods[i] == r.value
    ensures r.None? ==> forall m :: m in methods ==> !LacksSecurity(Get(path, m))
  {
    if methods == [] then None
    else if LacksSecurity(Get(path, methods[0])) then Some(methods[0])
    else
      var rest := FirstInsecure(path, methods[1..]);
      FirstInsecureLater(path, methods, rest);
      rest
  }

  /** The operation of the i-th method is the first to lack its security requirements. */
  ghost predicate IsFirstInsecure(path: Json, methods: seq<string>, i: nat)
    requires i < |methods|
  {
    LacksSecurity(Get(path, methods[i])) && forall j :: 0 <= j < i ==> !LacksSecurity(Get(path, methods[j]))
  }

  lemma FirstInsecureLater(path: Json, methods: seq<string>, rest: Option<string>)
    requires methods != [] && !LacksSecurity(Get(path, methods[0]))
    requires rest.Some? ==> exists i :: 0 <= i < |methods| - 1 && IsFirstInsecure(path, methods[1..], i)
                                        && methods[1..][i] == rest.value
    ensures rest.Some? ==>
              exists i :: 0 <= i < |methods| && IsFirstInsecure(path, methods, i) && methods[i] == rest.value
  {
    if rest.Some? {
      var i :| 0 <= i < |methods| - 1 && IsFirstInsecure(path, methods[1..], i) && methods[1..][i] == rest.value;
      forall j | 0 <= j < i + 1 ensures !LacksSecurity(Get(path, methods[j])) {
        if j > 0 { assert methods[1..][j - 1] == methods[j]; }
      }
      assert IsFirstInsecure(path, methods, i + 1);
    }
  }

  lemma FirstInsecureDecides(path: Json)
    ensures FirstInsecure(path, METHOD_ORDER).None? <==> PathSecured(path)
  {
    assert forall m :: m in METHOD_ORDER <==> m in METHODS;
  }

  lemma RouteAdded(paths: Json, done: set<string>, route: string)
    requires route in Fields(paths)
    ensures PublicRoutes(paths, done + {route})
            == if HasPublicOperation(Fields(paths)[route])
               then PublicRoutes(paths, done)[route := PublicPath(Fields(paths)[route])]
               else PublicRoutes(paths, done)
  {
  }

  /** The routes of a paths object in the order of the document. */
  ghost predicate Lists(routes: seq<string>, paths: Json) {
    && (forall route :: route in routes <==> route in Fields(paths))
    && (forall i, j :: 0 <= i < j < |routes| ==> routes[i] != routes[j])
  }

  /** The error names the first route with an insecure operation, and its first such method. */
  ghost predicate NamesFirstInsecure(error: MissingSecurity, paths: Json, routes: seq<string>) {
    exists i ::
      && 0 <= i < |routes| && routes[i] == error.route && routes[i] in Fields(paths)
      && SecuredUpTo(paths, routes, i)
      && NamesFirstMethod(error, Fields(paths)[routes[i]])
  }

  ghost predicate NamesFirstMethod(error: MissingSecurity, path: Json) {
    exists k :: 0 <= k < |METHOD_ORDER| && IsFirstInsecure(path, METHOD_ORDER, k) && METHOD_ORDER[k] == error.httpMethod
  }

  ghost predicate SecuredUpTo(paths: Json, routes: seq<string>, n: nat)
    requires n <= |routes|
  {
    forall j :: 0 <= j < n ==> routes[j] in Fields(paths) && PathSecured(Fields(paths)[routes[j]])
  }

  function Elements(routes: seq<string>): set<string> { set route | route in routes }

  lemma OneMoreElement(routes: seq<string>, i: nat)
    requires i < |routes|
    ensures Elements(routes[..i + 1]) == Elements(routes[..i]) + {routes[i]}
  {
    assert routes[..i + 1] == routes[..i] + [routes[i]];
  }

  lemma AllListed(routes: seq<string>, paths: Json)
    requires Lists(routes, paths)
    ensures Elements(routes[..|routes|]) == Fields(paths).Keys
    ensures SecuredUpTo(paths, routes, |routes|) ==> AllSecured(paths)
  {
    assert routes[..|routes|] == routes;
  }

  method PublicPathsLoop(paths: Json, routes: seq<string>) returns (r: Result<Json>)
    requires Lists(routes, paths)
    ensures r.Success? <==> AllSecured(paths)
    ensures r.Success? ==> r.value == PublicPaths(paths)
    ensures r.Failure? ==> NamesFirstInsecure(r.error, paths, routes)
  {
    var selected: map<string, Json> := map[];
    for i := 0 to |routes|
      invariant selected == PublicRoutes(paths, Elements(routes[..i]))
      invariant SecuredUpTo(paths, routes, i)
    {
      var route := routes[i];
      var path := Fields(paths)[route];
      OneMoreElement(routes, i);
      RouteAdded(paths, Elements(routes[..i]), route);
      FirstInsecureDecides(path);
      var insecure := FirstInsecure(path, METHOD_ORDER);
      if insecure.Some? { return Failure(MissingSecurity(insecure.value, route)); }
      if HasPublicOperation(path) { selected := selected[route := PublicPath(path)]; }
    }
    AllListed(routes, paths);
    return Success(Obj(selected));
  }

  /** Projects a document, or names a public operation without security requirements. */
  method ProjectPublicOpenApi(document: Json, routes: seq<string>) returns (r: Result<Json>)
    requires Lists(routes, Get(document, "paths"))
    ensures r.Success? <==> AllSecured(Get(document, "paths"))
    ensures r.Success? ==> r.value == Projection(document)
    ensures r.Failure? ==> NamesFirstInsecure(r.error, Get(document, "paths"), routes)
  {
    var paths := PublicPathsLoop(Get(document, "paths"), routes);
    if paths.Failure? { return paths; }
    var references := ReferencedComponents(document, paths.value);
    NamesAreUnique(document, paths.value, references);
    return Success(Assemble(document, paths.value, PublicComponents(document, references)));
  }
}
