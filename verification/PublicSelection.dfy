/** Which routes, operations and tags of a document its projection selects, member by member. */
module PublicSelection {
  import opened Json
  import opened OpenApiReferences
  import opened Options
  import opened ReferenceGraph
  import opened OpenApiSanitizer
  import opened SanitizedMentions
  import opened PublicOpenApi
  import opened PublicContract

  /** The eight HTTP methods of a path item. */
  predicate IsMethod(key: string) {
    key == "get" || key == "put" || key == "post" || key == "delete" || key == "options" || key == "head"
    || key == "patch" || key == "trace"
  }

  lemma MethodsIff(key: string)
    ensures key in METHODS <==> IsMethod(key)
  {
  }

  /** A public operation is an object marked for the public-support audience. */
  lemma IsPublicIff(operation: Json)
    ensures IsPublic(operation)
            <==> operation.Obj? && "x-api-audience" in operation.fields
                 && operation.fields["x-api-audience"] == Str("public-support")
  {
  }

  ghost predicate HasPublicMethod(path: Json) { exists m :: IsMethod(m) && IsPublic(Get(path, m)) }

  lemma HasPublicMethodIff(path: Json)
    ensures HasPublicOperation(path) <==> HasPublicMethod(path)
  {
    if m :| m in METHODS && IsPublic(Get(path, m)) { MethodsIff(m); }
    if m :| IsMethod(m) && IsPublic(Get(path, m)) { MethodsIff(m); }
  }

  /** A route is kept exactly when one of its eight methods is public. */
  lemma RouteKeptIff(paths: Json, route: string)
    ensures Has(PublicPaths(paths), route) <==> Has(paths, route) && HasPublicMethod(Get(paths, route))
  {
    if Has(paths, route) { HasPublicMethodIff(Get(paths, route)); }
  }

  /** A kept route has its summary, description and parameters, its public operations
      sanitized, and nothing else. */
  lemma RouteMember(paths: Json, route: string, key: string)
    requires Has(PublicPaths(paths), route)
    ensures var path, kept := Get(paths, route), Get(PublicPaths(paths), route);
            Get(kept, key)
            == if IsMethod(key) then (if IsPublic(Get(path, key)) then SanitizeOperation(Get(path, key)) else Undefined)
               else if key == "summary" || key == "description" || key == "parameters" then Get(path, key)
               else Undefined
  {
    assert Get(PublicPaths(paths), route) == PublicPath(Get(paths, route));
    PublicPathMember(Get(paths, route), key);
    MethodsIff(key);
  }

  // ---------- security, order and information ----------

  /** Every public operation has a list of security requirements. */
  ghost predicate EveryPublicIsSecured(paths: Json) {
    forall route, m :: Has(paths, route) && IsMethod(m) && IsPublic(Get(Get(paths, route), m)) ==>
      HasSecurityList(Get(Get(paths, route), m))
  }

  predicate HasSecurityList(operation: Json) { Has(operation, "security") && operation.fields["security"].Arr? }

  lemma AllSecuredIff(paths: Json)
    ensures AllSecured(paths) <==> EveryPublicIsSecured(paths)
  {
    forall route | Has(paths, route)
      ensures PathSecured(Get(paths, route))
              <==> forall m :: IsMethod(m) && IsPublic(Get(Get(paths, route), m)) ==>
                     HasSecurityList(Get(Get(paths, route), m))
    {
      PathSecuredIff(Get(paths, route));
    }
    if EveryPublicIsSecured(paths) {
      forall route | route in Fields(paths) ensures PathSecured(Fields(paths)[route]) {
        assert Has(paths, route);
      }
    }
    if AllSecured(paths) {
      forall route, m | Has(paths, route) && IsMethod(m) && IsPublic(Get(Get(paths, route), m))
        ensures HasSecurityList(Get(Get(paths, route), m))
      {
        assert PathSecured(Fields(paths)[route]);
      }
    }
  }

  lemma PathSecuredIff(path: Json)
    ensures PathSecured(path)
            <==> forall m :: IsMethod(m) && IsPublic(Get(path, m)) ==> HasSecurityList(Get(path, m))
  {
    forall m ensures m in METHODS <==> IsMethod(m) { MethodsIff(m); }
    forall m ensures LacksSecurity(Get(path, m)) <==> IsPublic(Get(path, m)) && !HasSecurityList(Get(path, m)) {
      LacksSecurityIff(Get(path, m));
    }
  }

  lemma LacksSecurityIff(operation: Json)
    ensures LacksSecurity(operation) <==> IsPublic(operation) && !HasSecurityList(operation)
  {
  }

  /** The order in which the methods of a route are looked at. */
  lemma MethodOrder()
    ensures METHOD_ORDER == ["get", "put", "post", "delete", "options", "head", "patch", "trace"]
  {
  }

  /** The information keeps all its members but the title and the description. */
  lemma InfoMember(document: Json, key: string)
    ensures Get(Get(Projection(document), "info"), key)
            == if key == "title" then Str("Telecom Public Support API")
               else if key == "description" then
                 Str("Contrat borné du portail public, du widget et des adaptateurs de support.")
               else Get(Get(document, "info"), key)
  {
    ProjectionMembers(document);
    PublicInfoMember(Get(document, "info"), key);
  }

  lemma PublicInfoMember(info: Json, key: string)
    ensures Get(PublicInfo(info), key)
            == if key == "title" then Str("Telecom Public Support API")
               else if key == "description" then
                 Str("Contrat borné du portail public, du widget et des adaptateurs de support.")
               else Get(info, key)
  {
  }

  // ---------- components ----------

  /** There are components exactly when the public paths refer to one that the source has. */
  lemma ComponentsIff(document: Json)
    ensures Get(Projection(document), "components") != Undefined
            <==> exists id :: HasComponent(Projection(document), id)
  {
    ProjectionMembers(document);
    var references := ReferencedNames(document, PathsOf(document));
    forall section: Section
      ensures PublicSection(document, references, section) != Undefined
              <==> exists name :: HasComponent(Projection(document), ComponentId(section, name))
    {
      SectionIff(document, section);
    }
    SomeSection(document, references);
    if id :| HasComponent(Projection(document), id) {
      assert ComponentId(id.section, id.name) == id;
    }
  }

  lemma SectionIff(document: Json, section: Section)
    ensures PublicSection(document, ReferencedNames(document, PathsOf(document)), section) != Undefined
            <==> exists name :: HasComponent(Projection(document), ComponentId(section, name))
  {
    ProjectionSection(document, section);
    var names := ReferencedNames(document, PathsOf(document))[section];
    var source := ComponentSection(document, section);
    if Picked(source, names) != map[] {
      var name :| name in Picked(source, names);
      SanitizedSection(section, source, names, name);
      assert HasComponent(Projection(document), ComponentId(section, name));
    }
  }

  lemma SomeSection(document: Json, references: Names)
    requires AllSections(references)
    ensures PublicComponents(document, references) != Undefined
            <==> exists section: Section :: PublicSection(document, references, section) != Undefined
  {
    if section: Section :| PublicSection(document, references, section) != Undefined {
      SectionOfKey(section);
      assert SectionKey(section) in PublicSections(document, references, SectionKeys());
    }
  }

  // ---------- tags ----------

  /** Some public operation of the source lists the tag. */
  ghost predicate NamedByPublic(paths: Json, tag: Json) {
    exists route, m :: Has(paths, route) && IsMethod(m) && ListsTag(Get(Get(paths, route), m), tag)
  }

  predicate ListsTag(operation: Json, tag: Json) {
    IsPublic(operation) && Get(operation, "tags").Arr? && tag in Get(operation, "tags").items
  }

  lemma TagsOfPublic(paths: Json, tag: Json)
    ensures tag in TagsOf(PublicPaths(paths)) <==> NamedByPublic(paths, tag)
  {
    var kept := PublicPaths(paths);
    if tag in TagsOf(kept) {
      var route, m, i :| route in Fields(kept).Keys && m in METHODS
                         && 0 <= i < |Items(Get(Get(Fields(kept)[route], m), "tags"))|
                         && tag == Items(Get(Get(Fields(kept)[route], m), "tags"))[i];
      MethodTags(paths, route, m, tag);
    }
    if route, m :| Has(paths, route) && IsMethod(m) && ListsTag(Get(Get(paths, route), m), tag) {
      RouteKeptIff(paths, route);
      MethodsIff(m);
      MethodTags(paths, route, m, tag);
    }
  }

  lemma MethodTags(paths: Json, route: string, m: string, tag: Json)
    requires Has(PublicPaths(paths), route) && m in METHODS
    ensures tag in Items(Get(Get(Fields(PublicPaths(paths))[route], m), "tags"))
            <==> ListsTag(Get(Get(paths, route), m), tag)
    ensures IsMethod(m) && Has(paths, route)
  {
    MethodsIff(m);
    RouteMember(paths, route, m);
    var operation := Get(Get(paths, route), m);
    if IsPublic(operation) { TagsMember(operation); }
  }

  lemma TagsMember(operation: Json)
    requires operation.Obj?
    ensures Get(SanitizeOperation(operation), "tags") == Get(operation, "tags")
  {
    OperationMember(operation, "tags");
  }

  lemma {:induction false} KeepTagsIff(tags: seq<Json>, names: set<Json>, tag: Json)
    ensures tag in KeepTags(tags, names) <==> tag in tags && Get(tag, "name") in names
  {
    if tags != [] { KeepTagsIff(tags[1..], names, tag); }
  }

  /** The tags kept keep their order: those of two lists in a row are those of the first and
      then those of the second. */
  lemma {:induction false} KeepTagsInOrder(a: seq<Json>, b: seq<Json>, names: set<Json>)
    ensures KeepTags(a + b, names) == KeepTags(a, names) + KeepTags(b, names)
  {
    if a == [] {
      assert a + b == b;
    } else {
      var ab := a + b;
      assert ab[0] == a[0] && ab[1..] == a[1..] + b;
      KeepTagsInOrder(a[1..], b, names);
      Regroup(if Get(a[0], "name") in names then [a[0]] else [], KeepTags(a[1..], names), KeepTags(b, names));
    }
  }

  lemma Regroup(a: seq<Json>, b: seq<Json>, c: seq<Json>)
    ensures a + (b + c) == a + b + c
  {
  }

  /** A tag of the source is kept exactly when a public operation lists its name; without a
      list of tags there, there is none here. */
  lemma TagKeptIff(document: Json, tag: Json)
    ensures var tags, kept := Get(document, "tags"), Get(Projection(document), "tags");
            if tags.Arr? then
              kept.Arr?
              && (tag in kept.items <==> tag in tags.items && NamedByPublic(Get(document, "paths"), Get(tag, "name")))
            else kept == Undefined
  {
    ProjectionMembers(document);
    if !Get(document, "tags").Arr? { return; }
    KeepTagsIff(Get(document, "tags").items, TagsOf(PathsOf(document)), tag);
    TagsOfPublic(Get(document, "paths"), Get(tag, "name"));
  }
}
