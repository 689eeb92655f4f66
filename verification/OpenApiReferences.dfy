/** The references an OpenAPI value mentions: Reference Objects (section 4.7.23 of the
    OpenAPI Specification 3.0.3) and the schemes named by security requirements (section
    4.7.30), both written `#/components/<section>/<name>`. */
module OpenApiReferences {
  import opened Json
  import opened Options

  const PREFIX: string := "#/components/"

  datatype Section =
    | Schemas | Responses | Parameters | Examples | RequestBodies | Headers | SecuritySchemesSection | Links | Callbacks

  function SectionKey(section: Section): string {
    match section
    case Schemas => "schemas"
    case Responses => "responses"
    case Parameters => "parameters"
    case Examples => "examples"
    case RequestBodies => "requestBodies"
    case Headers => "headers"
    case SecuritySchemesSection => "securitySchemes"
    case Links => "links"
    case Callbacks => "callbacks"
  }

  // ---------- reference strings ----------

  datatype ComponentId = ComponentId(section: Section, name: string)

  function Reference(id: ComponentId): string { PREFIX + SectionKey(id.section) + "/" + id.name }

  /** A name the reference pattern accepts: not empty and without a slash. */
  predicate SimpleName(s: string) { s != "" && '/' !in s }

  lemma SimpleNameIff(s: string)
    ensures SimpleName(s) <==> |s| > 0 && forall i :: 0 <= i < |s| ==> s[i] != '/'
  {
  }

  /** What the pattern `^#\/components\/([^/]+)\/([^/]+)$` captures. */
  function MatchReference(reference: string): Option<(string, string)> {
    if PREFIX <= reference then
      var rest := reference[|PREFIX|..];
      var section := UpToSlash(rest);
      if |section| == |rest| then None
      else
        var name := rest[|section| + 1..];
        if SimpleName(section) && SimpleName(name) then Some((section, name)) else None
    else None
  }

  function UpToSlash(s: string): (r: string)
    ensures |r| <= |s| && r == s[..|r|] && '/' !in r
    ensures |r| < |s| ==> s[|r|] == '/'
  {
    if s == "" || s[0] == '/' then "" else [s[0]] + UpToSlash(s[1..])
  }

  function SectionOf(key: string): (r: Option<Section>)
    ensures r.Some? ==> SectionKey(r.value) == key
  {
    if key == "schemas" then Some(Schemas)
    else if key == "responses" then Some(Responses)
    else if key == "parameters" then Some(Parameters)
    else if key == "examples" then Some(Examples)
    else if key == "requestBodies" then Some(RequestBodies)
    else if key == "headers" then Some(Headers)
    else if key == "securitySchemes" then Some(SecuritySchemesSection)
    else if key == "links" then Some(Links)
    else if key == "callbacks" then Some(Callbacks)
    else None
  }

  lemma SectionOfKey(section: Section)
    ensures SectionOf(SectionKey(section)) == Some(section)
    ensures SimpleName(SectionKey(section))
  {
    match section
    case Schemas =>
    case Responses =>
    case Parameters =>
    case Examples =>
    case RequestBodies =>
    case Headers =>
    case SecuritySchemesSection =>
    case Links =>
    case Callbacks =>
  }

  /** The component a reference denotes, if it is one of a known section. */
  function ParseReference(reference: string): Option<ComponentId> {
    match MatchReference(reference)
    case Some((key, name)) =>
      (match SectionOf(key)
       case Some(section) => Some(ComponentId(section, name))
       case None => None)
    case None => None
  }

  /** Parsing inverts the writing of references, and nothing else parses. */
  lemma ParseInvertsReference(reference: string, id: ComponentId)
    ensures ParseReference(reference) == Some(id) <==> reference == Reference(id) && SimpleName(id.name)
  {
    SectionOfKey(id.section);
    MatchInvertsReference(reference, SectionKey(id.section), id.name);
  }

  lemma MatchInvertsReference(reference: string, key: string, name: string)
    ensures MatchReference(reference) == Some((key, name))
            <==> reference == PREFIX + key + "/" + name && SimpleName(key) && SimpleName(name)
  {
    if MatchReference(reference) == Some((key, name)) {
      var tail := reference[|PREFIX|..];
      assert tail == UpToSlash(tail) + "/" + name;
      assert reference == PREFIX + tail;
    }
    if reference == PREFIX + key + "/" + name && SimpleName(key) && SimpleName(name) {
      MatchOfReference(key, name);
    }
  }

  lemma MatchOfReference(key: string, name: string)
    requires SimpleName(key) && SimpleName(name)
    ensures MatchReference(PREFIX + key + "/" + name) == Some((key, name))
  {
    var rest := key + "/" + name;
    assert PREFIX + key + "/" + name == PREFIX + rest;
    assert (PREFIX + rest)[|PREFIX|..] == rest;
    UpToSlashOf(key, name);
    assert rest[|key| + 1..] == name;
  }

  lemma {:induction false} UpToSlashOf(section: string, name: string)
    requires '/' !in section
    ensures UpToSlash(section + "/" + name) == section
  {
    var s := section + "/" + name;
    if section != "" {
      UpToSlashOf(section[1..], name);
      assert s[1..] == section[1..] + "/" + name;
    }
  }

  // ---------- what a value mentions ----------

  /** Every string-valued `$ref` in the value, at any depth. */
  function References(value: Json): set<string>
    decreases value, 1
  {
    match value
    case Arr(items) => ItemReferences(value, |items|)
    case Obj(fields) => OwnReference(value) + MemberReferences(value, fields.Keys)
    case _ => {}
  }

  function ItemReferences(value: Json, n: nat): set<string>
    requires value.Arr? && n <= |value.items|
    decreases value, 0
  {
    set i, r | 0 <= i < n && r in References(value.items[i]) :: r
  }

  function MemberReferences(value: Json, keys: set<string>): set<string>
    requires value.Obj? && keys <= value.fields.Keys
    decreases value, 0
  {
    set k, r | k in keys && r in References(value.fields[k]) :: r
  }

  function OwnReference(value: Json): set<string> {
    if Get(value, "$ref").Str? then {Get(value, "$ref").s} else {}
  }

  /** A reference for every scheme named by a security requirement, at any depth. */
  function SecuritySchemes(value: Json): set<string>
    decreases value, 1
  {
    match value
    case Arr(items) => ItemSecuritySchemes(value, |items|)
    case Obj(fields) => OwnSchemes(value) + MemberSecuritySchemes(value, fields.Keys)
    case _ => {}
  }

  function ItemSecuritySchemes(value: Json, n: nat): set<string>
    requires value.Arr? && n <= |value.items|
    decreases value, 0
  {
    set i, r | 0 <= i < n && r in SecuritySchemes(value.items[i]) :: r
  }

  function MemberSecuritySchemes(value: Json, keys: set<string>): set<string>
    requires value.Obj? && keys <= value.fields.Keys
    decreases value, 0
  {
    set k, r | k in keys && r in SecuritySchemes(value.fields[k]) :: r
  }

  function OwnSchemes(value: Json): set<string> {
    if Get(value, "security").Arr? then RequiredSchemes(Get(value, "security").items) else {}
  }

  function RequiredSchemes(requirements: seq<Json>): set<string> {
    set i, name | 0 <= i < |requirements| && requirements[i].Obj? && name in requirements[i].fields.Keys ::
      SchemeReference(name)
  }

  function SchemeReference(name: string): string { "#/components/securitySchemes/" + name }

  function Mentions(value: Json): set<string> { References(value) + SecuritySchemes(value) }

  // ---------- what mentioning means ----------

  /** A part of a value: the value itself, or a part of an item or a member of it. */
  ghost predicate IsPart(part: Json, value: Json) {
    || part == value
    || (value.Arr? && exists i :: 0 <= i < |value.items| && IsPart(part, value.items[i]))
    || (value.Obj? && exists k :: k in value.fields && IsPart(part, value.fields[k]))
  }

  /** A Reference Object with this reference. */
  predicate IsReferenceTo(part: Json, reference: string) {
    part.Obj? && "$ref" in part.fields && part.fields["$ref"] == Str(reference)
  }

  /** An object with a list of security requirements, one of which names the scheme. */
  predicate Requires(part: Json, scheme: string) {
    && part.Obj? && "security" in part.fields && part.fields["security"].Arr?
    && exists i :: 0 <= i < |part.fields["security"].items|
                   && NamesScheme(part.fields["security"].items[i], scheme)
  }

  predicate NamesScheme(requirement: Json, scheme: string) { requirement.Obj? && scheme in requirement.fields }

  lemma {:induction false} ReferencesAreOfParts(value: Json, reference: string)
    ensures reference in References(value) <==> exists part :: IsPart(part, value) && IsReferenceTo(part, reference)
  {
    match value
    case Arr(items) =>
      forall i | 0 <= i < |items| ensures reference in References(items[i])
                                          <==> exists part :: IsPart(part, items[i]) && IsReferenceTo(part, reference)
      {
        ReferencesAreOfParts(items[i], reference);
      }
    case Obj(fields) =>
      forall k | k in fields ensures reference in References(fields[k])
                                     <==> exists part :: IsPart(part, fields[k]) && IsReferenceTo(part, reference)
      {
        ReferencesAreOfParts(fields[k], reference);
      }
      assert IsPart(value, value);
    case _ =>
  }

  lemma OwnSchemesAreRequired(value: Json, reference: string)
    ensures reference in OwnSchemes(value)
            <==> exists scheme :: Requires(value, scheme) && reference == "#/components/securitySchemes/" + scheme
  {
    if scheme :| Requires(value, scheme) && reference == "#/components/securitySchemes/" + scheme {
      var items := value.fields["security"].items;
      var i :| 0 <= i < |items| && NamesScheme(items[i], scheme);
      assert SchemeReference(scheme) in RequiredSchemes(items);
    }
    if reference in OwnSchemes(value) {
      var items := value.fields["security"].items;
      var i, scheme :| 0 <= i < |items| && items[i].Obj? && scheme in items[i].fields.Keys
                       && reference == SchemeReference(scheme);
      assert NamesScheme(items[i], scheme);
      assert Requires(value, scheme);
    }
  }

  /** A part of the value requires the scheme that the reference denotes. */
  ghost predicate RequiredByPart(value: Json, reference: string) {
    exists part :: IsPart(part, value) && RequiredBy(part, reference)
  }

  ghost predicate RequiredBy(part: Json, reference: string) {
    exists scheme :: Requires(part, scheme) && reference == "#/components/securitySchemes/" + scheme
  }

  lemma {:induction false} SchemesAreOfParts(value: Json, reference: string)
    ensures reference in SecuritySchemes(value) <==> RequiredByPart(value, reference)
  {
    OwnSchemesAreRequired(value, reference);
    match value
    case Arr(items) =>
      forall i | 0 <= i < |items|
        ensures reference in SecuritySchemes(items[i]) <==> RequiredByPart(items[i], reference)
      {
        SchemesAreOfParts(items[i], reference);
      }
    case Obj(fields) =>
      forall k | k in fields ensures reference in SecuritySchemes(fields[k]) <==> RequiredByPart(fields[k], reference) {
        SchemesAreOfParts(fields[k], reference);
      }
      assert IsPart(value, value);
    case _ =>
  }

  /** A value mentions a reference if some part of it, at any depth of items and members, is a
      Reference Object with it, or requires the scheme it denotes. */
  ghost predicate Mentioned(value: Json, reference: string) {
    exists part :: IsPart(part, value) && (IsReferenceTo(part, reference) || RequiredBy(part, reference))
  }

  lemma MentionsIff(value: Json, reference: string)
    ensures reference in Mentions(value) <==> Mentioned(value, reference)
  {
    ReferencesAreOfParts(value, reference);
    SchemesAreOfParts(value, reference);
  }

  /** References are written with the names of the nine sections. */
  lemma ReferenceText(id: ComponentId)
    ensures Reference(id)
            == "#/components/"
               + (match id.section
                  case Schemas => "schemas"
                  case Responses => "responses"
                  case Parameters => "parameters"
                  case Examples => "examples"
                  case RequestBodies => "requestBodies"
                  case Headers => "headers"
                  case SecuritySchemesSection => "securitySchemes"
                  case Links => "links"
                  case Callbacks => "callbacks")
               + "/" + id.name
  {
  }

  lemma MentionsOfMember(value: Json, key: string)
    ensures Mentions(Get(value, key)) <= Mentions(value)
  {
    if Has(value, key) {
      assert References(Get(value, key)) <= MemberReferences(value, value.fields.Keys);
      assert SecuritySchemes(Get(value, key)) <= MemberSecuritySchemes(value, value.fields.Keys);
    }
  }

  // ---------- the collecting loops ----------

  /** A mutable set of strings. */
  class StringSet {
    var items: set<string>

    constructor ()
      ensures items == {}
    {
      items := {};
    }

    method Add(s: string)
      modifies this
      ensures items == old(items) + {s}
    {
      items := items + {s};
    }

    method Delete(s: string)
      modifies this
      ensures items == old(items) - {s}
    {
      items := items - {s};
    }
  }

  method CollectReferences(value: Json, pending: StringSet)
    modifies pending
    ensures pending.items == old(pending.items) + References(value)
    decreases value
  {
    if value.Arr? {
      for i := 0 to |value.items|
        invariant pending.items == old(pending.items) + ItemReferences(value, i)
      {
        CollectReferences(value.items[i], pending);
      }
      return;
    }
    if !value.Obj? { return; }
    if Get(value, "$ref").Str? { pending.Add(Get(value, "$ref").s); }
    var keys := value.fields.Keys;
    while keys != {}
      invariant keys <= value.fields.Keys
      invariant pending.items
                == old(pending.items) + OwnReference(value) + MemberReferences(value, value.fields.Keys - keys)
    {
      var key :| key in keys;
      keys := keys - {key};
      CollectReferences(value.fields[key], pending);
    }
    assert value.fields.Keys - keys == value.fields.Keys;
  }

  method CollectSecuritySchemes(value: Json, pending: StringSet)
    modifies pending
    ensures pending.items == old(pending.items) + SecuritySchemes(value)
    decreases value
  {
    if value.Arr? {
      for i := 0 to |value.items|
        invariant pending.items == old(pending.items) + ItemSecuritySchemes(value, i)
      {
        CollectSecuritySchemes(value.items[i], pending);
      }
      return;
    }
    if !value.Obj? { return; }
    var security := Get(value, "security");
    if security.Arr? { CollectRequirements(security.items, pending); }
    var keys := value.fields.Keys;
    while keys != {}
      invariant keys <= value.fields.Keys
      invariant pending.items
                == old(pending.items) + OwnSchemes(value) + MemberSecuritySchemes(value, value.fields.Keys - keys)
    {
      var key :| key in keys;
      keys := keys - {key};
      CollectSecuritySchemes(value.fields[key], pending);
    }
    assert value.fields.Keys - keys == value.fields.Keys;
  }

  method CollectRequirements(requirements: seq<Json>, pending: StringSet)
    modifies pending
    ensures pending.items == old(pending.items) + RequiredSchemes(requirements)
  {
    for i := 0 to |requirements|
      invariant pending.items == old(pending.items) + RequiredSchemes(requirements[..i])
    {
      var requirement := requirements[i];
      assert requirements[..i + 1] == requirements[..i] + [requirement];
      if !requirement.Obj? { continue; }
      var names := requirement.fields.Keys;
      while names != {}
        invariant names <= requirement.fields.Keys
        invariant pending.items
                  == old(pending.items) + RequiredSchemes(requirements[..i])
                     + set name | name in requirement.fields.Keys - names :: SchemeReference(name)
      {
        var name :| name in names;
        names := names - {name};
        pending.Add(SchemeReference(name));
      }
    }
    assert requirements[..|requirements|] == requirements;
  }
}
