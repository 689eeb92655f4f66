/** What sanitizing does to the references a value mentions: it adds none, and drops only
    those inside server objects. */
module SanitizedMentions {
  import opened Json
  import opened OpenApiReferences
  import opened OpenApiSanitizer

  /** An object mentions no more than another if neither it nor any of its members does. */
  lemma MentionsByMember(a: Json, b: Json)
    requires a.Obj? && b.Obj?
    requires OwnReference(a) <= OwnReference(b) && OwnSchemes(a) <= OwnSchemes(b)
    requires forall k :: k in a.fields ==> Mentions(a.fields[k]) <= Mentions(Get(b, k))
    ensures Mentions(a) <= Mentions(b)
  {
    forall r | r in Mentions(a) ensures r in Mentions(b) {
      if r in MemberReferences(a, a.fields.Keys) {
        var k :| k in a.fields && r in References(a.fields[k]);
        MentionsOfMember(b, k);
      } else if r in MemberSecuritySchemes(a, a.fields.Keys) {
        var k :| k in a.fields && r in SecuritySchemes(a.fields[k]);
        MentionsOfMember(b, k);
      }
    }
  }

  // ---------- server objects that mention nothing ----------

  predicate Silent(value: Json) { Mentions(value) == {} }

  predicate QuietLink(link: Json) {
    link.Obj? && !Has(link, "$ref") ==> Silent(Get(link, "server"))
  }

  predicate QuietLinks(links: Json) {
    if links.Obj? then forall name :: name in links.fields ==> QuietLink(links.fields[name]) else Silent(links)
  }

  predicate QuietResponse(response: Json) {
    response.Obj? && !Has(response, "$ref") ==> QuietLinks(Get(response, "links"))
  }

  predicate QuietResponses(responses: Json) {
    responses.Obj? ==> forall status :: status in responses.fields ==> QuietResponse(responses.fields[status])
  }

  predicate QuietCallback(callback: Json) {
    callback.Obj? && !Has(callback, "$ref") ==>
      forall e :: e in callback.fields ==> QuietPath(callback.fields[e])
  }

  predicate QuietCallbacks(callbacks: Json) {
    if callbacks.Obj? then forall name :: name in callbacks.fields ==> QuietCallback(callbacks.fields[name])
    else Silent(callbacks)
  }

  /** No server object of the operation mentions anything, at any depth. */
  predicate QuietOperation(operation: Json) {
    operation.Obj? ==>
      && Silent(Get(operation, "servers"))
      && QuietResponses(Get(operation, "responses"))
      && (Has(operation, "callbacks") ==> QuietCallbacks(operation.fields["callbacks"]))
  }

  predicate QuietPath(path: Json) {
    path.Obj? ==>
      && Silent(Get(path, "servers"))
      && forall m :: m in METHODS && Has(path, m) ==>
           if path.fields[m].Obj? then QuietOperation(path.fields[m]) else Silent(path.fields[m])
  }

  // ---------- sanitizing adds no mention, and loses none of quiet values ----------

  lemma LinkMentions(link: Json)
    ensures Mentions(SanitizeLink(link)) <= Mentions(link)
    ensures QuietLink(link) ==> Mentions(link) <= Mentions(SanitizeLink(link))
  {
    var clean := SanitizeLink(link);
    if link.Obj? && !Has(link, "$ref") {
      forall k | k in clean.fields ensures Mentions(clean.fields[k]) <= Mentions(Get(link, k)) {
      }
      MentionsByMember(clean, link);
      if QuietLink(link) {
        MentionsByMember(link, clean);
      }
    }
  }

  lemma LinksMentions(links: Json)
    ensures Mentions(SanitizeLinks(links)) <= Mentions(links)
    ensures QuietLinks(links) ==> Mentions(links) <= Mentions(SanitizeLinks(links))
  {
    if links.Obj? {
      forall k | k in links.fields
        ensures Mentions(SanitizeLink(links.fields[k])) <= Mentions(links.fields[k])
        ensures QuietLink(links.fields[k]) ==> Mentions(links.fields[k]) <= Mentions(SanitizeLink(links.fields[k]))
      {
        LinkMentions(links.fields[k]);
      }
      MentionsByMember(SanitizeLinks(links), links);
      if QuietLinks(links) {
        MentionsByMember(links, SanitizeLinks(links));
      }
    }
  }

  lemma ResponseMentions(response: Json)
    ensures Mentions(SanitizeResponse(response)) <= Mentions(response)
    ensures QuietResponse(response) ==> Mentions(response) <= Mentions(SanitizeResponse(response))
  {
    if response.Obj? && !Has(response, "$ref") {
      LinksMentions(Get(response, "links"));
      MentionsByMember(SanitizeResponse(response), response);
      if QuietResponse(response) {
        MentionsByMember(response, SanitizeResponse(response));
      }
    }
  }

  lemma ResponsesMentions(responses: Json)
    ensures Mentions(SanitizeResponses(responses)) <= Mentions(responses)
    ensures QuietResponses(responses) ==> Mentions(responses) <= Mentions(SanitizeResponses(responses))
  {
    if responses.Obj? {
      forall k | k in responses.fields
        ensures Mentions(SanitizeResponse(responses.fields[k])) <= Mentions(responses.fields[k])
        ensures QuietResponse(responses.fields[k]) ==>
                  Mentions(responses.fields[k]) <= Mentions(SanitizeResponse(responses.fields[k]))
      {
        ResponseMentions(responses.fields[k]);
      }
      MentionsByMember(SanitizeResponses(responses), responses);
      if QuietResponses(responses) {
        MentionsByMember(responses, SanitizeResponses(responses));
      }
    }
  }

  lemma {:induction false} OperationMentions(operation: Json)
    ensures Mentions(SanitizeOperation(operation)) <= Mentions(operation)
    ensures QuietOperation(operation) ==> Mentions(operation) <= Mentions(SanitizeOperation(operation))
    decreases operation, 2
  {
    if operation.Obj? {
      var clean := SanitizeOperation(operation);
      forall k
        ensures Mentions(Get(clean, k)) <= Mentions(Get(operation, k))
        ensures QuietOperation(operation) ==> Mentions(Get(operation, k)) <= Mentions(Get(clean, k))
      {
        OperationMember(operation, k);
        if k == "responses" {
          ResponsesMentions(Get(operation, k));
        } else if k == "callbacks" && Has(operation, k) {
          CallbacksMentions(operation.fields[k]);
        }
      }
      OperationMember(operation, "$ref");
      OperationMember(operation, "security");
      MentionsByMember(clean, operation);
      if QuietOperation(operation) {
        MentionsByMember(operation, clean);
      }
    }
  }

  lemma {:induction false} CallbacksMentions(callbacks: Json)
    ensures Mentions(SanitizeCallbacks(callbacks)) <= Mentions(callbacks)
    ensures QuietCallbacks(callbacks) ==> Mentions(callbacks) <= Mentions(SanitizeCallbacks(callbacks))
    decreases callbacks, 2
  {
    if callbacks.Obj? {
      forall k | k in callbacks.fields
        ensures Mentions(SanitizeCallback(callbacks.fields[k])) <= Mentions(callbacks.fields[k])
        ensures QuietCallback(callbacks.fields[k]) ==>
                  Mentions(callbacks.fields[k]) <= Mentions(SanitizeCallback(callbacks.fields[k]))
      {
        CallbackMentions(callbacks.fields[k]);
      }
      MentionsByMember(SanitizeCallbacks(callbacks), callbacks);
      if QuietCallbacks(callbacks) {
        MentionsByMember(callbacks, SanitizeCallbacks(callbacks));
      }
    }
  }

  lemma {:induction false} CallbackMentions(callback: Json)
    ensures Mentions(SanitizeCallback(callback)) <= Mentions(callback)
    ensures QuietCallback(callback) ==> Mentions(callback) <= Mentions(SanitizeCallback(callback))
    decreases callback, 2
  {
    if callback.Obj? && !Has(callback, "$ref") {
      forall k | k in callback.fields
        ensures Mentions(SanitizePath(callback.fields[k])) <= Mentions(callback.fields[k])
        ensures QuietPath(callback.fields[k]) ==>
                  Mentions(callback.fields[k]) <= Mentions(SanitizePath(callback.fields[k]))
      {
        PathMentions(callback.fields[k]);
      }
      MentionsByMember(SanitizeCallback(callback), callback);
      if QuietCallback(callback) {
        MentionsByMember(callback, SanitizeCallback(callback));
      }
    }
  }

  lemma {:induction false} PathMentions(path: Json)
    ensures Mentions(SanitizePath(path)) <= Mentions(path)
    ensures QuietPath(path) ==> Mentions(path) <= Mentions(SanitizePath(path))
    decreases path, 2
  {
    if path.Obj? {
      var clean := SanitizePath(path);
      forall k
        ensures Mentions(Get(clean, k)) <= Mentions(Get(path, k))
        ensures QuietPath(path) ==> Mentions(Get(path, k)) <= Mentions(Get(clean, k))
      {
        PathMember(path, k);
        if k in METHODS && Has(path, k) {
          OperationMentions(path.fields[k]);
        }
      }
      PathMember(path, "$ref");
      PathMember(path, "security");
      MentionsByMember(clean, path);
      if QuietPath(path) {
        MentionsByMember(path, clean);
      }
    }
  }

  /** Member by member, what sanitizing does to an operation. */
  lemma OperationMember(operation: Json, key: string)
    requires operation.Obj?
    ensures Get(SanitizeOperation(operation), key)
            == if key == "servers" then Undefined
               else if key == "responses" then SanitizeResponses(Get(operation, key))
               else if key == "callbacks" then
                 if Has(operation, key) then SanitizeCallbacks(operation.fields[key]) else Undefined
               else Get(operation, key)
    ensures key == "$ref" || key == "security" ==> key != "servers" && key != "responses" && key != "callbacks"
  {
  }

  /** Member by member, what sanitizing does to a path item. */
  lemma PathMember(path: Json, key: string)
    requires path.Obj?
    ensures Get(SanitizePath(path), key)
            == if key in METHODS then
                 if Has(path, key) && path.fields[key].Obj? then SanitizeOperation(path.fields[key]) else Undefined
               else if key == "servers" then Undefined
               else Get(path, key)
    ensures key == "$ref" || key == "security" ==> key !in METHODS && key != "servers"
  {
  }

  /** A link loses its server, a response that of its links; references stay as they are. */
  lemma LinkMember(link: Json, key: string)
    ensures Get(SanitizeLink(link), key)
            == if key == "server" && !Has(link, "$ref") then Undefined else Get(link, key)
    ensures !link.Obj? ==> SanitizeLink(link) == link
  {
  }

  lemma LinksMember(links: Json, name: string)
    requires links.Obj?
    ensures SanitizeLinks(links).Obj? && (Has(SanitizeLinks(links), name) <==> Has(links, name))
    ensures Has(links, name) ==> Get(SanitizeLinks(links), name) == SanitizeLink(Get(links, name))
  {
  }

  lemma ResponseMember(response: Json, key: string)
    ensures Get(SanitizeResponse(response), key)
            == if key != "links" || !response.Obj? || Has(response, "$ref") then Get(response, key)
               else if Get(response, key).Obj? then SanitizeLinks(Get(response, key)) else Undefined
    ensures !response.Obj? ==> SanitizeResponse(response) == response
  {
  }

  lemma ResponsesMember(responses: Json, status: string)
    requires responses.Obj?
    ensures SanitizeResponses(responses).Obj? && (Has(SanitizeResponses(responses), status) <==> Has(responses, status))
    ensures Has(responses, status) ==>
              Get(SanitizeResponses(responses), status) == SanitizeResponse(Get(responses, status))
  {
  }

  lemma CallbackMember(callback: Json, expression: string)
    requires callback.Obj?
    ensures SanitizeCallback(callback).Obj?
    ensures Has(SanitizeCallback(callback), expression) <==> Has(callback, expression)
    ensures Has(callback, expression) ==>
              Get(SanitizeCallback(callback), expression)
              == if Has(callback, "$ref") then Get(callback, expression) else SanitizePath(Get(callback, expression))
  {
  }

  lemma CallbacksMember(callbacks: Json, name: string)
    requires callbacks.Obj?
    ensures SanitizeCallbacks(callbacks).Obj? && (Has(SanitizeCallbacks(callbacks), name) <==> Has(callbacks, name))
    ensures Has(callbacks, name) ==> Get(SanitizeCallbacks(callbacks), name) == SanitizeCallback(Get(callbacks, name))
  {
  }
}
