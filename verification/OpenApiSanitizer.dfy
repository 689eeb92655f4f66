/** Removal of server addresses from operations, path items, callbacks, responses and links.
    A value that is not of the shape its place in a document calls for is left as it is. */
module OpenApiSanitizer {
  import opened Json
  import opened OpenApiReferences

  const METHODS: set<string> := {"get", "put", "post", "delete", "options", "head", "patch", "trace"}

  // ---------- what sanitizing produces ----------

  function SanitizeLink(link: Json): Json {
    if !link.Obj? || Has(link, "$ref") then link else Obj(link.fields["server" := Undefined])
  }

  function SanitizeLinks(links: Json): Json {
    if links.Obj? then Obj(map name | name in links.fields :: SanitizeLink(links.fields[name])) else Undefined
  }

  function SanitizeResponse(response: Json): Json {
    if !response.Obj? || Has(response, "$ref") then response
    else Obj(response.fields["links" := SanitizeLinks(Get(response, "links"))])
  }

  function SanitizeResponses(responses: Json): Json {
    if responses.Obj? then Obj(map status | status in responses.fields :: SanitizeResponse(responses.fields[status]))
    else responses
  }

  function SanitizeCallback(callback: Json): Json {
    if !callback.Obj? || Has(callback, "$ref") then callback
    else Obj(map expression | expression in callback.fields :: SanitizePath(callback.fields[expression]))
  }

  function SanitizeCallbacks(callbacks: Json): Json {
    if callbacks.Obj? then Obj(map name | name in callbacks.fields :: SanitizeCallback(callbacks.fields[name]))
    else Undefined
  }

  function SanitizeOperation(operation: Json): Json {
    if !operation.Obj? then operation
    else
      Obj(operation.fields
          ["servers" := Undefined]
          ["responses" := SanitizeResponses(Get(operation, "responses"))]
          ["callbacks" := if Has(operation, "callbacks") then SanitizeCallbacks(operation.fields["callbacks"])
                          else Undefined])
  }

  function SanitizePath(path: Json): Json
    decreases path, 1
  {
    if !path.Obj? then path
    else Obj(path.fields["servers" := Undefined] + SanitizeMethods(path, METHODS))
  }

  function SanitizeMethods(path: Json, methods: set<string>): map<string, Json>
    decreases path, 0
  {
    map m | m in methods ::
      if Has(path, m) && path.fields[m].Obj? then SanitizeOperation(path.fields[m]) else Undefined
  }

  // ---------- the sanitizing loops ----------

  method SanitizeLinksLoop(links: Json) returns (r: Json)
    ensures r == SanitizeLinks(links)
  {
    if !links.Obj? { return Undefined; }
    var sanitized: map<string, Json> := map[];
    var names := links.fields.Keys;
    while names != {}
      invariant names <= links.fields.Keys
      invariant sanitized == map k | k in links.fields.Keys - names :: SanitizeLink(links.fields[k])
    {
      var name :| name in names;
      names := names - {name};
      sanitized := sanitized[name := SanitizeLink(links.fields[name])];
    }
    return Obj(sanitized);
  }

  method SanitizeResponsesLoop(responses: Json) returns (r: Json)
    ensures r == SanitizeResponses(responses)
  {
    if !responses.Obj? { return responses; }
    var sanitized: map<string, Json> := map[];
    var statuses := responses.fields.Keys;
    while statuses != {}
      invariant statuses <= responses.fields.Keys
      invariant sanitized == map k | k in responses.fields.Keys - statuses :: SanitizeResponse(responses.fields[k])
    {
      var status :| status in statuses;
      statuses := statuses - {status};
      var response := responses.fields[status];
      if response.Obj? && !Has(response, "$ref") {
        var links := SanitizeLinksLoop(Get(response, "links"));
        response := Obj(response.fields["links" := links]);
      }
      sanitized := sanitized[status := response];
    }
    return Obj(sanitized);
  }

  method SanitizeCallbackLoop(callback: Json) returns (r: Json)
    ensures r == SanitizeCallback(callback)
    decreases callback
  {
    if !callback.Obj? || Has(callback, "$ref") { return callback; }
    var sanitized: map<string, Json> := map[];
    var expressions := callback.fields.Keys;
    while expressions != {}
      invariant expressions <= callback.fields.Keys
      invariant sanitized == map k | k in callback.fields.Keys - expressions :: SanitizePath(callback.fields[k])
    {
      var expression :| expression in expressions;
      expressions := expressions - {expression};
      var path := SanitizePathValue(callback.fields[expression]);
      sanitized := sanitized[expression := path];
    }
    return Obj(sanitized);
  }

  method SanitizeCallbacksLoop(callbacks: Json) returns (r: Json)
    ensures r == SanitizeCallbacks(callbacks)
    decreases callbacks
  {
    if !callbacks.Obj? { return Undefined; }
    var sanitized: map<string, Json> := map[];
    var names := callbacks.fields.Keys;
    while names != {}
      invariant names <= callbacks.fields.Keys
      invariant sanitized == map k | k in callbacks.fields.Keys - names :: SanitizeCallback(callbacks.fields[k])
    {
      var name :| name in names;
      names := names - {name};
      var callback := SanitizeCallbackLoop(callbacks.fields[name]);
      sanitized := sanitized[name := callback];
    }
    return Obj(sanitized);
  }

  method SanitizeOperationValue(operation: Json) returns (r: Json)
    ensures r == SanitizeOperation(operation)
    decreases operation
  {
    if !operation.Obj? { return operation; }
    var responses := SanitizeResponsesLoop(Get(operation, "responses"));
    var callbacks := Undefined;
    if Has(operation, "callbacks") { callbacks := SanitizeCallbacksLoop(operation.fields["callbacks"]); }
    return Obj(operation.fields["servers" := Undefined]["responses" := responses]["callbacks" := callbacks]);
  }

  method SanitizePathValue(path: Json) returns (r: Json)
    ensures r == SanitizePath(path)
    decreases path
  {
    if !path.Obj? { return path; }
    var operations: map<string, Json> := map[];
    var methods := METHODS;
    while methods != {}
      invariant methods <= METHODS
      invariant operations == SanitizeMethods(path, METHODS - methods)
    {
      var m :| m in methods;
      methods := methods - {m};
      var operation := Undefined;
      if Has(path, m) && path.fields[m].Obj? { operation := SanitizeOperationValue(path.fields[m]); }
      operations := operations[m := operation];
    }
    assert METHODS - methods == METHODS;
    return Obj(path.fields["servers" := Undefined] + operations);
  }

  // ---------- no server is left ----------

  predicate CleanLink(link: Json) {
    link.Obj? && !Has(link, "$ref") ==> Get(link, "server") == Undefined
  }

  predicate CleanResponse(response: Json) {
    response.Obj? && !Has(response, "$ref") ==>
      var links := Get(response, "links");
      links.Obj? ==> forall name :: name in links.fields ==> CleanLink(links.fields[name])
  }

  predicate CleanResponses(responses: Json) {
    responses.Obj? ==> forall status :: status in responses.fields ==> CleanResponse(responses.fields[status])
  }

  predicate CleanCallback(callback: Json) {
    callback.Obj? && !Has(callback, "$ref") ==>
      forall expression :: expression in callback.fields ==> CleanPath(callback.fields[expression])
  }

  predicate CleanCallbacks(callbacks: Json) {
    callbacks.Obj? ==> forall name :: name in callbacks.fields ==> CleanCallback(callbacks.fields[name])
  }

  /** No servers in the operation, its responses' links and its callbacks, at any depth. */
  predicate CleanOperation(operation: Json) {
    operation.Obj? ==>
      && Get(operation, "servers") == Undefined
      && CleanResponses(Get(operation, "responses"))
      && (Has(operation, "callbacks") ==> CleanCallbacks(operation.fields["callbacks"]))
  }

  predicate CleanPath(path: Json) {
    path.Obj? ==>
      && Get(path, "servers") == Undefined
      && forall m :: m in METHODS && Has(path, m) ==> CleanOperation(path.fields[m])
  }

  lemma {:induction false} SanitizedOperationIsClean(operation: Json)
    ensures CleanOperation(SanitizeOperation(operation))
  {
    if Has(operation, "callbacks") {
      SanitizedCallbacksAreClean(operation.fields["callbacks"]);
    }
  }

  lemma {:induction false} SanitizedCallbacksAreClean(callbacks: Json)
    ensures CleanCallbacks(SanitizeCallbacks(callbacks))
  {
    if callbacks.Obj? {
      forall name | name in callbacks.fields ensures CleanCallback(SanitizeCallback(callbacks.fields[name])) {
        SanitizedCallbackIsClean(callbacks.fields[name]);
      }
    }
  }

  lemma {:induction false} SanitizedCallbackIsClean(callback: Json)
    ensures CleanCallback(SanitizeCallback(callback))
  {
    if callback.Obj? && !Has(callback, "$ref") {
      forall e | e in callback.fields ensures CleanPath(SanitizePath(callback.fields[e])) {
        SanitizedPathIsClean(callback.fields[e]);
      }
    }
  }

  lemma {:induction false} SanitizedPathIsClean(path: Json)
    ensures CleanPath(SanitizePath(path))
  {
    if path.Obj? {
      forall m | m in METHODS && Has(path, m) ensures CleanOperation(SanitizeOperation(path.fields[m])) {
        SanitizedOperationIsClean(path.fields[m]);
      }
    }
  }

  // ---------- sanitizing twice is sanitizing once ----------

  lemma LinksIdempotent(links: Json)
    ensures SanitizeLinks(SanitizeLinks(links)) == SanitizeLinks(links)
  {
    if links.Obj? {
      forall name | name in links.fields
        ensures SanitizeLink(SanitizeLink(links.fields[name])) == SanitizeLink(links.fields[name])
      {
      }
    }
  }

  lemma ResponseIdempotent(response: Json)
    ensures SanitizeResponse(SanitizeResponse(response)) == SanitizeResponse(response)
  {
    LinksIdempotent(Get(response, "links"));
  }

  lemma ResponsesIdempotent(responses: Json)
    ensures SanitizeResponses(SanitizeResponses(responses)) == SanitizeResponses(responses)
  {
    if responses.Obj? {
      forall status | status in responses.fields
        ensures SanitizeResponse(SanitizeResponse(responses.fields[status]))
                == SanitizeResponse(responses.fields[status])
      {
        ResponseIdempotent(responses.fields[status]);
      }
    }
  }

  lemma {:induction false} OperationIdempotent(operation: Json)
    ensures SanitizeOperation(SanitizeOperation(operation)) == SanitizeOperation(operation)
  {
    if operation.Obj? {
      ResponsesIdempotent(Get(operation, "responses"));
      if Has(operation, "callbacks") {
        CallbacksIdempotent(operation.fields["callbacks"]);
      }
    }
  }

  lemma {:induction false} CallbacksIdempotent(callbacks: Json)
    ensures SanitizeCallbacks(SanitizeCallbacks(callbacks)) == SanitizeCallbacks(callbacks)
  {
    if callbacks.Obj? {
      forall name | name in callbacks.fields
        ensures SanitizeCallback(SanitizeCallback(callbacks.fields[name])) == SanitizeCallback(callbacks.fields[name])
      {
        CallbackIdempotent(callbacks.fields[name]);
      }
    }
  }

  lemma {:induction false} CallbackIdempotent(callback: Json)
    ensures SanitizeCallback(SanitizeCallback(callback)) == SanitizeCallback(callback)
  {
    if callback.Obj? && !Has(callback, "$ref") {
      forall e | e in callback.fields
        ensures SanitizePath(SanitizePath(callback.fields[e])) == SanitizePath(callback.fields[e])
      {
        PathIdempotent(callback.fields[e]);
      }
    }
  }

  lemma {:induction false} PathIdempotent(path: Json)
    ensures SanitizePath(SanitizePath(path)) == SanitizePath(path)
    decreases path, 1
  {
    if path.Obj? {
      MethodsIdempotent(path, METHODS);
      OverrideTwice(path.fields, "servers", SanitizeMethods(path, METHODS));
    }
  }

  lemma OverrideTwice(fields: map<string, Json>, key: string, overrides: map<string, Json>)
    ensures (fields[key := Undefined] + overrides)[key := Undefined] + overrides
            == fields[key := Undefined] + overrides
  {
  }

  lemma {:induction false} MethodsIdempotent(path: Json, methods: set<string>)
    requires path.Obj?
    ensures var once := Obj(path.fields["servers" := Undefined] + SanitizeMethods(path, methods));
            SanitizeMethods(once, methods) == SanitizeMethods(path, methods)
    decreases path, 0
  {
    forall m | m in methods && Has(path, m)
      ensures SanitizeOperation(SanitizeOperation(path.fields[m])) == SanitizeOperation(path.fields[m])
    {
      OperationIdempotent(path.fields[m]);
    }
  }
}
