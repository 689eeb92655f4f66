/** The text whose hash keys an idempotency record, and which requests share one. */
module IdempotencyKeys {
  import opened Options

  /** The authenticated user's claims; an empty claim counts as absent. */
  datatype User = User(sub: Option<string>, id: Option<string>, requester: string, integration: string)

  datatype Subject =
    | Internal(userId: string)
    | ExternalRequester(requester: string, integration: string)
    | Integration(integrationId: string)

  /** A requester of an integration comes first, then an internal user, then an integration. */
  function ResolveSubject(user: User): Option<Subject> {
    var userId := if user.sub.Some? then user.sub else user.id;
    if user.requester != "" && user.integration != "" then Some(ExternalRequester(user.requester, user.integration))
    else if userId.Some? && userId.value != "" then Some(Internal(userId.value))
    else if user.integration != "" then Some(Integration(user.integration))
    else None
  }

  function Kind(subject: Subject): string {
    match subject
    case Internal(_) => "INTERNAL"
    case ExternalRequester(_, _) => "EXTERNAL_REQUESTER"
    case Integration(_) => "INTEGRATION"
  }

  function SubjectId(subject: Subject): string {
    match subject
    case Internal(id) => id
    case ExternalRequester(id, _) => id
    case Integration(id) => id
  }

  datatype Header = Absent | One(value: string) | Several

  datatype Call = Call(subject: Subject, httpMethod: string, path: string, key: string)

  /** What becomes of a request to an idempotent route. */
  datatype Admission =
    | Unprotected         // without a key, where none is required
    | MissingKey
    | InvalidKey
    | Unauthenticated
    | Admitted(call: Call)

  predicate IsKeyChar(c: char) {
    'A' <= c <= 'Z' || 'a' <= c <= 'z' || '0' <= c <= '9' || c == '.' || c == '_' || c == ':' || c == '-'
  }

  predicate KeyChars(s: string) { forall i :: 0 <= i < |s| ==> IsKeyChar(s[i]) }

  const MAX_KEY: nat := 128

  /** What the pattern `^[A-Za-z0-9._:-]{1,128}$` accepts. */
  predicate AcceptedKey(key: string) { 1 <= |key| <= MAX_KEY && KeyChars(key) }

  /** A key is one to 128 letters, digits, hyphens, dots, colons and underscores, by their codes. */
  lemma AcceptedKeyIff(key: string)
    ensures AcceptedKey(key) <==> 1 <= |key| <= 128 && forall i :: 0 <= i < |key| ==> HasKeyCode(key[i] as int)
  {
    forall c: char ensures IsKeyChar(c) <==> HasKeyCode(c as int) {
    }
  }

  predicate HasKeyCode(code: int) {
    65 <= code <= 90 || 97 <= code <= 122 || 48 <= code <= 58 || code == 45 || code == 46 || code == 95
  }

  function Admit(user: User, httpMethod: string, path: string, header: Header, required: bool): (r: Admission)
    ensures r.Admitted? ==> AcceptedKey(r.call.key) && r.call.httpMethod == httpMethod && r.call.path == path
  {
    match header
    case Absent => if required then MissingKey else Unprotected
    case Several => InvalidKey
    case One(key) =>
      if !AcceptedKey(key) then InvalidKey
      else
        match ResolveSubject(user)
        case None => Unauthenticated
        case Some(subject) => Admitted(Call(subject, httpMethod, path, key))
  }

  /** Who a user is, kind by kind: a requester of an integration before an internal user, and
      that before an integration; the subject claim hides the other identifier. */
  lemma SubjectIff(user: User, subject: Subject)
    ensures ResolveSubject(user) == Some(subject) <==>
              match subject
              case ExternalRequester(requester, integration) =>
                requester == user.requester != "" && integration == user.integration != ""
              case Internal(id) =>
                && (user.requester == "" || user.integration == "") && id != ""
                && (user.sub == Some(id) || (user.sub == None && user.id == Some(id)))
              case Integration(id) =>
                && id == user.integration != "" && user.requester == ""
                && (user.sub == Some("") || (user.sub == None && (user.id == None || user.id == Some(""))))
  {
  }

  /** What a request without an accepted key is told, and one without a subject. */
  lemma RefusedIff(user: User, httpMethod: string, path: string, header: Header, required: bool)
    ensures var r := Admit(user, httpMethod, path, header, required);
            && (r == Unprotected <==> header == Absent && !required)
            && (r == MissingKey <==> header == Absent && required)
            && (r == InvalidKey <==> header == Several || (header.One? && !AcceptedKey(header.value)))
            && (r == Unauthenticated <==> header.One? && AcceptedKey(header.value) && ResolveSubject(user) == None)
            && (r.Admitted? ==> ResolveSubject(user) == Some(r.call.subject) && header == One(r.call.key))
  {
  }

  /** A call is admitted exactly with an accepted key and a user that names a subject. */
  lemma AdmittedIff(user: User, httpMethod: string, path: string, header: Header, required: bool)
    ensures Admit(user, httpMethod, path, header, required).Admitted?
            <==> && header.One? && AcceptedKey(header.value)
                 && (user.integration != "" || (user.sub.Some? && user.sub.value != "")
                     || (user.sub.None? && user.id.Some? && user.id.value != ""))
  {
  }

  function KeyMaterial(call: Call): string {
    Kind(call.subject) + ":" + (SubjectId(call.subject) + ":" + (call.httpMethod + ":" + (call.path + ":" + call.key)))
  }

  /** Who a record is kept for: the kind and identifier, for a requester without the integration. */
  predicate SameCaller(a: Subject, b: Subject) {
    match a
    case Internal(id) => b == Internal(id)
    case ExternalRequester(requester, _) => b.ExternalRequester? && b.requester == requester
    case Integration(id) => b == Integration(id)
  }

  /** No identifier of the subject has a colon. */
  predicate ColonFree(subject: Subject) {
    match subject
    case Internal(id) => ':' !in id
    case ExternalRequester(requester, _) => ':' !in requester
    case Integration(id) => ':' !in id
  }

  lemma {:induction false} SplitAtColon(a: string, b: string, x: string, y: string)
    requires ':' !in a && ':' !in b && a + ":" + x == b + ":" + y
    ensures a == b && x == y
  {
    var s, t := a + ":" + x, b + ":" + y;
    if a == "" || b == "" {
      assert s[|a|] == ':' && t[|b|] == ':';
      assert a == b;
      assert s[1..] == x && t[1..] == y;
    } else {
      assert s[0] == a[0] && t[0] == b[0];
      assert s[1..] == a[1..] + ":" + x && t[1..] == b[1..] + ":" + y;
      SplitAtColon(a[1..], b[1..], x, y);
    }
  }

  lemma KindsHaveNoColon(subject: Subject)
    ensures ':' !in Kind(subject)
  {
  }

  /** Identifiers and HTTP methods have no colon, so two calls share their key material
      exactly when caller and method agree and so do path and key joined by a colon. */
  lemma SharedMaterialIff(a: Call, b: Call)
    requires ColonFree(a.subject) && ColonFree(b.subject)
    requires ':' !in a.httpMethod && ':' !in b.httpMethod
    ensures KeyMaterial(a) == KeyMaterial(b)
            <==> SameCaller(a.subject, b.subject) && a.httpMethod == b.httpMethod
                 && a.path + ":" + a.key == b.path + ":" + b.key
  {
    if KeyMaterial(a) == KeyMaterial(b) {
      KindsHaveNoColon(a.subject);
      KindsHaveNoColon(b.subject);
      var tailA, tailB := a.path + ":" + a.key, b.path + ":" + b.key;
      var restA, restB := a.httpMethod + ":" + tailA, b.httpMethod + ":" + tailB;
      var idA, idB := SubjectId(a.subject) + ":" + restA, SubjectId(b.subject) + ":" + restB;
      SplitAtColon(Kind(a.subject), Kind(b.subject), idA, idB);
      SplitAtColon(SubjectId(a.subject), SubjectId(b.subject), restA, restB);
      SplitAtColon(a.httpMethod, b.httpMethod, tailA, tailB);
      KindsDiffer(a.subject, b.subject);
    }
  }

  lemma KindsDiffer(a: Subject, b: Subject)
    ensures Kind(a) == Kind(b) && SubjectId(a) == SubjectId(b) <==> SameCaller(a, b)
  {
    assert |"INTERNAL"| == 8 && |"EXTERNAL_REQUESTER"| == 18 && |"INTEGRATION"| == 11;
  }

  // ---------- paths and keys joined by a colon ----------

  /** The path ends in a colon followed by characters of a key, and few enough of them. */
  predicate Ambiguous(path: string) { exists i :: 0 <= i < |path| && SplitsAt(path, i) }

  predicate SplitsAt(path: string, i: nat)
    requires i < |path|
  {
    path[i] == ':' && KeyChars(path[i + 1..]) && |path[i + 1..]| <= MAX_KEY - 2
  }

  /** Another path and key, the path shorter, join to the same text as this path and key. */
  predicate TakenFor(path: string, key: string, shorter: string, longerKey: string) {
    && |shorter| < |path| && AcceptedKey(key) && AcceptedKey(longerKey)
    && shorter + ":" + longerKey == path + ":" + key
  }

  lemma SplitOfLonger(path: string, key: string, shorter: string, longerKey: string)
    requires TakenFor(path, key, shorter, longerKey)
    ensures path[|shorter|] == ':' && path[..|shorter|] == shorter
    ensures longerKey == path[|shorter| + 1..] + ":" + key
  {
    var s, t := shorter + ":" + longerKey, path + ":" + key;
    var n := |shorter|;
    assert s[n] == ':' && t[n] == path[n];
    assert s[..n] == shorter && t[..n] == path[..n];
    assert s[n + 1..] == longerKey && t[n + 1..] == path[n + 1..] + ":" + key;
  }

  /** A path can be taken for a shorter one with a longer key exactly when it is ambiguous. */
  lemma TakenForIff(path: string)
    ensures Ambiguous(path) <==> exists key, shorter, longerKey :: TakenFor(path, key, shorter, longerKey)
  {
    if i :| 0 <= i < |path| && SplitsAt(path, i) {
      SplitIsTaken(path, i);
    }
    if key, shorter, longerKey :| TakenFor(path, key, shorter, longerKey) {
      TakenSplits(path, key, shorter, longerKey);
    }
  }

  lemma SplitIsTaken(path: string, i: nat)
    requires i < |path| && SplitsAt(path, i)
    ensures TakenFor(path, "k", path[..i], path[i + 1..] + ":k")
  {
    var rest := path[i + 1..];
    assert path == path[..i] + ":" + rest;
    assert path[..i] + ":" + (rest + ":k") == path + ":" + "k";
    assert KeyChars(rest + ":k");
  }

  lemma TakenSplits(path: string, key: string, shorter: string, longerKey: string)
    requires TakenFor(path, key, shorter, longerKey)
    ensures SplitsAt(path, |shorter|)
  {
    SplitOfLonger(path, key, shorter, longerKey);
    var rest := path[|shorter| + 1..];
    forall i | 0 <= i < |rest| ensures IsKeyChar(rest[i]) {
      assert longerKey[i] == rest[i];
    }
  }

  /** Accepted keys on unambiguous paths: a record belongs to one caller, method, path and key. */
  lemma MaterialIdentifiesCall(a: Call, b: Call)
    requires ColonFree(a.subject) && ColonFree(b.subject)
    requires ':' !in a.httpMethod && ':' !in b.httpMethod
    requires AcceptedKey(a.key) && AcceptedKey(b.key) && !Ambiguous(a.path) && !Ambiguous(b.path)
    ensures KeyMaterial(a) == KeyMaterial(b)
            <==> SameCaller(a.subject, b.subject) && a.httpMethod == b.httpMethod && a.path == b.path && a.key == b.key
  {
    SharedMaterialIff(a, b);
    TakenForIff(a.path);
    TakenForIff(b.path);
    if a.path + ":" + a.key == b.path + ":" + b.key {
      assert !TakenFor(a.path, a.key, b.path, b.key) && !TakenFor(b.path, b.key, a.path, a.key);
      assert |a.path| == |b.path|;
      assert (a.path + ":" + a.key)[..|a.path|] == a.path && (b.path + ":" + b.key)[..|b.path|] == b.path;
      assert (a.path + ":" + a.key)[|a.path| + 1..] == a.key && (b.path + ":" + b.key)[|b.path| + 1..] == b.key;
    }
  }

  /** No colon after the last slash. */
  predicate PlainLastSegment(path: string) {
    exists i :: 0 <= i < |path| && path[i] == '/' && forall j :: i < j < |path| ==> path[j] != ':'
  }

  /** Since keys hold no slash, a path whose last segment has no colon is unambiguous, whatever
      the segments before it are. */
  lemma PlainLastSegmentIsUnambiguous(path: string)
    requires PlainLastSegment(path)
    ensures !Ambiguous(path)
  {
    var i :| 0 <= i < |path| && path[i] == '/' && forall j :: i < j < |path| ==> path[j] != ':';
    forall j | 0 <= j < |path| && path[j] == ':' ensures !SplitsAt(path, j) {
      assert path[j + 1..][i - j - 1] == '/';
    }
  }

  /** On an ambiguous path two calls that the interceptor accepts share their key material. */
  lemma ColonInPathIsAmbiguous(subject: Subject, httpMethod: string, path: string)
    requires Ambiguous(path)
    ensures exists a: Call, b: Call ::
              && a.subject == b.subject == subject && a.httpMethod == b.httpMethod == httpMethod
              && a.path == path && b.path != path && AcceptedKey(a.key) && AcceptedKey(b.key)
              && KeyMaterial(a) == KeyMaterial(b)
  {
    TakenForIff(path);
    var key, shorter, longerKey :| TakenFor(path, key, shorter, longerKey);
    var a, b := Call(subject, httpMethod, path, key), Call(subject, httpMethod, shorter, longerKey);
    assert path + ":" + key == shorter + ":" + longerKey;
    assert KeyMaterial(a) == KeyMaterial(b);
  }

  /** For example. */
  lemma AmbiguousExample()
    ensures Ambiguous("/a:b") && !Ambiguous("/a:b/c")
    ensures TakenFor("/a:b", "k", "/a", "b:k")
  {
    assert "/a:b"[3..] == "b" && SplitsAt("/a:b", 2);
    assert "/a:b/c"[4] == '/';
    PlainLastSegmentIsUnambiguous("/a:b/c");
    assert "/a" + ":" + "b:k" == "/a:b" + ":" + "k";
  }
}
