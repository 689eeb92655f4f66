# Verified models of the telecom support backend

This project models the parts of the support backend where correctness depends on more than one
function: the business-hours calendar behind SLA deadlines, the projection of the OpenAPI
document onto its public operations, the idempotent request protocol and the joined
transactions under it, the claiming of SLA alerts, the in-memory rate limiter, the upload of
public attachments, the settings cache, and the canonical form of JSON. Each part is one or
more Dafny modules, one per file, and everything is proved for all inputs, all runs or all
reachable states. `dafny verify dfyconfig.toml` checks the whole project.

| Files | Part |
|---|---|
| `Options` | A value that may be absent |
| `SlaCalendar`, `SlaHelper`, `SlaDeadlines` | The calendar as a set of open instants; the code that moves a mutable date; what its deadlines promise |
| `Json`, `OpenApiReferences`, `ReferenceGraph`, `OpenApiSanitizer`, `SanitizedMentions`, `PublicOpenApi`, `SanitizedGraph`, `PublicContract`, `PublicSelection` | JSON values; references and the collecting loops; reachability and the worklist; removal of server addresses; its effect on references; the projection; what is reached outside of server objects; what the projection promises; which routes, operations and tags it selects |
| `StableJson` | Sorting object keys at every depth |
| `Idempotency`, `IdempotencyKeys` | The request protocol as interleaved steps, and one request alone; the text that is hashed to a key |
| `Transactions` | Joined transactions and after-commit effects |
| `SlaAlerts`, `SlaAlertProtocol` | Ticket rows, claims, releases and a processor's sweep; several processors interleaved with each other and with other changes |
| `RateLimiter` | The window counter with pruning |
| `UploadSaga` | Files and rows under concurrent uploads |
| `SettingsCache` | The settings cache under interleaved reads, updates and writes by other processes |

## Findings

Where the code does not keep a promise on all inputs, the model keeps the code and the project
states exactly when the promise holds.

- A deadline drops up to a minute of open time, and only on the first open day
  (`DeadlineIsExact`, `HalfMinuteIsLost`).
- Projecting a document twice is projecting it once exactly when no component that the public
  paths refer to is referred to in server objects only (`ProjectionIdempotentIff`). A concrete
  document fails (`ServerReferenceBreaksIdempotence`); documents whose server objects mention
  nothing are safe (`QuietProjectionIdempotent`).
- The projection follows references in paths and components, not those in `info` and `tags`; a
  reference there dangles unless the paths refer to its component too (`NothingDanglesIff`, `InfoReferenceDangles`).
- A required security scheme whose name contains a slash, or is empty, is dropped
  (`RequiredSchemeKeptIff`, `SlashedSchemeIsDropped`).
- The sorted form of a JSON value is canonical exactly when the comparison tells the keys of each
  of its objects apart (`OneFormIff`). `localeCompare` does not do so for canonically equivalent
  strings, such as a composed and a decomposed "é"; for other keys the form is canonical
  (`SortIsCanonical`).
- A path that ends in a colon and characters of a key can be taken for a shorter path with a
  longer key, so that two different calls would share a record (`TakenForIff`,
  `ColonInPathIsAmbiguous`). This is latent: a path whose last segment has no colon is safe
  (`PlainLastSegmentIsUnambiguous`), and every route now marked idempotent ends in such a segment.
- Releasing a claim whose notice failed gives the row back only if the claim was a warning, or a
  first breach on a row whose flag said no more than whether the other target is in breach
  (`ReleaseUndoesClaimIff`). The release of a repeat also forgets the original breach
  (`FailedRepeatForgetsBreach`), and that of a first breach loses the flag that the breach-check
  worker has set (`FailedClaimLosesFlag`, and a run that does so, `FailedClaimLosesWorkersFlag`).
- The breach-check worker flags tickets without stamping a breach (`FlagWithoutStamp`). A flag is
  without a stamp exactly for the tickets it has flagged and of which no breach has been claimed
  or released since (`RowsStayConsistent`).
- The in-memory limiter lets up to twice the limit less one through in one window's length,
  and this is reached (`LessThanTwiceTheLimit`, `BoundIsReached`). With a limit of zero or
  less, the first call of a window still passes (`FirstCallAlwaysPasses`).
- An error caught inside a joined transaction does not undo the work before it
  (`CaughtErrorKeepsNestedWork`).
- A request is told that an identical one is in progress only when an execution of its key has
  been committed and has expired (`RefusalsAreTrue`), since inserts wait for open transactions.
- A database failure before an upload's key has been looked up leaves its incoming file behind
  (`FileLeftBehind`), and so does a failure to make its quarantine directory; nothing else does
  while the deletion of files succeeds (`FilesAndRowsAgree`).
- `getSetting` may return another caller's default, which the cache has kept
  (`AnotherCallersDefault`, `OwnDefaultIff`). This is latent: every setting is now read with one
  default, and then the caller's own is returned (`AgreedDefaultIsReturned`). An update's invalidation lasts exactly when no
  slower read still holds an older value (`InvalidationLastsIff`); after a minute every update
  shows in any case (`UpdatesShowWithinAMinute`).
- Where the comments of the source speak of public holidays, the code knows weekdays only; the
  model follows the code.

## Model

| member | source | states |
|---|---|---|
| SlaCalendar.NextOpen | src/common/helpers/sla.helper.ts:78-98 | There is a first open instant from any instant on: the instant itself or an opening |
| SlaHelper.AdjustToBusinessHours | src/common/helpers/sla.helper.ts:78-98 | The in-place adjustment ends at the first open instant from its start on, and recurses at most once, only from at or after closing hour |
| SlaHelper.CalculateSlaDueDate | src/common/helpers/sla.helper.ts:23-69 | Both loops end; around the clock the due date is elapsed minutes, in business hours the earliest instant with the budgeted open time before it; the start date is left alone |
| SlaHelper.SpendRestOfDay | src/common/helpers/sla.helper.ts:59-65 | Moving to the next open morning spends exactly the open rest of the day, and no later day has a sub-minute part to drop |
| SlaHelper.SpendWithinDay | src/common/helpers/sla.helper.ts:55-58 | Minutes that fit before closing end at the deadline |
| SlaCalendar.EarliestWithOpenTime | src/common/helpers/sla.helper.ts:47-68 | A deadline that ends an open instant is the least one with its amount of open time |
| SlaDeadlines.DueDate | src/common/helpers/sla.helper.ts:23-69 | The one deadline of a start, a number of minutes and a calendar |
| SlaDeadlines.DeadlineExists | src/common/helpers/sla.helper.ts:48-66 | For every start and number of minutes there is a deadline |
| SlaDeadlines.DeadlineIsUnique | src/common/helpers/sla.helper.ts:48-66 | and no other instant is one |
| SlaDeadlines.OnFirstDayIff | src/common/helpers/sla.helper.ts:53-58 | A deadline falls on the first open day exactly when its minutes fit before closing |
| SlaDeadlines.DeadlineIsExact | src/common/helpers/sla.helper.ts:45-66 | Open time from start to deadline is the minutes asked for plus a loss below one minute: none on the first open day or from an aligned start, else what that day has beyond whole minutes |
| SlaDeadlines.HalfMinuteIsLost | src/common/helpers/sla.helper.ts:53 | In every calendar, a whole day of minutes started half a minute after opening loses half a minute |
| SlaDeadlines.DeadlinesCompose | src/common/helpers/sla.helper.ts:48-97 | Adding a minutes and then b is adding a + b, at closing time and from unaligned starts too |
| SlaDeadlines.DeadlineStrictlyIncreasesInMinutes | src/common/helpers/sla.helper.ts:48-68 | More minutes give a strictly later deadline |
| SlaDeadlines.DeadlineMonotoneInStart | src/common/helpers/sla.helper.ts:35-68 | A later start never gives an earlier deadline |
| SlaDeadlines.DeadlineNeverBefore24x7 | src/common/helpers/sla.helper.ts:31-68 | A business-hours deadline is never before the round-the-clock one |
| SlaDeadlines.DeadlineWithinBusinessHours | src/common/helpers/sla.helper.ts:45-68 | A deadline is on a business day, between opening and closing time inclusive |
| SlaDeadlines.OpenIff | src/common/helpers/sla.helper.ts:83-97 | An instant is open exactly if its weekday, counted from a Thursday on day 0, is a business day and its time of day is from opening to before closing |
| SlaDeadlines.DueOnTheOnlyWeekday | src/common/helpers/sla.helper.ts:83 | A desk open on one weekday only is due on that weekday |
| SlaDeadlines.WeekendIsDueOnMonday | src/common/helpers/sla.helper.ts:78-98 | A start on a weekend, under Monday to Friday, is due on Monday at opening plus the minutes, if they fit |
| SlaDeadlines.DeadlineUpperBound | src/common/helpers/sla.helper.ts:48-66 | A deadline is no later than closing time, one week per started day of minutes after the first open day |
| OpenApiReferences.ParseInvertsReference | src/common/openapi/public-openapi.ts:134-138 | The reference pattern accepts exactly the written references to named components of known sections |
| OpenApiReferences.CollectReferences | src/common/openapi/public-openapi.ts:75-83 | The loop adds every string-valued `$ref` at any depth, and nothing else |
| OpenApiReferences.CollectSecuritySchemes | src/common/openapi/public-openapi.ts:103-117 | The loop adds a reference for every scheme named by a security requirement at any depth, and nothing else |
| OpenApiReferences.CollectRequirements | src/common/openapi/public-openapi.ts:109-115 | Every name in a list of requirements is added as a scheme reference; entries that are no objects are skipped |
| OpenApiReferences.ReferencesAreOfParts | src/common/openapi/public-openapi.ts:75-83 | A string is collected exactly if some part of the value, at any depth of items and members, is an object with it as `$ref` |
| OpenApiReferences.SchemesAreOfParts | src/common/openapi/public-openapi.ts:103-117 | A scheme is collected exactly if some part of the value has a security list that names it |
| OpenApiReferences.MentionsIff | src/common/openapi/public-openapi.ts:75-117 | Mentioning, in terms of parts alone |
| OpenApiReferences.ReferenceText | src/common/openapi/public-openapi.ts:8-18 | References are written with the names of the nine sections |
| OpenApiReferences.SimpleNameIff | src/common/openapi/public-openapi.ts:134 | The names the pattern accepts are not empty and hold no slash |
| ReferenceGraph.VisitReference | src/common/openapi/public-openapi.ts:134-142 | One visit notes the component denoted and makes pending what it mentions |
| ReferenceGraph.ReferencedComponents | src/common/openapi/public-openapi.ts:119-145 | The worklist ends on every document, cycles included, and whatever order it takes references in collects exactly the components to which a chain leads from a part of the paths, each link a part of the component before |
| ReferenceGraph.ReferencedIff | src/common/openapi/public-openapi.ts:119-145 | Reachability, in terms of the parts of paths and components alone |
| ReferenceGraph.ReferencedNames | src/common/openapi/public-openapi.ts:119-145 | There is, per section, a set of exactly the reachable component names |
| ReferenceGraph.NamesAreUnique | src/common/openapi/public-openapi.ts:119-145 | The collected names are a function of document and paths alone |
| OpenApiSanitizer.SanitizeLinksLoop | src/common/openapi/public-openapi-sanitizer.ts:19-24 | The loop drops the server of every link that is no reference |
| OpenApiSanitizer.SanitizeResponsesLoop | src/common/openapi/public-openapi-sanitizer.ts:35-39 | The loop sanitizes the links of every response that is no reference |
| OpenApiSanitizer.SanitizeCallbackLoop | src/common/openapi/public-openapi-sanitizer.ts:41-46 | The loop sanitizes every path item of a callback that is no reference |
| OpenApiSanitizer.SanitizeCallbacksLoop | src/common/openapi/public-openapi-sanitizer.ts:48-53 | The loop sanitizes every callback |
| OpenApiSanitizer.SanitizeOperationValue | src/common/openapi/public-openapi-sanitizer.ts:55-62 | An operation loses its servers, and its responses and callbacks are sanitized |
| OpenApiSanitizer.SanitizePathValue | src/common/openapi/public-openapi-sanitizer.ts:64-77 | A path item loses its servers, and each of its operations is sanitized; the mutual recursion ends |
| OpenApiSanitizer.SanitizedOperationIsClean | src/common/openapi/public-openapi-sanitizer.ts:14-77 | No server is left in a sanitized operation, its links and its callbacks, at any depth |
| OpenApiSanitizer.OperationIdempotent | src/common/openapi/public-openapi-sanitizer.ts:55-77 | Sanitizing an operation twice is sanitizing it once |
| OpenApiSanitizer.PathIdempotent | src/common/openapi/public-openapi-sanitizer.ts:64-77 | The same for path items |
| OpenApiSanitizer.SanitizedPathIsClean | src/common/openapi/public-openapi-sanitizer.ts:64-77 | No server is left in a sanitized path item at any depth |
| SanitizedMentions.OperationMentions | src/common/openapi/public-openapi-sanitizer.ts:14-77 | Sanitizing adds no reference or required scheme, and loses none if no server object mentions any |
| SanitizedMentions.CallbackMentions | src/common/openapi/public-openapi-sanitizer.ts:41-53 | The same for callbacks |
| SanitizedMentions.PathMentions | src/common/openapi/public-openapi-sanitizer.ts:64-77 | and for path items |
| SanitizedMentions.LinkMember | src/common/openapi/public-openapi-sanitizer.ts:14-17 | A link that is no reference loses its server and nothing else |
| SanitizedMentions.LinksMember | src/common/openapi/public-openapi-sanitizer.ts:19-24 | Every link is kept, sanitized |
| SanitizedMentions.ResponseMember | src/common/openapi/public-openapi-sanitizer.ts:26-33 | A response that is no reference has its links sanitized and nothing else changed |
| SanitizedMentions.ResponsesMember | src/common/openapi/public-openapi-sanitizer.ts:35-39 | Every response is kept, sanitized |
| SanitizedMentions.CallbackMember | src/common/openapi/public-openapi-sanitizer.ts:41-46 | Every path item of a callback is kept, sanitized unless the callback is a reference |
| SanitizedMentions.CallbacksMember | src/common/openapi/public-openapi-sanitizer.ts:48-53 | Every callback is kept, sanitized |
| SanitizedMentions.OperationMember | src/common/openapi/public-openapi-sanitizer.ts:55-62 | An operation loses its servers; its responses and callbacks are sanitized; its other members stay |
| SanitizedMentions.PathMember | src/common/openapi/public-openapi-sanitizer.ts:64-77 | A path item loses its servers; its operations are sanitized; its other members stay |
| PublicOpenApi.FirstInsecure | src/common/openapi/public-openapi.ts:38-55 | The first method, in the order they are looked at, whose public operation lacks security requirements, if there is one |
| PublicOpenApi.PublicPathsLoop | src/common/openapi/public-openapi.ts:33-73 | Exactly the public operations are selected; it fails exactly when one lacks security requirements, and names the first such route in the order of the document and its first such method |
| PublicOpenApi.ProjectPublicOpenApi | src/common/openapi/public-openapi.ts:169-185 | It succeeds exactly when every public operation says its security, and returns the projection; else it names the first that does not |
| PublicSelection.IsPublicIff | src/common/openapi/public-openapi.ts:28-31 | An operation is public exactly if it is an object marked for the public-support audience |
| PublicSelection.AllSecuredIff | src/common/openapi/public-openapi.ts:38-41 | The projection succeeds exactly if every public operation of the eight methods has a list of security requirements |
| PublicSelection.MethodOrder | src/common/openapi/public-openapi.ts:46-55 | The order in which the methods are looked at |
| PublicSelection.RouteKeptIff | src/common/openapi/public-openapi.ts:57-73 | A route is kept exactly if one of its eight methods is public |
| PublicSelection.RouteMember | src/common/openapi/public-openapi.ts:45-64 | A kept route has its summary, description and parameters, its public operations sanitized, and nothing else |
| PublicSelection.InfoMember | src/common/openapi/public-openapi.ts:176-180 | The information keeps its members but has its own title and description |
| PublicSelection.ComponentsIff | src/common/openapi/public-openapi.ts:165 | There are components exactly if one is kept |
| PublicSelection.TagKeptIff | src/common/openapi/public-openapi.ts:171-183 | A tag is kept exactly if a public operation lists its name |
| PublicSelection.KeepTagsInOrder | src/common/openapi/public-openapi.ts:183 | The tags kept keep their order |
| PublicContract.ComponentKeptIff | src/common/openapi/public-openapi.ts:147-166 | A component is kept exactly when the source has it and a public path reaches it, unchanged but for its servers |
| PublicContract.ProjectionIsClean | src/common/openapi/public-openapi.ts:152-185 | No server is left in the projected document, in paths or components, at any depth |
| PublicContract.ProjectionIsClosed | src/common/openapi/public-openapi.ts:119-166 | Every component that the paths or components of the projected document mention and the source has is in the projected document |
| PublicContract.NothingDanglesIff | src/common/openapi/public-openapi.ts:169-185 | The same holds of everything the projected document mentions exactly when its info and tags mention no further component of the source |
| PublicContract.InfoReferenceDangles | src/common/openapi/public-openapi.ts:169-185 | A concrete document whose info refers to a component that the projection drops |
| PublicContract.RequiredSchemeKeptIff | src/common/openapi/public-openapi.ts:109-138 | A required security scheme is kept exactly when the source has it and its name matches the pattern |
| PublicContract.SlashedSchemeIsDropped | src/common/openapi/public-openapi.ts:113-138 | A concrete document whose required scheme is dropped |
| PublicContract.PublicPathsIdempotent | src/common/openapi/public-openapi.ts:45-73 | Selecting public paths twice is selecting them once, and keeps them secured |
| PublicContract.ProjectionIdempotentIff | src/common/openapi/public-openapi.ts:169-185 | Projecting twice is projecting once exactly when every component of the source that the public paths refer to is also referred to outside of server objects |
| PublicContract.ReachedInProjectionIff | src/common/openapi/public-openapi.ts:119-166 | The projection reaches exactly what the source reaches outside of server objects |
| SanitizedGraph.ComponentMentions | src/common/openapi/public-openapi-sanitizer.ts:79-104 | Sanitizing a component adds no mention, and loses none if its server objects mention nothing |
| PublicContract.QuietProjectionIdempotent | src/common/openapi/public-openapi.ts:147-185 | It is when no server object of a component that the paths refer to mentions anything |
| PublicContract.ServerReferenceIsLost | src/common/openapi/public-openapi.ts:152-185 | A schema referred to only from a link's server is kept at first and lost at the second projection |
| PublicContract.ServerReferenceBreaksIdempotence | src/common/openapi/public-openapi.ts:152-185 | A concrete document for which projecting twice differs from projecting once |
| StableJson.SortKeepsEntries | src/common/openapi/stable-json.ts:28-32 | Sorting keeps every key with its value, sorted, and adds none |
| StableJson.SortedRecord | src/common/openapi/stable-json.ts:28-32 | The entries of a sorted object are in ascending order of their keys |
| StableJson.SortKeepsMeaning | src/common/openapi/stable-json.ts:24-33 | The sorted value is the same JSON value |
| StableJson.SortIdempotent | src/common/openapi/stable-json.ts:24-33 | Sorting twice is sorting once |
| StableJson.SortIsCanonical | src/common/openapi/stable-json.ts:24-33 | Two values, the keys of one told apart by the comparison, have the same sorted form exactly when they are equal up to key order at every depth |
| StableJson.OneFormIff | src/common/openapi/stable-json.ts:24-33 | A value has one sorted form for all orders of its keys exactly when the comparison tells the keys of each of its objects apart |
| StableJson.SortIsStable | src/common/openapi/stable-json.ts:30 | Entries keep their order when the first compares as at most as great as the second |
| StableJson.EqualKeysKeepTheirOrder | src/common/openapi/stable-json.ts:30 | If two distinct keys compare as equal the sorted form is not canonical |
| Idempotency.InvariantKept | src/common/interceptors/idempotency.interceptor.ts:89-119 | Every step of every request keeps: open transactions hold their keys, committed rows are the records of committed executions, executions of a key are apart, replays are justified |
| Idempotency.AtMostOneExecutionPerWindow | src/common/interceptors/idempotency.interceptor.ts:93-113 | In every run at most one committed execution of a key is valid at any instant, and a later one is inserted only after the earlier one expired |
| Idempotency.ReplaysAreFaithful | src/common/interceptors/idempotency.interceptor.ts:149-158 | Every replay gave the status and body stored by a committed execution of the same key and content, while it was valid |
| Idempotency.NeverStoredInProgress | src/common/interceptors/idempotency.interceptor.ts:94-112 | No committed record lacks a status, so no request is answered from one that does |
| Idempotency.ValidRecordAnswers | src/common/interceptors/idempotency.interceptor.ts:89-119 | While a record is valid, the same content is answered from it, other content is refused, and an insert collides |
| Idempotency.ExecutedIsCommitted | src/common/interceptors/idempotency.interceptor.ts:94-113 | A request that reports a handler result has a committed execution with it |
| Idempotency.RefusalsAreTrue | src/common/interceptors/idempotency.interceptor.ts:114-152 | A refusal for other content means a committed execution of the key with other content; one for being in progress means a committed execution of the key that had expired by then |
| Idempotency.VanishedRecordIsInProgress | src/common/interceptors/idempotency.interceptor.ts:114-117 | A request that collided and finds no valid record is told that one is in progress |
| Idempotency.ExpiredKeyRunsAgain | src/common/interceptors/idempotency.interceptor.ts:89-105 | Once a record has expired and no transaction holds its key, the handler runs again |
| Idempotency.NeverBlocked | src/common/interceptors/idempotency.interceptor.ts:89-119 | An unfinished request can go on without a failure, or waits for a transaction on its key that can |
| Idempotency.IdempotencyInterceptor.FindOrMiss | src/common/interceptors/idempotency.interceptor.ts:89-91 | Expired records are purged, and a valid one of the key answers the request |
| Idempotency.IdempotencyInterceptor.Lock | src/common/interceptors/idempotency.interceptor.ts:94-105 | A record without a response, valid for a day, is inserted but not committed |
| Idempotency.IdempotencyInterceptor.Complete | src/common/interceptors/idempotency.interceptor.ts:106-113 | The response is stored and committed with the record |
| Idempotency.IdempotencyInterceptor.Intercept | src/common/interceptors/idempotency.interceptor.ts:85-120 | One request alone: a valid record answers it; otherwise the record, its response and the handler's work are committed together, or nothing is |
| IdempotencyKeys.SharedMaterialIff | src/common/interceptors/idempotency.interceptor.ts:86-88 | Two calls share a key exactly when kind, identifier and method agree and so do path and key joined by a colon |
| IdempotencyKeys.AdmittedIff | src/common/interceptors/idempotency.interceptor.ts:70-83 | A request is admitted exactly with one key that the pattern accepts and a user that names a subject |
| IdempotencyKeys.SubjectIff | src/common/interceptors/idempotency.interceptor.ts:122-134 | Who a user is, kind by kind and by which identifier |
| IdempotencyKeys.RefusedIff | src/common/interceptors/idempotency.interceptor.ts:70-83 | Which request is passed through or refused, and why |
| IdempotencyKeys.AcceptedKeyIff | src/common/interceptors/idempotency.interceptor.ts:30 | The keys the pattern accepts, by the codes of their characters |
| IdempotencyKeys.TakenForIff | src/common/interceptors/idempotency.interceptor.ts:86-88 | A path can be taken for a shorter one with a longer accepted key exactly when it ends in a colon and at most 126 key characters |
| IdempotencyKeys.MaterialIdentifiesCall | src/common/interceptors/idempotency.interceptor.ts:86-88 | For accepted keys on other paths a key belongs to one caller, method, path and header value |
| IdempotencyKeys.PlainLastSegmentIsUnambiguous | src/common/interceptors/idempotency.interceptor.ts:30-88 | A path whose last segment has no colon is such a path |
| IdempotencyKeys.ColonInPathIsAmbiguous | src/common/interceptors/idempotency.interceptor.ts:86-88 | On every other path two different accepted calls share a key |
| IdempotencyKeys.AmbiguousExample | src/common/interceptors/idempotency.interceptor.ts:86-88 | A concrete pair of such calls |
| Transactions.DrizzleProvider.RunTransaction | src/database/drizzle.provider.ts:62-88 | A nested call only extends the open transaction; an outermost one that fails, in its callback or its commit, changes nothing; else it commits the values its actions wrote, in order and each once, and then runs the effects they registered, in order and each once |
| Transactions.TransactionCommitsActions | src/database/drizzle.provider.ts:74-87 | The same of the transaction as a function, place by place over the actions performed |
| Transactions.PlainIsPerformed | src/database/drizzle.provider.ts:62-64 | A callback of writes and registrations performs all of them |
| Transactions.NothingAfterThrow | src/database/drizzle.provider.ts:77 | An uncaught error fails the transaction, and nothing after it is performed |
| Transactions.AttemptPerformsWhatPrecedes | src/database/drizzle.provider.ts:75-77 | Caught code performs what precedes its error, and what follows is performed too |
| Transactions.NestedIsInPlace | src/database/drizzle.provider.ts:75 | A nested transaction performs its actions in its place |
| Transactions.WritesOutsideCommitAtOnce | src/database/drizzle.provider.ts:62-68 | Outside of a transaction each write is committed by itself |
| Transactions.DrizzleProvider.RegisterAfterCommit | src/database/drizzle.provider.ts:93-100 | Within a transaction the effect is only noted; outside it runs at once, and only what it throws at once reaches the caller |
| Transactions.FlattenKeepsTrace | src/database/drizzle.provider.ts:74-78 | Replacing nested transactions by their actions changes no write, no registration and no failure |
| Transactions.DrizzleProvider.RunEffects | src/database/drizzle.provider.ts:80-86 | All effects run in order; a failing one is logged and stops none |
| Transactions.NestedEqualsFlattened | src/database/drizzle.provider.ts:74-88 | A tree of nested transactions behaves as the outermost one with their actions in place |
| Transactions.EffectsRunOnlyAfterCommit | src/database/drizzle.provider.ts:76-87 | After the commit each registered effect runs once, in order, a failing one suppressing none of the later ones, and every effect follows the commit of its own transaction |
| Transactions.EffectsAlwaysFollowCommits | src/database/drizzle.provider.ts:74-100 | In every program of any number of transactions and caught errors, an effect that ran for a transaction ran after its commit |
| Transactions.FailureLeavesNothing | src/database/drizzle.provider.ts:76-79 | A transaction leaves nothing exactly when its callback throws or its commit is refused |
| Transactions.CaughtErrorKeepsNestedWork | src/database/drizzle.provider.ts:75 | A caught error inside a nested transaction leaves the work before it in the outer one |
| SlaAlerts.SlaAlertProcessor.FindCandidates | src/modules/sla/sla-alert-processor.service.ts:93-154 | Distinct candidates, all there are or 100 of them |
| SlaAlerts.SlaAlertProcessor.ClaimAlert | src/modules/sla/sla-alert-processor.service.ts:159-256 | Succeeds exactly on a candidate, stamps, notes and flags it column by column, and changes that row only |
| SlaAlerts.SlaAlertProcessor.ReleaseAlert | src/modules/sla/sla-alert-processor.service.ts:261-290 | Column by column: the notice of its kind is cleared, a breach's with the stamp, the flag then says whether the other target is in breach, and all other columns and rows are unchanged |
| SlaAlerts.SlaAlertProcessor.HandleTicket | src/modules/sla/sla-alert-processor.service.ts:72-87 | One row is claimed if it still can be, notified once, and given back if the notice fails |
| SlaAlerts.SlaAlertProcessor.ProcessTarget | src/modules/sla/sla-alert-processor.service.ts:63-88 | Every selected row is claimed, and given back when its notice fails; one notice goes out for each of the others, a breach mail for a breach with mail enabled and else a warning mail |
| SlaAlerts.SlaAlertProcessor.Process | src/modules/sla/sla-alert-processor.service.ts:47-58 | A sweep is the four passes in order, each over what the one before left, with the configured warning time or 30 minutes |
| SlaAlerts.SweepKeepsConsistent | src/modules/sla/sla-alert-processor.service.ts:47-88 | Whichever notices fail in whichever pass, a sweep keeps of every row what held of it: that notices match stamps, that a stamp implies the flag, and that notices match stamps and the flag says exactly whether there is one |
| SlaAlerts.CandidateIffClaimable | src/modules/sla/sla-alert-processor.service.ts:93-256 | A row is selected exactly when a claim on the unchanged row would succeed |
| SlaAlerts.CandidateIff | src/modules/sla/sla-alert-processor.service.ts:103-129 | When a row is due a breach notice or a warning, column by column, with the interval of six hours |
| SlaAlerts.ClaimTakes | src/modules/sla/sla-alert-processor.service.ts:175-255 | What a claim does to each column |
| SlaAlerts.WarningAndBreachDisjoint | src/modules/sla/sla-alert-processor.service.ts:114-129 | At one clock value a target is due a warning or a breach notice, never both |
| SlaAlerts.ClaimedIsNoCandidate | src/modules/sla/sla-alert-processor.service.ts:93-256 | A claimed row is not selected again at that clock value, and the other target's selection is untouched |
| SlaAlerts.ReleaseUndoesClaimIff | src/modules/sla/sla-alert-processor.service.ts:261-290 | On every row, a release undoes a claim exactly when it was a warning, or a first breach of a target with no earlier notice on a row whose flag said whether the other target is in breach; both keep a row as consistent as it was |
| SlaAlerts.ReleaseOfConsistentRow | src/modules/sla/sla-alert-processor.service.ts:261-290 | For a row whose flag says whether a breach is stamped, that is when the claim was no repeat |
| SlaAlerts.FailedClaimLosesFlag | src/modules/sla/sla-alert-processor.service.ts:271-281 | A concrete row whose flag is lost by the release of a first claim |
| SlaAlerts.FailedRepeatForgetsBreach | src/modules/sla/sla-alert-processor.service.ts:271-289 | A concrete row in breach that is not after a failed repeat |
| SlaAlerts.PassOverIsPass | src/modules/sla/sla-alert-processor.service.ts:63-88 | A pass of a sweep whose notices all go out handles a full page of candidates, or all there are |
| SlaAlerts.PassesDrain | src/modules/sla/sla-alert-processor.service.ts:63-154 | With no failure and a fixed clock, k passes leave n - 100k of n candidates |
| SlaAlerts.DrainedExactlyWhen | src/modules/sla/sla-alert-processor.service.ts:63-154 | All are handled after ceil(n / 100) passes and not before |
| SlaAlertProtocol.BreachClaimsAreSpaced | src/modules/sla/sla-alert-processor.service.ts:159-290 | Over every interleaving, two breach claims with no release between carry clock values more than six hours apart |
| SlaAlertProtocol.WarningClaimsAlternate | src/modules/sla/sla-alert-processor.service.ts:159-290 | Over every interleaving, warning claims alternate with releases, and the row tells whether one stands |
| SlaAlertProtocol.OneWarningAtATime | src/modules/sla/sla-alert-processor.service.ts:63-88 | No two processors send the same warning at once |
| SlaAlertProtocol.RowsStayConsistent | src/modules/sla/sla-alert-processor.service.ts:175-290 | The notified key is present exactly when the breach is stamped; a stamp implies the flag; a flag is without a stamp exactly if the breach-check worker has set it and no breach has been claimed or released since |
| SlaAlertProtocol.FlagWithoutStamp | src/queues/workers/sla.worker.ts:33-44 | A run in which the worker flags a ticket that has no stamp |
| SlaAlertProtocol.FailedClaimLosesWorkersFlag | src/modules/sla/sla-alert-processor.service.ts:63-88 | From there, a run in which a first claim whose notice fails loses that flag |
| SlaAlertProtocol.UninterruptedClaim | src/modules/sla/sla-alert-processor.service.ts:159-256 | A processor that nothing interrupts claims a candidate as one update would, and is idle after any other row |
| SlaAlertProtocol.AfterTheNotice | src/modules/sla/sla-alert-processor.service.ts:76-86 | After its notice a processor is idle, and a failed one has given the claim back |
| SlaAlertProtocol.WorkerChecks | src/queues/workers/sla.worker.ts:33-40 | When the worker decides to flag a ticket |
| RateLimiter.ThrottlerStorage.IncrementInMemory | src/common/providers/throttler-storage-redis.provider.ts:119-144 | The call counts and answers as the window counter does on the pruned map |
| RateLimiter.PruningIsInvisible | src/common/providers/throttler-storage-redis.provider.ts:126-130 | On every run of calls to any keys, pruning changes no answer |
| RateLimiter.AtMostTheLimitPerWindow | src/common/providers/throttler-storage-redis.provider.ts:131-143 | A window lets at most the limit through |
| RateLimiter.AnswersInWindow | src/common/providers/throttler-storage-redis.provider.ts:131-143 | In every run the n-th call of a window is answered with n, the time the window has left, and blocked for the block duration exactly if n exceeds its limit |
| RateLimiter.LessThanTwiceTheLimit | src/common/providers/throttler-storage-redis.provider.ts:119-144 | Any span as long as a window lets at most twice the limit less one through |
| RateLimiter.BoundIsReached | src/common/providers/throttler-storage-redis.provider.ts:119-144 | For every limit there is a run that reaches this bound |
| RateLimiter.FirstCallAlwaysPasses | src/common/providers/throttler-storage-redis.provider.ts:132-137 | Under a limit of zero or less the first call of a window passes and the second does not |
| UploadSaga.InvariantKept | src/modules/attachments/public-attachment-idempotency.service.ts:57-105 | Every step of every upload keeps: where a file is and whether it has a row depends on how far its upload is, keys are unique, and answers are true and agree |
| UploadSaga.ReleaseClears | src/modules/attachments/public-attachment-idempotency.service.ts:58-61 | A key is cleared from every row in which it had expired, and nothing else changes |
| UploadSaga.ExpiredKeyIsFree | src/modules/attachments/public-attachment-idempotency.service.ts:57-64 | Once every row with a key has expired, an upload with it finds none |
| UploadSaga.HolderAnswers | src/modules/attachments/public-attachment-idempotency.service.ts:62-72 | While a row holds a key, every upload with it is answered from it, at its look-up or after its collision |
| UploadSaga.FilesAndRowsAgree | src/modules/attachments/public-attachment-upload.service.ts:84-145 | When all uploads have finished, quarantined objects and rows correspond one to one, one per upload that created an attachment, and exactly the uploads whose key could not be looked up or whose directory could not be made leave an incoming file |
| UploadSaga.FileLeftBehind | src/modules/attachments/public-attachment-idempotency.service.ts:57-62 | A run that leaves an incoming file |
| UploadSaga.RowsHaveObjectsAndOwnKeys | src/modules/attachments/public-attachment-upload.service.ts:91-144 | At every moment each row has its object, and at most one row or open transaction holds a key |
| UploadSaga.OneAttachmentPerPeriod | src/modules/attachments/public-attachment-idempotency.service.ts:57-105 | From its creation until it expires, an attachment is what every successful call of its key returns |
| UploadSaga.SecondAttachmentAfterExpiry | src/modules/attachments/public-attachment-idempotency.service.ts:57-64 | A second attachment of a key is created only after the first has expired |
| UploadSaga.AnswersAreTrue | src/modules/attachments/public-attachment-idempotency.service.ts:90-105 | A success names an attachment created for the same key and file, a conflict one created for the same key and another file |
| UploadSaga.LateDiscardFindsNothing | src/modules/attachments/public-attachment-idempotency.service.ts:67-95 | The discard of a replay after a collision has nothing to discard, and the quarantined object is gone |
| UploadSaga.NeverBlocked | src/modules/attachments/public-attachment-upload.service.ts:92-144 | An unfinished upload can go on without a failure, or waits for a transaction that can commit |
| UploadSaga.PublicAttachments.FindOrMiss | src/modules/attachments/public-attachment-idempotency.service.ts:57-63 | None is found exactly if all rows with the key have expired; the row found answers, and the file is discarded |
| UploadSaga.PublicAttachments.Store | src/modules/attachments/public-attachment-upload.service.ts:91-122 | The file moves to quarantine and its row is inserted but not committed |
| UploadSaga.PublicAttachments.Execute | src/modules/attachments/public-attachment-idempotency.service.ts:57-72 | One upload alone: an unexpired holder of the key answers it; if all have expired, it leaves an object and a row, when admitted and committed, or neither |
| UploadSaga.PublicAttachments.Undo | src/modules/attachments/public-attachment-upload.service.ts:141-144 | After a failed transaction neither row nor object is left |
| SettingsCache.InvariantKept | src/modules/settings/settings.service.ts:35-87 | Every step of reads, updates and foreign writes keeps: cached and returned values were read from a version that held at a known time |
| SettingsCache.AnswersAreRecent | src/modules/settings/settings.service.ts:35-53 | A value returned without a database error was stored, or absent and the default of the call that read the rows, less than a minute before the cache check or later; for a call that read the rows itself, since its check |
| SettingsCache.UpdatesShowWithinAMinute | src/modules/settings/settings.service.ts:35-49 | A minute after a version was written no call is answered from an older one, however slow a refill was |
| SettingsCache.UpdateIsRead | src/modules/settings/settings.service.ts:35-87 | An update that nothing interrupts and then such a read: the read returns the value of the update, whatever the rows and the cache were |
| SettingsCache.EntryExpires | src/modules/settings/settings.service.ts:36-41 | An entry answers until it expires, and from then on the rows are read again |
| SettingsCache.AcknowledgedIsStored | src/modules/settings/settings.service.ts:62-82 | An acknowledged update wrote its value |
| SettingsCache.OwnDefaultIff | src/modules/settings/settings.service.ts:46-48 | An answer respects the caller's own default exactly when the setting was stored or the reader had the same default |
| SettingsCache.AgreedDefaultIsReturned | src/modules/settings/settings.service.ts:35-53 | With one default per setting every answer is the stored value or the caller's default |
| SettingsCache.AnotherCallersDefault | src/modules/settings/settings.service.ts:39-48 | Otherwise a call can be given another caller's default |
| SettingsCache.InvalidationLastsIff | src/modules/settings/settings.service.ts:81-82 | The invalidation of an update lasts exactly when no call holds an older value that it has yet to cache |
| SettingsCache.SettingsService.ReadRows | src/modules/settings/settings.service.ts:44-48 | The row or the default is returned, and cached for a minute from the check |
| SettingsCache.SettingsService.GetSetting | src/modules/settings/settings.service.ts:35-53 | One read alone: a fresh entry, else the row or the default, which fills the cache; the default on a failure, which does not |
| SettingsCache.SettingsService.UpdateSetting | src/modules/settings/settings.service.ts:62-87 | One update alone: the row is written and the entry dropped, or neither |

## Assumptions

- Calendars satisfy `Valid`: opening before closing within one day, and at least one business
  day. The code does not check this, and on other calendars its loops need not end.
- All processes read one clock, and it does not go back. A rate-limited key has one positive
  window and one limit.
- Hashes are injective. Fresh identifiers are new.
- Database statements are atomic, reads see committed rows, and an insert waits for an open
  transaction that holds its unique key (`src/database/schemas/idempotency-records.ts:23`,
  `src/database/schemas/attachments.ts:76`).
- The key comparison of the canonical form is a total preorder.
- User identifiers and HTTP methods contain no colon.
- Deleting a file succeeds, or finds that it is gone.

## Left out

- Daylight-saving changes, the host time zone, and the reading of opening hours from environment
  variables: instants are milliseconds in a zone with a fixed offset, and the calendar is passed in.
- Fractional minutes and hours; a deadline takes whole minutes.
- OpenApiSanitizer.SanitizeResponsesLoop: a missing responses object is returned as it is, where
  the code throws; the specification requires one, and so does the type of an operation.
- OpenAPI values that are not of the shape their place calls for: the model leaves them as they
  are, where the code may throw. Object keys that collide with built-in property names are
  ordinary keys.
- Integer-like object keys, which the JavaScript engine orders first whatever the sort, and the
  writing out of JSON text in `stableJson`.
- Idempotency: the switch that enables it, and handlers that raise the unique violation of the
  record table themselves.
- Idempotency: the handler's own effects; a committed execution stands for them, since they share its transaction.
- Transactions: a transaction the database has already aborted when an SQL error is caught, and
  what becomes of an effect started outside a transaction that fails later, for which nobody waits.
- SLA alerts: joins, mail contents and delivery; a notice succeeds or fails. The sweep of one
  processor is sequential in `SlaAlerts`, and its steps are interleaved in `SlaAlertProtocol`.
- Rate limiter: the Redis path and the cleaning of key names.
- Uploads: what the admission checks look at (access, quotas, file size, antivirus health);
  they pass or fail. Making the quarantine directory and moving a file there may fail; other
  storage operations succeed.
- Uploads: the later life of an object (scan, promotion, clean-up), the transport message and
  the outbox event, which are committed with the row, and files kept in memory.
- Crashes of a process between two steps, and the clean-up jobs that deal with them.
- Idempotency, uploads and settings: calls that interleave are steps on values, because the
  order of awaits is the point; the classes beside them run one call at a time through the
  same steps.
- CRUD services, guards, dashboards, reports, sockets and queues: single-branch code or work
  done by SQL and libraries.
