/** The idempotent request protocol: many requests, interleaved step by step, over a table of
    stored responses with a unique key.  Reads see committed rows only, and an insert waits
    for an open transaction that holds its key. */
module Idempotency {
  import opened Options

  type Id = nat

  /** Key hashes and fingerprints are digests; equal digests mean equal requests. */
  datatype Request = Request(key: string, fingerprint: string)

  datatype Response = Response(status: int, body: string)

  const TTL: int := 24 * 60 * 60 * 1000

  /** A stored record; no response means a null status code.  `from` numbers the committed
      execution the row stems from. */
  datatype Row = Row(fingerprint: string, response: Option<Response>, expiresAt: int, from: nat)

  /** A row inserted by a transaction that is still open. */
  datatype Pending = Pending(holder: Id, insertedAt: int, expiresAt: int, response: Option<Response>)

  datatype Outcome =
    | Executed(response: Response)
    | Replayed(response: Response)
    | OtherContent        // the key was used with another body
    | StoredInProgress    // the stored row has no status
    | InProgress(at: int) // the insert collided but no record is found
    | Failed              // the handler or the database failed; everything is rolled back

  datatype Phase =
    | Arrived
    | Purged
    | Missed
    | Inserting(expiry: int)
    | Running
    | Answered(answer: Response)
    | Stored(stored: Response)
    | Violated
    | Finished(outcome: Outcome)

  /** A committed handler execution; its effects were committed with it. */
  datatype Execution = Execution(
    request: Request, insertedAt: int, committedAt: int, expiresAt: int, response: Response)

  datatype Replay = Replay(request: Request, at: int, response: Response)

  datatype State = State(
    now: int,
    table: map<string, Row>,
    pending: map<string, Pending>,
    requests: map<Id, Request>,
    phases: map<Id, Phase>,
    log: seq<Execution>,
    replays: seq<Replay>)

  datatype Step =
    | Tick(time: int)
    | Arrive(id: Id, request: Request)
    | Purge(id: Id)
    | LookUp(id: Id)
    | Prepare(id: Id)
    | Insert(id: Id)
    | Handle(id: Id, response: Response)
    | Store(id: Id)
    | Commit(id: Id)
    | Abort(id: Id)
    | LookUpAgain(id: Id)

  // ---------- the steps ----------

  predicate InPhase(s: State, id: Id) { id in s.phases && id in s.requests }

  predicate InTransaction(p: Phase) { p.Running? || p.Answered? || p.Stored? }

  predicate Enabled(s: State, step: Step) {
    match step
    case Tick(time) => s.now <= time
    case Arrive(id, _) => id !in s.phases && id !in s.requests
    case Purge(id) => InPhase(s, id) && s.phases[id] == Arrived
    case LookUp(id) => InPhase(s, id) && s.phases[id] == Purged
    case Prepare(id) => InPhase(s, id) && s.phases[id] == Missed
    case Insert(id) => InPhase(s, id) && s.phases[id].Inserting? && s.requests[id].key !in s.pending
    case Handle(id, _) => InPhase(s, id) && s.phases[id] == Running
    case Store(id) => InPhase(s, id) && s.phases[id].Answered? && s.requests[id].key in s.pending
    case Commit(id) => InPhase(s, id) && s.phases[id].Stored? && s.requests[id].key in s.pending
    case Abort(id) => InPhase(s, id) && !s.phases[id].Finished?
    case LookUpAgain(id) => InPhase(s, id) && s.phases[id] == Violated
  }

  /** The committed row of a key, if it has not expired. */
  function FindStored(s: State, key: string): Option<Row> {
    if key in s.table && s.table[key].expiresAt > s.now then Some(s.table[key]) else None
  }

  /** The rows that a purge leaves. */
  function Unexpired(table: map<string, Row>, now: int): map<string, Row> {
    map k | k in table && table[k].expiresAt > now :: table[k]
  }

  function ReplayOutcome(row: Row, fingerprint: string): Outcome {
    if row.fingerprint != fingerprint then OtherContent
    else if row.response.None? then StoredInProgress
    else Replayed(row.response.value)
  }

  function Finish(s: State, id: Id, outcome: Outcome): State
    requires InPhase(s, id)
  {
    s.(phases := s.phases[id := Finished(outcome)],
       replays := if outcome.Replayed? then s.replays + [Replay(s.requests[id], s.now, outcome.response)]
                  else s.replays)
  }

  function Apply(s: State, step: Step): State
    requires Enabled(s, step)
  {
    match step
    case Tick(time) => s.(now := time)
    case Arrive(id, request) => s.(requests := s.requests[id := request], phases := s.phases[id := Arrived])
    case Purge(id) =>
      s.(table := Unexpired(s.table, s.now), phases := s.phases[id := Purged])
    case LookUp(id) =>
      var found := FindStored(s, s.requests[id].key);
      if found.Some? then Finish(s, id, ReplayOutcome(found.value, s.requests[id].fingerprint))
      else s.(phases := s.phases[id := Missed])
    case Prepare(id) => s.(phases := s.phases[id := Inserting(s.now + TTL)])
    case Insert(id) =>
      var key := s.requests[id].key;
      if key in s.table then s.(phases := s.phases[id := Violated])
      else
        s.(pending := s.pending[key := Pending(id, s.now, s.phases[id].expiry, None)],
           phases := s.phases[id := Running])
    case Handle(id, response) => s.(phases := s.phases[id := Answered(response)])
    case Store(id) =>
      var key, response := s.requests[id].key, s.phases[id].answer;
      s.(pending := s.pending[key := s.pending[key].(response := Some(response))],
         phases := s.phases[id := Stored(response)])
    case Commit(id) =>
      var request, response := s.requests[id], s.phases[id].stored;
      var p := s.pending[request.key];
      s.(table := s.table[request.key := Row(request.fingerprint, p.response, p.expiresAt, |s.log|)],
         pending := s.pending - {request.key},
         phases := s.phases[id := Finished(Executed(response))],
         log := s.log + [Execution(request, p.insertedAt, s.now, p.expiresAt, response)])
    case Abort(id) =>
      s.(pending := if InTransaction(s.phases[id]) then s.pending - {s.requests[id].key} else s.pending,
         phases := s.phases[id := Finished(Failed)])
    case LookUpAgain(id) =>
      var found := FindStored(s, s.requests[id].key);
      Finish(s, id, if found.Some? then ReplayOutcome(found.value, s.requests[id].fingerprint) else InProgress(s.now))
  }

  // ---------- runs ----------

  function Initial(now: int): State { State(now, map[], map[], map[], map[], [], []) }

  /** A run is a list of steps, each enabled where it is taken. */
  ghost predicate CanRun(s: State, steps: seq<Step>)
    decreases |steps|
  {
    steps == [] || (Enabled(s, steps[0]) && CanRun(Apply(s, steps[0]), steps[1..]))
  }

  ghost function Run(s: State, steps: seq<Step>): State
    requires CanRun(s, steps)
    decreases |steps|
  {
    if steps == [] then s else Run(Apply(s, steps[0]), steps[1..])
  }

  // ---------- what every step keeps ----------

  /** Every open transaction holds the uncommitted row of its key. */
  ghost predicate Locking(s: State) {
    forall id :: InPhase(s, id) && InTransaction(s.phases[id]) ==>
      s.requests[id].key in s.pending && s.pending[s.requests[id].key].holder == id
  }

  /** A key with an uncommitted row has no committed one. */
  ghost predicate Free(s: State) { forall k :: k in s.pending ==> k !in s.table }

  /** Every uncommitted row belongs to an open transaction on its key. */
  ghost predicate Locked(s: State) {
    forall k :: k in s.pending ==>
      var holder := s.pending[k].holder;
      InPhase(s, holder) && InTransaction(s.phases[holder]) && s.requests[holder].key == k
  }

  /** It was inserted in the past, and has the response its transaction has stored. */
  ghost predicate Written(s: State) {
    forall k :: k in s.pending ==>
      var p := s.pending[k];
      && p.insertedAt <= s.now
      && (InPhase(s, p.holder) && s.phases[p.holder].Stored? ==> p.response == Some(s.phases[p.holder].stored))
  }

  /** A committed row is the record of a committed execution, with its response. */
  ghost predicate Recorded(s: State) {
    forall k :: k in s.table ==>
      var row := s.table[k];
      && row.from < |s.log|
      && var e := s.log[row.from];
         e.request == Request(k, row.fingerprint) && e.expiresAt == row.expiresAt && row.response == Some(e.response)
  }

  /** An execution whose row is gone has expired, and had when its key was next locked. */
  ghost predicate Expired(s: State) {
    forall i :: 0 <= i < |s.log| ==>
      var e := s.log[i];
      && e.committedAt <= s.now
      && (e.expiresAt > s.now ==> e.request.key in s.table && s.table[e.request.key].from == i)
      && (e.request.key in s.pending ==>
            e.expiresAt <= s.pending[e.request.key].insertedAt && e.committedAt <= s.pending[e.request.key].insertedAt)
  }

  /** Executions of one key, in commit order: each began after the one before had expired. */
  ghost predicate Separated(log: seq<Execution>) {
    forall i, j :: 0 <= i < j < |log| && log[i].request.key == log[j].request.key ==>
      log[i].expiresAt <= log[j].insertedAt && log[i].committedAt <= log[j].insertedAt
  }

  /** Whether a replay gave the response an execution of the same request had stored, after
      its commit and before its expiry. */
  ghost predicate ReplayOf(r: Replay, e: Execution) {
    e.request == r.request && e.response == r.response && e.committedAt <= r.at < e.expiresAt
  }

  ghost predicate Justified(r: Replay, log: seq<Execution>) {
    exists i :: 0 <= i < |log| && ReplayOf(r, log[i])
  }

  ghost predicate Replaying(s: State) {
    && (forall j :: 0 <= j < |s.replays| ==> Justified(s.replays[j], s.log))
    && (forall id :: InPhase(s, id) && s.phases[id].Finished? ==>
          OutcomeJustified(s, s.requests[id], s.phases[id].outcome))
  }

  /** A finished request was executed and committed, or replayed from such an execution, or
      failed; it never met a record without a status. */
  ghost predicate OutcomeJustified(s: State, request: Request, outcome: Outcome) {
    match outcome
    case Executed(response) =>
      exists i :: 0 <= i < |s.log| && s.log[i].request == request && s.log[i].response == response
    case Replayed(response) =>
      exists j :: 0 <= j < |s.replays| && s.replays[j].request == request && s.replays[j].response == response
    case OtherContent => exists i :: 0 <= i < |s.log| && ClashesWith(request, s.log[i])
    case InProgress(at) => exists i :: 0 <= i < |s.log| && ExpiredBy(request, s.log[i], at)
    case StoredInProgress => false
    case Failed => true
  }

  /** An execution of the same key with other content. */
  predicate ClashesWith(request: Request, e: Execution) {
    e.request.key == request.key && e.request.fingerprint != request.fingerprint
  }

  /** An execution of the same key whose record had expired by then. */
  predicate ExpiredBy(request: Request, e: Execution, at: int) {
    e.request.key == request.key && e.expiresAt <= at
  }

  /** A request whose insert collided did so with the record of a committed execution. */
  ghost predicate Collided(s: State) {
    forall id :: InPhase(s, id) && s.phases[id] == Violated ==> HasExecution(s.log, s.requests[id].key)
  }

  ghost predicate HasExecution(log: seq<Execution>, key: string) {
    exists i :: 0 <= i < |log| && log[i].request.key == key
  }

  ghost predicate Invariant(s: State) {
    Locking(s) && Locked(s) && Written(s) && Free(s) && Recorded(s) && Expired(s) && Separated(s.log) && Collided(s)
    && Replaying(s)
  }

  lemma LockingKept(s: State, step: Step)
    requires Invariant(s) && Enabled(s, step)
    ensures Locking(Apply(s, step))
  {
    var t := Apply(s, step);
    forall id | InPhase(t, id) && InTransaction(t.phases[id])
      ensures t.requests[id].key in t.pending && t.pending[t.requests[id].key].holder == id
    {
      assert t.phases[id] == s.phases[id] || step == Insert(id) || step.Handle? || step == Store(id);
    }
  }

  lemma LockedKept(s: State, step: Step)
    requires Invariant(s) && Enabled(s, step)
    ensures Locked(Apply(s, step))
  {
    var t := Apply(s, step);
    forall k | k in t.pending
      ensures InPhase(t, t.pending[k].holder) && InTransaction(t.phases[t.pending[k].holder])
              && t.requests[t.pending[k].holder].key == k
    {
    }
  }

  lemma WrittenKept(s: State, step: Step)
    requires Invariant(s) && Enabled(s, step)
    ensures Written(Apply(s, step))
  {
  }

  lemma FreeKept(s: State, step: Step)
    requires Invariant(s) && Enabled(s, step)
    ensures Free(Apply(s, step))
  {
  }

  lemma RecordedKept(s: State, step: Step)
    requires Invariant(s) && Enabled(s, step)
    ensures Recorded(Apply(s, step))
  {
  }

  lemma ExpiredKept(s: State, step: Step)
    requires Invariant(s) && Enabled(s, step)
    ensures Expired(Apply(s, step))
  {
  }

  lemma SeparatedKept(s: State, step: Step)
    requires Invariant(s) && Enabled(s, step)
    ensures Separated(Apply(s, step).log)
  {
  }

  lemma CollidedKept(s: State, step: Step)
    requires Invariant(s) && Enabled(s, step)
    ensures Collided(Apply(s, step))
  {
    var t := Apply(s, step);
    forall id | InPhase(t, id) && t.phases[id] == Violated ensures HasExecution(t.log, t.requests[id].key) {
      ViolatedBefore(s, step, id);
      if step == Insert(id) {
        assert s.log[s.table[s.requests[id].key].from].request.key == s.requests[id].key;
      }
      ExecutionKept(s, step, s.requests[id].key);
    }
  }

  lemma ViolatedBefore(s: State, step: Step, id: Id)
    requires Enabled(s, step) && InPhase(Apply(s, step), id) && Apply(s, step).phases[id] == Violated
    ensures InPhase(s, id) && Apply(s, step).requests[id] == s.requests[id]
    ensures s.phases[id] == Violated || (step == Insert(id) && s.requests[id].key in s.table)
  {
  }

  lemma ExecutionKept(s: State, step: Step, key: string)
    requires Enabled(s, step) && HasExecution(s.log, key)
    ensures HasExecution(Apply(s, step).log, key)
  {
    var i :| 0 <= i < |s.log| && s.log[i].request.key == key;
    assert Apply(s, step).log[i] == s.log[i];
  }

  lemma JustifiedKept(r: Replay, log: seq<Execution>, e: Execution)
    requires Justified(r, log)
    ensures Justified(r, log + [e])
  {
    var i :| 0 <= i < |log| && ReplayOf(r, log[i]);
    assert (log + [e])[i] == log[i];
  }

  /** Logs only grow, and growing keeps an outcome justified. */
  lemma OutcomeKept(s: State, t: State, request: Request, outcome: Outcome)
    requires OutcomeJustified(s, request, outcome)
    requires s.log <= t.log && s.replays <= t.replays
    ensures OutcomeJustified(t, request, outcome)
  {
    match outcome
    case OtherContent =>
      var i :| 0 <= i < |s.log| && ClashesWith(request, s.log[i]);
      assert t.log[i] == s.log[i];
    case InProgress(at) =>
      var i :| 0 <= i < |s.log| && ExpiredBy(request, s.log[i], at);
      assert t.log[i] == s.log[i];
    case Executed(response) =>
      var i :| 0 <= i < |s.log| && s.log[i].request == request && s.log[i].response == response;
      assert t.log[i] == s.log[i];
    case Replayed(response) =>
      var j :| 0 <= j < |s.replays| && s.replays[j].request == request && s.replays[j].response == response;
      assert t.replays[j] == s.replays[j];
    case _ =>
  }

  lemma LookUpKeeps(s: State, id: Id, row: Row)
    requires Invariant(s) && InPhase(s, id) && FindStored(s, s.requests[id].key) == Some(row)
    ensures Replaying(Finish(s, id, ReplayOutcome(row, s.requests[id].fingerprint)))
  {
    var outcome := ReplayOutcome(row, s.requests[id].fingerprint);
    var t := Finish(s, id, outcome);
    if outcome.OtherContent? {
      assert ClashesWith(s.requests[id], s.log[row.from]);
    }
    if outcome.Replayed? {
      assert ReplayOf(Replay(s.requests[id], s.now, outcome.response), s.log[row.from]);
      assert t.replays[|s.replays|].request == s.requests[id];
    }
    PhasesKept(s, t, id);
  }

  /** A step that finishes one request, or moves it, leaves the other outcomes justified. */
  lemma PhasesKept(s: State, t: State, id: Id)
    requires Replaying(s) && s.log <= t.log && s.replays <= t.replays
    requires InPhase(t, id)
    requires t.phases == s.phases[id := t.phases[id]] && t.requests == s.requests[id := t.requests[id]]
    requires t.phases[id].Finished? ==> OutcomeJustified(t, t.requests[id], t.phases[id].outcome)
    ensures forall i :: InPhase(t, i) && t.phases[i].Finished? ==>
              OutcomeJustified(t, t.requests[i], t.phases[i].outcome)
  {
    forall i | i != id && InPhase(t, i) && t.phases[i].Finished?
      ensures OutcomeJustified(t, t.requests[i], t.phases[i].outcome)
    {
      OutcomeKept(s, t, s.requests[i], s.phases[i].outcome);
    }
  }

  /** Steps that may give a request a response. */
  predicate Answers(step: Step) { step.LookUp? || step.LookUpAgain? || step.Commit? }

  lemma SilentStep(s: State, step: Step)
    requires Enabled(s, step) && !Answers(step)
    ensures Apply(s, step).log == s.log && Apply(s, step).replays == s.replays
  {
  }

  /** The other steps finish a request only as failed. */
  lemma SilentOutcome(s: State, step: Step, id: Id)
    requires Enabled(s, step) && !Answers(step)
    requires InPhase(Apply(s, step), id) && Apply(s, step).phases[id].Finished?
    ensures Apply(s, step).phases[id] == Finished(Failed)
            || (&& InPhase(s, id) && s.phases[id] == Apply(s, step).phases[id]
                && s.requests[id] == Apply(s, step).requests[id])
  {
  }

  lemma SilentStepKeeps(s: State, step: Step)
    requires Replaying(s) && Enabled(s, step) && !Answers(step)
    ensures Replaying(Apply(s, step))
  {
    var t := Apply(s, step);
    SilentStep(s, step);
    forall i | InPhase(t, i) && t.phases[i].Finished? ensures OutcomeJustified(t, t.requests[i], t.phases[i].outcome) {
      SilentOutcome(s, step, i);
      if t.phases[i] != Finished(Failed) { OutcomeKept(s, t, s.requests[i], s.phases[i].outcome); }
    }
  }

  lemma ReplayingKept(s: State, step: Step)
    requires Invariant(s) && Enabled(s, step)
    ensures Replaying(Apply(s, step))
  {
    match step
    case LookUp(id) => LookUpStepKeeps(s, id);
    case LookUpAgain(id) => LookUpAgainStepKeeps(s, id);
    case Commit(id) => CommitKeeps(s, id);
    case _ => SilentStepKeeps(s, step);
  }

  lemma LookUpStepKeeps(s: State, id: Id)
    requires Invariant(s) && Enabled(s, LookUp(id))
    ensures Replaying(Apply(s, LookUp(id)))
  {
    var found := FindStored(s, s.requests[id].key);
    if found.Some? { LookUpKeeps(s, id, found.value); } else { PhasesKept(s, Apply(s, LookUp(id)), id); }
  }

  lemma LookUpAgainStepKeeps(s: State, id: Id)
    requires Invariant(s) && Enabled(s, LookUpAgain(id))
    ensures Replaying(Apply(s, LookUpAgain(id)))
  {
    var found := FindStored(s, s.requests[id].key);
    if found.Some? {
      LookUpKeeps(s, id, found.value);
    } else {
      var i :| 0 <= i < |s.log| && s.log[i].request.key == s.requests[id].key;
      assert ExpiredBy(s.requests[id], s.log[i], s.now);
      PhasesKept(s, Apply(s, LookUpAgain(id)), id);
    }
  }

  lemma CommitKeeps(s: State, id: Id)
    requires Invariant(s) && Enabled(s, Commit(id))
    ensures Replaying(Apply(s, Commit(id)))
  {
    var t := Apply(s, Commit(id));
    var e := t.log[|s.log|];
    assert e.request == s.requests[id] && e.response == s.phases[id].stored;
    forall j | 0 <= j < |t.replays| ensures Justified(t.replays[j], t.log) {
      JustifiedKept(s.replays[j], s.log, e);
    }
    PhasesKept(s, t, id);
  }

  lemma InvariantKept(s: State, step: Step)
    requires Invariant(s) && Enabled(s, step)
    ensures Invariant(Apply(s, step))
  {
    LockingKept(s, step);
    LockedKept(s, step);
    WrittenKept(s, step);
    FreeKept(s, step);
    RecordedKept(s, step);
    ExpiredKept(s, step);
    SeparatedKept(s, step);
    CollidedKept(s, step);
    ReplayingKept(s, step);
  }

  lemma {:induction false} InvariantHolds(s: State, steps: seq<Step>)
    requires Invariant(s) && CanRun(s, steps)
    ensures Invariant(Run(s, steps))
    decreases |steps|
  {
    if steps != [] {
      InvariantKept(s, steps[0]);
      InvariantHolds(Apply(s, steps[0]), steps[1..]);
    }
  }

  // ---------- what holds after every run ----------

  ghost predicate Reachable(s: State) {
    exists now, steps :: CanRun(Initial(now), steps) && s == Run(Initial(now), steps)
  }

  lemma ReachableInvariant(s: State)
    requires Reachable(s)
    ensures Invariant(s)
  {
    var now, steps :| CanRun(Initial(now), steps) && s == Run(Initial(now), steps);
    InvariantHolds(Initial(now), steps);
  }

  /** The validity window of an execution's record. */
  predicate Within(e: Execution, t: int) { e.insertedAt <= t < e.expiresAt }

  /** At any instant at most one committed execution of a key is within its validity window,
      and a later execution was inserted only after the earlier one had expired. */
  lemma AtMostOneExecutionPerWindow(s: State, i: nat, j: nat)
    requires Reachable(s)
    requires i < j < |s.log| && s.log[i].request.key == s.log[j].request.key
    ensures s.log[i].expiresAt <= s.log[j].insertedAt
    ensures s.log[i].committedAt <= s.log[j].insertedAt
    ensures forall t :: !(Within(s.log[i], t) && Within(s.log[j], t))
  {
    ReachableInvariant(s);
  }

  /** Every replay gave the status and body that a committed execution of the same key and
      content had stored, while that record was valid. */
  lemma ReplaysAreFaithful(s: State, r: Replay)
    requires Reachable(s) && r in s.replays
    ensures exists e :: e in s.log && ReplayOf(r, e)
  {
    ReachableInvariant(s);
    var j :| 0 <= j < |s.replays| && s.replays[j] == r;
    var i :| 0 <= i < |s.log| && ReplayOf(r, s.log[i]);
    assert s.log[i] in s.log;
  }

  /** No committed record lacks a status, so no request is answered from one that does. */
  lemma NeverStoredInProgress(s: State)
    requires Reachable(s)
    ensures forall k :: k in s.table ==> s.table[k].response.Some?
    ensures forall id :: InPhase(s, id) ==> s.phases[id] != Finished(StoredInProgress)
  {
    ReachableInvariant(s);
  }

  /** While an execution's record is valid, every look-up of its key finds it: the same
      content is answered with its response, other content is refused, and an insert of the
      key collides, so no other handler runs. */
  lemma ValidRecordAnswers(s: State, i: nat, id: Id)
    requires Reachable(s) && i < |s.log| && s.log[i].expiresAt > s.now
    requires InPhase(s, id) && s.requests[id].key == s.log[i].request.key
    ensures var e := s.log[i];
            var outcome := if s.requests[id] == e.request then Replayed(e.response) else OtherContent;
            && (s.phases[id] == Purged ==> Apply(s, LookUp(id)).phases[id] == Finished(outcome))
            && (s.phases[id] == Violated ==> Apply(s, LookUpAgain(id)).phases[id] == Finished(outcome))
            && (s.phases[id].Inserting? ==> Enabled(s, Insert(id)) && Apply(s, Insert(id)).phases[id] == Violated)
            && !InTransaction(s.phases[id])
  {
    ReachableInvariant(s);
  }

  /** A request that reports a handler result is the one committed execution with it. */
  lemma ExecutedIsCommitted(s: State, id: Id)
    requires Reachable(s) && InPhase(s, id) && s.phases[id].Finished? && s.phases[id].outcome.Executed?
    ensures exists i :: 0 <= i < |s.log| && s.log[i].request == s.requests[id]
                        && s.log[i].response == s.phases[id].outcome.response
  {
    ReachableInvariant(s);
    assert OutcomeJustified(s, s.requests[id], s.phases[id].outcome);
  }

  /** A request is refused for other content only if its key was used with other content, and
      for being in progress only if an execution of its key has been committed and has expired. */
  lemma RefusalsAreTrue(s: State, id: Id)
    requires Reachable(s) && InPhase(s, id) && s.phases[id].Finished?
    ensures s.phases[id].outcome.OtherContent? ==>
              exists e :: e in s.log && ClashesWith(s.requests[id], e)
    ensures s.phases[id].outcome.InProgress? ==>
              exists e :: e in s.log && ExpiredBy(s.requests[id], e, s.phases[id].outcome.at)
  {
    ReachableInvariant(s);
    assert OutcomeJustified(s, s.requests[id], s.phases[id].outcome);
    if s.phases[id].outcome.OtherContent? {
      var i :| 0 <= i < |s.log| && ClashesWith(s.requests[id], s.log[i]);
      assert s.log[i] in s.log;
    }
    if s.phases[id].outcome.InProgress? {
      var i :| 0 <= i < |s.log| && ExpiredBy(s.requests[id], s.log[i], s.phases[id].outcome.at);
      assert s.log[i] in s.log;
    }
  }

  /** That is what a request is told whose insert collided and which then finds no valid record. */
  lemma VanishedRecordIsInProgress(s: State, id: Id)
    requires Enabled(s, LookUpAgain(id))
    requires s.requests[id].key in s.table ==> s.table[s.requests[id].key].expiresAt <= s.now
    ensures Apply(s, LookUpAgain(id)).phases[id] == Finished(InProgress(s.now))
  {
  }

  /** Once a record has expired and no transaction holds its key, a request with the key runs
      its handler again: its look-up misses, and after the purge its insert succeeds. */
  lemma ExpiredKeyRunsAgain(s: State, id: Id, request: Request, time: int)
    requires id !in s.phases && id !in s.requests && request.key !in s.pending && s.now <= time
    requires request.key in s.table ==> s.table[request.key].expiresAt <= time
    ensures var purged := Apply(Apply(Apply(s, Tick(time)), Arrive(id, request)), Purge(id));
            var prepared := Apply(Apply(purged, LookUp(id)), Prepare(id));
            && purged.now == time && prepared.phases[id] == Inserting(time + 86400000)
            && Enabled(prepared, Insert(id)) && Apply(prepared, Insert(id)).phases[id] == Running
  {
  }

  predicate MovesRequest(step: Step) { !step.Tick? && !step.Arrive? }

  /** No request is ever stuck: it can go on without a failure, or waits for an open
      transaction on its key that can go on. */
  lemma NeverBlocked(s: State, id: Id)
    requires Reachable(s) && InPhase(s, id) && !s.phases[id].Finished?
    ensures exists step ::
              && MovesRequest(step) && !step.Abort? && Enabled(s, step)
              && (step.id == id
                  || (s.phases[id].Inserting? && InPhase(s, step.id) && InTransaction(s.phases[step.id])
                      && s.requests[step.id].key == s.requests[id].key))
  {
    ReachableInvariant(s);
    var waits := s.phases[id].Inserting? && s.requests[id].key in s.pending;
    var mover := if waits then s.pending[s.requests[id].key].holder else id;
    var step := NextStep(s, mover);
    assert MovesRequest(step) && !step.Abort? && Enabled(s, step);
  }

  /** The step a request takes next if nothing fails. */
  function NextStep(s: State, id: Id): Step
    requires InPhase(s, id)
  {
    match s.phases[id]
    case Arrived => Purge(id)
    case Purged => LookUp(id)
    case Missed => Prepare(id)
    case Inserting(_) => Insert(id)
    case Running => Handle(id, Response(200, ""))
    case Answered(_) => Store(id)
    case Stored(_) => Commit(id)
    case Violated => LookUpAgain(id)
    case Finished(_) => Tick(s.now)
  }

  // ---------- one request ----------

  lemma LastPut(phases: map<Id, Phase>, id: Id, first: Phase, second: Phase, last: Phase)
    ensures phases[id := first][id := second][id := last] == phases[id := last]
    ensures phases[id := second][id := last] == phases[id := last]
  {
  }

  lemma PutAndRemoved(pending: map<string, Pending>, key: string, p: Pending)
    ensures pending[key := p] - {key} == pending - {key}
  {
  }

  class IdempotencyInterceptor {
    var state: State

    constructor (now: int)
      ensures state == Initial(now) && Invariant(state)
    {
      state := Initial(now);
    }

    method Take(step: Step)
      requires Enabled(state, step)
      modifies this
      ensures state == Apply(old(state), step) && (Invariant(old(state)) ==> Invariant(state))
    {
      if Invariant(state) { InvariantKept(state, step); }
      state := Apply(state, step);
    }

    /** Purges and looks the key up; a stored row answers the request. */
    method FindOrMiss(id: Id, request: Request) returns (found: Option<Row>)
      requires id !in state.phases && id !in state.requests
      modifies this
      ensures Invariant(old(state)) ==> Invariant(state)
      ensures found == FindStored(old(state), request.key)
      ensures var s := old(state);
              var missed := s.(table := Unexpired(s.table, s.now),
                               requests := s.requests[id := request],
                               phases := s.phases[id := Missed]);
              state == match found
                       case Some(row) => Finish(missed, id, ReplayOutcome(row, request.fingerprint))
                       case None => missed
    {
      ghost var s := state;
      Take(Arrive(id, request));
      Take(Purge(id));
      found := FindStored(state, request.key);
      Take(LookUp(id));
      LastPut(s.phases, id, Arrived, Purged, state.phases[id]);
      LastPut(s.phases, id, Missed, Missed, state.phases[id]);
    }

    /** Opens a transaction and inserts the record of a free key. */
    method Lock(id: Id)
      requires InPhase(state, id) && state.phases[id] == Missed
      requires state.requests[id].key !in state.pending && state.requests[id].key !in state.table
      modifies this
      ensures Invariant(old(state)) ==> Invariant(state)
      ensures var s := old(state);
              state == s.(pending := s.pending[s.requests[id].key := Pending(id, s.now, s.now + 86400000, None)],
                          phases := s.phases[id := Running])
    {
      ghost var s := state;
      Take(Prepare(id));
      Take(Insert(id));
      LastPut(s.phases, id, Missed, Inserting(s.now + TTL), Running);
    }

    /** Runs the handler, stores its response and commits both. */
    method Complete(id: Id, response: Response)
      requires InPhase(state, id) && state.phases[id] == Running && state.requests[id].key in state.pending
      modifies this
      ensures Invariant(old(state)) ==> Invariant(state)
      ensures var s := old(state);
              var request, p := s.requests[id], s.pending[s.requests[id].key];
              state == s.(table := s.table[request.key :=
                            Row(request.fingerprint, Some(response), p.expiresAt, |s.log|)],
                          pending := s.pending - {request.key},
                          phases := s.phases[id := Finished(Executed(response))],
                          log := s.log + [Execution(request, p.insertedAt, s.now, p.expiresAt, response)])
    {
      ghost var s := state;
      Take(Handle(id, response));
      Take(Store(id));
      Take(Commit(id));
      LastPut(s.phases, id, Answered(response), Stored(response), Finished(Executed(response)));
      PutAndRemoved(s.pending, s.requests[id].key, s.pending[s.requests[id].key].(response := Some(response)));
    }

    /** A request that no other one interrupts; `handled` is what its handler returns, if it
        does not fail.  A valid record answers it.  Otherwise the handler runs, and with its
        effects a record is committed, or nothing is. */
    method Intercept(id: Id, request: Request, handled: Option<Response>) returns (outcome: Outcome)
      requires id !in state.phases && id !in state.requests && request.key !in state.pending
      modifies this
      ensures Invariant(old(state)) ==> Invariant(state)
      ensures state.now == old(state).now && state.pending == old(state).pending
      ensures var s, purged := old(state), Unexpired(old(state).table, old(state).now);
              match FindStored(s, request.key)
              case Some(row) =>
                && state.table == purged && state.log == s.log
                && outcome == if row.fingerprint != request.fingerprint then OtherContent
                              else if row.response.Some? then Replayed(row.response.value) else StoredInProgress
              case None =>
                match handled
                case None => outcome == Failed && state.table == purged && state.log == s.log
                case Some(response) =>
                  && outcome == Executed(response)
                  && state.table == purged[request.key :=
                       Row(request.fingerprint, Some(response), s.now + 86400000, |s.log|)]
                  && state.log == s.log + [Execution(request, s.now, s.now, s.now + 86400000, response)]
    {
      ghost var s := state;
      var found := FindOrMiss(id, request);
      if found.Some? {
        return ReplayOutcome(found.value, request.fingerprint);
      }
      Lock(id);
      if handled.None? {
        Take(Abort(id));
        assert state.pending == s.pending;
        return Failed;
      }
      Complete(id, handled.value);
      assert state.pending == s.pending;
      return Executed(handled.value);
    }
  }
}
