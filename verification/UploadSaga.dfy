/** Public attachment uploads: a file moves from the incoming directory to quarantine before its
    row is committed, and is deleted again if the commit fails.  Uploads interleave step by
    step over one table with a unique idempotency key. */
module UploadSaga {

  import opened Options

  const TTL: int := 24 * 60 * 60 * 1000

  /** Uploads are named by their order of arrival; an upload's fresh attachment id, and the
      object key derived from it, are named after the upload. */
  type Id = nat

  /** Key hash and file fingerprint; both are digests. */
  datatype Request = Request(key: string, fingerprint: string)

  /** The three idempotency columns of a row; they are set and cleared together. */
  datatype Reservation = Reservation(key: string, fingerprint: string, expiresAt: int)

  datatype Outcome =
    | Created
    | Replayed(attachment: Id)
    | OtherFile(holder: Id)   // the key belongs to another file
    | Refused                 // invalid key, unreadable file, failed admission
    | Failed                  // the transaction or the storage failed
    | Stranded                // its key could not be looked up, or no directory be made for the file

  datatype Phase =
    | Arrived
    | Stamped
    | Released
    | Missed
    | Admitted
    | Quarantined
    | Inserted
    | Aborted(violation: bool)
    | Violated
    | Finished(outcome: Outcome)

  datatype Upload = Upload(request: Request, stampedAt: int, phase: Phase)

  /** A successful answer, in the order given. */
  datatype Answer = Answer(upload: Id, attachment: Id, at: int)

  datatype State = State(
    now: int,
    rows: map<Id, Option<Reservation>>,
    pending: map<Id, Reservation>,
    incoming: set<Id>,
    quarantine: set<Id>,
    uploads: seq<Upload>,
    log: seq<Answer>)

  datatype Step =
    | Tick(time: int)
    | Arrive(request: Request)
    | Reject(upload: Id)
    | Stamp(upload: Id)
    | Release(upload: Id)
    | LookUp(upload: Id, found: Option<Id>)
    | FailLookUp(upload: Id)
    | Admit(upload: Id)
    | Refuse(upload: Id)
    | Quarantine(upload: Id)
    | FailDirectory(upload: Id)
    | FailQuarantine(upload: Id)
    | Insert(upload: Id)
    | Commit(upload: Id)
    | Abort(upload: Id, unique: bool)
    | Compensate(upload: Id)
    | LookUpAgain(upload: Id, found: Option<Id>)
    | FailAgain(upload: Id)

  // ---------- the steps ----------

  predicate In(s: State, u: Id, phase: Phase) { u < |s.uploads| && s.uploads[u].phase == phase }

  function Key(s: State, u: Id): string
    requires u < |s.uploads|
  {
    s.uploads[u].request.key
  }

  predicate Holds(row: Option<Reservation>, key: string) { row.Some? && row.value.key == key }

  /** A query for one row with the key. */
  predicate Finds(rows: map<Id, Option<Reservation>>, key: string, found: Option<Id>) {
    match found
    case Some(a) => a in rows && Holds(rows[a], key)
    case None => forall a :: a in rows ==> !Holds(rows[a], key)
  }

  /** The key is held by no open transaction. */
  predicate Unlocked(s: State, key: string) { forall a :: a in s.pending ==> s.pending[a].key != key }

  predicate Enabled(s: State, step: Step) {
    match step
    case Tick(time) => s.now <= time
    case Arrive(_) => true
    case Reject(u) => In(s, u, Arrived)
    case Stamp(u) => In(s, u, Arrived)
    case Release(u) => In(s, u, Stamped)
    case LookUp(u, found) => In(s, u, Released) && Finds(s.rows, Key(s, u), found)
    case FailLookUp(u) => In(s, u, Stamped) || In(s, u, Released)
    case Admit(u) => In(s, u, Missed)
    case Refuse(u) => In(s, u, Missed)
    case Quarantine(u) => In(s, u, Admitted)
    case FailDirectory(u) => In(s, u, Admitted)
    case FailQuarantine(u) => In(s, u, Admitted)
    case Insert(u) => In(s, u, Quarantined) && Unlocked(s, Key(s, u))
    case Commit(u) => In(s, u, Inserted) && u in s.pending
    case Abort(u, _) => In(s, u, Quarantined) || In(s, u, Inserted)
    case Compensate(u) => u < |s.uploads| && s.uploads[u].phase.Aborted?
    case LookUpAgain(u, found) => In(s, u, Violated) && Finds(s.rows, Key(s, u), found)
    case FailAgain(u) => In(s, u, Violated)
  }

  function Move(s: State, u: Id, phase: Phase): State
    requires u < |s.uploads|
  {
    s.(uploads := s.uploads[u := s.uploads[u].(phase := phase)])
  }

  function Discard(s: State, u: Id): State { s.(incoming := s.incoming - {u}) }

  function Expiry(s: State, u: Id): int
    requires u < |s.uploads|
  {
    s.uploads[u].stampedAt + TTL
  }

  function ReservationOf(s: State, u: Id): Reservation
    requires u < |s.uploads|
  {
    Reservation(s.uploads[u].request.key, s.uploads[u].request.fingerprint, Expiry(s, u))
  }

  /** Clears the idempotency columns of the rows whose key has expired. */
  function ClearExpired(rows: map<Id, Option<Reservation>>, key: string, at: int): map<Id, Option<Reservation>> {
    map a | a in rows :: if Holds(rows[a], key) && rows[a].value.expiresAt <= at then None else rows[a]
  }

  /** Discards the incoming file, then answers from the row found. */
  function Replay(s: State, u: Id, a: Id): State
    requires u < |s.uploads| && a in s.rows && s.rows[a].Some?
  {
    if s.rows[a].value.fingerprint != s.uploads[u].request.fingerprint then
      Move(Discard(s, u), u, Finished(OtherFile(a)))
    else
      Move(Discard(s, u), u, Finished(Replayed(a))).(log := s.log + [Answer(u, a, s.now)])
  }

  function Apply(s: State, step: Step): State
    requires Enabled(s, step)
  {
    match step
    case Tick(time) => s.(now := time)
    case Arrive(request) =>
      s.(uploads := s.uploads + [Upload(request, s.now, Arrived)], incoming := s.incoming + {|s.uploads|})
    case Reject(u) => Move(Discard(s, u), u, Finished(Refused))
    case Stamp(u) => s.(uploads := s.uploads[u := Upload(s.uploads[u].request, s.now, Stamped)])
    case Release(u) =>
      Move(s.(rows := ClearExpired(s.rows, Key(s, u), s.uploads[u].stampedAt)), u, Released)
    case LookUp(u, found) => if found.Some? then Replay(s, u, found.value) else Move(s, u, Missed)
    case FailLookUp(u) => Move(s, u, Finished(Stranded))
    case Admit(u) => Move(s, u, Admitted)
    case Refuse(u) => Move(Discard(s, u), u, Finished(Refused))
    case Quarantine(u) =>
      Move(s.(incoming := s.incoming - {u}, quarantine := s.quarantine + {u}), u, Quarantined)
    case FailDirectory(u) => Move(s, u, Finished(Stranded))
    case FailQuarantine(u) => Move(Discard(s, u), u, Finished(Failed))
    case Insert(u) =>
      if exists a :: a in s.rows && Holds(s.rows[a], Key(s, u)) then Move(s, u, Aborted(true))
      else Move(s.(pending := s.pending[u := ReservationOf(s, u)]), u, Inserted)
    case Commit(u) =>
      Move(s.(rows := s.rows[u := Some(s.pending[u])], pending := s.pending - {u}), u, Finished(Created))
        .(log := s.log + [Answer(u, u, s.now)])
    case Abort(u, unique) => Move(s.(pending := s.pending - {u}), u, Aborted(unique))
    case Compensate(u) =>
      Move(s.(quarantine := s.quarantine - {u}), u,
           if s.uploads[u].phase.violation then Violated else Finished(Failed))
    case LookUpAgain(u, found) =>
      if found.Some? then Replay(s, u, found.value) else Move(s, u, Finished(Failed))
    case FailAgain(u) => Move(s, u, Finished(Failed))
  }

  // ---------- runs ----------

  function Initial(now: int): State { State(now, map[], map[], {}, {}, [], []) }

  ghost predicate CanRun(s: State, steps: seq<Step>)
    decreases |steps|
  {
    steps == [] || (Enabled(s, steps[0]) && CanRun(Apply(s, steps[0]), steps[1..]))
  }

  ghost function Run(s: State, steps: seq<Step>): State
    requires CanRun(s, steps)
    decreases |steps|
  {
    if steps == [] then s else Run(Apply(s, steps[0]), steps[1..])
  }

  ghost predicate Reachable(s: State) {
    exists now, steps :: CanRun(Initial(now), steps) && s == Run(Initial(now), steps)
  }

  // ---------- what every step keeps ----------

  predicate IsIncoming(p: Phase) {
    p.Arrived? || p.Stamped? || p.Released? || p.Missed? || p.Admitted? || p == Finished(Stranded)
  }

  predicate IsQuarantined(p: Phase) {
    p.Quarantined? || p.Inserted? || p.Aborted? || p == Finished(Created)
  }

  /** Where the file of an upload is, and whether it has a row, depends on its phase alone. */
  ghost predicate Placed(s: State, u: Id) {
    if u < |s.uploads| then
      var p := s.uploads[u].phase;
      && (u in s.incoming <==> IsIncoming(p))
      && (u in s.quarantine <==> IsQuarantined(p))
      && (u in s.pending <==> p == Inserted)
      && (u in s.rows <==> p == Finished(Created))
    else
      u !in s.incoming && u !in s.quarantine && u !in s.pending && u !in s.rows
  }

  ghost predicate AllPlaced(s: State) { forall u: Id :: Placed(s, u) }

  /** Rows carry the key, fingerprint and expiry of the upload that inserted them. */
  ghost predicate Signed(s: State) {
    && (forall a :: a in s.rows && s.rows[a].Some? ==> a < |s.uploads| && s.rows[a].value == ReservationOf(s, a))
    && (forall a :: a in s.pending ==> a < |s.uploads| && s.pending[a] == ReservationOf(s, a))
  }

  /** The unique index: a key is held by at most one row, committed or not. */
  ghost predicate KeysUnique(s: State) {
    && (forall a, b :: a in s.rows && b in s.rows && s.rows[a].Some? && Holds(s.rows[b], s.rows[a].value.key) ==>
          a == b)
    && (forall a, b :: a in s.pending && b in s.pending && s.pending[a].key == s.pending[b].key ==> a == b)
    && (forall a, b :: a in s.pending && b in s.rows ==> !Holds(s.rows[b], s.pending[a].key))
  }

  ghost predicate Stamps(s: State) {
    forall u :: 0 <= u < |s.uploads| ==> s.uploads[u].stampedAt <= s.now
  }

  /** An answer names an attachment created by an upload of the same key and file. */
  ghost predicate Faithful(s: State, answer: Answer) {
    && answer.upload < |s.uploads|
    && answer.attachment < |s.uploads|
    && s.uploads[answer.attachment].phase == Finished(Created)
    && s.uploads[answer.attachment].request == s.uploads[answer.upload].request
    && answer.at <= s.now
    && s.uploads[answer.upload].phase ==
       Finished(if answer.upload == answer.attachment then Created else Replayed(answer.attachment))
  }

  ghost predicate AllFaithful(s: State) { forall p :: 0 <= p < |s.log| ==> Faithful(s, s.log[p]) }

  predicate Creates(answer: Answer) { answer.upload == answer.attachment }

  /** Until it expires, a created attachment keeps its key. */
  ghost predicate KeysKept(s: State) {
    forall p :: 0 <= p < |s.log| && Creates(s.log[p]) && s.log[p].upload < |s.uploads|
                && s.now < Expiry(s, s.log[p].upload) ==>
      s.log[p].attachment in s.rows && s.rows[s.log[p].attachment].Some?
  }

  /** A later answer to the same key, before an attachment has expired, names that one. */
  ghost predicate Agreeing(s: State, p: nat, q: nat)
    requires p < |s.log| && q < |s.log|
  {
    var a, b := s.log[p], s.log[q];
    (&& a.upload < |s.uploads| && b.upload < |s.uploads|
     && Creates(a) && Key(s, a.upload) == Key(s, b.upload) && b.at < Expiry(s, a.upload))
    ==> b.attachment == a.attachment
  }

  ghost predicate AllAgree(s: State) { forall p, q :: 0 <= p < q < |s.log| ==> Agreeing(s, p, q) }

  /** Every success is in the log; every conflict is with a created attachment of another file. */
  ghost predicate Told(s: State, u: Id)
    requires u < |s.uploads|
  {
    match s.uploads[u].phase
    case Finished(Created) => Logged(s.log, u, u)
    case Finished(Replayed(a)) => a != u && Logged(s.log, u, a)
    case Finished(OtherFile(a)) =>
      && a < |s.uploads| && s.uploads[a].phase == Finished(Created)
      && s.uploads[a].request.key == s.uploads[u].request.key
      && s.uploads[a].request.fingerprint != s.uploads[u].request.fingerprint
    case _ => true
  }

  ghost predicate Logged(log: seq<Answer>, u: Id, a: Id) {
    exists p :: 0 <= p < |log| && log[p].upload == u && log[p].attachment == a
  }

  ghost predicate AllTold(s: State) { forall u :: 0 <= u < |s.uploads| ==> Told(s, u) }

  ghost predicate Invariant(s: State) {
    && AllPlaced(s) && Signed(s) && KeysUnique(s) && Stamps(s)
    && AllFaithful(s) && KeysKept(s) && AllAgree(s) && AllTold(s)
  }

  predicate MovesUpload(step: Step) { !step.Tick? && !step.Arrive? }

  lemma OtherUploads(s: State, step: Step, u: Id)
    requires Enabled(s, step) && MovesUpload(step) && u != step.upload
    ensures |Apply(s, step).uploads| == |s.uploads|
    ensures u < |s.uploads| ==> Apply(s, step).uploads[u] == s.uploads[u]
  {
  }

  lemma OtherFiles(s: State, step: Step, u: Id)
    requires Enabled(s, step) && MovesUpload(step) && u != step.upload
    ensures u in Apply(s, step).incoming <==> u in s.incoming
    ensures u in Apply(s, step).quarantine <==> u in s.quarantine
  {
  }

  lemma OtherRows(s: State, step: Step, u: Id)
    requires Enabled(s, step) && MovesUpload(step) && u != step.upload
    ensures u in Apply(s, step).pending <==> u in s.pending
    ensures u in Apply(s, step).rows <==> u in s.rows
  {
  }

  lemma OthersPlaced(s: State, step: Step, u: Id)
    requires Placed(s, u) && Enabled(s, step) && MovesUpload(step) && u != step.upload
    ensures Placed(Apply(s, step), u)
  {
    OtherUploads(s, step, u);
    OtherFiles(s, step, u);
    OtherRows(s, step, u);
  }

  lemma ArrivalPlaced(s: State, step: Step, u: Id)
    requires Placed(s, u) && Enabled(s, step) && !MovesUpload(step)
    ensures Placed(Apply(s, step), u)
  {
  }

  lemma FileMovedIn(s: State, step: Step)
    requires Enabled(s, step) && MovesUpload(step) && Placed(s, step.upload)
    ensures var t, u := Apply(s, step), step.upload;
            && (u in t.incoming <==> IsIncoming(t.uploads[u].phase))
            && (u in t.quarantine <==> IsQuarantined(t.uploads[u].phase))
  {
  }

  lemma RowMovedIn(s: State, step: Step)
    requires Enabled(s, step) && MovesUpload(step) && Placed(s, step.upload)
    ensures var t, u := Apply(s, step), step.upload;
            && (u in t.pending <==> t.uploads[u].phase == Inserted)
            && (u in t.rows <==> t.uploads[u].phase == Finished(Created))
  {
  }

  lemma MovedPlaced(s: State, step: Step)
    requires Enabled(s, step) && MovesUpload(step) && Placed(s, step.upload)
    ensures Placed(Apply(s, step), step.upload)
  {
    FileMovedIn(s, step);
    RowMovedIn(s, step);
  }

  lemma PlacedKept(s: State, step: Step)
    requires Invariant(s) && Enabled(s, step)
    ensures AllPlaced(Apply(s, step))
  {
    forall u: Id ensures Placed(Apply(s, step), u) {
      assert Placed(s, u);
      if !MovesUpload(step) {
        ArrivalPlaced(s, step, u);
      } else if u == step.upload {
        MovedPlaced(s, step);
      } else {
        OthersPlaced(s, step, u);
      }
    }
  }

  /** A step never changes what an upload asked for, nor, once stamped, when it was. */
  ghost predicate Grows(s: State, t: State) {
    && s.now <= t.now
    && |s.uploads| <= |t.uploads|
    && s.log <= t.log
    && forall u :: 0 <= u < |s.uploads| ==>
         && t.uploads[u].request == s.uploads[u].request
         && (s.uploads[u].phase != Arrived ==> t.uploads[u].stampedAt == s.uploads[u].stampedAt)
         && (s.uploads[u].phase.Finished? ==> t.uploads[u] == s.uploads[u])
  }

  lemma StepGrows(s: State, step: Step)
    requires Enabled(s, step)
    ensures Grows(s, Apply(s, step))
  {
  }

  /** A key on a row was there before, or has just been committed. */
  lemma RowOrigin(s: State, step: Step, a: Id)
    requires Enabled(s, step) && a in Apply(s, step).rows && Apply(s, step).rows[a].Some?
    ensures (a in s.rows && s.rows[a] == Apply(s, step).rows[a])
            || (step == Commit(a) && s.pending[a] == Apply(s, step).rows[a].value)
  {
  }

  /** So was an uncommitted one, or it has just been inserted, when nobody held it. */
  lemma PendingOrigin(s: State, step: Step, a: Id)
    requires Enabled(s, step) && a in Apply(s, step).pending
    ensures step != Commit(a)
    ensures (a in s.pending && s.pending[a] == Apply(s, step).pending[a])
            || (&& step == Insert(a) && Apply(s, step).pending[a] == ReservationOf(s, a)
                && Unlocked(s, Key(s, a)) && Finds(s.rows, Key(s, a), None))
  {
  }

  lemma SignedKept(s: State, step: Step)
    requires Invariant(s) && Enabled(s, step)
    ensures Signed(Apply(s, step))
  {
    var t := Apply(s, step);
    StepGrows(s, step);
    forall a | a in t.rows && t.rows[a].Some? ensures a < |t.uploads| && t.rows[a].value == ReservationOf(t, a) {
      RowOrigin(s, step, a);
      assert Placed(s, a);
    }
    forall a | a in t.pending ensures a < |t.uploads| && t.pending[a] == ReservationOf(t, a) {
      PendingOrigin(s, step, a);
      assert Placed(s, a);
    }
  }

  lemma UniqueKept(s: State, step: Step)
    requires Invariant(s) && Enabled(s, step)
    ensures KeysUnique(Apply(s, step))
  {
    var t := Apply(s, step);
    forall a, b | a in t.rows && b in t.rows && t.rows[a].Some? && Holds(t.rows[b], t.rows[a].value.key)
      ensures a == b
    {
      RowOrigin(s, step, a);
      RowOrigin(s, step, b);
    }
    forall a, b | a in t.pending && b in t.pending && t.pending[a].key == t.pending[b].key ensures a == b {
      PendingOrigin(s, step, a);
      PendingOrigin(s, step, b);
    }
    forall a, b | a in t.pending && b in t.rows ensures !Holds(t.rows[b], t.pending[a].key) {
      PendingOrigin(s, step, a);
      if t.rows[b].Some? { RowOrigin(s, step, b); }
    }
  }

  /** Releasing a key clears it from every row in which it had expired when the upload was
      stamped, and changes nothing else. */
  lemma ReleaseClears(s: State, u: Id, a: Id)
    requires Enabled(s, Release(u)) && a in s.rows
    ensures var t, row := Apply(s, Release(u)), s.rows[a];
            && t.rows.Keys == s.rows.Keys
            && t.rows[a] == if row.Some? && row.value.key == s.uploads[u].request.key
                               && row.value.expiresAt <= s.uploads[u].stampedAt
                            then None else row
  {
  }

  lemma StampsKept(s: State, step: Step)
    requires Invariant(s) && Enabled(s, step)
    ensures Stamps(Apply(s, step))
  {
  }

  /** What a successful step adds to the log. */
  lemma NewAnswer(s: State, step: Step)
    requires Invariant(s) && Enabled(s, step)
    ensures var t := Apply(s, step);
            t.log == s.log
            || (|t.log| == |s.log| + 1 && t.log[..|s.log|] == s.log && Faithful(t, t.log[|s.log|]) && t.now == s.now
                && t.log[|s.log|].at == s.now && t.log[|s.log|].attachment in t.rows
                && t.rows[t.log[|s.log|].attachment].Some?)
  {
    assert step.LookUp? || step.LookUpAgain? || step.Commit? || Apply(s, step).log == s.log;
    if step.LookUp? || step.LookUpAgain? {
      assert Placed(s, step.upload);
      if step.found.Some? { assert Placed(s, step.found.value); }
    }
  }

  lemma FaithfulKept(s: State, step: Step)
    requires Invariant(s) && Enabled(s, step)
    ensures AllFaithful(Apply(s, step))
  {
    var t := Apply(s, step);
    StepGrows(s, step);
    NewAnswer(s, step);
    forall p | 0 <= p < |t.log| ensures Faithful(t, t.log[p]) {
      if p < |s.log| { assert t.log[p] == s.log[p] && Faithful(s, s.log[p]); }
    }
  }

  /** The only step that takes keys away takes those that had expired at an earlier instant. */
  lemma RowsKept(s: State, step: Step, a: Id)
    requires Invariant(s) && Enabled(s, step)
    requires a in s.rows && s.rows[a].Some? && s.now < s.rows[a].value.expiresAt
    ensures a in Apply(s, step).rows && Apply(s, step).rows[a] == s.rows[a]
  {
    assert Placed(s, a);
  }

  lemma KeysKeptKept(s: State, step: Step)
    requires Invariant(s) && Enabled(s, step)
    ensures KeysKept(Apply(s, step))
  {
    var t := Apply(s, step);
    StepGrows(s, step);
    NewAnswer(s, step);
    forall p | 0 <= p < |t.log| && Creates(t.log[p]) && t.log[p].upload < |t.uploads|
               && t.now < Expiry(t, t.log[p].upload)
      ensures t.log[p].attachment in t.rows && t.rows[t.log[p].attachment].Some?
    {
      if p < |s.log| {
        assert t.log[p] == s.log[p] && Faithful(s, s.log[p]);
        RowsKept(s, step, t.log[p].attachment);
      }
    }
  }

  /** A new answer agrees with every attachment of its key that has not expired. */
  lemma NewAnswerAgrees(s: State, step: Step, p: nat)
    requires Invariant(s) && Enabled(s, step) && p < |s.log| && |Apply(s, step).log| == |s.log| + 1
    ensures Agreeing(Apply(s, step), p, |s.log|)
  {
    var t := Apply(s, step);
    StepGrows(s, step);
    NewAnswer(s, step);
    UniqueKept(s, step);
    SignedKept(s, step);
    var a, b := t.log[p], t.log[|s.log|];
    assert a == s.log[p] && Faithful(s, a);
    if Creates(a) && Key(t, a.upload) == Key(t, b.upload) && b.at < Expiry(t, a.upload) {
      RowsKept(s, step, a.attachment);
      assert t.rows[a.attachment].value.key == t.rows[b.attachment].value.key;
    }
  }

  lemma AgreeKept(s: State, step: Step)
    requires Invariant(s) && Enabled(s, step)
    ensures AllAgree(Apply(s, step))
  {
    var t := Apply(s, step);
    StepGrows(s, step);
    NewAnswer(s, step);
    forall p, q | 0 <= p < q < |t.log| ensures Agreeing(t, p, q) {
      if q < |s.log| {
        assert t.log[p] == s.log[p] && t.log[q] == s.log[q];
        assert Faithful(s, s.log[p]) && Faithful(s, s.log[q]) && Agreeing(s, p, q);
      } else {
        NewAnswerAgrees(s, step, p);
      }
    }
  }

  lemma LoggedKept(log: seq<Answer>, longer: seq<Answer>, u: Id, a: Id)
    requires Logged(log, u, a) && log <= longer
    ensures Logged(longer, u, a)
  {
    var p :| 0 <= p < |log| && log[p].upload == u && log[p].attachment == a;
    assert longer[p] == log[p];
  }

  lemma ReplayTells(s: State, u: Id, a: Id)
    requires Invariant(s) && u < |s.uploads| && !s.uploads[u].phase.Finished?
    requires a in s.rows && Holds(s.rows[a], Key(s, u))
    ensures Told(Replay(s, u, a), u)
  {
    var t := Replay(s, u, a);
    assert Placed(s, a);
    if t.uploads[u].phase == Finished(Replayed(a)) {
      assert t.log[|s.log|] == Answer(u, a, s.now);
    }
  }

  lemma CommitTells(s: State, u: Id)
    requires Enabled(s, Commit(u))
    ensures Told(Apply(s, Commit(u)), u)
  {
    assert Apply(s, Commit(u)).log[|s.log|] == Answer(u, u, s.now);
  }

  lemma LookUpTells(s: State, step: Step, u: Id)
    requires Invariant(s) && Enabled(s, step) && u < |s.uploads|
    requires (step.LookUp? || step.LookUpAgain?) && step.upload == u
    ensures Told(Apply(s, step), u)
  {
    if step.found.Some? { ReplayTells(s, u, step.found.value); }
  }

  /** Other steps finish an upload only by refusing or failing it. */
  lemma OthersTellNothing(s: State, step: Step, u: Id)
    requires Enabled(s, step) && u < |s.uploads| && Apply(s, step).uploads[u] != s.uploads[u]
    requires !step.LookUp? && !step.LookUpAgain? && !step.Commit?
    ensures Told(Apply(s, step), u)
  {
  }

  lemma TellsNow(s: State, step: Step, u: Id)
    requires Invariant(s) && Enabled(s, step) && u < |s.uploads|
    requires Apply(s, step).uploads[u] != s.uploads[u]
    ensures Told(Apply(s, step), u)
  {
    if step.LookUp? || step.LookUpAgain? {
      LookUpTells(s, step, u);
    } else if step.Commit? {
      CommitTells(s, u);
    } else {
      OthersTellNothing(s, step, u);
    }
  }

  lemma ToldKept(s: State, step: Step)
    requires Invariant(s) && Enabled(s, step)
    ensures AllTold(Apply(s, step))
  {
    var t := Apply(s, step);
    StepGrows(s, step);
    forall u | 0 <= u < |t.uploads| ensures Told(t, u) {
      if u < |s.uploads| {
        assert Told(s, u);
        if t.uploads[u] != s.uploads[u] {
          TellsNow(s, step, u);
        } else if t.uploads[u].phase == Finished(Created) {
          LoggedKept(s.log, t.log, u, u);
        } else if t.uploads[u].phase.Finished? && t.uploads[u].phase.outcome.Replayed? {
          LoggedKept(s.log, t.log, u, t.uploads[u].phase.outcome.attachment);
        }
      }
    }
  }

  lemma InvariantKept(s: State, step: Step)
    requires Invariant(s) && Enabled(s, step)
    ensures Invariant(Apply(s, step))
  {
    PlacedKept(s, step);
    SignedKept(s, step);
    UniqueKept(s, step);
    StampsKept(s, step);
    FaithfulKept(s, step);
    KeysKeptKept(s, step);
    AgreeKept(s, step);
    ToldKept(s, step);
  }

  lemma {:induction false} InvariantHolds(s: State, steps: seq<Step>)
    requires Invariant(s) && CanRun(s, steps)
    ensures Invariant(Run(s, steps))
    decreases |steps|
  {
    if steps != [] {
      InvariantKept(s, steps[0]);
      InvariantHolds(Apply(s, steps[0]), steps[1..]);
    }
  }

  lemma ReachableInvariant(s: State)
    requires Reachable(s)
    ensures Invariant(s)
  {
    var now, steps :| CanRun(Initial(now), steps) && s == Run(Initial(now), steps);
    InvariantHolds(Initial(now), steps);
  }

  // ---------- what holds after every run ----------

  ghost predicate AllFinished(s: State) {
    forall u :: 0 <= u < |s.uploads| ==> s.uploads[u].phase.Finished?
  }

  /** When all uploads have finished, the quarantined objects are exactly the attachments with
      a row, one for each upload that created one; no transaction is open; and the incoming
      files left behind are exactly those of uploads whose key could not be looked up, or for
      which no quarantine directory could be made. */
  lemma FilesAndRowsAgree(s: State)
    requires Reachable(s) && AllFinished(s)
    ensures s.quarantine == s.rows.Keys
    ensures s.pending == map[]
    ensures forall u :: u in s.rows <==> In(s, u, Finished(Created))
    ensures forall u :: u in s.incoming <==> In(s, u, Finished(Stranded))
  {
    ReachableInvariant(s);
    forall u: Id
      ensures u in s.quarantine <==> u in s.rows.Keys
      ensures u !in s.pending
      ensures u in s.rows <==> In(s, u, Finished(Created))
      ensures u in s.incoming <==> In(s, u, Finished(Stranded))
    {
      assert Placed(s, u);
    }
  }

  /** An upload whose look-up fails leaves its file behind. */
  lemma FileLeftBehind(request: Request)
    ensures var steps := [Arrive(request), Stamp(0), FailLookUp(0)];
            && CanRun(Initial(0), steps)
            && var s := Run(Initial(0), steps);
               s.incoming == {0} && s.quarantine == {} && s.uploads == [Upload(request, 0, Finished(Stranded))]
  {
    var s1 := Apply(Initial(0), Arrive(request));
    var s2 := Apply(s1, Stamp(0));
    var s3 := Apply(s2, FailLookUp(0));
    var steps := [Arrive(request), Stamp(0), FailLookUp(0)];
    assert steps[1..] == [Stamp(0), FailLookUp(0)];
    assert steps[1..][1..] == [FailLookUp(0)];
    assert steps[1..][1..][1..] == [];
    assert CanRun(s2, [FailLookUp(0)]) && Run(s2, [FailLookUp(0)]) == s3;
    assert CanRun(s1, steps[1..]) && Run(s1, steps[1..]) == s3;
  }

  /** At every moment a committed row has its object, and no row or open transaction shares
      its key with another. */
  lemma RowsHaveObjectsAndOwnKeys(s: State)
    requires Reachable(s)
    ensures s.rows.Keys <= s.quarantine && s.pending.Keys <= s.quarantine
    ensures s.incoming !! s.quarantine
    ensures KeysUnique(s)
  {
    ReachableInvariant(s);
    forall u: Id
      ensures u in s.rows || u in s.pending ==> u in s.quarantine
      ensures !(u in s.incoming && u in s.quarantine)
    {
      assert Placed(s, u);
    }
  }

  /** From its creation until it expires, an attachment is what every successful call of its
      key returns, whatever the interleaving. */
  lemma OneAttachmentPerPeriod(s: State, p: nat, q: nat)
    requires Reachable(s) && p < q < |s.log|
    requires s.log[p].upload < |s.uploads| && s.log[q].upload < |s.uploads|
    requires Creates(s.log[p]) && Key(s, s.log[p].upload) == Key(s, s.log[q].upload)
    requires s.log[q].at < Expiry(s, s.log[p].upload)
    ensures s.log[q].attachment == s.log[p].attachment
  {
    ReachableInvariant(s);
    assert Agreeing(s, p, q);
  }

  /** Two attachments of one key: the first had expired when the second was created. */
  lemma SecondAttachmentAfterExpiry(s: State, p: nat, q: nat)
    requires Reachable(s) && p < q < |s.log| && Creates(s.log[p]) && Creates(s.log[q])
    requires s.log[p].upload < |s.uploads| && s.log[q].upload < |s.uploads|
    requires s.log[p].upload != s.log[q].upload && Key(s, s.log[p].upload) == Key(s, s.log[q].upload)
    ensures Expiry(s, s.log[p].upload) <= s.log[q].at
  {
    ReachableInvariant(s);
    assert Agreeing(s, p, q);
  }

  /** What an upload answers is true: an attachment created for the same key and the same
      file, or a conflict with one created for the same key and another file. */
  lemma AnswersAreTrue(s: State, u: Id)
    requires Reachable(s) && u < |s.uploads| && s.uploads[u].phase.Finished?
    ensures var outcome := s.uploads[u].phase.outcome;
            && (outcome == Created ==> exists p :: 0 <= p < |s.log| && s.log[p].upload == u && s.log[p].attachment == u)
            && (outcome.Replayed? ==>
                  && In(s, outcome.attachment, Finished(Created))
                  && s.uploads[outcome.attachment].request == s.uploads[u].request
                  && exists p :: 0 <= p < |s.log| && s.log[p].upload == u && s.log[p].attachment == outcome.attachment)
            && (outcome.OtherFile? ==>
                  && In(s, outcome.holder, Finished(Created))
                  && s.uploads[outcome.holder].request.key == s.uploads[u].request.key
                  && s.uploads[outcome.holder].request.fingerprint != s.uploads[u].request.fingerprint)
  {
    ReachableInvariant(s);
    assert Told(s, u);
    if s.uploads[u].phase.outcome.Replayed? {
      var p :| 0 <= p < |s.log| && s.log[p].upload == u && s.log[p].attachment == s.uploads[u].phase.outcome.attachment;
      assert Faithful(s, s.log[p]);
    }
  }

  /** While a row holds a key, every upload with the key is answered from it, whether it looks
      the key up before or collides with it: its object is deleted and it looks again. */
  lemma HolderAnswers(s: State, a: Id, u: Id)
    requires Reachable(s) && a in s.rows && s.rows[a].Some? && u < |s.uploads| && s.rows[a].value.key == Key(s, u)
    ensures var outcome := if s.rows[a].value.fingerprint == s.uploads[u].request.fingerprint
                           then Replayed(a) else OtherFile(a);
            && (In(s, u, Released) ==>
                  Enabled(s, LookUp(u, Some(a))) && In(Apply(s, LookUp(u, Some(a))), u, Finished(outcome)))
            && (In(s, u, Quarantined) ==> Enabled(s, Insert(u)) && In(Apply(s, Insert(u)), u, Aborted(true)))
            && (In(s, u, Aborted(true)) ==>
                  In(Apply(s, Compensate(u)), u, Violated) && Apply(s, Compensate(u)).rows == s.rows)
            && (In(s, u, Violated) ==>
                  Enabled(s, LookUpAgain(u, Some(a))) && In(Apply(s, LookUpAgain(u, Some(a))), u, Finished(outcome)))
            && forall b :: Finds(s.rows, Key(s, u), Some(b)) ==> b == a
  {
    ReachableInvariant(s);
  }

  /** The discard before a replay that follows a collision finds nothing: the file has been
      moved to quarantine and deleted there. */
  lemma LateDiscardFindsNothing(s: State, u: Id)
    requires Reachable(s) && In(s, u, Violated)
    ensures Discard(s, u) == s && u !in s.quarantine
  {
    ReachableInvariant(s);
    assert Placed(s, u);
    assert s.incoming - {u} == s.incoming;
  }

  predicate Fails(step: Step) {
    || step.Reject? || step.FailLookUp? || step.Refuse? || step.FailDirectory? || step.FailQuarantine?
    || step.Abort? || step.FailAgain?
  }

  lemma SomethingIsFound(rows: map<Id, Option<Reservation>>, key: string) returns (found: Option<Id>)
    ensures Finds(rows, key, found)
  {
    if a :| a in rows && Holds(rows[a], key) {
      found := Some(a);
    } else {
      found := None;
    }
  }

  /** No upload is ever stuck: it can go on without a failure, or waits for an open
      transaction that can commit. */
  lemma NeverBlocked(s: State, u: Id)
    requires Reachable(s) && u < |s.uploads| && !s.uploads[u].phase.Finished?
    ensures exists step :: MovesUpload(step) && !Fails(step) && Enabled(s, step)
                           && (step.upload == u || (In(s, u, Quarantined) && step.Commit?))
  {
    ReachableInvariant(s);
    assert Placed(s, u);
    var found := SomethingIsFound(s.rows, Key(s, u));
    var step := match s.uploads[u].phase
      case Arrived => Stamp(u)
      case Stamped => Release(u)
      case Released => LookUp(u, found)
      case Missed => Admit(u)
      case Admitted => Quarantine(u)
      case Quarantined => Insert(u)
      case Inserted => Commit(u)
      case Aborted(_) => Compensate(u)
      case _ => LookUpAgain(u, found);
    if In(s, u, Quarantined) && !Unlocked(s, Key(s, u)) {
      var a :| a in s.pending && s.pending[a].key == Key(s, u);
      assert Placed(s, a);
      step := Commit(a);
    }
    assert MovesUpload(step) && !Fails(step) && Enabled(s, step);
  }

  /** Once every row with a key has expired, an upload with it finds none and goes on. */
  lemma ExpiredKeyIsFree(s: State, request: Request, time: int)
    requires s.now <= time
    requires forall a :: a in s.rows && s.rows[a].Some? && s.rows[a].value.key == request.key ==>
               s.rows[a].value.expiresAt <= time
    ensures var u := |s.uploads|;
            var released := Apply(Apply(Apply(Apply(s, Arrive(request)), Tick(time)), Stamp(u)), Release(u));
            && released.now == time && Enabled(released, LookUp(u, None))
            && In(Apply(released, LookUp(u, None)), u, Missed)
  {
    NothingFoundIff(s.rows, request.key, time);
  }

  // ---------- one upload ----------

  lemma LastUpload(uploads: seq<Upload>, a: Upload, b: Upload, c: Upload, d: Upload)
    ensures (uploads + [a])[|uploads| := b][|uploads| := c][|uploads| := d] == uploads + [d]
    ensures (uploads + [a])[|uploads| := b][|uploads| := c] == uploads + [c]
  {
  }

  /** After the expired keys are cleared none is found exactly when all had expired. */
  lemma NothingFoundIff(rows: map<Id, Option<Reservation>>, key: string, now: int)
    ensures Finds(ClearExpired(rows, key, now), key, None)
            <==> forall a :: a in rows && rows[a].Some? && rows[a].value.key == key ==> rows[a].value.expiresAt <= now
  {
    var cleared := ClearExpired(rows, key, now);
    if Finds(cleared, key, None) {
      forall a | a in rows && rows[a].Some? && rows[a].value.key == key ensures rows[a].value.expiresAt <= now {
        assert a in cleared && !Holds(cleared[a], key);
      }
    }
  }

  class PublicAttachments {
    var state: State

    constructor (now: int)
      ensures state == Initial(now) && Invariant(state)
    {
      state := Initial(now);
    }

    method Take(step: Step)
      requires Enabled(state, step)
      modifies this
      ensures state == Apply(old(state), step) && (Invariant(old(state)) ==> Invariant(state))
    {
      if Invariant(state) { InvariantKept(state, step); }
      state := Apply(state, step);
    }

    method FindRow(key: string) returns (found: Option<Id>)
      ensures Finds(state.rows, key, found)
    {
      if exists a :: a in state.rows && Holds(state.rows[a], key) {
        var a :| a in state.rows && Holds(state.rows[a], key);
        return Some(a);
      }
      return None;
    }

    /** Clears the key if it has expired and looks it up; the row that holds it answers. */
    method FindOrMiss(request: Request) returns (found: Option<Id>)
      requires |state.uploads| !in state.incoming
      modifies this
      ensures Invariant(old(state)) ==> Invariant(state)
      ensures Finds(ClearExpired(old(state).rows, request.key, old(state).now), request.key, found)
      ensures found.None? <==> AllExpired(old(state), request.key)
      ensures var s, u := old(state), |old(state).uploads|;
              var missed := s.(rows := ClearExpired(s.rows, request.key, s.now),
                               incoming := s.incoming + {u},
                               uploads := s.uploads + [Upload(request, s.now, Missed)]);
              state == match found
                       case Some(a) => Replay(missed, u, a)
                       case None => missed
    {
      ghost var s := state;
      var u := |state.uploads|;
      Take(Arrive(request));
      Take(Stamp(u));
      Take(Release(u));
      found := FindRow(request.key);
      assert found.None? <==> Finds(state.rows, request.key, None);
      NothingFoundIff(s.rows, request.key, s.now);
      Take(LookUp(u, found));
      LastUpload(s.uploads, Upload(request, s.now, Arrived), Upload(request, s.now, Stamped),
                 Upload(request, s.now, Released), Upload(request, s.now, state.uploads[u].phase));
      LastUpload(s.uploads, Upload(request, s.now, Missed), Upload(request, s.now, Missed),
                 Upload(request, s.now, Missed), Upload(request, s.now, state.uploads[u].phase));
    }

    /** Moves the file to quarantine and inserts its row, the key being free. */
    method Store(u: Id)
      requires In(state, u, Missed) && Unlocked(state, Key(state, u)) && Finds(state.rows, Key(state, u), None)
      modifies this
      ensures Invariant(old(state)) ==> Invariant(state)
      ensures var s := old(state);
              state == Move(s.(incoming := s.incoming - {u}, quarantine := s.quarantine + {u},
                               pending := s.pending[u := ReservationOf(s, u)]), u, Inserted)
    {
      ghost var s := state;
      Take(Admit(u));
      Take(Quarantine(u));
      Take(Insert(u));
      assert state.uploads == s.uploads[u := s.uploads[u].(phase := Inserted)];
    }

    /** A failed transaction: the row is gone and the object deleted. */
    method Undo(u: Id)
      requires In(state, u, Inserted)
      modifies this
      ensures Invariant(old(state)) ==> Invariant(state)
      ensures var s := old(state);
              state == Move(s.(pending := s.pending - {u}, quarantine := s.quarantine - {u}), u, Finished(Failed))
    {
      ghost var s := state;
      Take(Abort(u, false));
      Take(Compensate(u));
      assert state.uploads == s.uploads[u := s.uploads[u].(phase := Finished(Failed))];
    }

    /** No row holds the key, or it has expired in each that does. */
    static ghost predicate AllExpired(s: State, key: string) {
      forall a :: a in s.rows && s.rows[a].Some? && s.rows[a].value.key == key ==> s.rows[a].value.expiresAt <= s.now
    }

    /** An upload that no other one interrupts.  The holder of a valid key answers it; if there
        is none and it is admitted, it leaves an object and a row, or neither. */
    method Execute(request: Request, admitted: bool, commits: bool) returns (outcome: Outcome)
      requires Placed(state, |state.uploads|) && Unlocked(state, request.key)
      modifies this
      ensures Invariant(old(state)) ==> Invariant(state)
      ensures state.incoming == old(state).incoming && state.pending == old(state).pending
      ensures AllExpired(old(state), request.key) ==>
                outcome == (if !admitted then Refused else if commits then Created else Failed)
      ensures !AllExpired(old(state), request.key) ==> outcome.Replayed? || outcome.OtherFile?
      ensures outcome.Created? ==>
                && |old(state).uploads| in state.rows
                && state.rows[|old(state).uploads|]
                   == Some(Reservation(request.key, request.fingerprint, old(state).now + 86400000))
      ensures var s, u := old(state), |old(state).uploads|;
              var rows := ClearExpired(s.rows, request.key, s.now);
              match outcome
              case Created =>
                && Finds(rows, request.key, None) && admitted && commits
                && state.rows == rows[u := Some(Reservation(request.key, request.fingerprint, s.now + TTL))]
                && state.quarantine == s.quarantine + {u}
              case Replayed(a) =>
                && Finds(rows, request.key, Some(a)) && rows[a].value.fingerprint == request.fingerprint
                && state.rows == rows && state.quarantine == s.quarantine
              case OtherFile(a) =>
                && Finds(rows, request.key, Some(a)) && rows[a].value.fingerprint != request.fingerprint
                && state.rows == rows && state.quarantine == s.quarantine
              case Refused =>
                Finds(rows, request.key, None) && !admitted && state.rows == rows && state.quarantine == s.quarantine
              case Failed =>
                && Finds(rows, request.key, None) && admitted && !commits
                && state.rows == rows && state.quarantine == s.quarantine
              case Stranded => false
    {
      ghost var s := state;
      var u := |state.uploads|;
      var found := FindOrMiss(request);
      if found.Some? {
        assert s.incoming + {u} - {u} == s.incoming;
        return state.uploads[u].phase.outcome;
      }
      assert s.incoming + {u} - {u} == s.incoming;
      if !admitted {
        Take(Refuse(u));
        return Refused;
      }
      Store(u);
      assert s.pending[u := state.pending[u]] - {u} == s.pending;
      if commits {
        Take(Commit(u));
        return Created;
      }
      assert s.quarantine + {u} - {u} == s.quarantine;
      Undo(u);
      return Failed;
    }
  }
}
