/** Several SLA processors working on the same rows, one atomic update at a time, while the
    rest of the application changes rows too. */
module SlaAlertProtocol {
  import opened Options
  import opened SlaAlerts

  /** What a processor is about to claim, with the clock value it started from. */
  datatype Job = Job(id: Id, target: Target, kind: Kind, now: int, threshold: int)

  datatype Phase =
    | Idle
    | Claiming(job: Job)
    | Repeating(job: Job)   // the first update of a breach found no row
    | Holding(job: Job)     // claimed; the notice is being sent

  /** A successful claim or a release, as it happened to the row. */
  datatype Event =
    | Claimed(id: Id, target: Target, kind: Kind, now: int)
    | Released(id: Id, target: Target, kind: Kind)

  type ProcessorId = nat

  /** `looked` are the tickets that the breach-check worker is about to flag, once for each of
      its jobs.  `marked` are those it has flagged while no breach was stamped, and of which no
      breach has been claimed or released since. */
  datatype State = State(
    tickets: Tickets, phases: map<ProcessorId, Phase>, history: seq<Event>, looked: multiset<Id>, marked: set<Id>)

  datatype Step =
    | Start(p: ProcessorId, job: Job)
    | Update(p: ProcessorId)
    | Repeat(p: ProcessorId)
    | Notified(p: ProcessorId)
    | Fail(p: ProcessorId)
    | Create(id: Id, ticket: Ticket)
    | Edit(id: Id, ticket: Ticket)
    | CheckBreach(id: Id, now: int)
    | Mark(id: Id)

  /** The alert columns of a row are as new. */
  predicate Fresh(t: Ticket) {
    && t.first.warningSentAt.None? && t.first.breachedAt.None? && t.first.notifiedAt.None?
    && t.resolution.warningSentAt.None? && t.resolution.breachedAt.None? && t.resolution.notifiedAt.None?
    && !t.slaBreached
  }

  /** An edit of other columns: status, due dates, pauses, responses. */
  predicate SameAlerts(s: Side, t: Side) {
    s.warningSentAt == t.warningSentAt && s.breachedAt == t.breachedAt && s.notifiedAt == t.notifiedAt
  }

  predicate Enabled(s: State, step: Step) {
    match step
    case Start(p, job) => (p in s.phases ==> s.phases[p] == Idle) && job.id in s.tickets
    case Update(p) => p in s.phases && s.phases[p].Claiming? && s.phases[p].job.id in s.tickets
    case Repeat(p) => p in s.phases && s.phases[p].Repeating? && s.phases[p].job.id in s.tickets
    case Notified(p) => p in s.phases && s.phases[p].Holding?
    case Fail(p) => p in s.phases && s.phases[p].Holding? && s.phases[p].job.id in s.tickets
    case Create(id, ticket) => id !in s.tickets && Fresh(ticket)
    case Edit(id, ticket) =>
      && id in s.tickets && ticket.slaBreached == s.tickets[id].slaBreached
      && SameAlerts(ticket.first, s.tickets[id].first) && SameAlerts(ticket.resolution, s.tickets[id].resolution)
    case CheckBreach(id, now) =>
      id in s.tickets && !s.tickets[id].deleted && !s.tickets[id].slaBreached && Overdue(s.tickets[id].resolution, now)
    case Mark(id) => id in s.looked && id in s.tickets
  }

  function Unmark(marked: set<Id>, job: Job): set<Id> { if job.kind == Breach then marked - {job.id} else marked }

  function Take(s: State, p: ProcessorId, job: Job, ticket: Ticket): State {
    s.(tickets := s.tickets[job.id := ticket],
       phases := s.phases[p := Holding(job)],
       history := s.history + [Claimed(job.id, job.target, job.kind, job.now)],
       marked := Unmark(s.marked, job))
  }

  function Apply(s: State, step: Step): State
    requires Enabled(s, step)
  {
    match step
    case Start(p, job) => s.(phases := s.phases[p := Claiming(job)])
    case Update(p) =>
      var job := s.phases[p].job;
      var updated := if job.kind == Breach then ClaimFirst(s.tickets[job.id], job.target, job.now)
                     else ClaimWarning(s.tickets[job.id], job.target, job.now, job.threshold);
      if updated.Some? then Take(s, p, job, updated.value)
      else s.(phases := s.phases[p := if job.kind == Breach then Repeating(job) else Idle])
    case Repeat(p) =>
      var job := s.phases[p].job;
      var updated := ClaimRepeat(s.tickets[job.id], job.target, job.now);
      if updated.Some? then Take(s, p, job, updated.value)
      else s.(phases := s.phases[p := Idle])
    case Notified(p) => s.(phases := s.phases[p := Idle])
    case Fail(p) =>
      var job := s.phases[p].job;
      s.(tickets := s.tickets[job.id := Release(s.tickets[job.id], job.target, job.kind)],
         phases := s.phases[p := Idle],
         history := s.history + [Released(job.id, job.target, job.kind)],
         marked := Unmark(s.marked, job))
    case Create(id, ticket) => s.(tickets := s.tickets[id := ticket])
    case Edit(id, ticket) => s.(tickets := s.tickets[id := ticket])
    case CheckBreach(id, _) => s.(looked := s.looked + multiset{id})
    case Mark(id) =>
      s.(tickets := s.tickets[id := s.tickets[id].(slaBreached := true)],
         looked := s.looked - multiset{id},
         marked := if SomeBreach(s.tickets[id]) then s.marked else s.marked + {id})
  }

  // ---------- runs ----------

  function Initial(): State { State(map[], map[], [], multiset{}, {}) }

  ghost predicate CanRun(s: State, steps: seq<Step>)
    decreases |steps|
  {
    steps == [] || (Enabled(s, steps[0]) && CanRun(Apply(s, steps[0]), steps[1..]))
  }

  ghost function Run(s: State, steps: seq<Step>): State
    requires CanRun(s, steps)
    decreases |steps|
  {
    if steps == [] then s else Run(Apply(s, steps[0]), steps[1..])
  }

  ghost predicate Reachable(s: State) {
    exists steps :: CanRun(Initial(), steps) && s == Run(Initial(), steps)
  }

  // ---------- the history of one alert ----------

  predicate About(e: Event, id: Id, target: Target, kind: Kind) { e.id == id && e.target == target && e.kind == kind }

  /** The clock value of the claim that stands, if the last event was one. */
  function StandingClaim(history: seq<Event>, id: Id, target: Target, kind: Kind): Option<int> {
    if history == [] then None
    else
      var last := history[|history| - 1];
      if !About(last, id, target, kind) then StandingClaim(history[..|history| - 1], id, target, kind)
      else if last.Claimed? then Some(last.now)
      else None
  }

  /** The events about one alert, in order. */
  function EventsOf(history: seq<Event>, id: Id, target: Target, kind: Kind): seq<Event> {
    if history == [] then []
    else
      EventsOf(history[..|history| - 1], id, target, kind)
      + (if About(history[|history| - 1], id, target, kind) then [history[|history| - 1]] else [])
  }

  lemma HistoryStep(history: seq<Event>, e: Event, id: Id, target: Target, kind: Kind)
    ensures StandingClaim(history + [e], id, target, kind)
            == if !About(e, id, target, kind) then StandingClaim(history, id, target, kind)
               else if e.Claimed? then Some(e.now) else None
    ensures EventsOf(history + [e], id, target, kind)
            == EventsOf(history, id, target, kind) + (if About(e, id, target, kind) then [e] else [])
  {
    var longer := history + [e];
    assert longer[..|longer| - 1] == history && longer[|longer| - 1] == e;
  }

  // ---------- what every step keeps ----------

  /** The breach columns tell the standing claim, and the warning column whether there is one. */
  ghost predicate Recorded(s: State) {
    && (forall id, target :: id in s.tickets ==>
          SideOf(s.tickets[id], target).notifiedAt == StandingClaim(s.history, id, target, Breach))
    && (forall id, target :: id in s.tickets ==>
          (SideOf(s.tickets[id], target).warningSentAt.Some? <==> StandingClaim(s.history, id, target, Warning).Some?))
    && (forall id, target, kind :: id !in s.tickets ==> EventsOf(s.history, id, target, kind) == [])
  }

  /** A stamped breach flags the ticket, and a flag without a stamp is the worker's. */
  predicate FlagsMatch(t: Ticket, marked: bool) {
    && NoticesMatchBreaches(t)
    && (SomeBreach(t) ==> t.slaBreached)
    && (t.slaBreached && !SomeBreach(t) <==> marked)
  }

  ghost predicate Flagged(s: State) {
    && s.marked <= s.tickets.Keys
    && forall id :: id in s.tickets ==> FlagsMatch(s.tickets[id], id in s.marked)
  }

  /** The second update is only made for breaches. */
  ghost predicate RepeatsAreBreaches(s: State) {
    forall p :: p in s.phases && s.phases[p].Repeating? ==> s.phases[p].job.kind == Breach
  }

  predicate HoldsWarning(s: State, p: ProcessorId, id: Id, target: Target) {
    && p in s.phases && s.phases[p].Holding?
    && s.phases[p].job.kind == Warning && s.phases[p].job.id == id && s.phases[p].job.target == target
  }

  /** While a processor holds a warning, the row says so. */
  ghost predicate Held(s: State) {
    forall p, id, target :: HoldsWarning(s, p, id, target) ==>
      id in s.tickets && SideOf(s.tickets[id], target).warningSentAt.Some?
  }

  /** No two processors hold the same warning. */
  ghost predicate HeldOnce(s: State) {
    forall p, q, id, target :: HoldsWarning(s, p, id, target) && HoldsWarning(s, q, id, target) ==> p == q
  }

  /** Breach claims with no release between them are more than the repeat interval apart. */
  ghost predicate Spaced(history: seq<Event>) {
    forall i, j :: 0 <= i < j < |history| && ClaimedAgain(history, i, j) ==>
      history[j].now > history[i].now + REPEAT_INTERVAL
  }

  /** Events i and j claim the same breach, and it is not released between them. */
  ghost predicate ClaimedAgain(history: seq<Event>, i: int, j: int)
    requires 0 <= i < j < |history|
  {
    Unreleased(history, i, j) && history[j].Claimed? && About(history[j], history[i].id, history[i].target, Breach)
  }

  /** Event i is a breach claim that is not released before event j. */
  ghost predicate Unreleased(history: seq<Event>, i: int, j: int)
    requires 0 <= i < j <= |history|
  {
    && history[i].Claimed? && history[i].kind == Breach
    && forall k :: i < k < j ==> history[k] != Released(history[i].id, history[i].target, Breach)
  }

  ghost predicate Alternating(events: seq<Event>) {
    forall k :: 0 <= k < |events| ==> (events[k].Claimed? <==> k % 2 == 0)
  }

  ghost predicate WarningsAlternate(s: State) {
    forall id, target ::
      var events := EventsOf(s.history, id, target, Warning);
      Alternating(events) && (|events| % 2 == 1 <==> StandingClaim(s.history, id, target, Warning).Some?)
  }

  ghost predicate Invariant(s: State) {
    && RepeatsAreBreaches(s) && Recorded(s) && Flagged(s) && Held(s) && HeldOnce(s)
    && Spaced(s.history) && WarningsAlternate(s)
  }

  lemma {:induction false} StandingAtLeast(history: seq<Event>, i: int)
    requires 0 <= i < |history| && Unreleased(history, i, |history|) && Spaced(history)
    ensures var standing := StandingClaim(history, history[i].id, history[i].target, Breach);
            standing.Some? && standing.value >= history[i].now
  {
    var n := |history| - 1;
    var last := history[n];
    if About(last, history[i].id, history[i].target, Breach) {
      assert last.Claimed?;
      if i < n { assert Unreleased(history, i, n); }
    } else {
      var before := history[..n];
      assert forall k :: i < k < n ==> before[k] == history[k];
      assert Spaced(before) by { SpacedPrefix(history, n); }
      StandingAtLeast(before, i);
    }
  }

  lemma SpacedPrefix(history: seq<Event>, n: nat)
    requires n <= |history| && Spaced(history)
    ensures Spaced(history[..n])
  {
    var before := history[..n];
    forall i, j | 0 <= i < j < n && ClaimedAgain(before, i, j)
      ensures before[j].now > before[i].now + REPEAT_INTERVAL
    {
      assert forall k :: i < k < j ==> history[k] == before[k];
      assert Unreleased(history, i, j);
    }
  }

  /** A claim that respects the standing one keeps the spacing; a release always does. */
  lemma SpacedStep(history: seq<Event>, e: Event)
    requires Spaced(history)
    requires e.Claimed? && e.kind == Breach ==>
               var standing := StandingClaim(history, e.id, e.target, Breach);
               standing.Some? ==> e.now > standing.value + REPEAT_INTERVAL
    ensures Spaced(history + [e])
  {
    var longer := history + [e];
    forall i, j | 0 <= i < j < |longer| && ClaimedAgain(longer, i, j)
      ensures longer[j].now > longer[i].now + REPEAT_INTERVAL
    {
      assert forall k :: i < k < j ==> longer[k] == history[k];
      assert Unreleased(history, i, j);
      if j == |history| {
        StandingAtLeast(history, i);
      }
    }
  }

  lemma AlternatingStep(events: seq<Event>, e: Event)
    requires Alternating(events) && (e.Claimed? <==> |events| % 2 == 0)
    ensures Alternating(events + [e])
  {
  }

  // ---------- one event ----------

  /** What an event does to its row: it sets or clears the one notice or warning it is about. */
  ghost predicate RowRecords(row: Ticket, updated: Ticket, e: Event) {
    forall target ::
      var before, after := SideOf(row, target), SideOf(updated, target);
      && after.notifiedAt == (if e.target != target || e.kind == Warning then before.notifiedAt
                              else if e.Claimed? then Some(e.now) else None)
      && (after.warningSentAt.Some?
          <==> if e.target != target || e.kind == Breach then before.warningSentAt.Some? else e.Claimed?)
  }

  /** The event a step adds to the history. */
  predicate Logs(s: State, step: Step, e: Event)
    requires Enabled(s, step)
  {
    Apply(s, step).history == s.history + [e]
  }

  lemma LogsAtMostOne(s: State, step: Step)
    requires Enabled(s, step)
    ensures var t := Apply(s, step);
            t.history == s.history || (|t.history| == |s.history| + 1 && Logs(s, step, t.history[|s.history|]))
  {
  }

  lemma LoggedRow(s: State, step: Step, e: Event)
    requires RepeatsAreBreaches(s) && Enabled(s, step) && Logs(s, step, e)
    ensures e.id in s.tickets
    ensures Apply(s, step).tickets == s.tickets[e.id := Apply(s, step).tickets[e.id]]
    ensures RowRecords(s.tickets[e.id], Apply(s, step).tickets[e.id], e)
  {
    var t := Apply(s, step);
    assert t.history[|s.history|] == e;
    match step
    case Update(p) =>
    case Repeat(p) =>
    case Fail(p) =>
    case _ =>
  }

  /** A claim finds no standing one, or for a breach one that is old enough; a warning is
      released only while its claim stands. */
  lemma LoggedFits(s: State, step: Step, e: Event)
    requires Invariant(s) && Enabled(s, step) && Logs(s, step, e)
    ensures e.kind == Warning ==> (e.Claimed? <==> StandingClaim(s.history, e.id, e.target, Warning).None?)
    ensures e.Claimed? && e.kind == Breach ==>
              var standing := StandingClaim(s.history, e.id, e.target, Breach);
              standing.Some? ==> e.now > standing.value + REPEAT_INTERVAL
  {
    var t := Apply(s, step);
    assert t.history[|s.history|] == e;
    assert SideOf(s.tickets[e.id], e.target).notifiedAt == StandingClaim(s.history, e.id, e.target, Breach);
    match step
    case Update(p) =>
    case Repeat(p) =>
    case Fail(p) => assert e.kind == Warning ==> HoldsWarning(s, p, e.id, e.target);
    case _ =>
  }

  /** The row columns that the history is about are unchanged. */
  ghost predicate SameRows(tickets: Tickets, others: Tickets) {
    && tickets.Keys <= others.Keys
    && (forall id :: id in tickets ==>
          SameAlerts(tickets[id].first, others[id].first) && SameAlerts(tickets[id].resolution, others[id].resolution))
    && (forall id :: id in others && id !in tickets ==> Fresh(others[id]))
  }

  lemma SilentRow(s: State, step: Step, id: Id)
    requires Enabled(s, step) && Apply(s, step).history == s.history && id in Apply(s, step).tickets
    ensures var row := Apply(s, step).tickets[id];
            if id in s.tickets then SameAlerts(s.tickets[id].first, row.first)
                                    && SameAlerts(s.tickets[id].resolution, row.resolution)
            else Fresh(row)
  {
  }

  lemma NoRowLost(s: State, step: Step)
    requires Enabled(s, step)
    ensures s.tickets.Keys <= Apply(s, step).tickets.Keys
  {
  }

  lemma SilentSteps(s: State, step: Step)
    requires Enabled(s, step) && Apply(s, step).history == s.history
    ensures SameRows(s.tickets, Apply(s, step).tickets)
  {
    NoRowLost(s, step);
    forall id | id in Apply(s, step).tickets
      ensures id in s.tickets ==> SameAlerts(s.tickets[id].first, Apply(s, step).tickets[id].first)
                                  && SameAlerts(s.tickets[id].resolution, Apply(s, step).tickets[id].resolution)
      ensures id !in s.tickets ==> Fresh(Apply(s, step).tickets[id])
    {
      SilentRow(s, step, id);
    }
  }

  // ---------- every step keeps the invariant ----------

  lemma RecordedKept(s: State, step: Step)
    requires Invariant(s) && Enabled(s, step)
    ensures Recorded(Apply(s, step))
  {
    var t := Apply(s, step);
    LogsAtMostOne(s, step);
    if t.history == s.history {
      SilentSteps(s, step);
      RecordedSilently(s, t);
    } else {
      var e := t.history[|s.history|];
      LoggedRow(s, step, e);
      RecordedEvent(s, t, e);
    }
  }

  lemma RecordedSilently(s: State, t: State)
    requires Recorded(s) && t.history == s.history && SameRows(s.tickets, t.tickets)
    ensures Recorded(t)
  {
    forall id, target | id in t.tickets
      ensures SideOf(t.tickets[id], target).notifiedAt == StandingClaim(t.history, id, target, Breach)
      ensures SideOf(t.tickets[id], target).warningSentAt.Some? <==> StandingClaim(t.history, id, target, Warning).Some?
    {
      if id !in s.tickets {
        NoEventsNoClaim(s.history, id, target, Breach);
        NoEventsNoClaim(s.history, id, target, Warning);
      }
    }
  }

  lemma RecordedEvent(s: State, t: State, e: Event)
    requires Recorded(s) && t.history == s.history + [e] && e.id in s.tickets && e.id in t.tickets
    requires t.tickets == s.tickets[e.id := t.tickets[e.id]] && RowRecords(s.tickets[e.id], t.tickets[e.id], e)
    ensures Recorded(t)
  {
    forall id, target | id in t.tickets
      ensures SideOf(t.tickets[id], target).notifiedAt == StandingClaim(t.history, id, target, Breach)
      ensures SideOf(t.tickets[id], target).warningSentAt.Some? <==> StandingClaim(t.history, id, target, Warning).Some?
    {
      HistoryStep(s.history, e, id, target, Breach);
      HistoryStep(s.history, e, id, target, Warning);
    }
    forall id, target, kind | id !in t.tickets ensures EventsOf(t.history, id, target, kind) == [] {
      HistoryStep(s.history, e, id, target, kind);
    }
  }

  lemma {:induction false} NoEventsNoClaim(history: seq<Event>, id: Id, target: Target, kind: Kind)
    requires EventsOf(history, id, target, kind) == []
    ensures StandingClaim(history, id, target, kind).None?
  {
    if history != [] { NoEventsNoClaim(history[..|history| - 1], id, target, kind); }
  }

  lemma FlaggedKept(s: State, step: Step)
    requires Invariant(s) && Enabled(s, step)
    ensures Flagged(Apply(s, step))
  {
    var t := Apply(s, step);
    forall id | id in t.tickets ensures FlagsMatch(t.tickets[id], id in t.marked) {
      FlaggedRow(s, step, id);
    }
  }

  lemma FlaggedRow(s: State, step: Step, id: Id)
    requires Flagged(s) && Enabled(s, step) && id in Apply(s, step).tickets
    requires RepeatsAreBreaches(s)
    ensures FlagsMatch(Apply(s, step).tickets[id], id in Apply(s, step).marked)
  {
    match step
    case Update(p) => FlaggedClaim(s.tickets[s.phases[p].job.id], s.phases[p].job, s.phases[p].job.id in s.marked);
    case Repeat(p) => FlaggedClaim(s.tickets[s.phases[p].job.id], s.phases[p].job, s.phases[p].job.id in s.marked);
    case Fail(p) => FlaggedRelease(s.tickets[s.phases[p].job.id], s.phases[p].job, s.phases[p].job.id in s.marked);
    case _ =>
  }

  /** What a claim leaves is stamped, unless it is of a warning. */
  lemma FlaggedClaim(t: Ticket, job: Job, marked: bool)
    requires FlagsMatch(t, marked)
    ensures var c := ClaimFirst(t, job.target, job.now); c.Some? ==> FlagsMatch(c.value, false)
    ensures var c := ClaimRepeat(t, job.target, job.now); c.Some? ==> FlagsMatch(c.value, false)
    ensures var c := ClaimWarning(t, job.target, job.now, job.threshold); c.Some? ==> FlagsMatch(c.value, marked)
  {
  }

  lemma FlaggedRelease(t: Ticket, job: Job, marked: bool)
    requires FlagsMatch(t, marked)
    ensures FlagsMatch(Release(t, job.target, Breach), false)
    ensures FlagsMatch(Release(t, job.target, Warning), marked)
  {
  }

  lemma RepeatsKept(s: State, step: Step)
    requires Invariant(s) && Enabled(s, step)
    ensures RepeatsAreBreaches(Apply(s, step))
  {
  }

  /** A warning newly held was just claimed; one held before is still in the row. */
  lemma HeldKept(s: State, step: Step)
    requires Invariant(s) && Enabled(s, step)
    ensures Held(Apply(s, step)) && HeldOnce(Apply(s, step))
  {
    var t := Apply(s, step);
    LogsAtMostOne(s, step);
    if t.history == s.history {
      SilentSteps(s, step);
      forall p, id, target | HoldsWarning(t, p, id, target) ensures HoldsWarning(s, p, id, target) {
        HeldSilently(s, step, p, id, target);
      }
    } else {
      var e := t.history[|s.history|];
      LoggedRow(s, step, e);
      forall p, id, target | HoldsWarning(t, p, id, target)
        ensures if HoldsWarning(s, p, id, target) then !About(e, id, target, Warning)
                else e.Claimed? && About(e, id, target, Warning)
      {
        HeldEvent(s, step, e, p, id, target);
      }
    }
  }

  lemma HeldSilently(s: State, step: Step, p: ProcessorId, id: Id, target: Target)
    requires Enabled(s, step) && Apply(s, step).history == s.history && HoldsWarning(Apply(s, step), p, id, target)
    ensures HoldsWarning(s, p, id, target)
  {
  }

  lemma HeldEvent(s: State, step: Step, e: Event, p: ProcessorId, id: Id, target: Target)
    requires Invariant(s) && Enabled(s, step) && Logs(s, step, e) && HoldsWarning(Apply(s, step), p, id, target)
    ensures if HoldsWarning(s, p, id, target) then !About(e, id, target, Warning)
            else e.Claimed? && About(e, id, target, Warning)
  {
    var t := Apply(s, step);
    assert t.history[|s.history|] == e;
    match step
    case Update(q) =>
    case Repeat(q) =>
    case Fail(q) =>
      assert HoldsWarning(s, p, id, target);
      assert e.kind == Warning ==> HoldsWarning(s, q, e.id, e.target);
    case _ =>
  }

  lemma SpacedKept(s: State, step: Step)
    requires Invariant(s) && Enabled(s, step)
    ensures Spaced(Apply(s, step).history)
  {
    var t := Apply(s, step);
    LogsAtMostOne(s, step);
    if t.history != s.history {
      var e := t.history[|s.history|];
      LoggedFits(s, step, e);
      SpacedStep(s.history, e);
    }
  }

  lemma WarningsAlternateKept(s: State, step: Step)
    requires Invariant(s) && Enabled(s, step)
    ensures WarningsAlternate(Apply(s, step))
  {
    var t := Apply(s, step);
    LogsAtMostOne(s, step);
    if t.history != s.history {
      var e := t.history[|s.history|];
      LoggedFits(s, step, e);
      forall id, target
        ensures var events := EventsOf(t.history, id, target, Warning);
                Alternating(events) && (|events| % 2 == 1 <==> StandingClaim(t.history, id, target, Warning).Some?)
      {
        HistoryStep(s.history, e, id, target, Warning);
        var events := EventsOf(s.history, id, target, Warning);
        assert Alternating(events) && (|events| % 2 == 1 <==> StandingClaim(s.history, id, target, Warning).Some?);
        if About(e, id, target, Warning) {
          AlternatingStep(events, e);
        }
      }
    }
  }

  lemma InvariantKept(s: State, step: Step)
    requires Invariant(s) && Enabled(s, step)
    ensures Invariant(Apply(s, step))
  {
    RepeatsKept(s, step);
    RecordedKept(s, step);
    FlaggedKept(s, step);
    HeldKept(s, step);
    SpacedKept(s, step);
    WarningsAlternateKept(s, step);
  }

  lemma {:induction false} InvariantHolds(s: State, steps: seq<Step>)
    requires Invariant(s) && CanRun(s, steps)
    ensures Invariant(Run(s, steps))
    decreases |steps|
  {
    if steps != [] {
      InvariantKept(s, steps[0]);
      InvariantHolds(Apply(s, steps[0]), steps[1..]);
    }
  }

  lemma ReachableInvariant(s: State)
    requires Reachable(s)
    ensures Invariant(s)
  {
    var steps :| CanRun(Initial(), steps) && s == Run(Initial(), steps);
    InvariantHolds(Initial(), steps);
  }

  // ---------- one claim ----------

  /** A processor that nothing interrupts claims a candidate as one update would, and is idle
      again after any other row. */
  lemma UninterruptedClaim(s: State, p: ProcessorId, job: Job)
    requires Enabled(s, Start(p, job))
    ensures var t := Apply(Apply(s, Start(p, job)), Update(p));
            var u := if t.phases[p].Repeating? then Apply(t, Repeat(p)) else t;
            var claim := Claim(s.tickets[job.id], job.target, job.kind, job.now, job.threshold);
            if Candidate(s.tickets[job.id], job.target, job.kind, job.now, job.threshold) then
              && claim.Some? && u.tickets == s.tickets[job.id := claim.value]
              && u.phases == s.phases[p := Holding(job)]
            else u.tickets == s.tickets && u.phases == s.phases[p := Idle]
  {
    CandidateIffClaimable(s.tickets[job.id], job.target, job.kind, job.now, job.threshold);
  }

  /** After its notice, sent or not, a processor is idle; a failed one gives the claim back. */
  lemma AfterTheNotice(s: State, p: ProcessorId)
    requires p in s.phases && s.phases[p].Holding? && s.phases[p].job.id in s.tickets
    ensures var job := s.phases[p].job;
            var sent, failed := Apply(s, Notified(p)), Apply(s, Fail(p));
            && sent.phases == failed.phases == s.phases[p := Idle] && sent.tickets == s.tickets
            && failed.tickets == s.tickets[job.id := failed.tickets[job.id]]
            && GivenBack(s.tickets[job.id], failed.tickets[job.id], job.target, job.kind)
  {
    GivenBackIsReleased(s.tickets[s.phases[p].job.id], Apply(s, Fail(p)).tickets[s.phases[p].job.id],
                        s.phases[p].job.target, s.phases[p].job.kind);
  }

  /** The worker flags a ticket that it has found overdue for resolution and not yet flagged. */
  lemma WorkerChecks(s: State, id: Id, now: int)
    ensures Enabled(s, CheckBreach(id, now))
            <==> id in s.tickets
                 && var t := s.tickets[id];
                    !t.deleted && !t.slaBreached && t.resolution.dueAt.Some? && t.resolution.dueAt.value < now
  {
  }

  // ---------- what holds over every interleaving ----------

  /** Two successful breach claims of one ticket and target with no release between them
      carry clock values more than six hours apart. */
  lemma BreachClaimsAreSpaced(s: State, i: nat, j: nat)
    requires Reachable(s) && i < j < |s.history|
    requires s.history[i].Claimed? && s.history[i].kind == Breach
    requires s.history[j].Claimed? && About(s.history[j], s.history[i].id, s.history[i].target, Breach)
    requires forall k :: i < k < j ==> s.history[k] != Released(s.history[i].id, s.history[i].target, Breach)
    ensures s.history[j].now > s.history[i].now + 21600000
  {
    ReachableInvariant(s);
    assert ClaimedAgain(s.history, i, j);
  }

  /** Successful warning claims of one ticket and target alternate with their releases, a
      claim first; and the row tells whether the last one stands. */
  lemma WarningClaimsAlternate(s: State, id: Id, target: Target)
    requires Reachable(s)
    ensures Alternating(EventsOf(s.history, id, target, Warning))
    ensures id in s.tickets ==>
              (SideOf(s.tickets[id], target).warningSentAt.Some?
               <==> |EventsOf(s.history, id, target, Warning)| % 2 == 1)
  {
    ReachableInvariant(s);
  }

  /** At most one processor at a time is sending the warning of one ticket and target. */
  lemma OneWarningAtATime(s: State, p: ProcessorId, q: ProcessorId, id: Id, target: Target)
    requires Reachable(s) && HoldsWarning(s, p, id, target) && HoldsWarning(s, q, id, target)
    ensures p == q
  {
    ReachableInvariant(s);
  }

  /** A notified key is present exactly when the breach is stamped; a stamped breach flags
      the ticket; and the flag is without a stamp exactly for the tickets that the breach-check
      worker has flagged and of which no breach has been claimed or released since. */
  lemma RowsStayConsistent(s: State, id: Id)
    requires Reachable(s) && id in s.tickets
    ensures NoticesMatchBreaches(s.tickets[id])
    ensures SomeBreach(s.tickets[id]) ==> s.tickets[id].slaBreached
    ensures s.tickets[id].slaBreached && !SomeBreach(s.tickets[id]) <==> id in s.marked
  {
    ReachableInvariant(s);
  }

  lemma FirstStep(s: State, step: Step, rest: seq<Step>)
    requires Enabled(s, step) && CanRun(Apply(s, step), rest)
    ensures CanRun(s, [step] + rest) && Run(s, [step] + rest) == Run(Apply(s, step), rest)
  {
    assert ([step] + rest)[1..] == rest;
  }

  function FlaggingSteps(): seq<Step> { [Create(0, OverdueTicket())] + ([CheckBreach(0, 1)] + ([Mark(0)] + [])) }

  /** The worker alone flags an overdue ticket that no processor has claimed. */
  lemma FlagWithoutStamp()
    ensures CanRun(Initial(), FlaggingSteps())
    ensures var s := Run(Initial(), FlaggingSteps());
            s.tickets == map[0 := OverdueTicket().(slaBreached := true)] && s.marked == {0} && s.phases == map[]
  {
    var s1 := Apply(Initial(), Create(0, OverdueTicket()));
    var s2 := Apply(s1, CheckBreach(0, 1));
    FirstStep(s2, Mark(0), []);
    FirstStep(s1, CheckBreach(0, 1), [Mark(0)] + []);
    FirstStep(Initial(), Create(0, OverdueTicket()), [CheckBreach(0, 1)] + ([Mark(0)] + []));
  }

  /** From there a first claim whose notice fails gives back a ticket without the flag. */
  lemma FailedClaimLosesWorkersFlag(s: State)
    requires s.tickets == map[0 := OverdueTicket().(slaBreached := true)] && s.phases == map[]
    ensures var steps := [Start(0, Job(0, FirstResponse, Breach, 1, 1))] + ([Update(0)] + ([Fail(0)] + []));
            CanRun(s, steps) && Run(s, steps).tickets == map[0 := OverdueTicket()]
  {
    var start := Start(0, Job(0, FirstResponse, Breach, 1, 1));
    var s1 := Apply(s, start);
    var s2 := Apply(s1, Update(0));
    FirstStep(s2, Fail(0), []);
    FirstStep(s1, Update(0), [Fail(0)] + []);
    FirstStep(s, start, [Update(0)] + ([Fail(0)] + []));
  }
}
