/** SLA alerts on ticket rows: which rows are due an alert, and the conditional updates that
    claim one and give it back. */
module SlaAlerts {
  import opened Options

  datatype Target = FirstResponse | Resolution

  datatype Kind = Warning | Breach

  /** The columns of one target. `notifiedAt` is its key in the JSON metadata. */
  datatype Side = Side(
    dueAt: Option<int>, warningSentAt: Option<int>, breachedAt: Option<int>, notifiedAt: Option<int>)

  datatype Ticket = Ticket(
    deleted: bool, closed: bool, responded: bool, paused: bool, first: Side, resolution: Side, slaBreached: bool)

  const REPEAT_INTERVAL: int := 6 * 60 * 60 * 1000

  const PAGE: nat := 100

  function SideOf(t: Ticket, target: Target): Side {
    match target
    case FirstResponse => t.first
    case Resolution => t.resolution
  }

  function WithSide(t: Ticket, target: Target, side: Side): Ticket {
    match target
    case FirstResponse => t.(first := side)
    case Resolution => t.(resolution := side)
  }

  function Other(target: Target): Target { if target == FirstResponse then Resolution else FirstResponse }

  predicate Active(t: Ticket, target: Target) {
    !t.deleted && !t.closed && (if target == FirstResponse then !t.responded else !t.paused)
  }

  predicate Overdue(side: Side, now: int) { side.dueAt.Some? && side.dueAt.value < now }

  predicate DueSoon(side: Side, now: int, threshold: int) {
    side.dueAt.Some? && now <= side.dueAt.value < threshold
  }

  /** The last notice is more than the repeat interval ago; without one, counted from the epoch. */
  predicate Stale(side: Side, now: int) {
    (if side.notifiedAt.Some? then side.notifiedAt.value else 0) < now - REPEAT_INTERVAL
  }

  // ---------- the query and the updates ----------

  predicate Candidate(t: Ticket, target: Target, kind: Kind, now: int, threshold: int) {
    var side := SideOf(t, target);
    && !t.deleted && !t.closed
    && (match target
        case FirstResponse => !t.responded
        case Resolution => !t.paused)
    && match kind
       case Breach => Overdue(side, now) && (side.breachedAt.None? || Stale(side, now))
       case Warning => side.warningSentAt.None? && DueSoon(side, now, threshold)
  }

  /** First breach: stamps the breach, marks the ticket and notes the notice. */
  function ClaimFirst(t: Ticket, target: Target, now: int): Option<Ticket> {
    var side := SideOf(t, target);
    if Active(t, target) && Overdue(side, now) && side.breachedAt.None? then
      Some(WithSide(t, target, side.(breachedAt := Some(now), notifiedAt := Some(now))).(slaBreached := true))
    else None
  }

  /** Repeat: notes another notice of a breach already stamped. */
  function ClaimRepeat(t: Ticket, target: Target, now: int): Option<Ticket> {
    var side := SideOf(t, target);
    if Active(t, target) && Overdue(side, now) && side.breachedAt.Some? && Stale(side, now) then
      Some(WithSide(t, target, side.(notifiedAt := Some(now))))
    else None
  }

  function ClaimWarning(t: Ticket, target: Target, now: int, threshold: int): Option<Ticket> {
    var side := SideOf(t, target);
    if Active(t, target) && DueSoon(side, now, threshold) && side.warningSentAt.None? then
      Some(WithSide(t, target, side.(warningSentAt := Some(now))))
    else None
  }

  /** A claim on a row that does not change meanwhile. */
  function Claim(t: Ticket, target: Target, kind: Kind, now: int, threshold: int): Option<Ticket> {
    match kind
    case Warning => ClaimWarning(t, target, now, threshold)
    case Breach =>
      if ClaimFirst(t, target, now).Some? then ClaimFirst(t, target, now) else ClaimRepeat(t, target, now)
  }

  /** Gives a claim back; for a breach this clears its stamp even if only a repeat failed. */
  function Release(t: Ticket, target: Target, kind: Kind): Ticket {
    var side := SideOf(t, target);
    match kind
    case Warning => WithSide(t, target, side.(warningSentAt := None))
    case Breach =>
      WithSide(t, target, side.(breachedAt := None, notifiedAt := None))
        .(slaBreached := SideOf(t, Other(target)).breachedAt.Some?)
  }

  /** What a release does to each column: it clears the notice of its kind, a breach's with the
      stamp, and then the flag says whether the other target is in breach. */
  predicate GivenBack(before: Ticket, after: Ticket, target: Target, kind: Kind) {
    var side, other := SideOf(before, target), Other(target);
    && after.deleted == before.deleted && after.closed == before.closed
    && after.responded == before.responded && after.paused == before.paused
    && SideOf(after, other) == SideOf(before, other)
    && SideOf(after, target).dueAt == side.dueAt
    && SideOf(after, target).warningSentAt == (if kind == Warning then None else side.warningSentAt)
    && SideOf(after, target).breachedAt == (if kind == Breach then None else side.breachedAt)
    && SideOf(after, target).notifiedAt == (if kind == Breach then None else side.notifiedAt)
    && after.slaBreached == if kind == Warning then before.slaBreached else SideOf(before, other).breachedAt.Some?
  }

  lemma GivenBackIsReleased(before: Ticket, after: Ticket, target: Target, kind: Kind)
    ensures GivenBack(before, after, target, kind) <==> after == Release(before, target, kind)
  {
  }

  // ---------- candidates and claims ----------

  /** A row is selected exactly when a claim on it would succeed. */
  lemma CandidateIffClaimable(t: Ticket, target: Target, kind: Kind, now: int, threshold: int)
    ensures Candidate(t, target, kind, now, threshold) <==> Claim(t, target, kind, now, threshold).Some?
  {
  }

  /** Column by column: when a row is due a breach notice or a warning. */
  lemma CandidateIff(t: Ticket, now: int, threshold: int)
    ensures Candidate(t, FirstResponse, Breach, now, threshold)
            <==> !t.deleted && !t.closed && !t.responded && BreachDue(t.first, now)
    ensures Candidate(t, Resolution, Breach, now, threshold)
            <==> !t.deleted && !t.closed && !t.paused && BreachDue(t.resolution, now)
    ensures Candidate(t, FirstResponse, Warning, now, threshold)
            <==> !t.deleted && !t.closed && !t.responded && WarningDue(t.first, now, threshold)
    ensures Candidate(t, Resolution, Warning, now, threshold)
            <==> !t.deleted && !t.closed && !t.paused && WarningDue(t.resolution, now, threshold)
  {
  }

  /** Overdue, and never noticed, or noticed more than six hours ago. */
  predicate BreachDue(side: Side, now: int) {
    && side.dueAt.Some? && side.dueAt.value < now
    && (side.breachedAt.None? || (match side.notifiedAt
                                  case Some(at) => at + 21600000 < now
                                  case None => 21600000 < now))
  }

  predicate WarningDue(side: Side, now: int, threshold: int) {
    side.dueAt.Some? && now <= side.dueAt.value && side.dueAt.value < threshold && side.warningSentAt.None?
  }

  /** What a claim does to each column: a warning is stamped; a first breach is stamped, noted
      and flagged; a repeat is noted. */
  predicate Taken(before: Ticket, after: Ticket, target: Target, kind: Kind, now: int) {
    var side, other := SideOf(before, target), Other(target);
    && after.deleted == before.deleted && after.closed == before.closed
    && after.responded == before.responded && after.paused == before.paused
    && SideOf(after, other) == SideOf(before, other)
    && SideOf(after, target).dueAt == side.dueAt
    && SideOf(after, target).warningSentAt == (if kind == Warning then Some(now) else side.warningSentAt)
    && SideOf(after, target).breachedAt
       == (if kind == Breach && side.breachedAt.None? then Some(now) else side.breachedAt)
    && SideOf(after, target).notifiedAt == (if kind == Breach then Some(now) else side.notifiedAt)
    && after.slaBreached == (before.slaBreached || (kind == Breach && side.breachedAt.None?))
  }

  /** A claim succeeds exactly on a candidate, and does that to it. */
  lemma ClaimTakes(t: Ticket, target: Target, kind: Kind, now: int, threshold: int)
    ensures var c := Claim(t, target, kind, now, threshold);
            if Candidate(t, target, kind, now, threshold) then c.Some? && Taken(t, c.value, target, kind, now)
            else c.None?
  {
  }

  /** At one clock value a target is due a warning or a breach notice, never both. */
  lemma WarningAndBreachDisjoint(t: Ticket, target: Target, now: int, threshold: int)
    ensures !(Candidate(t, target, Warning, now, threshold) && Candidate(t, target, Breach, now, threshold))
  {
  }

  /** A claimed row is not selected again at the same clock value, nor is the other target's
      selection touched. */
  lemma ClaimedIsNoCandidate(t: Ticket, target: Target, kind: Kind, now: int, threshold: int)
    requires Candidate(t, target, kind, now, threshold)
    ensures var c := Claim(t, target, kind, now, threshold).value;
            && !Candidate(c, target, kind, now, threshold)
            && forall k :: Candidate(c, Other(target), k, now, threshold)
                           <==> Candidate(t, Other(target), k, now, threshold)
  {
  }

  predicate NoticesMatchBreaches(t: Ticket) {
    && (t.first.notifiedAt.Some? <==> t.first.breachedAt.Some?)
    && (t.resolution.notifiedAt.Some? <==> t.resolution.breachedAt.Some?)
  }

  predicate SomeBreach(t: Ticket) { t.first.breachedAt.Some? || t.resolution.breachedAt.Some? }

  predicate Consistent(t: Ticket) { NoticesMatchBreaches(t) && (t.slaBreached <==> SomeBreach(t)) }

  /** What every claim and release keeps of a row, be it consistent or only in part. */
  predicate KeepsRow(before: Ticket, after: Ticket) {
    && (NoticesMatchBreaches(before) ==> NoticesMatchBreaches(after))
    && ((SomeBreach(before) ==> before.slaBreached) ==> (SomeBreach(after) ==> after.slaBreached))
    && (Consistent(before) ==> Consistent(after))
  }

  /** On every row, releasing a claim gives the row back exactly when it was a warning, or a
      first breach on a row whose flag only said whether the other target is in breach and that
      held no earlier notice; the release of a repeat forgets the breach altogether. */
  lemma ReleaseUndoesClaimIff(t: Ticket, target: Target, kind: Kind, now: int, threshold: int)
    requires Candidate(t, target, kind, now, threshold)
    ensures var back := Release(Claim(t, target, kind, now, threshold).value, target, kind);
            && (back == t <==>
                  || kind == Warning
                  || (&& SideOf(t, target).breachedAt.None? && SideOf(t, target).notifiedAt.None?
                      && (t.slaBreached <==> SideOf(t, Other(target)).breachedAt.Some?)))
            && (kind == Breach ==> back == Release(t, target, Breach) && SideOf(back, target).breachedAt.None?)
            && KeepsRow(t, back)
  {
  }

  /** For a consistent row that is when the claim was no repeat. */
  lemma ReleaseOfConsistentRow(t: Ticket, target: Target, kind: Kind, now: int, threshold: int)
    requires Consistent(t) && Candidate(t, target, kind, now, threshold)
    ensures var back := Release(Claim(t, target, kind, now, threshold).value, target, kind);
            back == t <==> kind == Warning || SideOf(t, target).breachedAt.None?
  {
    ReleaseUndoesClaimIff(t, target, kind, now, threshold);
  }

  /** An open ticket, overdue since instant 0, on which nothing has happened. */
  function OverdueTicket(): Ticket {
    var side := Side(Some(0), None, None, None);
    Ticket(false, false, false, false, side, side, false)
  }

  /** If the breach-check worker has flagged it, a first claim whose notice fails loses the flag. */
  lemma FailedClaimLosesFlag()
    ensures var t := OverdueTicket().(slaBreached := true);
            var back := Release(Claim(t, FirstResponse, Breach, 1, 1).value, FirstResponse, Breach);
            Candidate(t, FirstResponse, Breach, 1, 1) && t.slaBreached && !back.slaBreached
  {
  }

  /** A ticket in breach since instant 1, and told so then. */
  function BreachedTicket(): Ticket {
    Ticket(false, false, false, false, Side(Some(0), None, Some(1), Some(1)), Side(None, None, None, None), true)
  }

  /** A repeat whose notice fails: the ticket is no longer known to be in breach. */
  lemma FailedRepeatForgetsBreach()
    ensures var now := REPEAT_INTERVAL + 2;
            var back := Release(Claim(BreachedTicket(), FirstResponse, Breach, now, now).value, FirstResponse, Breach);
            && Consistent(BreachedTicket()) && Candidate(BreachedTicket(), FirstResponse, Breach, now, now)
            && SomeBreach(BreachedTicket()) && !SomeBreach(back) && !back.slaBreached
  {
  }

  // ---------- the processor ----------

  type Id = nat
  type Tickets = map<Id, Ticket>

  datatype Mail = BreachMail | WarningMail

  datatype Notice = Notice(id: Id, target: Target, mail: Mail, at: int)

  function MailFor(kind: Kind, emailEnabled: bool): Mail {
    if kind == Breach && emailEnabled then BreachMail else WarningMail
  }

  function Candidates(tickets: Tickets, target: Target, kind: Kind, now: int, threshold: int): set<Id> {
    set id | id in tickets.Keys && Candidate(tickets[id], target, kind, now, threshold)
  }

  /** What one pass makes of a row it handles, given whether its notice went out. */
  function Handled(t: Ticket, target: Target, kind: Kind, now: int, threshold: int, failed: bool): Ticket {
    match Claim(t, target, kind, now, threshold)
    case Some(c) => if failed then Release(c, target, kind) else c
    case None => t
  }

  /** The rows after those in `ids` have been handled; notices to `outage` fail. */
  function AfterPass(
    tickets: Tickets, ids: set<Id>, target: Target, kind: Kind, now: int, threshold: int, outage: set<Id>): Tickets
  {
    map id | id in tickets ::
      if id in ids then Handled(tickets[id], target, kind, now, threshold, id in outage) else tickets[id]
  }

  function Notices(ids: seq<Id>, target: Target, mail: Mail, at: int, outage: set<Id>): seq<Notice> {
    if ids == [] then []
    else
      Notices(ids[..|ids| - 1], target, mail, at, outage)
      + NoticeUnless(ids[|ids| - 1] in outage, Notice(ids[|ids| - 1], target, mail, at))
  }

  function NoticeUnless(failed: bool, notice: Notice): seq<Notice> { if failed then [] else [notice] }

  function Elements(ids: seq<Id>): set<Id> { set id | id in ids }

  predicate Distinct(ids: seq<Id>) { forall i, j :: 0 <= i < j < |ids| ==> ids[i] != ids[j] }

  function Min(a: nat, b: nat): nat { if a < b then a else b }

  class SlaAlertProcessor {
    var tickets: Tickets
    var notices: seq<Notice>

    constructor (tickets: Tickets)
      ensures this.tickets == tickets && notices == []
    {
      this.tickets := tickets;
      notices := [];
    }

    /** Up to a page of the candidates, in no particular order. */
    method FindCandidates(target: Target, kind: Kind, now: int, threshold: int) returns (ids: seq<Id>)
      ensures Distinct(ids) && Elements(ids) <= Candidates(tickets, target, kind, now, threshold)
      ensures |ids| == Min(100, |Candidates(tickets, target, kind, now, threshold)|)
      ensures forall id :: id in ids ==> id in tickets && Candidate(tickets[id], target, kind, now, threshold)
      ensures |ids| < 100 ==>
                forall id :: id in tickets && Candidate(tickets[id], target, kind, now, threshold) ==> id in ids
    {
      var left := Candidates(tickets, target, kind, now, threshold);
      ids := [];
      while left != {} && |ids| < PAGE
        invariant Distinct(ids) && |ids| <= PAGE
        invariant Elements(ids) !! left
        invariant Elements(ids) + left == Candidates(tickets, target, kind, now, threshold)
        invariant |ids| + |left| == |Candidates(tickets, target, kind, now, threshold)|
        decreases left
      {
        var id :| id in left;
        left := left - {id};
        assert id !in Elements(ids);
        ids := ids + [id];
      }
      PageOfCandidates(tickets, ids, target, kind, now, threshold);
    }

    method ClaimAlert(id: Id, target: Target, kind: Kind, now: int, threshold: int) returns (claimed: bool)
      requires id in tickets
      modifies this`tickets
      ensures claimed <==> Candidate(old(tickets)[id], target, kind, now, threshold)
      ensures claimed ==> tickets == old(tickets)[id := Claim(old(tickets)[id], target, kind, now, threshold).value]
      ensures claimed ==> Taken(old(tickets)[id], tickets[id], target, kind, now)
      ensures !claimed ==> tickets == old(tickets)
    {
      CandidateIffClaimable(tickets[id], target, kind, now, threshold);
      ClaimTakes(tickets[id], target, kind, now, threshold);
      if kind == Breach {
        var updated := ClaimFirst(tickets[id], target, now);
        if updated.Some? {
          tickets := tickets[id := updated.value];
          return true;
        }
        var repeated := ClaimRepeat(tickets[id], target, now);
        if repeated.Some? { tickets := tickets[id := repeated.value]; }
        return repeated.Some?;
      }
      var warned := ClaimWarning(tickets[id], target, now, threshold);
      if warned.Some? { tickets := tickets[id := warned.value]; }
      return warned.Some?;
    }

    method ReleaseAlert(id: Id, target: Target, kind: Kind)
      requires id in tickets
      modifies this`tickets
      ensures id in tickets && tickets == old(tickets)[id := tickets[id]]
      ensures GivenBack(old(tickets)[id], tickets[id], target, kind)
    {
      var row := tickets[id];
      if kind == Warning {
        if target == FirstResponse {
          row := row.(first := row.first.(warningSentAt := None));
        } else {
          row := row.(resolution := row.resolution.(warningSentAt := None));
        }
      } else if target == FirstResponse {
        row := row.(first := row.first.(breachedAt := None, notifiedAt := None),
                    slaBreached := row.resolution.breachedAt.Some?);
      } else {
        row := row.(resolution := row.resolution.(breachedAt := None, notifiedAt := None),
                    slaBreached := row.first.breachedAt.Some?);
      }
      tickets := tickets[id := row];
    }

    /** One selected row: it is claimed if it still can be, notified, and given back if that fails. */
    method HandleTicket(
      id: Id, target: Target, kind: Kind, now: int, threshold: int, emailEnabled: bool, outage: set<Id>)
      requires id in tickets
      modifies this
      ensures tickets == old(tickets)[id := Handled(old(tickets)[id], target, kind, now, threshold, id in outage)]
      ensures Claim(old(tickets)[id], target, kind, now, threshold).None? ==> notices == old(notices)
      ensures Claim(old(tickets)[id], target, kind, now, threshold).Some? ==>
                notices == old(notices)
                           + NoticeUnless(id in outage, Notice(id, target, MailFor(kind, emailEnabled), now))
    {
      var claimed := ClaimAlert(id, target, kind, now, threshold);
      if !claimed { return; }
      if id in outage {
        ghost var claim := tickets[id];
        ReleaseAlert(id, target, kind);
        GivenBackIsReleased(claim, tickets[id], target, kind);
      } else {
        notices := notices + [Notice(id, target, MailFor(kind, emailEnabled), now)];
      }
    }

    /** One pass over one target and kind: every selected row is claimed and notified, and
        given back if its notice fails. */
    method ProcessTarget(
      target: Target, kind: Kind, now: int, threshold: int, emailEnabled: bool, outage: set<Id>)
      returns (ids: seq<Id>)
      modifies this
      ensures PassOver(Snapshot(old(tickets), old(notices)), ids, Snapshot(tickets, notices),
                       target, kind, now, threshold, emailEnabled, outage)
      ensures old(notices) == notices[..|old(notices)|]
      ensures forall id :: (exists i :: |old(notices)| <= i < |notices| && notices[i].id == id)
                           <==> id in ids && id !in outage
      ensures forall i :: |old(notices)| <= i < |notices| ==>
                && notices[i].target == target && notices[i].at == now
                && notices[i].mail == if kind == Breach && emailEnabled then BreachMail else WarningMail
    {
      ghost var before, mail := tickets, MailFor(kind, emailEnabled);
      ids := FindCandidates(target, kind, now, threshold);
      SelectedAreClaimable(before, ids, target, kind, now, threshold);
      NothingHandled(before, target, kind, now, threshold, outage);
      for i := 0 to |ids|
        invariant tickets == AfterPass(before, Elements(ids[..i]), target, kind, now, threshold, outage)
        invariant notices == old(notices) + Notices(ids[..i], target, mail, now, outage)
      {
        OneMoreHandled(before, ids, i, target, kind, now, threshold, outage);
        OneMoreNotice(ids, i, target, mail, now, outage);
        ghost var sent := Notices(ids[..i], target, mail, now, outage);
        ghost var added := NoticeUnless(ids[i] in outage, Notice(ids[i], target, mail, now));
        HandleTicket(ids[i], target, kind, now, threshold, emailEnabled, outage);
        AppendTwice(old(notices), sent, added);
      }
      assert ids[..|ids|] == ids;
      NoticesAre(old(notices), ids, target, mail, now, outage);
    }

    /** A sweep is four passes, one after the other: breaches before warnings, and for each
        the first response before the resolution. */
    method Process(now: int, warningMinutes: int, emailEnabled: bool, outages: seq<set<Id>>)
      returns (ghost states: seq<Snapshot>, ghost selected: seq<seq<Id>>)
      requires |outages| == 4
      modifies this
      ensures var minutes := if warningMinutes == 0 then 30 else warningMinutes;
              Sweep(states, selected, now, now + minutes * 60 * 1000, emailEnabled, outages)
      ensures states[0] == Snapshot(old(tickets), old(notices)) && states[4] == Snapshot(tickets, notices)
    {
      var minutes := if warningMinutes == 0 then 30 else warningMinutes;
      var threshold := now + minutes * 60 * 1000;
      ghost var s0 := Snapshot(tickets, notices);
      var ids0 := ProcessTarget(FirstResponse, Breach, now, threshold, emailEnabled, outages[0]);
      ghost var s1 := Snapshot(tickets, notices);
      var ids1 := ProcessTarget(Resolution, Breach, now, threshold, emailEnabled, outages[1]);
      ghost var s2 := Snapshot(tickets, notices);
      var ids2 := ProcessTarget(FirstResponse, Warning, now, threshold, emailEnabled, outages[2]);
      ghost var s3 := Snapshot(tickets, notices);
      var ids3 := ProcessTarget(Resolution, Warning, now, threshold, emailEnabled, outages[3]);
      ghost var s4 := Snapshot(tickets, notices);
      states, selected := [s0, s1, s2, s3, s4], [ids0, ids1, ids2, ids3];
      FourPasses(s0, ids0, s1, ids1, s2, ids2, s3, ids3, s4, now, threshold, emailEnabled, outages);
    }
  }

  datatype Snapshot = Snapshot(tickets: Tickets, notices: seq<Notice>)

  /** A pass selects up to a page of the candidates and handles and notifies exactly those. */
  ghost predicate PassOver(
    before: Snapshot, ids: seq<Id>, after: Snapshot,
    target: Target, kind: Kind, now: int, threshold: int, emailEnabled: bool, outage: set<Id>)
  {
    && Distinct(ids) && Elements(ids) <= Candidates(before.tickets, target, kind, now, threshold)
    && |ids| == Min(PAGE, |Candidates(before.tickets, target, kind, now, threshold)|)
    && after.tickets == AfterPass(before.tickets, Elements(ids), target, kind, now, threshold, outage)
    && after.notices == before.notices + Notices(ids, target, MailFor(kind, emailEnabled), now, outage)
  }

  /** The four passes of a sweep, each over what the one before it left, and each with its
      own failing notices. */
  ghost predicate Sweep(
    states: seq<Snapshot>, selected: seq<seq<Id>>, now: int, threshold: int, emailEnabled: bool, outages: seq<set<Id>>)
  {
    && |states| == 5 && |selected| == 4 && |outages| == 4
    && PassOver(states[0], selected[0], states[1], FirstResponse, Breach, now, threshold, emailEnabled, outages[0])
    && PassOver(states[1], selected[1], states[2], Resolution, Breach, now, threshold, emailEnabled, outages[1])
    && PassOver(states[2], selected[2], states[3], FirstResponse, Warning, now, threshold, emailEnabled, outages[2])
    && PassOver(states[3], selected[3], states[4], Resolution, Warning, now, threshold, emailEnabled, outages[3])
  }

  lemma FourPasses(
    s0: Snapshot, ids0: seq<Id>, s1: Snapshot, ids1: seq<Id>, s2: Snapshot, ids2: seq<Id>, s3: Snapshot, ids3: seq<Id>,
    s4: Snapshot, now: int, threshold: int, emailEnabled: bool, outages: seq<set<Id>>)
    requires |outages| == 4
    requires PassOver(s0, ids0, s1, FirstResponse, Breach, now, threshold, emailEnabled, outages[0])
    requires PassOver(s1, ids1, s2, Resolution, Breach, now, threshold, emailEnabled, outages[1])
    requires PassOver(s2, ids2, s3, FirstResponse, Warning, now, threshold, emailEnabled, outages[2])
    requires PassOver(s3, ids3, s4, Resolution, Warning, now, threshold, emailEnabled, outages[3])
    ensures Sweep([s0, s1, s2, s3, s4], [ids0, ids1, ids2, ids3], now, threshold, emailEnabled, outages)
  {
  }

  /** Row by row. */
  ghost predicate KeepsRows(before: Tickets, after: Tickets) {
    after.Keys == before.Keys && forall id :: id in before ==> KeepsRow(before[id], after[id])
  }

  lemma PassOverKeepsRows(
    before: Snapshot, ids: seq<Id>, after: Snapshot,
    target: Target, kind: Kind, now: int, threshold: int, emailEnabled: bool, outage: set<Id>)
    requires PassOver(before, ids, after, target, kind, now, threshold, emailEnabled, outage)
    ensures KeepsRows(before.tickets, after.tickets)
  {
    forall id | id in before.tickets ensures KeepsRow(before.tickets[id], after.tickets[id]) {
      HandledKeepsRow(before.tickets[id], target, kind, now, threshold, id in outage);
    }
  }

  lemma HandledKeepsRow(t: Ticket, target: Target, kind: Kind, now: int, threshold: int, failed: bool)
    ensures KeepsRow(t, Handled(t, target, kind, now, threshold, failed))
  {
  }

  lemma KeepsRowsTransitive(a: Tickets, b: Tickets, c: Tickets)
    requires KeepsRows(a, b) && KeepsRows(b, c)
    ensures KeepsRows(a, c)
  {
    forall id | id in a ensures KeepsRow(a[id], c[id]) {
      assert KeepsRow(a[id], b[id]) && KeepsRow(b[id], c[id]);
    }
  }

  /** Whichever notices fail in whichever pass, a sweep keeps every row as consistent as it was. */
  lemma SweepKeepsConsistent(
    states: seq<Snapshot>, selected: seq<seq<Id>>, now: int, threshold: int, emailEnabled: bool, outages: seq<set<Id>>)
    requires Sweep(states, selected, now, threshold, emailEnabled, outages)
    ensures KeepsRows(states[0].tickets, states[4].tickets)
  {
    PassOverKeepsRows(
      states[0], selected[0], states[1], FirstResponse, Breach, now, threshold, emailEnabled, outages[0]);
    PassOverKeepsRows(
      states[1], selected[1], states[2], Resolution, Breach, now, threshold, emailEnabled, outages[1]);
    PassOverKeepsRows(
      states[2], selected[2], states[3], FirstResponse, Warning, now, threshold, emailEnabled, outages[2]);
    PassOverKeepsRows(
      states[3], selected[3], states[4], Resolution, Warning, now, threshold, emailEnabled, outages[3]);
    KeepsRowsTransitive(states[0].tickets, states[1].tickets, states[2].tickets);
    KeepsRowsTransitive(states[0].tickets, states[2].tickets, states[3].tickets);
    KeepsRowsTransitive(states[0].tickets, states[3].tickets, states[4].tickets);
  }

  /** A page holds candidates, and all of them unless it is full. */
  lemma PageOfCandidates(tickets: Tickets, ids: seq<Id>, target: Target, kind: Kind, now: int, threshold: int)
    requires Distinct(ids) && Elements(ids) <= Candidates(tickets, target, kind, now, threshold)
    requires |ids| == Min(PAGE, |Candidates(tickets, target, kind, now, threshold)|)
    ensures forall id :: id in ids ==> id in tickets && Candidate(tickets[id], target, kind, now, threshold)
    ensures |ids| < 100 ==>
              forall id :: id in tickets && Candidate(tickets[id], target, kind, now, threshold) ==> id in ids
  {
    var all := Candidates(tickets, target, kind, now, threshold);
    forall id | id in ids ensures id in all {
      assert id in Elements(ids);
    }
    if |ids| < 100 {
      DistinctCount(ids);
      assert |all - Elements(ids)| == 0;
      forall id | id in all ensures id in ids {
        assert id !in all - Elements(ids);
      }
    }
  }

  lemma SelectedAreClaimable(tickets: Tickets, ids: seq<Id>, target: Target, kind: Kind, now: int, threshold: int)
    requires Elements(ids) <= Candidates(tickets, target, kind, now, threshold)
    ensures forall i :: 0 <= i < |ids| ==>
              ids[i] in tickets && Claim(tickets[ids[i]], target, kind, now, threshold).Some?
  {
    forall i | 0 <= i < |ids|
      ensures ids[i] in tickets && Claim(tickets[ids[i]], target, kind, now, threshold).Some?
    {
      assert ids[i] in Elements(ids);
      CandidateIffClaimable(tickets[ids[i]], target, kind, now, threshold);
    }
  }

  lemma NothingHandled(tickets: Tickets, target: Target, kind: Kind, now: int, threshold: int, outage: set<Id>)
    ensures AfterPass(tickets, Elements([]), target, kind, now, threshold, outage) == tickets
  {
  }

  lemma OneMoreHandled(
    tickets: Tickets, ids: seq<Id>, i: nat, target: Target, kind: Kind, now: int, threshold: int, outage: set<Id>)
    requires Distinct(ids) && i < |ids| && ids[i] in tickets
    ensures var sofar := AfterPass(tickets, Elements(ids[..i]), target, kind, now, threshold, outage);
            && ids[i] in sofar && sofar[ids[i]] == tickets[ids[i]]
            && AfterPass(tickets, Elements(ids[..i + 1]), target, kind, now, threshold, outage)
               == sofar[ids[i] := Handled(tickets[ids[i]], target, kind, now, threshold, ids[i] in outage)]
  {
    assert ids[i] !in Elements(ids[..i]);
    assert Elements(ids[..i + 1]) == Elements(ids[..i]) + {ids[i]};
  }

  /** The notices of a pass: one for every selected row but those whose notice fails. */
  lemma {:induction false} NoticesAre(
    before: seq<Notice>, ids: seq<Id>, target: Target, mail: Mail, at: int, outage: set<Id>)
    ensures var after := before + Notices(ids, target, mail, at, outage);
            && before == after[..|before|]
            && (forall id :: (exists i :: |before| <= i < |after| && after[i].id == id) <==> id in ids && id !in outage)
            && forall i :: |before| <= i < |after| ==>
                 after[i].target == target && after[i].at == at && after[i].mail == mail
  {
    var sent := Notices(ids, target, mail, at, outage);
    NoticesListed(ids, target, mail, at, outage);
    var after := before + sent;
    forall id ensures (exists i :: |before| <= i < |after| && after[i].id == id) <==> id in ids && id !in outage {
      if id in ids && id !in outage {
        var i :| 0 <= i < |sent| && sent[i] == Notice(id, target, mail, at);
        assert after[|before| + i].id == id;
      }
      if i :| |before| <= i < |after| && after[i].id == id {
        assert after[i] == sent[i - |before|];
      }
    }
  }

  lemma {:induction false} NoticesListed(ids: seq<Id>, target: Target, mail: Mail, at: int, outage: set<Id>)
    ensures forall n :: n in Notices(ids, target, mail, at, outage)
                        <==> n == Notice(n.id, target, mail, at) && n.id in ids && n.id !in outage
  {
    if ids != [] {
      NoticesListed(ids[..|ids| - 1], target, mail, at, outage);
      assert ids == ids[..|ids| - 1] + [ids[|ids| - 1]];
    }
  }

  lemma AppendTwice(a: seq<Notice>, b: seq<Notice>, c: seq<Notice>)
    ensures a + b + c == a + (b + c)
  {
  }

  lemma OneMoreNotice(ids: seq<Id>, i: nat, target: Target, mail: Mail, at: int, outage: set<Id>)
    requires i < |ids|
    ensures Notices(ids[..i + 1], target, mail, at, outage)
            == Notices(ids[..i], target, mail, at, outage)
               + NoticeUnless(ids[i] in outage, Notice(ids[i], target, mail, at))
  {
    assert (ids[..i + 1])[..i] == ids[..i];
  }

  // ---------- draining ----------

  /** One pass in which every notice goes out, as ProcessTarget makes it. */
  ghost predicate Pass(before: Tickets, after: Tickets, target: Target, kind: Kind, now: int, threshold: int) {
    exists ids: set<Id> ::
      && ids <= Candidates(before, target, kind, now, threshold)
      && |ids| == Min(PAGE, |Candidates(before, target, kind, now, threshold)|)
      && after == AfterPass(before, ids, target, kind, now, threshold, {})
  }

  lemma {:induction false} DistinctCount(ids: seq<Id>)
    requires Distinct(ids)
    ensures |Elements(ids)| == |ids|
  {
    if ids != [] {
      var last := |ids| - 1;
      DistinctCount(ids[..last]);
      assert Elements(ids) == Elements(ids[..last]) + {ids[last]};
    }
  }

  /** A pass of a sweep without outage is such a pass. */
  lemma PassOverIsPass(
    before: Snapshot, ids: seq<Id>, after: Snapshot,
    target: Target, kind: Kind, now: int, threshold: int, emailEnabled: bool)
    requires PassOver(before, ids, after, target, kind, now, threshold, emailEnabled, {})
    ensures Pass(before.tickets, after.tickets, target, kind, now, threshold)
  {
    DistinctCount(ids);
  }

  lemma PassRemoves(before: Tickets, after: Tickets, target: Target, kind: Kind, now: int, threshold: int)
    requires Pass(before, after, target, kind, now, threshold)
    ensures var n := |Candidates(before, target, kind, now, threshold)|;
            |Candidates(after, target, kind, now, threshold)| == n - Min(PAGE, n)
  {
    var ids: set<Id> :|
      && ids <= Candidates(before, target, kind, now, threshold)
      && |ids| == Min(PAGE, |Candidates(before, target, kind, now, threshold)|)
      && after == AfterPass(before, ids, target, kind, now, threshold, {});
    forall id | id in before
      ensures Candidate(after[id], target, kind, now, threshold)
              <==> id !in ids && Candidate(before[id], target, kind, now, threshold)
    {
      if id in ids { ClaimedIsNoCandidate(before[id], target, kind, now, threshold); }
    }
    assert Candidates(after, target, kind, now, threshold) == Candidates(before, target, kind, now, threshold) - ids;
  }

  /** At a fixed clock value, k passes leave n - 100k of n candidates. */
  lemma {:induction false} PassesDrain(
    states: seq<Tickets>, target: Target, kind: Kind, now: int, threshold: int)
    requires |states| > 0
    requires forall i :: 0 <= i < |states| - 1 ==> Pass(states[i], states[i + 1], target, kind, now, threshold)
    ensures var n, passes := |Candidates(states[0], target, kind, now, threshold)|, |states| - 1;
            |Candidates(states[passes], target, kind, now, threshold)| == n - Min(100 * passes, n)
  {
    if |states| > 1 {
      var before := states[..|states| - 1];
      PassesDrain(before, target, kind, now, threshold);
      PassRemoves(before[|before| - 1], states[|states| - 1], target, kind, now, threshold);
    }
  }

  /** All n candidates are handled after ceil(n / 100) passes, and not before. */
  lemma DrainedExactlyWhen(states: seq<Tickets>, target: Target, kind: Kind, now: int, threshold: int)
    requires |states| > 0
    requires forall i :: 0 <= i < |states| - 1 ==> Pass(states[i], states[i + 1], target, kind, now, threshold)
    ensures var n, passes := |Candidates(states[0], target, kind, now, threshold)|, |states| - 1;
            Candidates(states[passes], target, kind, now, threshold) == {} <==> passes >= (n + 99) / 100
  {
    PassesDrain(states, target, kind, now, threshold);
  }
}
