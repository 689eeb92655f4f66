/** Dynamic settings: rows in the database, and a cache of one minute in front of them.  Calls
    interleave wherever the service awaits the database; other processes may write the rows
    without touching this cache. */
module SettingsCache {

  const TTL: int := 60 * 1000

  /** The rows as they were from instant `since` until the next version. */
  datatype Version = Version(since: int, rows: map<string, string>)

  /** A value given out, the version it was read from, and the call that read it. */
  datatype Answer = Answer(value: string, version: nat, reader: nat)

  datatype Entry = Entry(answer: Answer, expiresAt: int)

  datatype Reading =
    | Checked
    | Fetched(fetched: Answer)
    | Answered(at: int, answer: Answer)
    | Defaulted    // the database failed; the default is returned and nothing is cached

  /** A call of getSetting. */
  datatype Get = Get(key: string, fallback: string, checkedAt: int, reading: Reading)

  datatype Writing = Started | Looked(found: bool) | Written(version: nat) | Updated(since: nat) | Failed

  /** A call of updateSetting. */
  datatype Update = Update(key: string, value: string, writing: Writing)

  /** Calls are named by the order in which they start. */
  datatype State = State(
    now: int,
    history: seq<Version>,
    cache: map<string, Entry>,
    gets: seq<Get>,
    updates: seq<Update>)

  datatype Step =
    | Tick(time: int)
    | Check(key: string, fallback: string)
    | Fetch(get: nat)
    | Fill(get: nat)
    | FailRead(get: nat)
    | Start(key: string, value: string)
    | Look(update: nat)
    | Write(update: nat)
    | Invalidate(update: nat)
    | FailWrite(update: nat)
    | WriteElsewhere(key: string, value: string)

  // ---------- the steps ----------

  function Rows(history: seq<Version>): map<string, string> {
    if history == [] then map[] else history[|history| - 1].rows
  }

  function ValueOr(rows: map<string, string>, key: string, fallback: string): string {
    if key in rows then rows[key] else fallback
  }

  predicate Enabled(s: State, step: Step) {
    match step
    case Tick(time) => s.now <= time
    case Check(_, _) => true
    case Fetch(g) => g < |s.gets| && s.gets[g].reading == Checked
    case Fill(g) => g < |s.gets| && s.gets[g].reading.Fetched?
    case FailRead(g) => g < |s.gets| && s.gets[g].reading == Checked
    case Start(_, _) => true
    case Look(u) => u < |s.updates| && s.updates[u].writing == Started
    case Write(u) => u < |s.updates| && s.updates[u].writing.Looked?
    case Invalidate(u) => u < |s.updates| && s.updates[u].writing.Written?
    case FailWrite(u) => u < |s.updates| && (s.updates[u].writing == Started || s.updates[u].writing.Looked?)
    case WriteElsewhere(_, _) => true
  }

  function Move(s: State, g: nat, reading: Reading): State
    requires g < |s.gets|
  {
    s.(gets := s.gets[g := s.gets[g].(reading := reading)])
  }

  function Advance(s: State, u: nat, writing: Writing): State
    requires u < |s.updates|
  {
    s.(updates := s.updates[u := s.updates[u].(writing := writing)])
  }

  function Put(s: State, key: string, value: string): State {
    s.(history := s.history + [Version(s.now, Rows(s.history)[key := value])])
  }

  function Apply(s: State, step: Step): State
    requires Enabled(s, step)
  {
    match step
    case Tick(time) => s.(now := time)
    case Check(key, fallback) =>
      var hit := key in s.cache && s.cache[key].expiresAt > s.now;
      var reading := if hit then Answered(s.now, s.cache[key].answer) else Checked;
      s.(gets := s.gets + [Get(key, fallback, s.now, reading)])
    case Fetch(g) =>
      var value := ValueOr(Rows(s.history), s.gets[g].key, s.gets[g].fallback);
      Move(s, g, Fetched(Answer(value, if s.history == [] then 0 else |s.history| - 1, g)))
    case Fill(g) =>
      var get := s.gets[g];
      Move(s.(cache := s.cache[get.key := Entry(get.reading.fetched, get.checkedAt + TTL)]),
           g, Answered(s.now, get.reading.fetched))
    case FailRead(g) => Move(s, g, Defaulted)
    case Start(key, value) => s.(updates := s.updates + [Update(key, value, Started)])
    case Look(u) => Advance(s, u, Looked(s.updates[u].key in Rows(s.history)))
    case Write(u) =>
      var update := s.updates[u];
      // an insert collides with a row that another writer has added since the look-up
      if !update.writing.found && update.key in Rows(s.history) then Advance(s, u, Failed)
      else Advance(Put(s, update.key, update.value), u, Written(|s.history|))
    case Invalidate(u) =>
      Advance(s.(cache := s.cache - {s.updates[u].key}), u, Updated(s.updates[u].writing.version))
    case FailWrite(u) => Advance(s, u, Failed)
    case WriteElsewhere(key, value) => Put(s, key, value)
  }

  // ---------- runs ----------

  function Initial(now: int, rows: map<string, string>): State {
    State(now, [Version(now, rows)], map[], [], [])
  }

  ghost predicate CanRun(s: State, steps: seq<Step>)
    decreases |steps|
  {
    steps == [] || (Enabled(s, steps[0]) && CanRun(Apply(s, steps[0]), steps[1..]))
  }

  ghost function Run(s: State, steps: seq<Step>): State
    requires CanRun(s, steps)
    decreases |steps|
  {
    if steps == [] then s else Run(Apply(s, steps[0]), steps[1..])
  }

  ghost predicate Reachable(s: State) {
    exists now, rows, steps :: CanRun(Initial(now, rows), steps) && s == Run(Initial(now, rows), steps)
  }

  // ---------- what every step keeps ----------

  ghost predicate Timeline(s: State) {
    && s.history != []
    && (forall i, j :: 0 <= i < j < |s.history| ==> s.history[i].since <= s.history[j].since)
    && s.history[|s.history| - 1].since <= s.now
  }

  /** Version v held at instant t. */
  predicate HeldAt(history: seq<Version>, v: nat, t: int) {
    v < |history| && history[v].since <= t && (v + 1 < |history| ==> t <= history[v + 1].since)
  }

  /** Version v held at some instant from `first` to `last`. */
  predicate HeldDuring(history: seq<Version>, v: nat, first: int, last: int) {
    && v < |history|
    && first <= last
    && history[v].since <= last
    && (v + 1 < |history| ==> first <= history[v + 1].since)
  }

  /** An answer is what its version held, or else its reader's default, and the version held
      at some instant from `first` to `last`. */
  ghost predicate Sourced(s: State, key: string, a: Answer, first: int, last: int) {
    && HeldDuring(s.history, a.version, first, last)
    && a.reader < |s.gets|
    && s.gets[a.reader].key == key
    && a.value == ValueOr(s.history[a.version].rows, key, s.gets[a.reader].fallback)
  }

  /** From when on an answer given to call g may date: its own check, if it read the rows
      itself, and else less than a minute before. */
  function Oldest(g: nat, get: Get, a: Answer): int {
    if a.reader == g then get.checkedAt else get.checkedAt - TTL + 1
  }

  ghost predicate CacheSourced(s: State) {
    forall k :: k in s.cache ==>
      Sourced(s, k, s.cache[k].answer, s.cache[k].expiresAt - TTL, s.now)
  }

  ghost predicate GetSourced(s: State, g: nat)
    requires g < |s.gets|
  {
    var get := s.gets[g];
    && get.checkedAt <= s.now
    && (get.reading.Fetched? ==>
          get.reading.fetched.reader == g && Sourced(s, get.key, get.reading.fetched, get.checkedAt, s.now))
    && (get.reading.Answered? ==>
          && get.reading.at <= s.now
          && Sourced(s, get.key, get.reading.answer, Oldest(g, get, get.reading.answer), get.reading.at))
  }

  ghost predicate GetsSourced(s: State) { forall g :: 0 <= g < |s.gets| ==> GetSourced(s, g) }

  /** A version an update has written holds its value. */
  ghost predicate WritesStored(s: State) {
    forall u :: 0 <= u < |s.updates| ==>
      var update := s.updates[u];
      && (update.writing.Written? ==> Holds(s.history, update.writing.version, update))
      && (update.writing.Updated? ==> Holds(s.history, update.writing.since, update))
  }

  predicate Holds(history: seq<Version>, v: nat, update: Update) {
    v < |history| && update.key in history[v].rows && history[v].rows[update.key] == update.value
  }

  ghost predicate Invariant(s: State) {
    Timeline(s) && CacheSourced(s) && GetsSourced(s) && WritesStored(s)
  }

  /** What every step does to the clock, the versions and the calls already there. */
  ghost predicate Grows(s: State, t: State) {
    && s.now <= t.now
    && s.history <= t.history
    && (|t.history| > |s.history| ==> s.now <= t.history[|s.history|].since)
    && |s.gets| <= |t.gets|
    && forall g :: 0 <= g < |s.gets| ==>
         t.gets[g].key == s.gets[g].key && t.gets[g].fallback == s.gets[g].fallback
         && t.gets[g].checkedAt == s.gets[g].checkedAt
  }

  lemma StepGrows(s: State, step: Step)
    requires Enabled(s, step)
    ensures Grows(s, Apply(s, step))
  {
  }

  lemma SourcedKept(s: State, t: State, key: string, a: Answer, first: int, last: int, later: int)
    requires Grows(s, t) && Sourced(s, key, a, first, last) && last <= later && last <= s.now
    ensures Sourced(t, key, a, first, later)
  {
    assert t.history[a.version] == s.history[a.version];
  }

  lemma TimelineKept(s: State, step: Step)
    requires Invariant(s) && Enabled(s, step)
    ensures Timeline(Apply(s, step))
  {
  }

  lemma FilledEntry(s: State, g: nat)
    requires Invariant(s) && Enabled(s, Fill(g))
    ensures var t := Apply(s, Fill(g));
            var get := s.gets[g];
            t.cache == s.cache[get.key := Entry(get.reading.fetched, get.checkedAt + TTL)]
            && Sourced(t, get.key, get.reading.fetched, get.checkedAt, t.now)
  {
    assert GetSourced(s, g);
    var t := Apply(s, Fill(g));
    SourcedKept(s, t, s.gets[g].key, s.gets[g].reading.fetched, s.gets[g].checkedAt, s.now, t.now);
  }

  lemma EntriesKept(s: State, t: State)
    requires Grows(s, t) && CacheSourced(s)
    ensures forall k :: k in s.cache ==>
              Sourced(t, k, s.cache[k].answer, s.cache[k].expiresAt - TTL, t.now)
  {
    forall k | k in s.cache ensures Sourced(t, k, s.cache[k].answer, s.cache[k].expiresAt - TTL, t.now) {
      SourcedKept(s, t, k, s.cache[k].answer, s.cache[k].expiresAt - TTL, s.now, t.now);
    }
  }

  lemma CacheKept(s: State, step: Step)
    requires Invariant(s) && Enabled(s, step)
    ensures CacheSourced(Apply(s, step))
  {
    var t := Apply(s, step);
    StepGrows(s, step);
    EntriesKept(s, t);
    if step.Fill? { FilledEntry(s, step.get); }
  }

  /** A call that a step leaves alone keeps its source. */
  lemma GetKept(s: State, t: State, g: nat)
    requires Grows(s, t) && g < |s.gets| && GetSourced(s, g) && t.gets[g] == s.gets[g]
    ensures GetSourced(t, g)
  {
    var get := s.gets[g];
    if get.reading.Fetched? {
      SourcedKept(s, t, get.key, get.reading.fetched, get.checkedAt, s.now, t.now);
    } else if get.reading.Answered? {
      var a := get.reading.answer;
      SourcedKept(s, t, get.key, a, Oldest(g, get, a), get.reading.at, get.reading.at);
    }
  }

  lemma CheckKept(s: State, key: string, fallback: string)
    requires Invariant(s)
    ensures GetSourced(Apply(s, Check(key, fallback)), |s.gets|)
  {
    var t := Apply(s, Check(key, fallback));
    StepGrows(s, Check(key, fallback));
    var get := t.gets[|s.gets|];
    if get.reading.Answered? {
      var e := s.cache[key];
      SourcedKept(s, t, key, e.answer, e.expiresAt - TTL, s.now, s.now);
    }
  }

  lemma FetchKept(s: State, g: nat)
    requires Invariant(s) && Enabled(s, Fetch(g))
    ensures GetSourced(Apply(s, Fetch(g)), g)
  {
    assert GetSourced(s, g);
  }

  lemma FillKept(s: State, g: nat)
    requires Invariant(s) && Enabled(s, Fill(g))
    ensures GetSourced(Apply(s, Fill(g)), g)
  {
    assert GetSourced(s, g);
    var t := Apply(s, Fill(g));
    StepGrows(s, Fill(g));
    SourcedKept(s, t, s.gets[g].key, s.gets[g].reading.fetched, s.gets[g].checkedAt, s.now, s.now);
  }

  lemma GetsKept(s: State, step: Step)
    requires Invariant(s) && Enabled(s, step)
    ensures GetsSourced(Apply(s, step))
  {
    var t := Apply(s, step);
    StepGrows(s, step);
    forall g | 0 <= g < |t.gets| ensures GetSourced(t, g) {
      if g == |s.gets| {
        CheckKept(s, step.key, step.fallback);
      } else if step == Fetch(g) {
        FetchKept(s, g);
      } else if step == Fill(g) {
        FillKept(s, g);
      } else {
        assert GetSourced(s, g);
        if step != FailRead(g) { GetKept(s, t, g); }
      }
    }
  }

  lemma WritesKept(s: State, step: Step)
    requires Invariant(s) && Enabled(s, step)
    ensures WritesStored(Apply(s, step))
  {
    StepGrows(s, step);
  }

  lemma InvariantKept(s: State, step: Step)
    requires Invariant(s) && Enabled(s, step)
    ensures Invariant(Apply(s, step))
  {
    TimelineKept(s, step);
    CacheKept(s, step);
    GetsKept(s, step);
    WritesKept(s, step);
  }

  lemma {:induction false} InvariantHolds(s: State, steps: seq<Step>)
    requires Invariant(s) && CanRun(s, steps)
    ensures Invariant(Run(s, steps))
    decreases |steps|
  {
    if steps != [] {
      InvariantKept(s, steps[0]);
      InvariantHolds(Apply(s, steps[0]), steps[1..]);
    }
  }

  lemma ReachableInvariant(s: State)
    requires Reachable(s)
    ensures Invariant(s)
  {
    var now, rows, steps :| CanRun(Initial(now, rows), steps) && s == Run(Initial(now, rows), steps);
    InvariantHolds(Initial(now, rows), steps);
  }

  // ---------- how old an answer may be ----------

  /** What an answered call returned was the stored value, or if there was none the default
      of the call that read the rows, at some instant less than a minute before its cache
      check, and no later than its return; had it read the rows itself, since its check. */
  lemma AnswersAreRecent(s: State, g: nat)
    requires Reachable(s) && g < |s.gets| && s.gets[g].reading.Answered?
    ensures var get := s.gets[g];
            var a := get.reading.answer;
            && a.reader < |s.gets| && a.version < |s.history|
            && s.gets[a.reader].key == get.key
            && (var rows := s.history[a.version].rows;
                a.value == if get.key in rows then rows[get.key] else s.gets[a.reader].fallback)
            && exists t :: get.checkedAt - 60000 < t <= get.reading.at && (a.reader == g ==> get.checkedAt <= t)
                           && HeldAt(s.history, a.version, t)
  {
    ReachableInvariant(s);
    assert GetSourced(s, g);
    var get := s.gets[g];
    var a := get.reading.answer;
    var first := Oldest(g, get, a);
    var t := if first < s.history[a.version].since then s.history[a.version].since else first;
    assert HeldAt(s.history, a.version, t);
  }

  /** A minute after a version was written, no call is answered from an older one, however the
      calls interleaved. */
  lemma UpdatesShowWithinAMinute(s: State, g: nat, v: nat)
    requires Reachable(s) && g < |s.gets| && s.gets[g].reading.Answered?
    requires v < |s.history| && s.history[v].since + 60000 <= s.gets[g].checkedAt
    ensures v <= s.gets[g].reading.answer.version
  {
    ReachableInvariant(s);
    assert GetSourced(s, g);
  }

  /** An entry answers until it expires, and from then on the rows are read again. */
  lemma EntryExpires(s: State, key: string, fallback: string, time: int)
    requires s.now <= time && key in s.cache
    ensures Enabled(s, Tick(time))
    ensures Apply(Apply(s, Tick(time)), Check(key, fallback)).gets
            == s.gets + [Get(key, fallback, time,
                             if time < s.cache[key].expiresAt then Answered(time, s.cache[key].answer) else Checked)]
  {
  }

  /** An update that has been acknowledged wrote its value to the version it names. */
  lemma AcknowledgedIsStored(s: State, u: nat)
    requires Reachable(s) && u < |s.updates| && s.updates[u].writing.Updated?
    ensures var update, v := s.updates[u], s.updates[u].writing.since;
            && v < |s.history| && update.key in s.history[v].rows
            && s.history[v].rows[update.key] == update.value
  {
    ReachableInvariant(s);
  }

  /** An update that nothing interrupts, then a read that nothing interrupts: it gives the
      value of the update, whatever the rows and the cache were. */
  lemma UpdateIsRead(s: State, key: string, value: string, fallback: string)
    requires Reachable(s)
    ensures var u, g := |s.updates|, |s.gets|;
            var update := [Start(key, value), Look(u), Write(u), Invalidate(u)];
            var read := [Check(key, fallback), Fetch(g), Fill(g)];
            && CanRun(s, update) && CanRun(Run(s, update), read)
            && Run(Run(s, update), read).gets == s.gets
               + [Get(key, fallback, s.now, Answered(s.now, Answer(value, |s.history|, g)))]
  {
    ReachableInvariant(s);
    var u, g := |s.updates|, |s.gets|;
    FourSteps(s, Start(key, value), Look(u), Write(u), Invalidate(u));
    var t := Apply(Apply(Apply(Apply(s, Start(key, value)), Look(u)), Write(u)), Invalidate(u));
    Invalidated(s, key, value);
    ReadNow(t, key, fallback);
  }

  lemma Invalidated(s: State, key: string, value: string)
    requires s.history != []
    ensures var u := |s.updates|;
            var t := Apply(Apply(Apply(Apply(s, Start(key, value)), Look(u)), Write(u)), Invalidate(u));
            && t.now == s.now && t.gets == s.gets && key !in t.cache
            && |t.history| == |s.history| + 1 && key in t.history[|s.history|].rows
            && t.history[|s.history|].rows[key] == value
  {
  }

  lemma ReadNow(s: State, key: string, fallback: string)
    requires s.history != [] && key !in s.cache
    ensures var g, rows := |s.gets|, s.history[|s.history| - 1].rows;
            var value := if key in rows then rows[key] else fallback;
            var read := [Check(key, fallback), Fetch(g), Fill(g)];
            && CanRun(s, read)
            && Run(s, read).gets == s.gets
               + [Get(key, fallback, s.now, Answered(s.now, Answer(value, |s.history| - 1, g)))]
  {
    var g := |s.gets|;
    ReadSteps(s, key, fallback);
    ThreeSteps(s, Check(key, fallback), Fetch(g), Fill(g));
  }

  lemma ReadSteps(s: State, key: string, fallback: string)
    requires s.history != [] && key !in s.cache
    ensures var g, rows := |s.gets|, s.history[|s.history| - 1].rows;
            var value := if key in rows then rows[key] else fallback;
            && Enabled(Apply(s, Check(key, fallback)), Fetch(g))
            && Enabled(Apply(Apply(s, Check(key, fallback)), Fetch(g)), Fill(g))
            && Apply(Apply(Apply(s, Check(key, fallback)), Fetch(g)), Fill(g)).gets == s.gets
               + [Get(key, fallback, s.now, Answered(s.now, Answer(value, |s.history| - 1, g)))]
  {
  }

  lemma ThreeSteps(s: State, a: Step, b: Step, c: Step)
    requires Enabled(s, a) && Enabled(Apply(s, a), b) && Enabled(Apply(Apply(s, a), b), c)
    ensures CanRun(s, [a, b, c]) && Run(s, [a, b, c]) == Apply(Apply(Apply(s, a), b), c)
  {
    FirstStep(Apply(Apply(s, a), b), c, []);
    FirstStep(Apply(s, a), b, [c]);
    FirstStep(s, a, [b, c]);
    assert [a] + [b, c] == [a, b, c];
  }

  // ---------- whose default is returned ----------

  /** An answer respects the caller's own default exactly when the setting was stored, or the
      call that read the rows had the same default. */
  lemma OwnDefaultIff(s: State, g: nat)
    requires Reachable(s) && g < |s.gets| && s.gets[g].reading.Answered?
    ensures var get := s.gets[g];
            var a := get.reading.answer;
            && a.reader < |s.gets| && a.version < |s.history|
            && var rows := s.history[a.version].rows;
               a.value == (if get.key in rows then rows[get.key] else get.fallback)
               <==> get.key in rows || s.gets[a.reader].fallback == get.fallback
  {
    ReachableInvariant(s);
    assert GetSourced(s, g);
  }

  /** When all callers of a setting agree on its default, every answer is the stored value or
      the caller's own default. */
  lemma AgreedDefaultIsReturned(s: State, g: nat)
    requires Reachable(s) && g < |s.gets| && s.gets[g].reading.Answered?
    requires forall h :: 0 <= h < |s.gets| && s.gets[h].key == s.gets[g].key ==>
               s.gets[h].fallback == s.gets[g].fallback
    ensures var get := s.gets[g];
            && get.reading.answer.version < |s.history|
            && var rows := s.history[get.reading.answer.version].rows;
               get.reading.answer.value == if get.key in rows then rows[get.key] else get.fallback
  {
    ReachableInvariant(s);
    assert GetSourced(s, g);
  }

  /** Otherwise it may be another caller's default: the cache keeps the first one's. */
  lemma AnotherCallersDefault(key: string, mine: string, theirs: string)
    requires mine != theirs
    ensures var steps := [Check(key, theirs), Fetch(0), Fill(0), Check(key, mine)];
            && CanRun(Initial(0, map[]), steps)
            && var s := Run(Initial(0, map[]), steps);
               && s.history == [Version(0, map[])]
               && s.gets == [Get(key, theirs, 0, Answered(0, Answer(theirs, 0, 0))),
                             Get(key, mine, 0, Answered(0, Answer(theirs, 0, 0)))]
  {
    var s0 := Initial(0, map[]);
    var s1 := Apply(s0, Check(key, theirs));
    var s2 := Apply(s1, Fetch(0));
    var s3 := Apply(s2, Fill(0));
    var s4 := Apply(s3, Check(key, mine));
    FourSteps(s0, Check(key, theirs), Fetch(0), Fill(0), Check(key, mine));
  }

  lemma FourSteps(s: State, a: Step, b: Step, c: Step, d: Step)
    requires Enabled(s, a) && Enabled(Apply(s, a), b) && Enabled(Apply(Apply(s, a), b), c)
    requires Enabled(Apply(Apply(Apply(s, a), b), c), d)
    ensures CanRun(s, [a, b, c, d])
    ensures Run(s, [a, b, c, d]) == Apply(Apply(Apply(Apply(s, a), b), c), d)
  {
    var s1 := Apply(s, a);
    var s2 := Apply(s1, b);
    var s3 := Apply(s2, c);
    FirstStep(s3, d, []);
    FirstStep(s2, c, [d]);
    FirstStep(s1, b, [c, d]);
    FirstStep(s, a, [b, c, d]);
    assert [a] + [b, c, d] == [a, b, c, d];
  }

  lemma FirstStep(s: State, step: Step, rest: seq<Step>)
    requires Enabled(s, step) && CanRun(Apply(s, step), rest)
    ensures CanRun(s, [step] + rest) && Run(s, [step] + rest) == Run(Apply(s, step), rest)
  {
    assert ([step] + rest)[1..] == rest;
  }

  // ---------- whether an invalidation lasts ----------

  /** Nothing older than version v can be given out for a key any more: it is neither cached
      nor in the hands of a call that would cache it. */
  ghost predicate NoneOlder(s: State, key: string, v: nat) {
    && v < |s.history|
    && (key in s.cache && s.cache[key].expiresAt > s.now ==> v <= s.cache[key].answer.version)
    && NoOlderReader(s, key, v)
  }

  /** The call has read the setting, and would still cache it for a while. */
  predicate Uncached(s: State, get: Get, key: string) {
    get.key == key && get.reading.Fetched? && get.checkedAt + TTL > s.now
  }

  /** No call that has read an older version has yet to cache it, within its minute. */
  ghost predicate NoOlderReader(s: State, key: string, v: nat) {
    forall g :: 0 <= g < |s.gets| && Uncached(s, s.gets[g], key) ==> v <= s.gets[g].reading.fetched.version
  }

  /** No call of this key, from the n-th on, got anything older than version v. */
  ghost predicate NewerFrom(s: State, key: string, v: nat, n: nat) {
    forall g :: n <= g < |s.gets| && s.gets[g].key == key ==>
      && (s.gets[g].reading.Fetched? ==> v <= s.gets[g].reading.fetched.version)
      && (s.gets[g].reading.Answered? ==> v <= s.gets[g].reading.answer.version)
  }

  lemma NoneOlderKept(s: State, step: Step, key: string, v: nat, n: nat)
    requires Enabled(s, step) && NoneOlder(s, key, v) && NewerFrom(s, key, v, n)
    ensures NoneOlder(Apply(s, step), key, v) && NewerFrom(Apply(s, step), key, v, n)
  {
  }

  lemma {:induction false} NoneOlderLasts(s: State, steps: seq<Step>, key: string, v: nat, n: nat)
    requires CanRun(s, steps) && NoneOlder(s, key, v) && NewerFrom(s, key, v, n)
    ensures NewerFrom(Run(s, steps), key, v, n)
    decreases |steps|
  {
    if steps != [] {
      NoneOlderKept(s, steps[0], key, v, n);
      NoneOlderLasts(Apply(s, steps[0]), steps[1..], key, v, n);
    }
  }

  /** However the run goes on, no call that starts from here on gets an older version. */
  ghost predicate Lasting(s: State, key: string, v: nat) {
    forall steps :: CanRun(s, steps) ==> NewerFrom(Run(s, steps), key, v, |s.gets|)
  }

  /** A call that still holds an older version caches it again, and the next call gets it. */
  lemma SlowReaderUndoes(s: State, key: string, v: nat, g: nat)
    requires g < |s.gets| && Uncached(s, s.gets[g], key) && s.gets[g].reading.fetched.version < v
    ensures !Lasting(s, key, v)
  {
    var t := Apply(s, Fill(g));
    var u := Apply(t, Check(key, ""));
    var steps := [Fill(g), Check(key, "")];
    assert steps[1..] == [Check(key, "")];
    assert [Check(key, "")][1..] == [];
    assert CanRun(t, [Check(key, "")]) && Run(t, [Check(key, "")]) == u;
    assert CanRun(s, steps) && Run(s, steps) == u;
    assert u.gets[|s.gets|].reading == Answered(s.now, s.gets[g].reading.fetched);
  }

  /** The invalidation that ends an update is lasting exactly when no call has read the rows
      before the update and has yet to cache what it read. */
  lemma InvalidationLastsIff(s: State, u: nat)
    requires Reachable(s) && Enabled(s, Invalidate(u))
    ensures var v := s.updates[u].writing.version;
            Lasting(Apply(s, Invalidate(u)), s.updates[u].key, v) <==> NoOlderReader(s, s.updates[u].key, v)
  {
    ReachableInvariant(s);
    var v, key := s.updates[u].writing.version, s.updates[u].key;
    var t := Apply(s, Invalidate(u));
    if NoOlderReader(s, key, v) {
      forall steps | CanRun(t, steps) ensures NewerFrom(Run(t, steps), key, v, |t.gets|) {
        NoneOlderLasts(t, steps, key, v, |t.gets|);
      }
    } else {
      var g :| 0 <= g < |s.gets| && Uncached(s, s.gets[g], key) && s.gets[g].reading.fetched.version < v;
      SlowReaderUndoes(t, key, v, g);
    }
  }

  // ---------- one call ----------

  class SettingsService {
    var state: State

    constructor (now: int, rows: map<string, string>)
      ensures state == Initial(now, rows) && Invariant(state)
    {
      state := Initial(now, rows);
    }

    method Take(step: Step)
      requires Enabled(state, step)
      modifies this
      ensures state == Apply(old(state), step) && (Invariant(old(state)) ==> Invariant(state))
    {
      if Invariant(state) { InvariantKept(state, step); }
      state := Apply(state, step);
    }

    /** Reads the rows and fills the cache. */
    method ReadRows(get: nat) returns (value: string)
      requires get < |state.gets| && state.gets[get].reading == Checked && state.history != []
      modifies this
      ensures Invariant(old(state)) ==> Invariant(state)
      ensures state.history == old(state).history && state.updates == old(state).updates
      ensures var s, g := old(state), old(state).gets[get];
              && (var rows := s.history[|s.history| - 1].rows;
                  value == if g.key in rows then rows[g.key] else g.fallback)
              && state.cache == s.cache[g.key := Entry(Answer(value, |s.history| - 1, get), g.checkedAt + 60000)]
    {
      Take(Fetch(get));
      Take(Fill(get));
      return state.gets[get].reading.answer.value;
    }

    /** A read that nothing interrupts: from a fresh cache entry, else from the rows, which
        fills the cache; the default if the database fails. */
    method GetSetting(key: string, fallback: string, outage: bool) returns (value: string)
      requires Invariant(state)
      modifies this
      ensures Invariant(state) && state.history == old(state).history && state.updates == old(state).updates
      ensures var s := old(state);
              if key in s.cache && s.cache[key].expiresAt > s.now then
                value == s.cache[key].answer.value && state.cache == s.cache
              else if outage then value == fallback && state.cache == s.cache
              else
                && s.history != []
                && (var rows := s.history[|s.history| - 1].rows;
                    value == if key in rows then rows[key] else fallback)
                && state.cache == s.cache[key := Entry(Answer(value, |s.history| - 1, |s.gets|), s.now + 60000)]
    {
      var get := |state.gets|;
      Take(Check(key, fallback));
      if state.gets[get].reading.Answered? {
        return state.gets[get].reading.answer.value;
      }
      if outage {
        Take(FailRead(get));
        return fallback;
      }
      value := ReadRows(get);
    }

    /** An update that nothing interrupts: the row is written and the entry dropped, or
        neither if the database fails. */
    method UpdateSetting(key: string, value: string, outage: bool)
      requires Invariant(state)
      modifies this
      ensures Invariant(state) && state.gets == old(state).gets
      ensures var s := old(state);
              if outage then state.history == s.history && state.cache == s.cache
              else
                && s.history != []
                && state.history == s.history + [Version(s.now, s.history[|s.history| - 1].rows[key := value])]
                && state.cache == s.cache - {key}
    {
      var update := |state.updates|;
      Take(Start(key, value));
      if outage {
        Take(FailWrite(update));
        return;
      }
      Take(Look(update));
      Take(Write(update));
      Take(Invalidate(update));
    }
  }
}
