/** Joined transactions and after-commit effects.  A callback is a list of actions; a nested
    transaction joins the one that is open. */
module Transactions {
  import opened Options

  /** What becomes of an effect that is run: it may throw at once or fail later. */
  datatype Result = Succeeds | Throws | Rejects

  datatype Effect = Effect(id: nat, result: Result) {
    predicate Fails() { result != Succeeds }
  }

  /** `commits` is whether the database accepts the commit, should the transaction be outermost. */
  datatype Action =
    | Write(value: nat)
    | AfterCommit(effect: Effect)
    | RunInTransaction(body: seq<Action>, commits: bool)
    | Attempt(attempt: seq<Action>)   // code that catches whatever the inner actions throw
    | Throw

  // ---------- what a callback does ----------

  datatype Event = Wrote(value: nat) | Registered(effect: Effect)

  /** The events of a callback up to the first error that is not caught; within an open
      transaction. */
  datatype Trace = Trace(events: seq<Event>, completed: bool) {
    function Then(rest: Trace): Trace {
      if completed then Trace(events + rest.events, rest.completed) else this
    }
  }

  function TraceOf(body: seq<Action>): Trace {
    if body == [] then Trace([], true) else TraceOfAction(body[0]).Then(TraceOf(body[1..]))
  }

  function TraceOfAction(action: Action): Trace {
    match action
    case Write(value) => Trace([Wrote(value)], true)
    case AfterCommit(effect) => Trace([Registered(effect)], true)
    case RunInTransaction(body, _) => TraceOf(body)
    case Attempt(body) => Trace(TraceOf(body).events, true)
    case Throw => Trace([], false)
  }

  function Writes(events: seq<Event>): seq<nat> {
    if events == [] then []
    else (if events[0].Wrote? then [events[0].value] else []) + Writes(events[1..])
  }

  function Effects(events: seq<Event>): seq<Effect> {
    if events == [] then []
    else (if events[0].Registered? then [events[0].effect] else []) + Effects(events[1..])
  }

  // ---------- what the outside can see ----------

  /** What happens, in order.  A transaction is named by the place of its commit. */
  datatype Happening =
    | Committed(writes: seq<nat>)
    | Ran(transaction: nat, effect: nat)
    | LoggedFailure(transaction: nat, effect: nat)
    | RanAtOnce(effect: nat)   // registered outside of any transaction

  type World = seq<Happening>

  /** Effects run one after the other; a failing one is logged and the next ones still run. */
  function AfterEffects(transaction: nat, effects: seq<Effect>): World {
    if effects == [] then []
    else AfterEffects(transaction, effects[..|effects| - 1]) + AfterEffect(transaction, effects[|effects| - 1])
  }

  function AfterEffect(transaction: nat, effect: Effect): World {
    [Ran(transaction, effect.id)] + if effect.Fails() then [LoggedFailure(transaction, effect.id)] else []
  }

  /** An outermost transaction: everything and then its effects, or nothing. */
  function Transact(world: World, body: seq<Action>, commits: bool): World {
    var trace := TraceOf(body);
    if trace.completed && commits then
      world + [Committed(Writes(trace.events))] + AfterEffects(|world|, Effects(trace.events))
    else world
  }

  /** A callback outside of any transaction: what it leaves, and whether it completes. */
  function Outside(world: World, body: seq<Action>): (World, bool)
    decreases body
  {
    if body == [] then (world, true)
    else
      var (next, completed) := OutsideAction(world, body[0]);
      if completed then Outside(next, body[1..]) else (next, false)
  }

  function OutsideAction(world: World, action: Action): (World, bool)
    decreases action
  {
    match action
    case Write(value) => (world + [Committed([value])], true)
    case AfterCommit(effect) => (world + [RanAtOnce(effect.id)], !effect.result.Throws?)
    case RunInTransaction(body, commits) => (Transact(world, body, commits), TraceOf(body).completed && commits)
    case Attempt(body) => (Outside(world, body).0, true)
    case Throw => (world, false)
  }

  // ---------- what is promised of the order ----------

  /** The transaction whose effect ran, or failed, here. */
  function EffectOf(h: Happening): Option<nat> {
    match h
    case Ran(transaction, _) => Some(transaction)
    case LoggedFailure(transaction, _) => Some(transaction)
    case _ => None
  }

  /** Whatever an effect does comes after the commit of the transaction that registered it. */
  ghost predicate EffectsFollowCommits(world: World) {
    forall i :: 0 <= i < |world| && EffectOf(world[i]).Some? ==>
      EffectOf(world[i]).value < i && world[EffectOf(world[i]).value].Committed?
  }

  /** The effects of a transaction that ran, in order. */
  function RunsOf(world: World, transaction: nat): seq<nat> {
    if world == [] then []
    else
      RunsOf(world[..|world| - 1], transaction)
      + (var last := world[|world| - 1]; if last.Ran? && last.transaction == transaction then [last.effect] else [])
  }

  function Ids(effects: seq<Effect>): seq<nat> { seq(|effects|, i requires 0 <= i < |effects| => effects[i].id) }

  /** The world went from `before` to `after` by a commit of these writes and then these effects,
      each run once, in order, and logged if it fails. */
  ghost predicate CommitsThenRuns(before: World, after: World, writes: seq<nat>, effects: seq<Effect>) {
    && |before| < |after| && before == after[..|before|]
    && after[|before|] == Committed(writes)
    && RunsOf(after, |before|) == Ids(effects)
    && (forall i :: |before| < i < |after| ==> EffectOf(after[i]) == Some(|before|))
    && (forall e :: e in effects && e.Fails() ==> LoggedFailure(|before|, e.id) in after)
    && (forall i :: |before| < i < |after| && after[i].LoggedFailure? ==>
          Failing(effects, after[i].effect))
  }

  ghost predicate Failing(effects: seq<Effect>, id: nat) {
    exists e :: e in effects && e.Fails() && e.id == id
  }

  // ---------- what a transaction performs ----------

  /** The writes and registrations that a callback performs: those of its nested transactions
      in their place, those of caught code up to its error, and nothing after an error. */
  function Performed(body: seq<Action>): seq<Action> {
    if body == [] then []
    else PerformedBy(body[0]) + (if Continues(body[0]) then Performed(body[1..]) else [])
  }

  function PerformedBy(action: Action): seq<Action> {
    match action
    case Write(_) => [action]
    case AfterCommit(_) => [action]
    case RunInTransaction(body, _) => Performed(body)
    case Attempt(body) => Performed(body)
    case Throw => []
  }

  /** Whether a callback runs to its end. */
  predicate Completes(body: seq<Action>) {
    body == [] || (Continues(body[0]) && Completes(body[1..]))
  }

  predicate Continues(action: Action) {
    match action
    case RunInTransaction(body, _) => Completes(body)
    case Throw => false
    case _ => true
  }

  /** How many writes, or registrations, there are before place i. */
  function WritesBefore(actions: seq<Action>, i: nat): nat
    requires i <= |actions|
  {
    if i == 0 then 0 else WritesBefore(actions, i - 1) + if actions[i - 1].Write? then 1 else 0
  }

  function EffectsBefore(actions: seq<Action>, i: nat): nat
    requires i <= |actions|
  {
    if i == 0 then 0 else EffectsBefore(actions, i - 1) + if actions[i - 1].AfterCommit? then 1 else 0
  }

  /** The world went from `before` to `after` by one commit of the values written by these actions,
      in order and each once, and then the effects they registered, in order and each once. */
  ghost predicate CommitsActions(before: World, after: World, actions: seq<Action>) {
    && |before| < |after| && before == after[..|before|] && after[|before|].Committed?
    && ListsWrites(after[|before|].writes, actions)
    && ListsEffects(RunsOf(after, |before|), actions)
    && (forall i :: |before| < i < |after| ==> EffectOf(after[i]) == Some(|before|))
  }

  ghost predicate ListsWrites(writes: seq<nat>, actions: seq<Action>) {
    && |writes| == WritesBefore(actions, |actions|)
    && forall i :: 0 <= i < |actions| && actions[i].Write? ==>
         WritesBefore(actions, i) < |writes| && writes[WritesBefore(actions, i)] == actions[i].value
  }

  ghost predicate ListsEffects(ids: seq<nat>, actions: seq<Action>) {
    && |ids| == EffectsBefore(actions, |actions|)
    && forall i :: 0 <= i < |actions| && actions[i].AfterCommit? ==>
         EffectsBefore(actions, i) < |ids| && ids[EffectsBefore(actions, i)] == actions[i].effect.id
  }

  // ---------- the provider ----------

  datatype Context = Context(writes: seq<nat>, afterCommit: seq<Effect>)

  function Extend(context: Context, events: seq<Event>): Context {
    Context(context.writes + Writes(events), context.afterCommit + Effects(events))
  }

  class DrizzleProvider {
    var context: Option<Context>
    var world: World

    constructor ()
      ensures context == None && world == []
    {
      context := None;
      world := [];
    }

    /** Registers an effect with the open transaction, or runs it at once; nobody waits for it
        then, and only what it throws at once reaches the caller. */
    method RegisterAfterCommit(effect: Effect) returns (completed: bool)
      modifies this
      ensures old(context).Some? ==>
                && completed && world == old(world)
                && context == Some(Extend(old(context).value, [Registered(effect)]))
      ensures old(context).None? ==>
                && completed == !effect.result.Throws?
                && context == None && world == old(world) + [RanAtOnce(effect.id)]
    {
      if context.Some? {
        ExtendByOne(context.value, Registered(effect));
        context := Some(context.value.(afterCommit := context.value.afterCommit + [effect]));
        return true;
      }
      world := world + [RanAtOnce(effect.id)];
      return !effect.result.Throws?;
    }

    /** Runs a callback's actions in order until one throws. */
    method Execute(body: seq<Action>) returns (completed: bool)
      modifies this
      ensures old(context).Some? ==>
                && world == old(world) && completed == TraceOf(body).completed
                && context == Some(Extend(old(context).value, TraceOf(body).events))
      ensures old(context).None? ==> context == None && (world, completed) == Outside(old(world), body)
      decreases body, 0
    {
      if body == [] {
        if context.Some? { ExtendByNothing(context.value); }
        return true;
      }
      ghost var before := context;
      completed := ExecuteAction(body[0]);
      if before.Some? { ExtendTwice(before.value, TraceOfAction(body[0]).events, TraceOf(body[1..]).events); }
      if !completed { return; }
      completed := Execute(body[1..]);
    }

    method ExecuteAction(action: Action) returns (completed: bool)
      modifies this
      ensures old(context).Some? ==>
                && world == old(world) && completed == TraceOfAction(action).completed
                && context == Some(Extend(old(context).value, TraceOfAction(action).events))
      ensures old(context).None? ==> context == None && (world, completed) == OutsideAction(old(world), action)
      decreases action
    {
      completed := true;
      match action
      case Write(value) =>
        if context.Some? {
          ExtendByOne(context.value, Wrote(value));
          context := Some(context.value.(writes := context.value.writes + [value]));
        } else {
          world := world + [Committed([value])];
        }
      case AfterCommit(effect) => completed := RegisterAfterCommit(effect);
      case RunInTransaction(body, commits) => completed := RunTransaction(body, commits);
      case Attempt(body) => var _ := Execute(body);
      case Throw =>
        if context.Some? { ExtendByNothing(context.value); }
        completed := false;
    }

    /** Joins the open transaction, or opens one and runs its effects after the commit. */
    method RunTransaction(body: seq<Action>, commits: bool) returns (completed: bool)
      modifies this
      ensures old(context).Some? ==>
                && completed == TraceOf(body).completed && world == old(world)
                && context == Some(Extend(old(context).value, TraceOf(body).events))
      ensures old(context).None? ==>
                && completed == (TraceOf(body).completed && commits)
                && context == None && world == Transact(old(world), body, commits)
      ensures old(context).None? && !completed ==> world == old(world)
      ensures old(context).None? && completed && EffectsFollowCommits(old(world)) ==>
                && CommitsThenRuns(old(world), world, Writes(TraceOf(body).events), Effects(TraceOf(body).events))
                && EffectsFollowCommits(world)
                && CommitsActions(old(world), world, Performed(body))
      ensures completed ==> Completes(body)
      decreases body, 1
    {
      PerformedTrace(body);
      if context.Some? {
        completed := Execute(body);
        return;
      }
      context := Some(Context([], []));
      completed := Execute(body);
      var done := context.value;
      assert done.writes == Writes(TraceOf(body).events) && done.afterCommit == Effects(TraceOf(body).events);
      context := None;
      if !completed { return; }
      if !commits { return false; }
      var transaction := |world|;
      world := world + [Committed(done.writes)];
      RunEffects(transaction, done.afterCommit);
      if EffectsFollowCommits(old(world)) {
        EffectsRunOnlyAfterCommit(old(world), body);
        TransactionCommitsActions(old(world), body);
      }
    }

    method RunEffects(transaction: nat, effects: seq<Effect>)
      modifies this
      ensures context == old(context) && world == old(world) + AfterEffects(transaction, effects)
    {
      for i := 0 to |effects|
        invariant context == old(context) && world == old(world) + AfterEffects(transaction, effects[..i])
      {
        assert effects[..i + 1][..i] == effects[..i];
        world := world + [Ran(transaction, effects[i].id)];
        if effects[i].Fails() { world := world + [LoggedFailure(transaction, effects[i].id)]; }
      }
      assert effects[..|effects|] == effects;
    }
  }

  // ---------- lists of events and happenings ----------

  lemma {:induction false} WritesConcat(a: seq<Event>, b: seq<Event>)
    ensures Writes(a + b) == Writes(a) + Writes(b)
  {
    if a == [] {
      assert a + b == b;
    } else {
      var ab := a + b;
      assert ab[0] == a[0] && ab[1..] == a[1..] + b;
      WritesConcat(a[1..], b);
    }
  }

  lemma {:induction false} EffectsConcat(a: seq<Event>, b: seq<Event>)
    ensures Effects(a + b) == Effects(a) + Effects(b)
  {
    if a == [] {
      assert a + b == b;
    } else {
      var ab := a + b;
      assert ab[0] == a[0] && ab[1..] == a[1..] + b;
      EffectsConcat(a[1..], b);
    }
  }

  lemma ExtendByNothing(context: Context)
    ensures Extend(context, []) == context
  {
  }

  lemma ExtendByOne(context: Context, event: Event)
    ensures Extend(context, [event])
            == match event
               case Wrote(value) => context.(writes := context.writes + [value])
               case Registered(effect) => context.(afterCommit := context.afterCommit + [effect])
  {
    assert [event][1..] == [];
    assert Writes([event][1..]) == [] && Effects([event][1..]) == [];
  }

  lemma ExtendTwice(context: Context, a: seq<Event>, b: seq<Event>)
    ensures Extend(Extend(context, a), b) == Extend(context, a + b)
  {
    WritesConcat(a, b);
    EffectsConcat(a, b);
  }

  lemma {:induction false} RunsConcat(a: World, b: World, transaction: nat)
    ensures RunsOf(a + b, transaction) == RunsOf(a, transaction) + RunsOf(b, transaction)
  {
    if b == [] {
      assert a + b == a;
    } else {
      var ab := a + b;
      assert ab[..|ab| - 1] == a + b[..|b| - 1];
      RunsConcat(a, b[..|b| - 1], transaction);
    }
  }

  lemma {:induction false} NoRuns(world: World, transaction: nat)
    requires forall i :: 0 <= i < |world| ==> EffectOf(world[i]) != Some(transaction)
    ensures RunsOf(world, transaction) == []
  {
    if world != [] {
      NoRuns(world[..|world| - 1], transaction);
    }
  }

  // ---------- effects follow their commit ----------

  lemma {:induction false} RunsOfEffects(transaction: nat, effects: seq<Effect>)
    ensures RunsOf(AfterEffects(transaction, effects), transaction) == Ids(effects)
  {
    if effects != [] {
      var before, last := effects[..|effects| - 1], effects[|effects| - 1];
      RunsOfEffects(transaction, before);
      RunsOfEffect(transaction, last);
      RunsConcat(AfterEffects(transaction, before), AfterEffect(transaction, last), transaction);
      assert Ids(effects) == Ids(before) + [last.id];
    }
  }

  lemma RunsOfEffect(transaction: nat, effect: Effect)
    ensures RunsOf(AfterEffect(transaction, effect), transaction) == [effect.id]
  {
    var ran := [Ran(transaction, effect.id)];
    assert ran[..0] == [] && RunsOf(ran, transaction) == [] + [effect.id];
    if effect.Fails() {
      assert AfterEffect(transaction, effect)[..1] == ran;
    }
  }

  lemma {:induction false} EffectsOfTransaction(transaction: nat, effects: seq<Effect>)
    ensures forall i :: 0 <= i < |AfterEffects(transaction, effects)| ==>
              EffectOf(AfterEffects(transaction, effects)[i]) == Some(transaction)
    ensures forall e :: e in effects && e.Fails() ==>
              LoggedFailure(transaction, e.id) in AfterEffects(transaction, effects)
  {
    if effects != [] {
      EffectsOfTransaction(transaction, effects[..|effects| - 1]);
      var last := effects[|effects| - 1];
      assert last.Fails() ==> AfterEffect(transaction, last)[1] == LoggedFailure(transaction, last.id);
      assert effects == effects[..|effects| - 1] + [last];
    }
  }

  /** An outermost transaction that completes and commits: the commit comes first, then each
      registered effect runs once, in order, a failing one suppressing none of the later ones;
      and every effect still follows its own commit. */
  lemma EffectsRunOnlyAfterCommit(world: World, body: seq<Action>)
    requires EffectsFollowCommits(world) && TraceOf(body).completed
    ensures var events := TraceOf(body).events;
            && CommitsThenRuns(world, Transact(world, body, true), Writes(events), Effects(events))
            && EffectsFollowCommits(Transact(world, body, true))
  {
    var events := TraceOf(body).events;
    CommitThenEffects(world, Writes(events), Effects(events));
  }

  lemma CommitThenEffects(world: World, writes: seq<nat>, effects: seq<Effect>)
    requires EffectsFollowCommits(world)
    ensures var after := world + [Committed(writes)] + AfterEffects(|world|, effects);
            CommitsThenRuns(world, after, writes, effects) && EffectsFollowCommits(after)
  {
    var n, ran := |world|, AfterEffects(|world|, effects);
    EffectsOfTransaction(n, effects);
    RunsOfCommitted(world, writes, effects);
    AppendInOrder(world, Committed(writes), ran);
    var after := world + [Committed(writes)] + ran;
    forall e | e in effects && e.Fails() ensures LoggedFailure(n, e.id) in after {
      assert LoggedFailure(n, e.id) in ran;
    }
    forall i | n < i < |after| && after[i].LoggedFailure? ensures Failing(effects, after[i].effect) {
      assert after[i] == ran[i - n - 1] && after[i] == LoggedFailure(n, after[i].effect);
      OnlyFailuresLogged(n, effects, after[i].effect);
    }
  }

  lemma {:induction false} OnlyFailuresLogged(transaction: nat, effects: seq<Effect>, id: nat)
    requires LoggedFailure(transaction, id) in AfterEffects(transaction, effects)
    ensures Failing(effects, id)
  {
    if effects != [] {
      var before, last := effects[..|effects| - 1], effects[|effects| - 1];
      if LoggedFailure(transaction, id) in AfterEffects(transaction, before) {
        OnlyFailuresLogged(transaction, before, id);
        var e :| e in before && e.Fails() && e.id == id;
        assert e in effects;
      } else {
        assert LoggedFailure(transaction, id) in AfterEffect(transaction, last);
        assert last in effects;
      }
    }
  }

  lemma AppendInOrder(world: World, commit: Happening, ran: World)
    requires EffectsFollowCommits(world) && commit.Committed?
    requires forall i :: 0 <= i < |ran| ==> EffectOf(ran[i]) == Some(|world|)
    ensures var after := world + [commit] + ran;
            && |world| < |after| && world == after[..|world|] && after[|world|] == commit
            && (forall i :: |world| < i < |after| ==> EffectOf(after[i]) == Some(|world|))
            && EffectsFollowCommits(after)
  {
    var after := world + [commit] + ran;
    forall i | |world| < i < |after| ensures EffectOf(after[i]) == Some(|world|) {
      assert after[i] == ran[i - |world| - 1];
    }
    forall i | 0 <= i < |world| ensures after[i] == world[i] {
    }
  }

  lemma RunsOfCommitted(world: World, writes: seq<nat>, effects: seq<Effect>)
    requires EffectsFollowCommits(world)
    ensures RunsOf(world + [Committed(writes)] + AfterEffects(|world|, effects), |world|) == Ids(effects)
  {
    var n := |world|;
    forall i | 0 <= i < |world| + 1 ensures EffectOf((world + [Committed(writes)])[i]) != Some(n) {
    }
    NoRuns(world + [Committed(writes)], n);
    RunsOfEffects(n, effects);
    RunsConcat(world + [Committed(writes)], AfterEffects(n, effects), n);
  }

  /** An error that is not caught, or a commit that the database refuses, leaves nothing. */
  lemma FailureLeavesNothing(world: World, body: seq<Action>, commits: bool)
    ensures Transact(world, body, commits) == world <==> !(TraceOf(body).completed && commits)
  {
    assert |Transact(world, body, commits)| > |world| <==> TraceOf(body).completed && commits;
  }

  /** In every program, of any number of transactions and caught errors, every effect that
      ran for a transaction ran after the commit of that transaction. */
  lemma {:induction false} EffectsAlwaysFollowCommits(world: World, body: seq<Action>)
    requires EffectsFollowCommits(world)
    ensures EffectsFollowCommits(Outside(world, body).0) && world <= Outside(world, body).0
    decreases body
  {
    if body != [] {
      ActionFollowsCommits(world, body[0]);
      var (next, completed) := OutsideAction(world, body[0]);
      if completed { EffectsAlwaysFollowCommits(next, body[1..]); }
    }
  }

  lemma {:induction false} ActionFollowsCommits(world: World, action: Action)
    requires EffectsFollowCommits(world)
    ensures EffectsFollowCommits(OutsideAction(world, action).0) && world <= OutsideAction(world, action).0
    decreases action
  {
    match action
    case RunInTransaction(body, commits) =>
      if TraceOf(body).completed && commits { EffectsRunOnlyAfterCommit(world, body); }
    case Attempt(body) => EffectsAlwaysFollowCommits(world, body);
    case _ =>
  }

  // ---------- what is committed, action by action ----------

  predicate Plain(actions: seq<Action>) {
    forall i :: 0 <= i < |actions| ==> actions[i].Write? || actions[i].AfterCommit?
  }

  /** The trace has the writes of the actions and the effects they register, one by one. */
  lemma {:induction false} PerformedTrace(body: seq<Action>)
    ensures Plain(Performed(body)) && TraceOf(body).completed == Completes(body)
    ensures TraceOf(body).events == EventsOf(Performed(body))
    decreases body
  {
    if body != [] {
      PerformedActionTrace(body[0]);
      PerformedTrace(body[1..]);
      EventsConcat(PerformedBy(body[0]), Performed(body[1..]));
      assert PerformedBy(body[0]) + [] == PerformedBy(body[0]);
    }
  }

  lemma {:induction false} PerformedActionTrace(action: Action)
    ensures Plain(PerformedBy(action)) && TraceOfAction(action).completed == Continues(action)
    ensures TraceOfAction(action).events == EventsOf(PerformedBy(action))
    decreases action
  {
    match action
    case RunInTransaction(body, _) => PerformedTrace(body);
    case Attempt(body) => PerformedTrace(body);
    case _ =>
  }

  function EventsOf(actions: seq<Action>): seq<Event> {
    seq(|actions|, i requires 0 <= i < |actions| =>
      if actions[i].AfterCommit? then Registered(actions[i].effect)
      else Wrote(if actions[i].Write? then actions[i].value else 0))
  }

  lemma EventsConcat(a: seq<Action>, b: seq<Action>)
    ensures EventsOf(a + b) == EventsOf(a) + EventsOf(b)
  {
  }

  lemma OneMoreAction(actions: seq<Action>, n: nat)
    requires Plain(actions) && n < |actions|
    ensures var before, after := EventsOf(actions[..n]), EventsOf(actions[..n + 1]);
            && Writes(after) == Writes(before) + (if actions[n].Write? then [actions[n].value] else [])
            && Effects(after) == Effects(before) + (if actions[n].AfterCommit? then [actions[n].effect] else [])
  {
    assert actions[..n + 1] == actions[..n] + [actions[n]];
    EventsConcat(actions[..n], [actions[n]]);
    WritesConcat(EventsOf(actions[..n]), EventsOf([actions[n]]));
    EffectsConcat(EventsOf(actions[..n]), EventsOf([actions[n]]));
    OneEvent(actions[n]);
  }

  lemma {:induction false} WritesListed(actions: seq<Action>, n: nat)
    requires Plain(actions) && n <= |actions|
    ensures |Writes(EventsOf(actions[..n]))| == WritesBefore(actions, n)
    ensures forall i :: 0 <= i < n && actions[i].Write? ==>
              && WritesBefore(actions, i) < WritesBefore(actions, n)
              && Writes(EventsOf(actions[..n]))[WritesBefore(actions, i)] == actions[i].value
  {
    if n > 0 {
      WritesListed(actions, n - 1);
      OneMoreAction(actions, n - 1);
    }
  }

  lemma {:induction false} EffectsListed(actions: seq<Action>, n: nat)
    requires Plain(actions) && n <= |actions|
    ensures |Effects(EventsOf(actions[..n]))| == EffectsBefore(actions, n)
    ensures forall i :: 0 <= i < n && actions[i].AfterCommit? ==>
              && EffectsBefore(actions, i) < EffectsBefore(actions, n)
              && Effects(EventsOf(actions[..n]))[EffectsBefore(actions, i)] == actions[i].effect
  {
    if n > 0 {
      EffectsListed(actions, n - 1);
      OneMoreAction(actions, n - 1);
    }
  }

  lemma OneEvent(action: Action)
    requires action.Write? || action.AfterCommit?
    ensures Writes(EventsOf([action])) == if action.Write? then [action.value] else []
    ensures Effects(EventsOf([action])) == if action.AfterCommit? then [action.effect] else []
  {
    var events := EventsOf([action]);
    assert events[1..] == [];
  }

  /** A transaction that completes and commits has committed exactly the values written by what
      it performed, and then run exactly the effects registered by it. */
  lemma TransactionCommitsActions(world: World, body: seq<Action>)
    requires EffectsFollowCommits(world) && Completes(body)
    ensures CommitsActions(world, Transact(world, body, true), Performed(body))
  {
    PerformedTrace(body);
    EffectsRunOnlyAfterCommit(world, body);
    var actions := Performed(body);
    assert actions[..|actions|] == actions;
    WritesListed(actions, |actions|);
    EffectsListed(actions, |actions|);
  }

  /** What is performed, by laws: plain actions perform themselves, */
  lemma {:induction false} PlainIsPerformed(body: seq<Action>)
    requires Plain(body)
    ensures Performed(body) == body && Completes(body)
  {
    if body != [] { PlainIsPerformed(body[1..]); }
  }

  lemma {:induction false} PerformedConcat(a: seq<Action>, b: seq<Action>)
    ensures Completes(a + b) <==> Completes(a) && Completes(b)
    ensures Performed(a + b) == if Completes(a) then Performed(a) + Performed(b) else Performed(a)
  {
    if a == [] {
      assert a + b == b;
    } else {
      var ab := a + b;
      assert ab[0] == a[0] && ab[1..] == a[1..] + b;
      PerformedConcat(a[1..], b);
    }
  }

  /** nothing is performed after an error, which fails the transaction, */
  lemma NothingAfterThrow(world: World, before: seq<Action>, rest: seq<Action>, commits: bool)
    ensures !Completes(before + [Throw] + rest) && Transact(world, before + [Throw] + rest, commits) == world
    ensures Completes(before) ==> Performed(before + [Throw] + rest) == Performed(before)
  {
    PerformedConcat(before, [Throw]);
    PerformedConcat(before + [Throw], rest);
    PerformedTrace(before + [Throw] + rest);
  }

  /** caught code performs what precedes its error, and what follows it is performed too, */
  lemma AttemptPerformsWhatPrecedes(before: seq<Action>, caught: seq<Action>, skipped: seq<Action>, rest: seq<Action>)
    requires Completes(before) && Completes(caught)
    ensures Performed(before + [Attempt(caught + [Throw] + skipped)] + rest) == Performed(before + caught + rest)
    ensures Completes(before + [Attempt(caught + [Throw] + skipped)] + rest) <==> Completes(rest)
  {
    NothingAfterThrow([], caught, skipped, true);
    OneInPlace(before, Attempt(caught + [Throw] + skipped), rest);
    PerformedConcat(before, caught);
    PerformedConcat(before + caught, rest);
  }

  lemma PerformedAlone(action: Action)
    ensures Performed([action]) == PerformedBy(action) && (Completes([action]) <==> Continues(action))
  {
    assert [action][1..] == [] && Performed([]) == [];
    assert Performed([action][1..]) == [];
    assert PerformedBy(action) + [] == PerformedBy(action);
  }

  lemma OneInPlace(before: seq<Action>, action: Action, rest: seq<Action>)
    requires Completes(before) && Continues(action)
    ensures Performed(before + [action] + rest) == Performed(before) + PerformedBy(action) + Performed(rest)
    ensures Completes(before + [action] + rest) <==> Completes(rest)
  {
    PerformedAlone(action);
    PerformedConcat(before, [action]);
    PerformedConcat(before + [action], rest);
  }

  /** and a nested transaction performs its actions in its place. */
  lemma NestedIsInPlace(before: seq<Action>, body: seq<Action>, commits: bool, rest: seq<Action>)
    requires Completes(before) && Completes(body)
    ensures Performed(before + [RunInTransaction(body, commits)] + rest) == Performed(before + body + rest)
    ensures Completes(before + [RunInTransaction(body, commits)] + rest) <==> Completes(rest)
  {
    OneInPlace(before, RunInTransaction(body, commits), rest);
    PerformedConcat(before, body);
    PerformedConcat(before + body, rest);
  }

  /** Outside of a transaction each write is committed by itself. */
  lemma {:induction false} WritesOutsideCommitAtOnce(world: World, body: seq<Action>)
    requires forall i :: 0 <= i < |body| ==> body[i].Write?
    ensures var (after, completed) := Outside(world, body);
            && completed && |after| == |world| + |body| && world == after[..|world|]
            && forall i :: 0 <= i < |body| ==> after[|world| + i] == Committed([body[i].value])
    decreases |body|
  {
    if body != [] {
      var next := world + [Committed([body[0].value])];
      WritesOutsideCommitAtOnce(next, body[1..]);
      assert Outside(world, body) == Outside(next, body[1..]);
    }
  }

  // ---------- nested transactions are flattened ----------

  /** The callback with every nested transaction replaced by its actions. */
  function Flatten(body: seq<Action>): seq<Action> {
    if body == [] then [] else FlattenAction(body[0]) + Flatten(body[1..])
  }

  function FlattenAction(action: Action): seq<Action> {
    match action
    case RunInTransaction(body, _) => Flatten(body)
    case Attempt(body) => [Attempt(Flatten(body))]
    case _ => [action]
  }

  predicate Flat(body: seq<Action>) { forall i :: 0 <= i < |body| ==> FlatAction(body[i]) }

  predicate FlatAction(action: Action) {
    match action
    case RunInTransaction(_, _) => false
    case Attempt(body) => Flat(body)
    case _ => true
  }

  lemma ThenAssociative(a: Trace, b: Trace, c: Trace)
    ensures a.Then(b).Then(c) == a.Then(b.Then(c))
  {
  }

  lemma {:induction false} TraceConcat(a: seq<Action>, b: seq<Action>)
    ensures TraceOf(a + b) == TraceOf(a).Then(TraceOf(b))
  {
    if a == [] {
      assert a + b == b;
    } else {
      var ab := a + b;
      assert ab[0] == a[0] && ab[1..] == a[1..] + b;
      TraceConcat(a[1..], b);
      ThenAssociative(TraceOfAction(a[0]), TraceOf(a[1..]), TraceOf(b));
    }
  }

  lemma {:induction false} FlattenKeepsTrace(body: seq<Action>)
    ensures TraceOf(Flatten(body)) == TraceOf(body) && Flat(Flatten(body))
  {
    if body != [] {
      FlattenActionKeepsTrace(body[0]);
      FlattenKeepsTrace(body[1..]);
      TraceConcat(FlattenAction(body[0]), Flatten(body[1..]));
    }
  }

  lemma {:induction false} FlattenActionKeepsTrace(action: Action)
    ensures TraceOf(FlattenAction(action)) == TraceOfAction(action) && Flat(FlattenAction(action))
  {
    match action
    case RunInTransaction(body, _) => FlattenKeepsTrace(body);
    case Attempt(body) =>
      FlattenKeepsTrace(body);
      OneAction(Attempt(Flatten(body)));
    case _ => OneAction(action);
  }

  /** A tree of nested transactions behaves as the outermost one alone. */
  lemma NestedEqualsFlattened(world: World, body: seq<Action>, commits: bool)
    ensures Transact(world, body, commits) == Transact(world, Flatten(body), commits) && Flat(Flatten(body))
  {
    FlattenKeepsTrace(body);
  }

  /** A transaction nested in code that catches errors is not rolled back on its own: what it
      did before the error is committed with the rest, its effects included. */
  lemma CaughtErrorKeepsNestedWork(world: World, body: seq<Action>, inner: bool)
    ensures var events := TraceOf(body).events;
            Transact(world, [Attempt([RunInTransaction(body, inner)])], true)
            == world + [Committed(Writes(events))] + AfterEffects(|world|, Effects(events))
  {
    CaughtTrace(body, inner);
  }

  lemma CaughtTrace(body: seq<Action>, inner: bool)
    ensures TraceOf([Attempt([RunInTransaction(body, inner)])]) == Trace(TraceOf(body).events, true)
  {
    OneAction(RunInTransaction(body, inner));
    OneAction(Attempt([RunInTransaction(body, inner)]));
  }

  lemma OneAction(action: Action)
    ensures TraceOf([action]) == TraceOfAction(action)
  {
    assert [action][1..] == [];
    assert TraceOf([action]) == TraceOfAction(action).Then(TraceOf([]));
  }
}
