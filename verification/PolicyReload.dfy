/** The state of a loaded admission policy (openAdmissionPolicy in src/admission-policy.ts): what is
    active, what its health is, and which events are reported as the policy file is read again and
    again.  Reading and parsing one file is an outcome; loads follow one another. */
module PolicyReload {

  type Digest = string

  datatype Option<T> = None | Some(value: T)

  /** A policy, a published removal, or a file that cannot be read or is not valid. */
  datatype Outcome = Read(policy: Option<Digest>) | Unusable

  datatype Condition = Disabled | Healthy | Degraded
  datatype Health = Health(condition: Condition, digest: Option<Digest>)

  datatype Kind = Loaded | Failure | Recovery
  datatype Event = Event(kind: Kind, health: Health)

  datatype State = State(
    active: Option<Digest>,
    health: Health,
    activated: bool,
    recoveryPending: bool,
    failures: nat,
    recoveries: nat,
    events: seq<Event>
  )

  // ---------- the specification ----------

  function Reported(s: State, condition: Condition, kind: Kind, force: bool): State {
    var next := Health(condition, s.active);
    if !force && kind == Loaded && next == s.health then s
    else if !s.activated && kind != Failure then s.(health := next)
    else s.(health := next, events := s.events + [Event(kind, next)])
  }

  predicate CanRecover(s: State, condition: Condition) { s.activated && s.recoveryPending && condition != Degraded }

  function Recovered(s: State, condition: Condition): State {
    if CanRecover(s, condition) then s.(recoveryPending := false, recoveries := s.recoveries + 1) else s
  }

  function KindOf(s: State, condition: Condition): Kind { if CanRecover(s, condition) then Recovery else Loaded }

  function ConditionOf(policy: Option<Digest>): Condition { if policy.Some? then Healthy else Disabled }

  function AfterLoad(s: State, outcome: Outcome): State {
    match outcome
    case Unusable => Reported(s.(recoveryPending := true, failures := s.failures + 1), Degraded, Failure, false)
    case Read(policy) =>
      var read := s.(active := policy);
      Reported(Recovered(read, ConditionOf(policy)), ConditionOf(policy), KindOf(read, ConditionOf(policy)), false)
  }

  function AfterActivate(s: State, previousDegraded: bool): State {
    if s.activated then s
    else
      var on := s.(activated := true, recoveryPending := s.recoveryPending || previousDegraded);
      Reported(Recovered(on, s.health.condition), s.health.condition, KindOf(on, s.health.condition), true)
  }

  // ---------- the loader ----------

  class Loader {
    var state: State

    constructor (deferActivation: bool)
      ensures state == InitialState(!deferActivation)
    {
      state := State(None, Health(Disabled, None), !deferActivation, false, 0, 0, []);
    }

    method Report(condition: Condition, kind: Kind, force: bool)
      modifies this
      ensures state == Reported(old(state), condition, kind, force)
    {
      var next := Health(condition, state.active);
      if !force && kind == Loaded && next.condition == state.health.condition && next.digest == state.health.digest { return; }
      state := state.(health := next);
      if !state.activated && kind != Failure { return; }
      state := state.(events := state.events + [Event(kind, next)]);
    }

    method Recover(condition: Condition) returns (recovered: bool)
      modifies this
      ensures recovered == CanRecover(old(state), condition) && state == Recovered(old(state), condition)
    {
      if !state.activated || !state.recoveryPending || condition == Degraded { return false; }
      state := state.(recoveryPending := false, recoveries := state.recoveries + 1);
      return true;
    }

    method Activate(previousHealth: Option<Health>)
      modifies this
      ensures state == AfterActivate(old(state), previousHealth.Some? && previousHealth.value.condition == Degraded)
    {
      if state.activated { return; }
      state := state.(recoveryPending := state.recoveryPending || (previousHealth.Some? && previousHealth.value.condition == Degraded));
      state := state.(activated := true);
      var condition := state.health.condition;
      var recovered := Recover(condition);
      Report(condition, if recovered then Recovery else Loaded, true);
    }

    /** load: a cold load that fails is thrown to whoever opens the policy. */
    method Load(outcome: Outcome, cold: bool) returns (usable: bool)
      modifies this
      ensures state == AfterLoad(old(state), outcome) && (usable <==> outcome.Read? || !cold)
    {
      match outcome
      case Read(policy) =>
        state := state.(active := policy);
        var condition := if policy.Some? then Healthy else Disabled;
        var recovered := Recover(condition);
        Report(condition, if recovered then Recovery else Loaded, false);
        return true;
      case Unusable =>
        state := state.(recoveryPending := true, failures := state.failures + 1);
        Report(Degraded, Failure, false);
        return !cold;
    }
  }

  // ---------- runs ----------

  datatype Step = Reload(outcome: Outcome) | Activation(previousDegraded: bool)

  function Next(s: State, step: Step): State {
    match step
    case Reload(outcome) => AfterLoad(s, outcome)
    case Activation(previousDegraded) => AfterActivate(s, previousDegraded)
  }

  function Final(s: State, steps: seq<Step>): State {
    if steps == [] then s else Next(Final(s, steps[..|steps| - 1]), steps[|steps| - 1])
  }

  function InitialState(activated: bool): State { State(None, Health(Disabled, None), activated, false, 0, 0, []) }

  /** The loader as a successful cold load leaves it. */
  function Opened(activated: bool, first: Option<Digest>): State { AfterLoad(InitialState(activated), Read(first)) }

  /** The policy of the last load that succeeded. */
  function LastGood(first: Option<Digest>, steps: seq<Step>): Option<Digest> {
    if steps == [] then first
    else
      var last := steps[|steps| - 1];
      if last.Reload? && last.outcome.Read? then last.outcome.policy else LastGood(first, steps[..|steps| - 1])
  }

  predicate LastFailed(steps: seq<Step>) {
    steps != [] &&
    var last := steps[|steps| - 1];
    if last.Reload? then last.outcome.Unusable? else LastFailed(steps[..|steps| - 1])
  }

  function Count(events: seq<Event>, kind: Kind): nat {
    if events == [] then 0 else Count(events[..|events| - 1], kind) + if events[|events| - 1].kind == kind then 1 else 0
  }

  lemma CountAppend(events: seq<Event>, e: Event, kind: Kind)
    ensures Count(events + [e], kind) == Count(events, kind) + if e.kind == kind then 1 else 0
  {
    assert (events + [e])[..|events|] == events;
  }

  /** Between two recoveries there is a failure. */
  ghost predicate Alternate(events: seq<Event>) {
    forall i, j :: 0 <= i < j < |events| && events[i].kind == Recovery && events[j].kind == Recovery ==> FailureBetween(events, i, j)
  }

  /** A failure after the last recovery is still to be made good. */
  ghost predicate OwesRecovery(events: seq<Event>) {
    exists k :: 0 <= k < |events| && events[k].kind == Failure && forall l :: k < l < |events| ==> events[l].kind != Recovery
  }

  ghost predicate Inv(s: State) {
    && s.health.digest == s.active
    && (s.health.condition != Degraded ==> s.health.condition == ConditionOf(s.active))
    && (s.health.condition == Degraded ==> s.recoveryPending)
    && (s.activated ==> (s.recoveryPending <==> s.health.condition == Degraded))
    && (!s.activated ==> s.recoveries == 0 && Count(s.events, Recovery) == 0)
    && s.failures == Count(s.events, Failure) && s.recoveries == Count(s.events, Recovery)
    && Alternate(s.events)
    && (s.recoveries > 0 && s.recoveryPending ==> OwesRecovery(s.events))
  }

  // ---------- every run ----------

  lemma OwedStays(events: seq<Event>, e: Event)
    requires OwesRecovery(events) && e.kind != Recovery
    ensures OwesRecovery(events + [e])
  {
    var k :| 0 <= k < |events| && events[k].kind == Failure && forall l :: k < l < |events| ==> events[l].kind != Recovery;
    var all := events + [e];
    assert all[k].kind == Failure && forall l :: k < l < |all| ==> all[l].kind != Recovery;
  }

  lemma FailureOwes(events: seq<Event>, e: Event)
    requires e.kind == Failure
    ensures OwesRecovery(events + [e])
  {
    assert (events + [e])[|events|].kind == Failure;
  }

  ghost predicate FailureBetween(events: seq<Event>, i: nat, j: nat) {
    exists k :: i < k < j && k < |events| && events[k].kind == Failure
  }

  lemma BetweenStays(events: seq<Event>, e: Event, i: nat, j: nat)
    requires FailureBetween(events, i, j)
    ensures FailureBetween(events + [e], i, j)
  {
    var k :| i < k < j && k < |events| && events[k].kind == Failure;
    assert (events + [e])[k] == events[k];
  }

  /** A recovery that is owed has a failure between it and every earlier one. */
  lemma OwedBetween(events: seq<Event>, e: Event, i: nat)
    requires i < |events| && events[i].kind == Recovery && OwesRecovery(events)
    ensures FailureBetween(events + [e], i, |events|)
  {
    var k :| 0 <= k < |events| && events[k].kind == Failure && forall l :: k < l < |events| ==> events[l].kind != Recovery;
    assert i < k && (events + [e])[k] == events[k];
  }

  lemma AlternateStays(events: seq<Event>, e: Event)
    requires Alternate(events) && (e.kind == Recovery && Count(events, Recovery) > 0 ==> OwesRecovery(events))
    ensures Alternate(events + [e])
  {
    hide FailureBetween, OwesRecovery;
    var all := events + [e];
    forall i, j | 0 <= i < j < |all| && all[i].kind == Recovery && all[j].kind == Recovery
      ensures FailureBetween(all, i, j)
    {
      if j < |events| {
        BetweenStays(events, e, i, j);
      } else {
        CountsOne(events, i, Recovery);
        OwedBetween(events, e, i);
      }
    }
  }

  lemma {:induction false} CountsOne(events: seq<Event>, i: nat, kind: Kind)
    requires i < |events| && events[i].kind == kind
    ensures Count(events, kind) > 0
  {
    if i < |events| - 1 { CountsOne(events[..|events| - 1], i, kind); }
  }

  lemma ReportedKeeps(s: State, n: State, e: Event)
    requires n.events == s.events + [e]
    requires Alternate(s.events) && s.recoveries == Count(s.events, Recovery) && s.failures == Count(s.events, Failure)
    requires e.kind == Recovery && s.recoveries > 0 ==> OwesRecovery(s.events)
    ensures Alternate(n.events)
    ensures Count(n.events, Recovery) == s.recoveries + if e.kind == Recovery then 1 else 0
    ensures Count(n.events, Failure) == s.failures + if e.kind == Failure then 1 else 0
    ensures e.kind == Failure || (OwesRecovery(s.events) && e.kind != Recovery) ==> OwesRecovery(n.events)
  {
    CountAppend(s.events, e, Recovery);
    CountAppend(s.events, e, Failure);
    AlternateStays(s.events, e);
    if e.kind == Failure { FailureOwes(s.events, e); }
    if OwesRecovery(s.events) && e.kind != Recovery { OwedStays(s.events, e); }
  }

  lemma NextKeeps(s: State, step: Step)
    requires Inv(s)
    ensures Inv(Next(s, step))
  {
    hide Alternate, OwesRecovery, Count;
    var n := Next(s, step);
    if n.events != s.events { ReportedKeeps(s, n, n.events[|s.events|]); }
  }

  lemma OpenedInv(activated: bool, first: Option<Digest>)
    ensures Inv(Opened(activated, first))
  {
    var s := InitialState(activated);
    assert Alternate(s.events) && Count(s.events, Recovery) == 0 && Count(s.events, Failure) == 0;
    NextKeeps(s, Reload(Read(first)));
  }

  lemma {:induction false} RunKeeps(activated: bool, first: Option<Digest>, steps: seq<Step>)
    ensures Inv(Final(Opened(activated, first), steps))
  {
    if steps == [] {
      OpenedInv(activated, first);
    } else {
      RunKeeps(activated, first, steps[..|steps| - 1]);
      NextKeeps(Final(Opened(activated, first), steps[..|steps| - 1]), steps[|steps| - 1]);
    }
  }

  /** A reload that fails never takes the policy away: the last one that loaded stays active, and
      the health says so exactly while the last load failed. */
  lemma {:induction false} LastGoodStaysActive(activated: bool, first: Option<Digest>, steps: seq<Step>)
    ensures var s := Final(Opened(activated, first), steps);
            && s.active == LastGood(first, steps)
            && s.health == Health(if LastFailed(steps) then Degraded else ConditionOf(s.active), s.active)
  {
    if steps != [] {
      LastGoodStaysActive(activated, first, steps[..|steps| - 1]);
    }
  }

  /** Every failure is reported; every recovery is counted once, is reported only after activation,
      and has a failure before the next one; an activated loader owes one exactly while degraded. */
  lemma RecoveriesFollowFailures(activated: bool, first: Option<Digest>, steps: seq<Step>)
    ensures var s := Final(Opened(activated, first), steps);
            && Alternate(s.events) && s.failures == Count(s.events, Failure) && s.recoveries == Count(s.events, Recovery)
            && (!s.activated ==> s.recoveries == 0)
            && (s.activated ==> (s.recoveryPending <==> LastFailed(steps)))
  {
    RunKeeps(activated, first, steps);
    LastGoodStaysActive(activated, first, steps);
  }

  /** Whoever follows the events of an activated loader knows its health. */
  ghost predicate UpToDate(s: State) {
    s.activated ==> s.health == if s.events == [] then Health(Disabled, None) else s.events[|s.events| - 1].health
  }

  /** No policy is reported as loaded with the health that was reported before it. */
  ghost predicate NewsOnly(events: seq<Event>) {
    forall i :: 0 < i < |events| && events[i].kind == Loaded ==> events[i].health != events[i - 1].health
  }

  lemma NextUpToDate(s: State, step: Step)
    requires UpToDate(s)
    ensures UpToDate(Next(s, step))
  {
  }

  lemma NextNews(s: State, step: Step)
    requires s.activated && UpToDate(s) && NewsOnly(s.events)
    ensures Next(s, step).activated && NewsOnly(Next(s, step).events)
  {
    var n := Next(s, step);
    assert n.events == s.events || (n.events == s.events + [n.events[|s.events|]]
             && (n.events[|s.events|].kind == Loaded ==> n.events[|s.events|].health != s.health));
  }

  /** In every run the last event that was reported tells the health of an activated loader, and a
      loader that was opened active never reports an unchanged policy again. */
  lemma {:induction false} EventsTellTheHealth(activated: bool, first: Option<Digest>, steps: seq<Step>)
    ensures UpToDate(Final(Opened(activated, first), steps))
    ensures activated ==> Final(Opened(activated, first), steps).activated && NewsOnly(Final(Opened(activated, first), steps).events)
  {
    if steps == [] {
      NextUpToDate(InitialState(activated), Reload(Read(first)));
      if activated { NextNews(InitialState(activated), Reload(Read(first))); }
    } else {
      var before := Final(Opened(activated, first), steps[..|steps| - 1]);
      EventsTellTheHealth(activated, first, steps[..|steps| - 1]);
      NextUpToDate(before, steps[|steps| - 1]);
      if activated { NextNews(before, steps[|steps| - 1]); }
    }
  }

  /** What the next reload adds to the events of an activated loader: a failure when the file cannot be
      used; a recovery when it can and the load before it failed; and otherwise the policy, if it or the
      health is new. */
  lemma ReloadReports(activated: bool, first: Option<Digest>, steps: seq<Step>, outcome: Outcome)
    requires Final(Opened(activated, first), steps).activated
    ensures var s, n := Final(Opened(activated, first), steps), Final(Opened(activated, first), steps + [Reload(outcome)]);
            match outcome
            case Unusable => n.events == s.events + [Event(Failure, Health(Degraded, s.active))]
            case Read(policy) =>
              var health := Health(if policy.Some? then Healthy else Disabled, policy);
              if LastFailed(steps) then n.events == s.events + [Event(Recovery, health)] && n.recoveries == s.recoveries + 1
              else n.events == (if health == s.health then s.events else s.events + [Event(Loaded, health)]) && n.recoveries == s.recoveries
  {
    var all := steps + [Reload(outcome)];
    assert all[..|all| - 1] == steps && all[|all| - 1] == Reload(outcome);
    RecoveriesFollowFailures(activated, first, steps);
  }

  /** An activation reports a recovery when a degraded predecessor or a failed load before it is made
      good by a usable policy, and the policy otherwise. */
  lemma ActivationReports(s: State, previousDegraded: bool)
    requires !s.activated && s.health.digest == s.active
    ensures var n := Next(s, Activation(previousDegraded));
            && n.activated && n.active == s.active && n.health == s.health
            && n.events == s.events + [Event(if (previousDegraded || s.recoveryPending) && s.health.condition != Degraded then Recovery else Loaded, s.health)]
            && Next(n, Activation(previousDegraded)) == n
  {
  }
}
