/**
 The fault-injection harness: per-rule counters and an active set decide which
 rule, if any, answers an observation.
 */
module FaultProfiles {
  import opened Prelude

  datatype Trigger = Trigger(ordinal: Option<nat>, prerequisite: Option<string>)

  datatype Persistence = Persistence(cap: Option<nat>, until: Option<string>)

  /** The outcome kinds the adapters know, and any other one. */
  datatype OutcomeKind =
    | ReturnError | TerminateTestProcess | LoseResponse | ReturnUnknown | UserCancel
    | MutateOutput | MutateVerificationResult | UseBoundFixture | UseBoundCandidateOrder
    | SetBudgetExhausted | OtherKind(name: string)

  datatype Outcome = Outcome(
    kind: OutcomeKind,
    safeCode: Option<string>,
    certainty: Option<string>,
    applyEffectFirst: bool,
    payload: map<string, string>)

  datatype Recovery = Recovery(kind: string, checkpoint: string, maxRestarts: Option<nat>)

  datatype Rule = Rule(
    id: string,
    boundary: string,
    connector: Option<string>,
    operations: seq<string>,
    trigger: Trigger,
    outcome: Outcome,
    persistence: Persistence,
    recovery: Recovery)

  datatype Profile = Profile(name: string, mode: string, rules: seq<Rule>)

  datatype Observation = Observation(
    caseId: string,
    boundary: string,
    connector: Option<string>,
    operation: Option<string>,
    checkpoints: set<string>)

  datatype Directive = Directive(
    profileName: string,
    mode: string,
    ruleId: string,
    outcome: Outcome,
    recovery: Recovery,
    injectionNumber: nat)

  /** What the loader accepts: ordinals and caps are positive, rule ids are unique. */
  predicate ValidProfile(profile: Profile) {
    && (forall k | 0 <= k < |profile.rules| :: ValidRule(profile.rules[k]))
    && (forall i, j | 0 <= i < j < |profile.rules| :: profile.rules[i].id != profile.rules[j].id)
  }

  predicate ValidRule(rule: Rule) {
    && (rule.trigger.ordinal.Some? ==> rule.trigger.ordinal.value >= 1)
    && (rule.persistence.cap.Some? ==> rule.persistence.cap.value >= 1)
  }

  predicate Matches(rule: Rule, o: Observation) {
    && rule.boundary == o.boundary
    && (rule.connector.None? || rule.connector == o.connector)
    && o.operation.Some? && o.operation.value in rule.operations
    && (rule.trigger.prerequisite.None? || rule.trigger.prerequisite.value in o.checkpoints)
  }

  /** The observation carries the rule's until-checkpoint. */
  predicate Lifts(rule: Rule, o: Observation) {
    rule.persistence.until.Some? && rule.persistence.until.value in o.checkpoints
  }

  /** The harness's three fields. */
  datatype Tally = Tally(matches: map<string, nat>, injections: map<string, nat>, active: set<string>)

  const NO_TALLY := Tally(map[], map[], {})

  function Count(counts: map<string, nat>, id: string): nat {
    if id in counts then counts[id] else 0
  }

  function DirectiveOf(profile: Profile, rule: Rule, number: nat): Directive {
    Directive(profile.name, profile.mode, rule.id, rule.outcome, rule.recovery, number)
  }

  /** One pass of the loop in `observe` for a rule that matches: the new fields, and the
      injection number if it answers. */
  function Consider(rule: Rule, t: Tally, o: Observation): (Tally, Option<nat>) {
    if Lifts(rule, o) then (t.(active := t.active - {rule.id}), None)
    else
      var matched := Count(t.matches, rule.id) + 1;
      var t := t.(matches := t.matches[rule.id := matched]);
      var injected := Count(t.injections, rule.id);
      if rule.id !in t.active && rule.trigger.ordinal.Some? && matched != rule.trigger.ordinal.value then (t, None)
      else if rule.persistence.cap.Some? && injected >= rule.persistence.cap.value then (t, None)
      else
        var active := if rule.persistence.until.Some? then t.active + {rule.id} else t.active;
        (t.(active := active, injections := t.injections[rule.id := injected + 1]), Some(injected + 1))
  }

  /** The loop of `observe` from rule `k` on. */
  function ObserveFrom(profile: Profile, k: nat, t: Tally, o: Observation): (Tally, Option<Directive>)
    requires k <= |profile.rules|
    decreases |profile.rules| - k
  {
    if k == |profile.rules| then (t, None)
    else
      var rule := profile.rules[k];
      if !Matches(rule, o) then ObserveFrom(profile, k + 1, t, o)
      else
        var (t', number) := Consider(rule, t, o);
        if number.Some? then (t', Some(DirectiveOf(profile, rule, number.value)))
        else ObserveFrom(profile, k + 1, t', o)
  }

  function Observed(profile: Profile, caseId: string, t: Tally, o: Observation): (Tally, Option<Directive>) {
    if o.caseId != caseId then (t, None) else ObserveFrom(profile, 0, t, o)
  }

  class FaultHarness {
    const caseId: string
    const profile: Profile
    var matchCounts: map<string, nat>
    var injectionCounts: map<string, nat>
    var activeRules: set<string>

    constructor (caseId: string, profile: Profile)
      ensures this.caseId == caseId && this.profile == profile && Fields() == NO_TALLY
    {
      this.caseId, this.profile := caseId, profile;
      matchCounts, injectionCounts, activeRules := map[], map[], {};
    }

    function Fields(): Tally
      reads this
    {
      Tally(matchCounts, injectionCounts, activeRules)
    }

    method Observe(o: Observation) returns (directive: Option<Directive>)
      modifies this
      ensures (Fields(), directive) == Observed(profile, caseId, old(Fields()), o)
    {
      if o.caseId != caseId {
        return None;
      }
      for k := 0 to |profile.rules|
        invariant ObserveFrom(profile, k, Fields(), o) == ObserveFrom(profile, 0, old(Fields()), o)
      {
        var rule := profile.rules[k];
        if !Matches(rule, o) {
          continue;
        }
        if Lifts(rule, o) {
          activeRules := activeRules - {rule.id};
          continue;
        }
        var matched := Count(matchCounts, rule.id) + 1;
        matchCounts := matchCounts[rule.id := matched];
        var active := rule.id in activeRules;
        if !active && rule.trigger.ordinal.Some? && matched != rule.trigger.ordinal.value {
          continue;
        }
        var injected := Count(injectionCounts, rule.id);
        if rule.persistence.cap.Some? && injected >= rule.persistence.cap.value {
          continue;
        }
        if rule.persistence.until.Some? {
          activeRules := activeRules + {rule.id};
        }
        injected := injected + 1;
        injectionCounts := injectionCounts[rule.id := injected];
        return Some(DirectiveOf(profile, rule, injected));
      }
      return None;
    }
  }

  // ----- Runs

  function TallyAfter(profile: Profile, caseId: string, run: seq<Observation>): Tally {
    if run == [] then NO_TALLY
    else Observed(profile, caseId, TallyAfter(profile, caseId, run[..|run| - 1]), run[|run| - 1]).0
  }

  /** What the `n`-th observation of a run is answered. */
  function Answer(profile: Profile, caseId: string, run: seq<Observation>, n: nat): Option<Directive>
    requires n < |run|
  {
    Observed(profile, caseId, TallyAfter(profile, caseId, run[..n]), run[n]).1
  }

  predicate AnsweredBy(answer: Option<Directive>, rule: Rule) {
    answer.Some? && answer.value.ruleId == rule.id
  }

  // ----- What one rule sees of a run

  datatype Event = Ignored | Lifted | Counted

  /** A rule ignores what it does not match, what an earlier rule answers, and other cases. */
  function EventAt(profile: Profile, caseId: string, run: seq<Observation>, k: nat, n: nat): Event
    requires k < |profile.rules| && n < |run|
  {
    var rule, o := profile.rules[k], run[n];
    if o.caseId != caseId || !Matches(rule, o)
       || (exists j | 0 <= j < k :: AnsweredBy(Answer(profile, caseId, run, n), profile.rules[j])) then Ignored
    else if Lifts(rule, o) then Lifted
    else Counted
  }

  function Events(profile: Profile, caseId: string, run: seq<Observation>, k: nat): seq<Event>
    requires k < |profile.rules|
  {
    seq(|run|, n requires 0 <= n < |run| => EventAt(profile, caseId, run, k, n))
  }

  function CountedIn(events: seq<Event>): nat {
    if events == [] then 0
    else CountedIn(events[..|events| - 1]) + if events[|events| - 1].Counted? then 1 else 0
  }

  /** No until-checkpoint was reached between the `ordinal`-th counted match and the end. */
  predicate Unlifted(events: seq<Event>, ordinal: nat) {
    forall j | 0 <= j < |events| && events[j].Lifted? :: CountedIn(events[..j]) < ordinal
  }

  /**
   When a rule answers its last event, and with which number, said without any
   counter of the harness: without an ordinal, every counted match up to the cap;
   with one, the ordinal-th counted match and, if the rule has an
   until-checkpoint, the counted matches that follow it with no such checkpoint
   in between, up to the cap.
   */
  function Fires(rule: Rule, events: seq<Event>): Option<nat> {
    var c := CountedIn(events);
    if events == [] || !events[|events| - 1].Counted? then None
    else
      var first := if rule.trigger.ordinal.Some? then rule.trigger.ordinal.value else 1;
      if c < first then None
      else
        var number := c - first + 1;
        if rule.trigger.ordinal.Some? && number > 1
            && (rule.persistence.until.None? || !Unlifted(events, first)) then None
        else if rule.persistence.cap.Some? && number > rule.persistence.cap.value then None
        else Some(number)
  }

  // ----- One rule by itself

  /** What the three fields say about one rule. */
  datatype Memory = Memory(matched: nat, injected: nat, active: bool)

  function Recall(t: Tally, id: string): Memory {
    Memory(Count(t.matches, id), Count(t.injections, id), id in t.active)
  }

  function React(rule: Rule, m: Memory, e: Event): (Memory, Option<nat>) {
    match e
    case Ignored => (m, None)
    case Lifted => (m.(active := false), None)
    case Counted =>
      var m := m.(matched := m.matched + 1);
      if !m.active && rule.trigger.ordinal.Some? && m.matched != rule.trigger.ordinal.value then (m, None)
      else if rule.persistence.cap.Some? && m.injected >= rule.persistence.cap.value then (m, None)
      else (m.(injected := m.injected + 1, active := m.active || rule.persistence.until.Some?), Some(m.injected + 1))
  }

  function MemoryAfter(rule: Rule, events: seq<Event>): Memory {
    if events == [] then Memory(0, 0, false)
    else React(rule, MemoryAfter(rule, events[..|events| - 1]), events[|events| - 1]).0
  }

  lemma UnliftedAppend(events: seq<Event>, e: Event, ordinal: nat)
    ensures Unlifted(events + [e], ordinal) <==>
            Unlifted(events, ordinal) && (e.Lifted? ==> CountedIn(events) < ordinal)
  {
    var all := events + [e];
    assert all[..|events|] == events && all[|events|] == e;
    forall j | 0 <= j < |events|
      ensures all[..j] == events[..j] && all[j] == events[j]
    {
    }
    if Unlifted(events, ordinal) && (e.Lifted? ==> CountedIn(events) < ordinal) {
      forall j | 0 <= j < |all| && all[j].Lifted?
        ensures CountedIn(all[..j]) < ordinal
      {
        assert j < |events| ==> all[..j] == events[..j] && events[j].Lifted?;
      }
    }
    if Unlifted(all, ordinal) {
      forall j | 0 <= j < |events| && events[j].Lifted?
        ensures CountedIn(events[..j]) < ordinal
      {
        assert all[j].Lifted?;
      }
    }
  }

  /** `n` counted matches answered, up to the cap. */
  function Capped(n: nat, cap: Option<nat>): nat {
    if cap.Some? && n > cap.value then cap.value else n
  }

  /** The memory of a rule with an ordinal: nothing before it, and as long as the rule is
      active a capped burst since. */
  ghost predicate RemembersBurst(rule: Rule, events: seq<Event>, m: Memory, o: nat) {
    var c := CountedIn(events);
    && m.matched == c
    && (c < o ==> m.injected == 0)
    && (m.active <==> rule.persistence.until.Some? && c >= o && Unlifted(events, o))
    && (m.active ==> m.injected == Capped(c - o + 1, rule.persistence.cap))
  }

  ghost predicate Remembers(rule: Rule, events: seq<Event>, m: Memory) {
    if rule.trigger.ordinal.None? then
      m.matched == CountedIn(events) && m.injected == Capped(CountedIn(events), rule.persistence.cap)
    else RemembersBurst(rule, events, m, rule.trigger.ordinal.value)
  }

  lemma CountedAppend(events: seq<Event>, e: Event)
    ensures CountedIn(events + [e]) == CountedIn(events) + if e.Counted? then 1 else 0
  {
    assert (events + [e])[..|events + [e]| - 1] == events;
  }

  lemma PlainRemembers(rule: Rule, events: seq<Event>, m: Memory, e: Event)
    requires ValidRule(rule) && Remembers(rule, events, m) && rule.trigger.ordinal.None?
    ensures Remembers(rule, events + [e], React(rule, m, e).0)
    ensures React(rule, m, e).1 == Fires(rule, events + [e])
  {
    CountedAppend(events, e);
  }

  lemma BurstRemembers(rule: Rule, events: seq<Event>, m: Memory, e: Event, o: nat)
    requires ValidRule(rule) && rule.trigger.ordinal == Some(o) && RemembersBurst(rule, events, m, o)
    ensures RemembersBurst(rule, events + [e], React(rule, m, e).0, o)
  {
    CountedAppend(events, e);
    UnliftedAppend(events, e, o);
    UnliftedBeforeOrdinal(events, o);
  }

  lemma BurstFires(rule: Rule, events: seq<Event>, m: Memory, e: Event, o: nat)
    requires ValidRule(rule) && rule.trigger.ordinal == Some(o) && RemembersBurst(rule, events, m, o)
    ensures React(rule, m, e).1 == Fires(rule, events + [e])
  {
    CountedAppend(events, e);
    UnliftedAppend(events, e, o);
    assert (events + [e])[|events + [e]| - 1] == e;
  }

  lemma ReactRemembers(rule: Rule, events: seq<Event>, m: Memory, e: Event)
    requires ValidRule(rule) && Remembers(rule, events, m)
    ensures Remembers(rule, events + [e], React(rule, m, e).0)
    ensures React(rule, m, e).1 == Fires(rule, events + [e])
  {
    match rule.trigger.ordinal {
      case None =>
        PlainRemembers(rule, events, m, e);
      case Some(o) =>
        BurstRemembers(rule, events, m, e, o);
        BurstFires(rule, events, m, e, o);
    }
  }

  lemma {:induction false} CountedPrefix(events: seq<Event>, j: nat)
    requires j <= |events|
    ensures CountedIn(events[..j]) <= CountedIn(events)
  {
    if j < |events| {
      CountedPrefix(events[..|events| - 1], j);
      assert events[..|events| - 1][..j] == events[..j];
    } else {
      assert events[..j] == events;
    }
  }

  lemma UnliftedBeforeOrdinal(events: seq<Event>, ordinal: nat)
    ensures CountedIn(events) < ordinal ==> Unlifted(events, ordinal)
  {
    if CountedIn(events) < ordinal {
      forall j | 0 <= j < |events| && events[j].Lifted?
        ensures CountedIn(events[..j]) < ordinal
      {
        CountedPrefix(events, j);
      }
    }
  }

  lemma {:induction false} MemoryRemembers(rule: Rule, events: seq<Event>)
    requires ValidRule(rule)
    ensures Remembers(rule, events, MemoryAfter(rule, events))
  {
    if events != [] {
      var init := events[..|events| - 1];
      MemoryRemembers(rule, init);
      ReactRemembers(rule, init, MemoryAfter(rule, init), events[|events| - 1]);
      assert init + [events[|events| - 1]] == events;
    }
  }

  // ----- Each rule of a profile behaves as it would by itself on what it sees

  ghost predicate SeesAs(profile: Profile, o: Observation, answer: Option<Directive>, k: nat, e: Event)
    requires k < |profile.rules|
  {
    var rule := profile.rules[k];
    e == if !Matches(rule, o) || (exists j | 0 <= j < k :: AnsweredBy(answer, profile.rules[j])) then Ignored
         else if Lifts(rule, o) then Lifted
         else Counted
  }

  lemma ConsiderReacts(rule: Rule, t: Tally, o: Observation, id: string)
    requires Matches(rule, o)
    ensures var (t', number) := Consider(rule, t, o);
            var (m, fired) := React(rule, Recall(t, rule.id), if Lifts(rule, o) then Lifted else Counted);
            && Recall(t', rule.id) == m && number == fired
            && (id != rule.id ==> Recall(t', id) == Recall(t, id))
  {
  }

  /** The effect of one observation on rule `k`, and whether rule `k` answers it. */
  lemma {:induction false} ObserveReacts(profile: Profile, from: nat, t: Tally, o: Observation, k: nat, e: Event)
    requires ValidProfile(profile) && from <= |profile.rules| && k < |profile.rules|
    requires SeesAs(profile, o, ObserveFrom(profile, from, t, o).1, k, e)
    ensures var (t', answer) := ObserveFrom(profile, from, t, o);
            var rule := profile.rules[k];
            if k < from then Recall(t', rule.id) == Recall(t, rule.id) && !AnsweredBy(answer, rule)
            else
              && Recall(t', rule.id) == React(rule, Recall(t, rule.id), e).0
              && (AnsweredBy(answer, rule) <==> React(rule, Recall(t, rule.id), e).1.Some?)
              && (AnsweredBy(answer, rule) ==>
                    answer.value == DirectiveOf(profile, rule, React(rule, Recall(t, rule.id), e).1.value))
    decreases |profile.rules| - from
  {
    if from < |profile.rules| {
      var rule := profile.rules[from];
      if !Matches(rule, o) {
        ObserveReacts(profile, from + 1, t, o, k, e);
      } else {
        var (t', number) := Consider(rule, t, o);
        ConsiderReacts(rule, t, o, profile.rules[k].id);
        if number.None? {
          ObserveReacts(profile, from + 1, t', o, k, e);
          forall j | 0 <= j < |profile.rules| && AnsweredBy(ObserveFrom(profile, from + 1, t', o).1, profile.rules[j])
            ensures j > from
          {
            AnswerIsLater(profile, from + 1, t', o, j);
          }
        } else {
          assert AnsweredBy(ObserveFrom(profile, from, t, o).1, profile.rules[from]);
        }
      }
    }
  }

  /** Whoever answers is a rule that matches and stands at or after the start of the loop. */
  lemma {:induction false} AnswerIsLater(profile: Profile, from: nat, t: Tally, o: Observation, j: nat)
    requires ValidProfile(profile) && from <= |profile.rules| && j < |profile.rules|
    requires AnsweredBy(ObserveFrom(profile, from, t, o).1, profile.rules[j])
    ensures j >= from && Matches(profile.rules[j], o)
    decreases |profile.rules| - from
  {
    if from < |profile.rules| {
      var rule := profile.rules[from];
      if Matches(rule, o) {
        var (t', number) := Consider(rule, t, o);
        if number.None? {
          AnswerIsLater(profile, from + 1, t', o, j);
        }
      } else {
        AnswerIsLater(profile, from + 1, t, o, j);
      }
    }
  }

  lemma TallyStep(profile: Profile, caseId: string, run: seq<Observation>, n: nat)
    requires n < |run|
    ensures TallyAfter(profile, caseId, run[..n + 1]) ==
            Observed(profile, caseId, TallyAfter(profile, caseId, run[..n]), run[n]).0
  {
    assert run[..n + 1][..n] == run[..n];
  }

  lemma EventsPrefix(profile: Profile, caseId: string, run: seq<Observation>, k: nat, n: nat)
    requires k < |profile.rules| && n < |run|
    ensures Events(profile, caseId, run, k)[..n + 1] == Events(profile, caseId, run, k)[..n]
            + [EventAt(profile, caseId, run, k, n)]
  {
  }

  /** After `n` observations the fields hold, for each rule, what the rule by itself remembers of its events. */
  lemma {:induction false} RunReacts(profile: Profile, caseId: string, run: seq<Observation>, k: nat, n: nat)
    requires ValidProfile(profile) && k < |profile.rules| && n <= |run|
    ensures Recall(TallyAfter(profile, caseId, run[..n]), profile.rules[k].id) ==
            MemoryAfter(profile.rules[k], Events(profile, caseId, run, k)[..n])
  {
    if n > 0 {
      RunReacts(profile, caseId, run, k, n - 1);
      TallyStep(profile, caseId, run, n - 1);
      EventsPrefix(profile, caseId, run, k, n - 1);
      var events := Events(profile, caseId, run, k);
      assert events[..n][..n - 1] == events[..n - 1];
      if run[n - 1].caseId == caseId {
        ObserveReacts(profile, 0, TallyAfter(profile, caseId, run[..n - 1]), run[n - 1], k,
            EventAt(profile, caseId, run, k, n - 1));
      }
    }
  }

  /**
   Over every run, rule `k` answers the `n`-th observation exactly when its
   trigger, its until-checkpoint and its cap say so, and with that number.
   */
  lemma FiresInOneBurst(profile: Profile, caseId: string, run: seq<Observation>, k: nat, n: nat)
    requires ValidProfile(profile) && k < |profile.rules| && n < |run|
    ensures var answer, rule := Answer(profile, caseId, run, n), profile.rules[k];
            var fires := Fires(rule, Events(profile, caseId, run, k)[..n + 1]);
            && (AnsweredBy(answer, rule) <==> fires.Some?)
            && (fires.Some? ==> answer == Some(DirectiveOf(profile, rule, fires.value)))
  {
    var rule, events := profile.rules[k], Events(profile, caseId, run, k);
    RunReacts(profile, caseId, run, k, n);
    EventsPrefix(profile, caseId, run, k, n);
    MemoryRemembers(rule, events[..n]);
    ReactRemembers(rule, events[..n], MemoryAfter(rule, events[..n]), events[n]);
    if run[n].caseId == caseId {
      ObserveReacts(profile, 0, TallyAfter(profile, caseId, run[..n]), run[n], k, events[n]);
    }
  }

  /** Between two answers of a rule with an ordinal, every counted match is answered and no
      until-checkpoint is reached. */
  lemma BurstIsContiguous(profile: Profile, caseId: string, run: seq<Observation>, k: nat, first: nat, n: nat,
      last: nat)
    requires ValidProfile(profile) && k < |profile.rules| && first < n < last < |run|
    requires profile.rules[k].trigger.ordinal.Some?
    requires AnsweredBy(Answer(profile, caseId, run, first), profile.rules[k])
    requires AnsweredBy(Answer(profile, caseId, run, last), profile.rules[k])
    ensures var event := EventAt(profile, caseId, run, k, n);
            !event.Lifted? && (event.Counted? <==> AnsweredBy(Answer(profile, caseId, run, n), profile.rules[k]))
  {
    FiresInOneBurst(profile, caseId, run, k, first);
    FiresInOneBurst(profile, caseId, run, k, n);
    FiresInOneBurst(profile, caseId, run, k, last);
    var all := Events(profile, caseId, run, k)[..last + 1];
    assert all[..n + 1] == Events(profile, caseId, run, k)[..n + 1];
    assert all[..first + 1] == Events(profile, caseId, run, k)[..first + 1];
    FiresContiguously(profile.rules[k], all, first, n);
  }

  lemma FiresContiguously(rule: Rule, events: seq<Event>, first: nat, n: nat)
    requires rule.trigger.ordinal.Some? && first < n < |events| - 1
    requires Fires(rule, events[..first + 1]).Some? && Fires(rule, events).Some?
    ensures !events[n].Lifted? && (events[n].Counted? <==> Fires(rule, events[..n + 1]).Some?)
  {
    var ordinal := rule.trigger.ordinal.value;
    CountedPrefix(events[..n], first + 1);
    assert events[..n][..first + 1] == events[..first + 1];
    CountedPrefix(events[..|events| - 1], n + 1);
    assert events[..|events| - 1][..n + 1] == events[..n + 1];
    assert events[..n + 1][..n] == events[..n];
    assert Unlifted(events, ordinal);
    assert Unlifted(events[..n + 1], ordinal) by {
      assert forall j | 0 <= j <= n :: events[..n + 1][..j] == events[..j] && events[..n + 1][j] == events[j];
    }
  }

  /** Successive answers of a rule carry the numbers 1, 2, 3, ... and none exceeds the cap. */
  lemma NumbersAreConsecutive(profile: Profile, caseId: string, run: seq<Observation>, k: nat, n: nat)
    requires ValidProfile(profile) && k < |profile.rules| && n < |run|
    requires AnsweredBy(Answer(profile, caseId, run, n), profile.rules[k])
    ensures var rule := profile.rules[k];
            && Answer(profile, caseId, run, n).value.injectionNumber == |Answered(profile, caseId, run, rule, n)| + 1
            && (rule.persistence.cap.Some? ==>
                Answer(profile, caseId, run, n).value.injectionNumber <= rule.persistence.cap.value)
  {
    FiresInOneBurst(profile, caseId, run, k, n);
    AnsweredCount(profile, caseId, run, k, n);
    RunReacts(profile, caseId, run, k, n);
    EventsPrefix(profile, caseId, run, k, n);
    var rule, events := profile.rules[k], Events(profile, caseId, run, k);
    MemoryRemembers(rule, events[..n]);
    ReactRemembers(rule, events[..n], MemoryAfter(rule, events[..n]), events[n]);
  }

  /** The positions before `n` that the rule answered. */
  function Answered(profile: Profile, caseId: string, run: seq<Observation>, rule: Rule, n: nat): seq<nat>
    requires n <= |run|
  {
    if n == 0 then []
    else Answered(profile, caseId, run, rule, n - 1)
         + if AnsweredBy(Answer(profile, caseId, run, n - 1), rule) then [n - 1] else []
  }

  lemma {:induction false} AnsweredCount(profile: Profile, caseId: string, run: seq<Observation>, k: nat, n: nat)
    requires ValidProfile(profile) && k < |profile.rules| && n <= |run|
    ensures var rule := profile.rules[k];
            |Answered(profile, caseId, run, rule, n)| ==
                MemoryAfter(rule, Events(profile, caseId, run, k)[..n]).injected
  {
    if n > 0 {
      var rule, events := profile.rules[k], Events(profile, caseId, run, k);
      AnsweredCount(profile, caseId, run, k, n - 1);
      FiresInOneBurst(profile, caseId, run, k, n - 1);
      EventsPrefix(profile, caseId, run, k, n - 1);
      MemoryRemembers(rule, events[..n - 1]);
      ReactRemembers(rule, events[..n - 1], MemoryAfter(rule, events[..n - 1]), events[n - 1]);
      assert events[..n][..n - 1] == events[..n - 1];
    }
  }

  // ----- Independence

  /** No observation matches two rules. */
  ghost predicate Disjoint(profile: Profile) {
    forall o: Observation, i, j | 0 <= i < j < |profile.rules| ::
        !(Matches(profile.rules[i], o) && Matches(profile.rules[j], o))
  }

  function Alone(profile: Profile, k: nat): Profile
    requires k < |profile.rules|
  {
    profile.(rules := [profile.rules[k]])
  }

  lemma EventsAlone(profile: Profile, caseId: string, run: seq<Observation>, k: nat)
    requires ValidProfile(profile) && Disjoint(profile) && k < |profile.rules|
    ensures Events(profile, caseId, run, k) == Events(Alone(profile, k), caseId, run, 0)
  {
    forall n | 0 <= n < |run|
      ensures EventAt(profile, caseId, run, k, n) == EventAt(Alone(profile, k), caseId, run, 0, n)
    {
      forall j | 0 <= j < k && run[n].caseId == caseId && Matches(profile.rules[k], run[n])
        ensures !AnsweredBy(Answer(profile, caseId, run, n), profile.rules[j])
      {
        if AnsweredBy(Answer(profile, caseId, run, n), profile.rules[j]) {
          AnswerIsLater(profile, 0, TallyAfter(profile, caseId, run[..n]), run[n], j);
        }
      }
    }
  }

  /** Rules that cannot match the same observation do not influence each other: each answers
      as in a harness of its own. */
  lemma RulesAreIndependent(profile: Profile, caseId: string, run: seq<Observation>, k: nat, n: nat)
    requires ValidProfile(profile) && Disjoint(profile) && k < |profile.rules| && n < |run|
    ensures var answer, alone := Answer(profile, caseId, run, n), Answer(Alone(profile, k), caseId, run, n);
            alone == if AnsweredBy(answer, profile.rules[k]) then answer else None
  {
    EventsAlone(profile, caseId, run, k);
    FiresInOneBurst(profile, caseId, run, k, n);
    FiresInOneBurst(Alone(profile, k), caseId, run, 0, n);
    var single := Alone(profile, k);
    if Answer(single, caseId, run, n).Some? {
      OnlyRuleAnswers(single, TallyAfter(single, caseId, run[..n]), run[n]);
    }
  }

  lemma OnlyRuleAnswers(profile: Profile, t: Tally, o: Observation)
    requires |profile.rules| == 1 && ObserveFrom(profile, 0, t, o).1.Some?
    ensures AnsweredBy(ObserveFrom(profile, 0, t, o).1, profile.rules[0])
  {
  }

  /** The observations of one case, in order. */
  function OfCase(run: seq<Observation>, caseId: string): seq<Observation> {
    if run == [] then []
    else OfCase(run[..|run| - 1], caseId) + if run[|run| - 1].caseId == caseId then [run[|run| - 1]] else []
  }

  lemma {:induction false} OtherCasesLeaveNoTrace(profile: Profile, caseId: string, run: seq<Observation>)
    ensures TallyAfter(profile, caseId, run) == TallyAfter(profile, caseId, OfCase(run, caseId))
  {
    if run != [] {
      var init, o := run[..|run| - 1], run[|run| - 1];
      OtherCasesLeaveNoTrace(profile, caseId, init);
      if o.caseId == caseId {
        var own := OfCase(run, caseId);
        assert own == OfCase(init, caseId) + [o];
        assert own[..|own| - 1] == OfCase(init, caseId) && own[|own| - 1] == o;
      } else {
        assert OfCase(run, caseId) == OfCase(init, caseId);
      }
    }
  }

  /** Deleting every observation of another case changes no answer; those observations get none. */
  lemma OtherCasesChangeNothing(profile: Profile, caseId: string, run: seq<Observation>, n: nat)
    requires n < |run|
    ensures if run[n].caseId != caseId then Answer(profile, caseId, run, n).None?
            else
              var own, position := OfCase(run, caseId), |OfCase(run[..n], caseId)|;
              position < |own| && own[position] == run[n]
                  && Answer(profile, caseId, run, n) == Answer(profile, caseId, own, position)
  {
    if run[n].caseId == caseId {
      OtherCasesLeaveNoTrace(profile, caseId, run[..n]);
      assert run[..n + 1][..n] == run[..n];
      assert OfCase(run[..n + 1], caseId) == OfCase(run[..n], caseId) + [run[n]];
      OfCasePrefix(run, caseId, n + 1);
      var own, position := OfCase(run, caseId), |OfCase(run[..n], caseId)|;
      assert own[..position] == OfCase(run[..n], caseId);
    }
  }

  lemma {:induction false} OfCasePrefix(run: seq<Observation>, caseId: string, n: nat)
    requires n <= |run|
    ensures OfCase(run[..n], caseId) <= OfCase(run, caseId)
  {
    if n == |run| {
      assert run[..n] == run;
    } else {
      OfCasePrefix(run[..|run| - 1], caseId, n);
      assert run[..|run| - 1][..n] == run[..n];
    }
  }
}
