/**
 Writes through the fault adapter: the harness is asked first, and the directive
 it gives decides whether the provider runs before the fault, during it, or not
 at all.
 */
module FaultAdapters {
  import opened Prelude
  import F = FaultProfiles
  import P = StatefulProvider

  /** A safe code, or the outcome kind in its place. */
  datatype Code = Safe(code: string) | Kind(kind: F.OutcomeKind)

  datatype Injected = Injected(code: Option<Code>, certainty: Option<string>, outcomeKind: F.OutcomeKind)

  /** What a write can raise. */
  datatype Failure =
    | ByProvider(failure: P.Failure)
    | InjectedFault(injected: Injected)
    | CallbackMissing
    | MutationInvalid
    | CandidatesInvalid
    | OutcomeUnsupported

  /** What a write can return; `Altered` is the provider's result without its first field. */
  datatype Reply =
    | Lost(injected: Injected)
    | Delivered(key: P.Key, item: P.Item)
    | Altered(key: P.Key, item: P.Item)
    | FixtureBound
    | BudgetStopped(reason: Option<string>, requiredFactObserved: bool)

  datatype Record = Record(
    caseId: string,
    profileName: string,
    mode: string,
    ruleId: string,
    boundary: string,
    connector: Option<string>,
    operation: string,
    outcomeKind: F.OutcomeKind,
    safeCode: Option<string>,
    injectionNumber: nat,
    delegateCalled: bool,
    effectApplied: bool,
    successVisible: bool)

  /** The fixed parts of an adapter: its case, its profile, and which callbacks it was given. */
  datatype Config = Config(caseId: string, profile: F.Profile, terminator: bool, cancel: bool, fixture: bool)

  datatype World = World(tally: F.Tally, provider: P.State, records: seq<Record>)

  datatype Request = Request(call: P.Call, checkpoints: set<string>)

  // ----- Connector, boundary and observation of a write

  function Prefix(tool: string): string {
    if tool == [] || tool[0] == '_' then [] else [tool[0]] + Prefix(tool[1..])
  }

  /** The tool's id. */
  function Name(tool: P.Tool): string {
    match tool
    case TasksCreateTask => "tasks_create_task"
    case TasksUpdateTask => "tasks_update_task"
    case CalendarCreateEvent => "calendar_create_event"
    case CalendarUpdateEvent => "calendar_update_event"
    case GmailCreateDraft => "gmail_create_draft"
    case GmailUpdateDraft => "gmail_update_draft"
    case TasksGetTask => "tasks_get_task"
    case CalendarGetEvent => "calendar_get_event"
    case GmailGetDraft => "gmail_get_draft"
    case GmailGetThread => "gmail_get_thread"
    case SearchByRecoveryFingerprint => "search_by_recovery_fingerprint"
    case Other(name) => name
  }

  function ConnectorForTool(tool: P.Tool): string {
    var prefix := Prefix(Name(tool));
    if prefix == "calendar" then "calendar" else if prefix == "tasks" then "tasks" else "gmail"
  }

  const DEFAULT_BOUNDARY := "CONNECTOR_PRE_DISPATCH"

  predicate NamesWrite(rule: F.Rule, connector: string, operation: string) {
    rule.connector == Some(connector) && operation in rule.operations
  }

  /** `_write_boundary`: the boundary of the first rule that names the connector and the operation. */
  function WriteBoundary(rules: seq<F.Rule>, connector: string, operation: string): string {
    if rules == [] then DEFAULT_BOUNDARY
    else if NamesWrite(rules[0], connector, operation) then rules[0].boundary
    else WriteBoundary(rules[1..], connector, operation)
  }

  function ObservationOf(config: Config, r: Request): F.Observation {
    var connector := ConnectorForTool(r.call.tool);
    F.Observation(config.caseId, WriteBoundary(config.profile.rules, connector, Name(r.call.tool)), Some(connector),
        Some(Name(r.call.tool)), r.checkpoints)
  }

  // ----- The adapter

  predicate Mutates(kind: F.OutcomeKind) {
    kind.MutateOutput? || kind.MutateVerificationResult?
  }

  /** The outcome needs the provider's value, so it calls the provider itself if that has not happened. */
  predicate NeedsValue(kind: F.OutcomeKind) {
    Mutates(kind) || kind.UseBoundCandidateOrder?
  }

  /** The call reaches the provider. */
  predicate Delegates(directive: Option<F.Directive>) {
    directive.None? || directive.value.outcome.applyEffectFirst || NeedsValue(directive.value.outcome.kind)
  }

  function InjectedBy(outcome: F.Outcome): Injected {
    Injected(if outcome.safeCode.None? then None else Some(Safe(outcome.safeCode.value)),
             outcome.certainty, outcome.kind)
  }

  /** `InjectedFaultError` falls back to the outcome kind when there is no safe code. */
  function RaisedBy(outcome: F.Outcome): Injected {
    Injected(Some(if outcome.safeCode.None? || outcome.safeCode.value == "" then Kind(outcome.kind)
                  else Safe(outcome.safeCode.value)),
             outcome.certainty, outcome.kind)
  }

  function RecordOf(config: Config, r: Request, directive: F.Directive, delegateCalled: bool): Record {
    var o := ObservationOf(config, r);
    Record(config.caseId, directive.profileName, directive.mode, directive.ruleId, o.boundary, o.connector,
           Name(r.call.tool), directive.outcome.kind, directive.outcome.safeCode, directive.injectionNumber,
           delegateCalled, directive.outcome.applyEffectFirst, false)
  }

  /** The chain of outcome kinds, over payload values as text with false as the empty string; `value` is the
      provider's result for the kinds that need it. */
  function Conclude(config: Config, outcome: F.Outcome, value: Option<(P.Key, P.Item)>): Result<Reply, Failure>
    requires NeedsValue(outcome.kind) ==> value.Some?
  {
    match outcome.kind
    case ReturnError => Err(InjectedFault(RaisedBy(outcome)))
    case TerminateTestProcess => if config.terminator then Err(InjectedFault(RaisedBy(outcome)))
        else Err(CallbackMissing)
    case LoseResponse | ReturnUnknown => Ok(Lost(InjectedBy(outcome)))
    case UserCancel => if config.cancel then Ok(Lost(InjectedBy(outcome))) else Err(CallbackMissing)
    case MutateOutput | MutateVerificationResult =>
      // The provider's write result has a first field to drop, and no item to compare.
      if "mutation" in outcome.payload && outcome.payload["mutation"] == "REMOVE_ONE_SCHEMA_REQUIRED_FIELD"
      then Ok(Altered(value.value.0, value.value.1)) else Err(MutationInvalid)
    case UseBoundFixture => if config.fixture then Ok(FixtureBound) else Err(CallbackMissing)
    case UseBoundCandidateOrder => Err(CandidatesInvalid)
    case SetBudgetExhausted =>
      Ok(BudgetStopped(outcome.safeCode,
           "required_fact_observed" in outcome.payload && outcome.payload["required_fact_observed"] != ""))
    case OtherKind(_) => Err(OutcomeUnsupported)
  }

  /** `FaultApplyingAdapter.invoke` around the provider's write. */
  function Invoke(config: Config, w: World, r: Request): (World, Result<Reply, Failure>) {
    var (tally, directive) := F.Observed(config.profile, config.caseId, w.tally, ObservationOf(config, r));
    var (provider, result) := P.Write(w.provider, r.call);
    if directive.None? then
      (World(tally, provider, w.records),
       if result.Ok? then Ok(Delivered(result.value.0, result.value.1)) else Err(ByProvider(result.error)))
    else
      var d := directive.value;
      if d.outcome.applyEffectFirst then
        if result.Err? then (World(tally, provider, w.records), Err(ByProvider(result.error)))
        else (World(tally, provider, w.records + [RecordOf(config, r, d, true)]),
            Conclude(config, d.outcome, Some(result.value)))
      else if NeedsValue(d.outcome.kind) then
        if result.Err? then (World(tally, provider, w.records + [RecordOf(config, r, d, false)]),
            Err(ByProvider(result.error)))
        else (World(tally, provider, w.records + [RecordOf(config, r, d, true)]),
            Conclude(config, d.outcome, Some(result.value)))
      else (World(tally, w.provider, w.records + [RecordOf(config, r, d, false)]), Conclude(config, d.outcome, None))
  }

  /** `FaultInjectingConnectorAdapter.execute_write`: an injected error comes back as a result. */
  function ExecuteWrite(config: Config, w: World, r: Request): (World, Result<Reply, Failure>) {
    var (w', result) := Invoke(config, w, r);
    (w', if result.Err? && result.error.InjectedFault? then Ok(Lost(result.error.injected)) else result)
  }

  class FaultApplyingAdapter {
    const config: Config
    const harness: F.FaultHarness
    const provider: P.Provider
    var records: seq<Record>

    constructor (config: Config, harness: F.FaultHarness, provider: P.Provider)
      requires harness.caseId == config.caseId && harness.profile == config.profile && provider.Valid()
      ensures Valid() && this.config == config && this.harness == harness && this.provider == provider && records == []
    {
      this.config, this.harness, this.provider, this.records := config, harness, provider, [];
    }

    ghost predicate Valid()
      reads this, provider
    {
      harness.caseId == config.caseId && harness.profile == config.profile && provider.Valid()
    }

    function State(): World
      reads this, harness, provider
    {
      World(harness.Fields(), provider.Contents(), records)
    }

    /** `_write_boundary` scans the rules in order: the boundary is that of the first rule
        naming the write, or the default. */
    method FindBoundary(connector: string, operation: string) returns (boundary: string)
      ensures boundary == WriteBoundary(config.profile.rules, connector, operation)
      ensures (forall k | 0 <= k < |config.profile.rules| ::
              !NamesWrite(config.profile.rules[k], connector, operation)) ==>
                boundary == DEFAULT_BOUNDARY
      ensures forall k | 0 <= k < |config.profile.rules| && NamesWrite(config.profile.rules[k], connector, operation) &&
                (forall j | 0 <= j < k :: !NamesWrite(config.profile.rules[j], connector, operation)) ::
                  boundary == config.profile.rules[k].boundary
    {
      var rules := config.profile.rules;
      for k := 0 to |rules|
        invariant WriteBoundary(rules, connector, operation) == WriteBoundary(rules[k..], connector, operation)
        invariant forall j | 0 <= j < k :: !NamesWrite(rules[j], connector, operation)
      {
        if NamesWrite(rules[k], connector, operation) {
          return rules[k].boundary;
        }
        assert rules[k..][1..] == rules[k + 1..];
      }
      return DEFAULT_BOUNDARY;
    }

    method InvokeWrite(r: Request, boundary: string) returns (result: Result<Reply, Failure>)
      requires Valid() && boundary == ObservationOf(config, r).boundary
      modifies this, harness, provider
      ensures Valid() && (State(), result) == Invoke(config, old(State()), r)
    {
      var connector := ConnectorForTool(r.call.tool);
      var directive := harness.Observe(F.Observation(config.caseId, boundary, Some(connector), Some(Name(r.call.tool)),
          r.checkpoints));
      if directive.None? {
        var delivered := provider.ExecuteWrite(r.call);
        return if delivered.Ok? then Ok(Delivered(delivered.value.0, delivered.value.1))
            else Err(ByProvider(delivered.error));
      }
      var outcome := directive.value.outcome;
      var value: Option<(P.Key, P.Item)> := None;
      if outcome.applyEffectFirst {
        var applied := provider.ExecuteWrite(r.call);
        if applied.Err? {
          return Err(ByProvider(applied.error));
        }
        value := Some(applied.value);
      }
      if NeedsValue(outcome.kind) && value.None? {
        var applied := provider.ExecuteWrite(r.call);
        if applied.Err? {
          records := records + [RecordOf(config, r, directive.value, false)];
          return Err(ByProvider(applied.error));
        }
        value := Some(applied.value);
      }
      result := Conclude(config, outcome, value);
      records := records + [RecordOf(config, r, directive.value, value.Some?)];
    }

    method Write(r: Request) returns (result: Result<Reply, Failure>)
      requires Valid()
      modifies this, harness, provider
      ensures Valid() && (State(), result) == ExecuteWrite(config, old(State()), r)
    {
      var boundary := FindBoundary(ConnectorForTool(r.call.tool), Name(r.call.tool));
      result := InvokeWrite(r, boundary);
      if result.Err? && result.error.InjectedFault? {
        result := Ok(Lost(result.error.injected));
      }
    }
  }

  // ----- Each call

  function DirectiveFor(config: Config, w: World, r: Request): Option<F.Directive> {
    F.Observed(config.profile, config.caseId, w.tally, ObservationOf(config, r)).1
  }

  /** A call runs the provider once if its directive lets it through, and otherwise not at all. */
  lemma RunsProviderAtMostOnce(config: Config, w: World, r: Request)
    ensures var w' := ExecuteWrite(config, w, r).0;
            w'.provider == if Delegates(DirectiveFor(config, w, r)) then P.Write(w.provider, r.call).0 else w.provider
  {
  }

  /**
   A record's `effect_applied` flag tells the truth about the provider's effect
   unless the outcome calls the provider late and that write succeeds.
   */
  lemma EffectFlagTruthful(config: Config, w: World, r: Request)
    requires var w' := ExecuteWrite(config, w, r).0; |w'.records| > |w.records|
    ensures var w' := ExecuteWrite(config, w, r).0;
            var directive := DirectiveFor(config, w, r);
            var tool := r.call.tool;
            && directive.Some? && w'.records == w.records + [w'.records[|w.records|]]
            && var applied := P.Effects(w'.provider.effects, tool) == P.Effects(w.provider.effects, tool) + 1;
            (w'.records[|w.records|].effectApplied == applied <==>
              !(!directive.value.outcome.applyEffectFirst && NeedsValue(directive.value.outcome.kind)
                  && P.Write(w.provider, r.call).1.Ok?))
  {
    WriteEffect(w.provider, r.call);
  }

  /** The other flag tells the truth about the effect: a new record says `delegate_called`
      exactly if the effect count rose. */
  lemma DelegateFlagTracksEffect(config: Config, w: World, r: Request)
    requires var w' := ExecuteWrite(config, w, r).0; |w'.records| > |w.records|
    ensures var w' := ExecuteWrite(config, w, r).0;
            w'.records[|w.records|].delegateCalled <==>
              P.Effects(w'.provider.effects, r.call.tool) == P.Effects(w.provider.effects, r.call.tool) + 1
  {
    WriteEffect(w.provider, r.call);
  }

  /**
   About the call itself, which the flag is named after, it tells the truth unless the outcome calls the provider late
   and that write fails: the provider has then logged a call that the record denies.
   */
  lemma DelegateFlagTruthful(config: Config, w: World, r: Request)
    requires var w' := ExecuteWrite(config, w, r).0; |w'.records| > |w.records|
    ensures var w' := ExecuteWrite(config, w, r).0;
            var directive := DirectiveFor(config, w, r);
            && directive.Some?
            && var called := |w'.provider.writeCalls| == |w.provider.writeCalls| + 1;
            (w'.records[|w.records|].delegateCalled == called <==>
              !(!directive.value.outcome.applyEffectFirst && NeedsValue(directive.value.outcome.kind)
                  && P.Write(w.provider, r.call).1.Err?))
  {
    P.WriteCalls(w.provider, r.call);
  }

  // ----- Profiles whose records misreport

  /** A rule that mutates the output of one task tool. */
  function Mutating(tool: string): F.Rule {
    F.Rule("mutate-task", DEFAULT_BOUNDARY, Some("tasks"), [tool], F.Trigger(None, None),
           F.Outcome(F.MutateOutput, None, None, false, map["mutation" := "REMOVE_ONE_SCHEMA_REQUIRED_FIELD"]),
           F.Persistence(None, None), F.Recovery("NONE", "DONE", None))
  }

  function MutatingCase(tool: string): Config {
    Config("case", F.Profile("mutating", "SIMULATED_PROVIDER", [Mutating(tool)]), false, false, false)
  }

  const UNUSED := World(F.NO_TALLY, P.State(P.Store(map[], []), 0, [], map[]), [])

  const CREATE_IN_INBOX := Request(P.Call(P.TasksCreateTask, map["task_list_id" := P.Str("inbox")]), {})

  const UPDATE_MISSING :=
    Request(P.Call(P.TasksUpdateTask, map["task_id" := P.Str("gone"), "task_list_id" := P.Str("inbox")]), {})

  lemma {:induction false} PrefixEnds(head: string, rest: string)
    requires '_' !in head
    ensures Prefix(head + ['_'] + rest) == head
    decreases |head|
  {
    if head == [] {
    } else {
      assert (head + ['_'] + rest)[1..] == head[1..] + ['_'] + rest;
      PrefixEnds(head[1..], rest);
      assert head == [head[0]] + head[1..];
    }
  }

  /** A single rule that names the write and has no ordinal, cap or checkpoints answers the first write. */
  lemma SingleRuleAnswers(config: Config, w: World, r: Request, rule: F.Rule)
    requires config.profile.rules == [rule] && w.tally == F.NO_TALLY
    requires NamesWrite(rule, ConnectorForTool(r.call.tool), Name(r.call.tool))
    requires rule.trigger == F.Trigger(None, None) && rule.persistence == F.Persistence(None, None)
    ensures DirectiveFor(config, w, r) == Some(F.DirectiveOf(config.profile, rule, 1))
  {
    var o := ObservationOf(config, r);
    assert o.boundary == rule.boundary;
    assert F.Matches(rule, o);
    assert F.Consider(rule, F.NO_TALLY, o).1 == Some(1);
  }

  lemma MutatingNamesTheWrite(tool: P.Tool, rest: string)
    requires Name(tool) == "tasks" + ['_'] + rest
    ensures NamesWrite(Mutating(Name(tool)), ConnectorForTool(tool), Name(tool))
  {
    PrefixEnds("tasks", rest);
  }

  /** The case of a one-rule profile: its rule answers the first write with its only directive. */
  lemma MutatingAnswers(r: Request, rest: string)
    requires Name(r.call.tool) == "tasks" + ['_'] + rest
    ensures var config := MutatingCase(Name(r.call.tool));
            && F.ValidProfile(config.profile)
            && DirectiveFor(config, UNUSED, r) == Some(F.DirectiveOf(config.profile, Mutating(Name(r.call.tool)), 1))
  {
    MutatingNamesTheWrite(r.call.tool, rest);
    SingleRuleAnswers(MutatingCase(Name(r.call.tool)), UNUSED, r, Mutating(Name(r.call.tool)));
  }

  lemma CreateInInboxSucceeds()
    ensures P.Write(UNUSED.provider, CREATE_IN_INBOX.call).1.Ok?
  {
    assert |"task_id"| != |"task_list_id"| && |"inbox"| == 5;
  }

  lemma UpdateMissingFails()
    ensures P.Write(UNUSED.provider, UPDATE_MISSING.call).1.Err?
  {
  }

  /** The record of this first write denies an effect that the provider counts. */
  lemma EffectFlagCanLie()
    ensures var config := MutatingCase(Name(P.TasksCreateTask));
            var w' := ExecuteWrite(config, UNUSED, CREATE_IN_INBOX).0;
            && F.ValidProfile(config.profile) && P.ValidStore(UNUSED.provider.store)
            && |w'.records| == 1 && !w'.records[0].effectApplied && w'.records[0].delegateCalled
            && P.Effects(UNUSED.provider.effects, P.TasksCreateTask) == 0
            && P.Effects(w'.provider.effects, P.TasksCreateTask) == 1
  {
    assert Name(P.TasksCreateTask) == "tasks" + ['_'] + "create_task";
    MutatingAnswers(CREATE_IN_INBOX, "create_task");
    CreateInInboxSucceeds();
    WriteEffect(UNUSED.provider, CREATE_IN_INBOX.call);
  }

  /** The record of this first write denies a call that the provider has logged. */
  lemma DelegateFlagCanLie()
    ensures var config := MutatingCase(Name(P.TasksUpdateTask));
            var w' := ExecuteWrite(config, UNUSED, UPDATE_MISSING).0;
            && F.ValidProfile(config.profile) && P.ValidStore(UNUSED.provider.store)
            && |w'.records| == 1 && !w'.records[0].delegateCalled
            && |UNUSED.provider.writeCalls| == 0 && |w'.provider.writeCalls| == 1
  {
    assert Name(P.TasksUpdateTask) == "tasks" + ['_'] + "update_task";
    MutatingAnswers(UPDATE_MISSING, "update_task");
    UpdateMissingFails();
    P.WriteCalls(UNUSED.provider, UPDATE_MISSING.call);
  }

  lemma WriteEffect(p: P.State, c: P.Call)
    ensures var (p', result) := P.Write(p, c);
            P.Effects(p'.effects, c.tool) == P.Effects(p.effects, c.tool) + if result.Ok? then 1 else 0
  {
    if P.Write(p, c).1.Ok? {
      P.SuccessfulWriteIsItsEffect(p, c);
    } else {
      P.FailedWriteChangesNothing(p, c);
    }
  }

  // ----- Runs

  function WorldAfter(config: Config, start: World, run: seq<Request>): World {
    if run == [] then start
    else ExecuteWrite(config, WorldAfter(config, start, run[..|run| - 1]), run[|run| - 1]).0
  }

  /** The provider calls a run makes, in order. */
  function Delegated(config: Config, start: World, run: seq<Request>): seq<P.Call> {
    if run == [] then []
    else
      var before, r := WorldAfter(config, start, run[..|run| - 1]), run[|run| - 1];
      Delegated(config, start, run[..|run| - 1]) + if Delegates(DirectiveFor(config, before, r)) then [r.call] else []
  }

  /** Behind the adapter the provider sees exactly the delegated calls; everything proved
      about its runs applies to them. */
  lemma {:induction false} AdapterRunIsAProviderRun(config: Config, start: World, run: seq<Request>)
    ensures WorldAfter(config, start, run).provider == P.StateAfter(start.provider, Delegated(config, start, run))
  {
    if run != [] {
      var init, r := run[..|run| - 1], run[|run| - 1];
      AdapterRunIsAProviderRun(config, start, init);
      var before := WorldAfter(config, start, init);
      RunsProviderAtMostOnce(config, before, r);
      var calls := Delegated(config, start, init);
      if Delegates(DirectiveFor(config, before, r)) {
        assert (calls + [r.call])[..|calls|] == calls;
      } else {
        assert Delegated(config, start, run) == calls;
      }
    }
  }

  /** Over a run, effect counts are the delegated calls that succeeded, and the provider was called
      as often as calls were delegated. */
  lemma EffectsAreDelegatedSuccesses(config: Config, start: World, run: seq<Request>, tool: P.Tool)
    requires P.ValidStore(start.provider.store)
    ensures var end, calls := WorldAfter(config, start, run).provider, Delegated(config, start, run);
            && |calls| <= |run|
            && |end.writeCalls| == |start.provider.writeCalls| + |calls|
            && P.Effects(end.effects, tool) == P.Effects(start.provider.effects, tool)
                + P.ByTool(P.EffectLog(start.provider, calls), tool)
  {
    AdapterRunIsAProviderRun(config, start, run);
    P.RunCounts(start.provider, Delegated(config, start, run), tool);
    DelegatedAtMost(config, start, run);
  }

  lemma {:induction false} DelegatedAtMost(config: Config, start: World, run: seq<Request>)
    ensures |Delegated(config, start, run)| <= |run|
  {
    if run != [] {
      DelegatedAtMost(config, start, run[..|run| - 1]);
    }
  }

  // ----- Lost responses

  /** No stored resource contains the fingerprint. */
  ghost predicate Fresh(s: P.Store, fingerprint: string) {
    forall k | k in s.items :: !P.ItemContains(s.items[k], fingerprint)
  }

  lemma {:induction false} FreshHasNoHits(s: P.Store, order: seq<P.Key>, resourceType: string, parent: Option<string>,
      fingerprint: string)
    requires (forall k | k in order :: k in s.items && !P.ItemContains(s.items[k], fingerprint))
    ensures P.Hits(s, order, resourceType, parent, fingerprint) == []
  {
    if order != [] {
      FreshHasNoHits(s, order[..|order| - 1], resourceType, parent, fingerprint);
    }
  }

  /** The recovery search is asked for the created type, under the created parent, with the create's fingerprint. */
  ghost predicate AsksFor(search: P.Fields, parent: Option<string>, identity: P.Identity, fingerprint: string) {
    && "resource_type" in search && search["resource_type"] == P.Str(identity.resourceType)
    && P.TextArgument(search, "recovery_fingerprint") == Some(fingerprint)
    && P.RequiredParent(search, P.SearchParentKey(identity.resourceType)) == Ok(parent)
  }

  lemma SearchIsHits(s: P.Store, search: P.Fields, parent: Option<string>, identity: P.Identity, fingerprint: string)
    requires P.ValidStore(s) && P.Searchable(identity.resourceType) && AsksFor(search, parent, identity, fingerprint)
    ensures P.Search(s, search) == Ok(P.Views(s, P.Hits(s, s.order, identity.resourceType, parent, fingerprint)))
  {
  }

  lemma WrittenTypesAreSearchable(tool: P.Tool)
    requires P.WriteIdentity(tool).Some?
    ensures P.Searchable(P.WriteIdentity(tool).value.resourceType)
  {
  }

  predicate LosesResponse(directive: Option<F.Directive>) {
    directive.Some? && (directive.value.outcome.kind.LoseResponse? || directive.value.outcome.kind.ReturnUnknown?)
  }

  lemma LostReply(config: Config, w: World, r: Request)
    requires LosesResponse(DirectiveFor(config, w, r))
    ensures var (w', reply) := ExecuteWrite(config, w, r);
            var outcome := DirectiveFor(config, w, r).value.outcome;
            var written := P.Write(w.provider, r.call);
            && w'.provider == (if outcome.applyEffectFirst then written.0 else w.provider)
            && reply == if outcome.applyEffectFirst && written.1.Err? then Err(ByProvider(written.1.error))
                else Ok(Lost(InjectedBy(outcome)))
  {
  }

  /**
   A create whose response is lost: the caller gets no success in either case, and
   the recovery search finds exactly the created item if the effect came first,
   and nothing if it did not.
   */
  lemma LostCreateIsRecoverable(config: Config, w: World, r: Request, search: P.Fields, parent: Option<string>,
      fingerprint: string)
    requires P.ValidStore(w.provider.store) && P.IsCreate(r.call.tool) && P.WriteIdentity(r.call.tool).Some?
    requires var identity := P.WriteIdentity(r.call.tool).value;
             && P.RequiredParent(r.call.arguments, identity.parentKey) == Ok(parent)
             && AsksFor(search, parent, identity, fingerprint)
             && Fresh(w.provider.store, fingerprint)
             && P.ContainsValue(P.Obj(P.BusinessPayload(r.call.arguments, identity)), fingerprint)
    requires LosesResponse(DirectiveFor(config, w, r))
    ensures var (w', reply) := ExecuteWrite(config, w, r);
            var outcome := DirectiveFor(config, w, r).value.outcome;
            var created := P.Write(w.provider, r.call).1;
            && P.ValidStore(w'.provider.store)
            && reply == (if outcome.applyEffectFirst && created.Err? then Err(ByProvider(created.error))
                else Ok(Lost(InjectedBy(outcome))))
            && P.Search(w'.provider.store, search) ==
               Ok(if outcome.applyEffectFirst && created.Ok? then [P.ProjectItem(created.value.1)] else [])
  {
    var identity := P.WriteIdentity(r.call.tool).value;
    LostReply(config, w, r);
    if DirectiveFor(config, w, r).value.outcome.applyEffectFirst {
      WriteThenSearch(w.provider, r.call, identity, search, parent, fingerprint);
    } else {
      var store := w.provider.store;
      WrittenTypesAreSearchable(r.call.tool);
      SearchIsHits(store, search, parent, identity, fingerprint);
      FreshHasNoHits(store, store.order, identity.resourceType, parent, fingerprint);
      assert P.Views(store, []) == [];
    }
  }

  lemma WriteThenSearch(p: P.State, c: P.Call, identity: P.Identity, search: P.Fields, parent: Option<string>,
      fingerprint: string)
    requires P.ValidStore(p.store) && P.IsCreate(c.tool) && P.WriteIdentity(c.tool) == Some(identity)
    requires P.RequiredParent(c.arguments, identity.parentKey) == Ok(parent) && Fresh(p.store, fingerprint)
    requires AsksFor(search, parent, identity, fingerprint)
    requires P.ContainsValue(P.Obj(P.BusinessPayload(c.arguments, identity)), fingerprint)
    ensures var (p', created) := P.Write(p, c);
            && P.ValidStore(p'.store)
            && P.Search(p'.store, search) == Ok(if created.Ok? then [P.ProjectItem(created.value.1)] else [])
  {
    P.WriteKeepsValid(p, c);
    WrittenTypesAreSearchable(c.tool);
    var (p', created) := P.Write(p, c);
    SearchIsHits(p'.store, search, parent, identity, fingerprint);
    if created.Err? {
      P.FailedWriteChangesNothing(p, c);
      FreshHasNoHits(p.store, p.store.order, identity.resourceType, parent, fingerprint);
      assert P.Views(p'.store, []) == [];
    } else {
      P.SuccessfulWriteIsItsEffect(p, c);
      CreatedKey(p, c, identity, parent);
      AppendedIsTheOnlyHit(p.store, p'.store, created.value.0, fingerprint);
      ViewsOfFew(p'.store, created.value.0);
    }
  }

  lemma ViewsOfFew(s: P.Store, key: P.Key)
    requires key in s.items
    ensures P.Views(s, [key]) == [P.ProjectItem(s.items[key])]
  {
  }

  lemma CreatedKey(p: P.State, c: P.Call, identity: P.Identity, parent: Option<string>)
    requires P.IsCreate(c.tool) && P.WriteIdentity(c.tool) == Some(identity) && P.Write(p, c).1.Ok?
    requires P.RequiredParent(c.arguments, identity.parentKey) == Ok(parent)
    ensures var (key, item) := P.Write(p, c).1.value;
            && key.resourceType == identity.resourceType && key.parent == parent
            && item == P.NewItem(key, P.BusinessPayload(c.arguments, identity))
  {
  }

  lemma AppendedIsTheOnlyHit(before: P.Store, after: P.Store, key: P.Key, fingerprint: string)
    requires P.ValidStore(before) && P.ValidStore(after) && Fresh(before, fingerprint)
    requires key in after.items && P.ItemContains(after.items[key], fingerprint)
    requires after.order == before.order + [key] && after.items == before.items[key := after.items[key]]
             && key !in before.items
    ensures P.Hits(after, after.order, key.resourceType, key.parent, fingerprint) == [key]
  {
    assert after.order[..|before.order|] == before.order && after.order[..|after.order|] == after.order;
    assert forall k | k in before.order :: k in before.items && after.items[k] == before.items[k];
    FreshHasNoHits(after, before.order, key.resourceType, key.parent, fingerprint);
    P.HitsStep(after, after.order, |before.order|, key.resourceType, key.parent, fingerprint);
  }
}
