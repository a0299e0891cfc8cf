/** The in-memory provider that stands in for a live connector on fault paths. */
module StatefulProvider {
  import opened Prelude

  /** JSON-like values. */
  datatype Value =
    | Null
    | Flag(flag: bool)
    | Num(n: int)
    | Str(s: string)
    | Arr(items: seq<Value>)
    | Obj(fields: map<string, Value>)

  type Fields = map<string, Value>

  /** A stored resource; `version` and `payload` may be missing from an initial one, `extra` are its other fields. */
  datatype Item = Item(
    resourceType: string,
    resourceId: string,
    parentId: Value,
    version: Option<Value>,
    payload: Option<Value>,
    extra: Fields)

  datatype Key = Key(resourceType: string, parent: Option<string>, id: string)

  datatype Failure =
    | UnsupportedTool | UnsupportedType | IdentityInvalid | ParentRequired | FingerprintRequired
    | TargetExists | TargetMissing | PayloadInvalid | VersionInvalid | DuplicateIdentity

  datatype Identity = Identity(resourceType: string, idKey: string, parentKey: Option<string>)

  /** `_contains_value`: some string inside the value is the expected one. */
  predicate ContainsValue(v: Value, expected: string) {
    match v
    case Str(s) => s == expected
    case Arr(items) => exists x | x in items :: ContainsValue(x, expected)
    case Obj(fields) => exists k | k in fields :: ContainsValue(fields[k], expected)
    case _ => false
  }

  // ----- Version numerals

  function Digits(n: nat): (s: string)
    ensures s != []
  {
    if n < 10 then [(n as char) + '0'] else Digits(n / 10) + [((n % 10) as char) + '0']
  }

  /** `str(n)`. */
  function Decimal(n: int): string {
    if n < 0 then "-" + Digits(-n) else Digits(n)
  }

  function ParseDigits(s: string): Option<int> {
    if s == [] then None
    else
      var init, c := s[..|s| - 1], s[|s| - 1];
      if !('0' <= c <= '9') then None
      else if init == [] then Some((c - '0') as int)
      else
        var high := ParseDigits(init);
        if high.None? then None else Some(10 * high.value + (c - '0') as int)
  }

  /** `int(s)` for an optional sign and ASCII digits. */
  function ParseInt(s: string): Option<int> {
    if s != [] && (s[0] == '-' || s[0] == '+') then
      var n := ParseDigits(s[1..]);
      if n.None? then None else Some(if s[0] == '-' then -n.value else n.value)
    else
      ParseDigits(s)
  }

  lemma {:induction false} DigitsParse(n: nat)
    ensures ParseDigits(Digits(n)) == Some(n) && '0' <= Digits(n)[0] <= '9'
  {
    if n >= 10 {
      DigitsParse(n / 10);
      var s := Digits(n);
      assert s[..|s| - 1] == Digits(n / 10);
    }
  }

  lemma SignedParses(digits: string, n: int)
    requires ParseDigits(digits) == Some(n)
    ensures ParseInt(['-'] + digits) == Some(-n)
  {
    assert (['-'] + digits)[1..] == digits;
  }

  lemma UnsignedParses(digits: string, n: int)
    requires ParseDigits(digits) == Some(n) && digits != [] && '0' <= digits[0] <= '9'
    ensures ParseInt(digits) == Some(n)
  {
  }

  lemma DecimalParses(n: int)
    ensures ParseInt(Decimal(n)) == Some(n)
  {
    var digits := Digits(if n < 0 then -n else n);
    DigitsParse(if n < 0 then -n else n);
    if n < 0 {
      SignedParses(digits, -n);
    } else {
      UnsignedParses(digits, n);
    }
  }

  /** `int(str(v))`; no numeral is a flag, a list, an object or null. */
  function VersionNumber(v: Value): Option<int> {
    match v
    case Num(n) => Some(n)
    case Str(s) => ParseInt(s)
    case _ => None
  }

  // ----- Tools and arguments

  /** The tool ids the provider knows, and any other one. */
  datatype Tool =
    | TasksCreateTask | TasksUpdateTask
    | CalendarCreateEvent | CalendarUpdateEvent
    | GmailCreateDraft | GmailUpdateDraft
    | TasksGetTask | CalendarGetEvent | GmailGetDraft | GmailGetThread
    | SearchByRecoveryFingerprint
    | Other(name: string)

  const TASK := Identity("task", "task_id", Some("task_list_id"))
  const EVENT := Identity("calendar_event", "event_id", Some("calendar_id"))
  const DRAFT := Identity("gmail_draft", "draft_id", None)
  const THREAD := Identity("gmail_thread", "thread_id", None)

  function WriteIdentity(tool: Tool): Option<Identity> {
    match tool
    case TasksCreateTask | TasksUpdateTask => Some(TASK)
    case CalendarCreateEvent | CalendarUpdateEvent => Some(EVENT)
    case GmailCreateDraft | GmailUpdateDraft => Some(DRAFT)
    case _ => None
  }

  predicate IsCreate(tool: Tool) {
    tool.TasksCreateTask? || tool.CalendarCreateEvent? || tool.GmailCreateDraft?
  }

  function ReadIdentity(tool: Tool): Option<Identity> {
    match tool
    case TasksGetTask => Some(TASK)
    case CalendarGetEvent => Some(EVENT)
    case GmailGetDraft => Some(DRAFT)
    case GmailGetThread => Some(THREAD)
    case _ => None
  }

  /** An argument that is a non-empty string. */
  function TextArgument(arguments: Fields, name: string): Option<string> {
    if name in arguments && arguments[name].Str? && arguments[name].s != "" then Some(arguments[name].s) else None
  }

  /** `_required_parent`. */
  function RequiredParent(arguments: Fields, parentKey: Option<string>): Result<Option<string>, Failure> {
    if parentKey.None? then Ok(None)
    else
      var parent := TextArgument(arguments, parentKey.value);
      if parent.None? then Err(ParentRequired) else Ok(parent)
  }

  /** `_business_payload`: the nested payload overlaid with the other arguments. */
  function BusinessPayload(arguments: Fields, identity: Identity): Fields {
    var nested := if "payload" in arguments && arguments["payload"].Obj? then arguments["payload"].fields else map[];
    var excluded := {identity.idKey, "claim_context", "payload"}
                    + if identity.parentKey.Some? then {identity.parentKey.value} else {};
    nested + (arguments - excluded)
  }

  // ----- The store

  datatype Store = Store(items: map<Key, Item>, order: seq<Key>)

  /** Dictionary order lists exactly the stored keys, once each. */
  ghost predicate ValidStore(s: Store) {
    && (forall k :: k in s.items <==> k in s.order)
    && (forall i, j | 0 <= i < j < |s.order| :: s.order[i] != s.order[j])
  }

  function ParentValue(parent: Option<string>): Value {
    if parent.None? then Null else Str(parent.value)
  }

  function NewItem(key: Key, payload: Fields): Item {
    Item(key.resourceType, key.id, ParentValue(key.parent), Some(Str("1")), Some(Obj(payload)), map[])
  }

  /** `dict(item.get("payload", {}))`. */
  function PayloadFields(item: Item): Option<Fields> {
    if item.payload.None? then Some(map[])
    else match item.payload.value
      case Obj(fields) => Some(fields)
      case Arr(items) => if items == [] then Some(map[]) else None
      case Str(s) => if s == "" then Some(map[]) else None
      case _ => None
  }

  /** `item.get("version", "0")` as a number. */
  function StoredVersion(item: Item): Option<int> {
    VersionNumber(if item.version.None? then Str("0") else item.version.value)
  }

  function UpdatedItem(item: Item, base: Fields, version: int, payload: Fields): Item {
    item.(payload := Some(Obj(base + payload)), version := Some(Str(Decimal(version + 1))))
  }

  /** All fields of the provider that a write can touch. */
  datatype State = State(store: Store, sequence: nat, writeCalls: seq<Tool>, effects: map<Tool, nat>)

  function Effects(effects: map<Tool, nat>, tool: Tool): nat {
    if tool in effects then effects[tool] else 0
  }

  datatype Call = Call(tool: Tool, arguments: Fields)

  /** `_create`: the sequence number is spent before the parent and the target are checked. */
  function Create(s: State, identity: Identity, arguments: Fields): (State, Result<(Key, Item), Failure>) {
    var supplied := if identity.idKey in arguments then arguments[identity.idKey] else Null;
    if !supplied.Null? && TextArgument(arguments, identity.idKey).None? then (s, Err(IdentityInvalid))
    else
      var s := s.(sequence := s.sequence + 1);
      var id := if supplied.Null? then "evaluation-" + identity.resourceType + "-" + Decimal(s.sequence)
          else supplied.s;
      var parent := RequiredParent(arguments, identity.parentKey);
      if parent.Err? then (s, Err(parent.error))
      else
        var key := Key(identity.resourceType, parent.value, id);
        if key in s.store.items then (s, Err(TargetExists))
        else
          var item := NewItem(key, BusinessPayload(arguments, identity));
          (s.(store := Store(s.store.items[key := item], s.store.order + [key])), Ok((key, item)))
  }

  /** `_update`. */
  function Update(s: State, identity: Identity, arguments: Fields): (State, Result<(Key, Item), Failure>) {
    var id := TextArgument(arguments, identity.idKey);
    if id.None? then (s, Err(IdentityInvalid))
    else
      var parent := RequiredParent(arguments, identity.parentKey);
      if parent.Err? then (s, Err(parent.error))
      else
        var key := Key(identity.resourceType, parent.value, id.value);
        if key !in s.store.items then (s, Err(TargetMissing))
        else
          var current := s.store.items[key];
          if PayloadFields(current).None? then (s, Err(PayloadInvalid))
          else if StoredVersion(current).None? then (s, Err(VersionInvalid))
          else
            var updated := UpdatedItem(current, PayloadFields(current).value, StoredVersion(current).value,
                BusinessPayload(arguments, identity));
            (s.(store := s.store.(items := s.store.items[key := updated])), Ok((key, updated)))
  }

  function Dispatched(s: State, identity: Identity, c: Call): (State, Result<(Key, Item), Failure>) {
    if IsCreate(c.tool) then Create(s, identity, c.arguments) else Update(s, identity, c.arguments)
  }

  /** `execute_write`. */
  function Write(s: State, c: Call): (State, Result<(Key, Item), Failure>) {
    var s := s.(writeCalls := s.writeCalls + [c.tool]);
    var identity := WriteIdentity(c.tool);
    if identity.None? then (s, Err(UnsupportedTool))
    else
      var (s', result) := Dispatched(s, identity.value, c);
      if result.Err? then (s', result)
      else (s'.(effects := s'.effects[c.tool := Effects(s'.effects, c.tool) + 1]), result)
  }

  // ----- Reads

  /** `_project_item`; the version is shown as its text. */
  datatype View = View(
    resourceType: string,
    resourceId: string,
    parentId: Value,
    related: seq<Value>,
    version: Value,
    fingerprint: Value,
    payload: Fields)

  function ProjectItem(item: Item): View {
    var payload := if item.payload.Some? && item.payload.value.Obj? then item.payload.value.fields else map[];
    View(item.resourceType, item.resourceId, item.parentId,
         if item.resourceType == "task" || item.resourceType == "calendar_event" then [item.parentId] else [],
         if item.version.None? then Str("1") else item.version.value,
         if "recovery_fingerprint" in payload then payload["recovery_fingerprint"] else Null,
         payload)
  }

  /** Get-style `execute_read`. */
  function Get(s: Store, tool: Tool, arguments: Fields): Result<Option<View>, Failure> {
    var identity := ReadIdentity(tool);
    if identity.None? then Err(UnsupportedTool)
    else
      var id := TextArgument(arguments, identity.value.idKey);
      if id.None? then Err(IdentityInvalid)
      else
        var parent := RequiredParent(arguments, identity.value.parentKey);
        if parent.Err? then Err(parent.error)
        else
          var key := Key(identity.value.resourceType, parent.value, id.value);
          Ok(if key in s.items then Some(ProjectItem(s.items[key])) else None)
  }

  /** The whole item, searched as the dictionary it is. */
  predicate ItemContains(item: Item, expected: string) {
    || item.resourceType == expected
    || item.resourceId == expected
    || ContainsValue(item.parentId, expected)
    || (item.version.Some? && ContainsValue(item.version.value, expected))
    || (item.payload.Some? && ContainsValue(item.payload.value, expected))
    || ContainsValue(Obj(item.extra), expected)
  }

  predicate Searchable(resourceType: string) {
    resourceType == "task" || resourceType == "calendar_event" || resourceType == "gmail_draft"
        || resourceType == "gmail_message"
  }

  function SearchParentKey(resourceType: string): Option<string> {
    if resourceType == "task" then Some("task_list_id")
    else if resourceType == "calendar_event" then Some("calendar_id")
    else None
  }

  /** The stored keys the recovery search selects, in dictionary order. */
  function Hits(s: Store, order: seq<Key>, resourceType: string, parent: Option<string>, expected: string)
      : (hits: seq<Key>)
    requires forall k | k in order :: k in s.items
    ensures forall k | k in hits :: k in s.items
  {
    if order == [] then []
    else
      var k := order[|order| - 1];
      Hits(s, order[..|order| - 1], resourceType, parent, expected)
      + if k.resourceType == resourceType && k.parent == parent && ItemContains(s.items[k], expected) then [k] else []
  }

  function Views(s: Store, keys: seq<Key>): seq<View>
    requires forall k | k in keys :: k in s.items
  {
    seq(|keys|, i requires 0 <= i < |keys| => ProjectItem(s.items[keys[i]]))
  }

  /** `_search_by_recovery_fingerprint`. */
  function Search(s: Store, arguments: Fields): Result<seq<View>, Failure>
    requires forall k | k in s.order :: k in s.items
  {
    var resourceType :=
      if "resource_type" in arguments && arguments["resource_type"].Str? then arguments["resource_type"].s else "";
    if !Searchable(resourceType) then Err(UnsupportedType)
    else
      var fingerprint := TextArgument(arguments, "recovery_fingerprint");
      if fingerprint.None? then Err(FingerprintRequired)
      else
        var parent := RequiredParent(arguments, SearchParentKey(resourceType));
        if parent.Err? then Err(parent.error)
        else Ok(Views(s, Hits(s, s.order, resourceType, parent.value, fingerprint.value)))
  }

  datatype ReadOutput = OneItem(item: Option<View>) | Items(items: seq<View>)

  function Read(s: Store, tool: Tool, arguments: Fields): Result<ReadOutput, Failure>
    requires forall k | k in s.order :: k in s.items
  {
    if tool.SearchByRecoveryFingerprint? then
      var items := Search(s, arguments);
      if items.Err? then Err(items.error) else Ok(Items(items.value))
    else
      var item := Get(s, tool, arguments);
      if item.Err? then Err(item.error) else Ok(OneItem(item.value))
  }

  /** The store holds these items, each under its own key, in order. */
  ghost predicate Loaded(s: Store, items: seq<Item>) {
    && ValidStore(s) && |s.order| == |items|
    && (forall j | 0 <= j < |items| :: Placed(items[j]) && s.order[j] == KeyOf(items[j]))
    && (forall j | 0 <= j < |items| :: s.order[j] in s.items && s.items[s.order[j]] == items[j])
  }

  lemma LoadedHas(s: Store, items: seq<Item>, key: Key)
    requires Loaded(s, items) && key in s.items
    ensures exists j | 0 <= j < |items| :: KeyOf(items[j]) == key
  {
    var j :| 0 <= j < |s.order| && s.order[j] == key;
    assert KeyOf(items[j]) == key;
  }

  lemma LoadedOneMore(s: Store, items: seq<Item>, i: Item)
    requires Loaded(s, items) && Placed(i) && KeyOf(i) !in s.items
    ensures Loaded(Store(s.items[KeyOf(i) := i], s.order + [KeyOf(i)]), items + [i])
  {
  }

  class Provider {
    var resources: map<Key, Item>
    var order: seq<Key>
    var sequence: nat
    var readCalls: seq<Tool>
    var writeCalls: seq<Tool>
    var effectCounts: map<Tool, nat>

    constructor ()
      ensures Contents() == State(Store(map[], []), 0, [], map[]) && readCalls == [] && Valid()
    {
      resources, order, sequence, readCalls, writeCalls, effectCounts := map[], [], 0, [], [], map[];
    }

    function Contents(): State
      reads this
    {
      State(Store(resources, order), sequence, writeCalls, effectCounts)
    }

    ghost predicate Valid()
      reads this
    {
      ValidStore(Contents().store)
    }

    /** The constructor's loop over the initial resources: all of them under distinct keys, or an error. */
    method Load(initial: seq<Item>) returns (failure: Option<Failure>)
      requires Valid() && Contents() == State(Store(map[], []), 0, [], map[])
      modifies this
      ensures Valid() && sequence == 0 && writeCalls == [] && effectCounts == map[]
      ensures failure.None? ==>
        && |order| == |initial|
        && forall i | 0 <= i < |initial| :: order[i] in resources && resources[order[i]] == initial[i]
            && order[i] == KeyOf(initial[i])
      ensures failure.Some? <==>
        exists i | 0 <= i < |initial| ::
          !Placed(initial[i]) || exists j | 0 <= j < i :: KeyOf(initial[i]) == KeyOf(initial[j])
    {
      for i := 0 to |initial|
        invariant sequence == 0 && writeCalls == [] && effectCounts == map[]
        invariant Loaded(Store(resources, order), initial[..i])
      {
        assert initial[..i + 1] == initial[..i] + [initial[i]];
        if !Placed(initial[i]) {
          return Some(ParentRequired);
        }
        var key := KeyOf(initial[i]);
        if key in resources {
          LoadedHas(Store(resources, order), initial[..i], key);
          return Some(DuplicateIdentity);
        }
        LoadedOneMore(Store(resources, order), initial[..i], initial[i]);
        resources, order := resources[key := initial[i]], order + [key];
      }
      assert initial[..|initial|] == initial;
      return None;
    }

    method CreateResource(identity: Identity, arguments: Fields) returns (result: Result<(Key, Item), Failure>)
      requires Valid()
      modifies this`resources, this`order, this`sequence
      ensures Valid() && (Contents(), result) == Create(old(Contents()), identity, arguments)
    {
      var supplied := if identity.idKey in arguments then arguments[identity.idKey] else Null;
      if !supplied.Null? && (!supplied.Str? || supplied.s == "") {
        return Err(IdentityInvalid);
      }
      sequence := sequence + 1;
      var id := if supplied.Null? then "evaluation-" + identity.resourceType + "-" + Decimal(sequence) else supplied.s;
      var parent := RequiredParent(arguments, identity.parentKey);
      if parent.Err? {
        return Err(parent.error);
      }
      var key := Key(identity.resourceType, parent.value, id);
      if key in resources {
        return Err(TargetExists);
      }
      var item := NewItem(key, BusinessPayload(arguments, identity));
      resources, order := resources[key := item], order + [key];
      return Ok((key, item));
    }

    method UpdateResource(identity: Identity, arguments: Fields) returns (result: Result<(Key, Item), Failure>)
      requires Valid()
      modifies this`resources
      ensures Valid() && (Contents(), result) == Update(old(Contents()), identity, arguments)
    {
      var id := TextArgument(arguments, identity.idKey);
      if id.None? {
        return Err(IdentityInvalid);
      }
      var parent := RequiredParent(arguments, identity.parentKey);
      if parent.Err? {
        return Err(parent.error);
      }
      var key := Key(identity.resourceType, parent.value, id.value);
      if key !in resources {
        return Err(TargetMissing);
      }
      var payload := PayloadFields(resources[key]);
      if payload.None? {
        return Err(PayloadInvalid);
      }
      var version := StoredVersion(resources[key]);
      if version.None? {
        return Err(VersionInvalid);
      }
      var updated := UpdatedItem(resources[key], payload.value, version.value, BusinessPayload(arguments, identity));
      resources := resources[key := updated];
      return Ok((key, updated));
    }

    method Dispatch(identity: Identity, c: Call) returns (result: Result<(Key, Item), Failure>)
      requires Valid()
      modifies this`resources, this`order, this`sequence
      ensures Valid() && (Contents(), result) == Dispatched(old(Contents()), identity, c)
    {
      if IsCreate(c.tool) {
        result := CreateResource(identity, c.arguments);
      } else {
        result := UpdateResource(identity, c.arguments);
      }
    }

    method ExecuteWrite(c: Call) returns (result: Result<(Key, Item), Failure>)
      requires Valid()
      modifies this`resources, this`order, this`sequence, this`writeCalls, this`effectCounts
      ensures Valid() && (Contents(), result) == Write(old(Contents()), c)
    {
      writeCalls := writeCalls + [c.tool];
      var identity := WriteIdentity(c.tool);
      if identity.None? {
        return Err(UnsupportedTool);
      }
      result := Dispatch(identity.value, c);
      if result.Ok? {
        effectCounts := effectCounts[c.tool := Effects(effectCounts, c.tool) + 1];
      }
    }

    /** `execute_read` for the recovery search and the get-style tools. */
    method ExecuteRead(tool: Tool, arguments: Fields) returns (result: Result<ReadOutput, Failure>)
      requires Valid()
      modifies this`readCalls
      ensures Contents() == old(Contents()) && readCalls == old(readCalls) + [tool]
      ensures result == Read(Contents().store, tool, arguments)
    {
      readCalls := readCalls + [tool];
      if tool.SearchByRecoveryFingerprint? {
        var items := SearchItems(arguments);
        return if items.Err? then Err(items.error) else Ok(Items(items.value));
      }
      var item := Get(Contents().store, tool, arguments);
      result := if item.Err? then Err(item.error) else Ok(OneItem(item.value));
    }

    method SearchItems(arguments: Fields) returns (result: Result<seq<View>, Failure>)
      requires Valid()
      ensures result == Search(Contents().store, arguments)
    {
      var resourceType :=
        if "resource_type" in arguments && arguments["resource_type"].Str? then arguments["resource_type"].s else "";
      if !Searchable(resourceType) {
        return Err(UnsupportedType);
      }
      var fingerprint := TextArgument(arguments, "recovery_fingerprint");
      if fingerprint.None? {
        return Err(FingerprintRequired);
      }
      var parent := RequiredParent(arguments, SearchParentKey(resourceType));
      if parent.Err? {
        return Err(parent.error);
      }
      var views := Collect(resourceType, parent.value, fingerprint.value);
      return Ok(views);
    }

    /** The comprehension over the stored resources. */
    method Collect(resourceType: string, parent: Option<string>, expected: string) returns (views: seq<View>)
      requires Valid()
      ensures var store := Contents().store; views == Views(store, Hits(store, order, resourceType, parent, expected))
    {
      views := [];
      ghost var store := Contents().store;
      for i := 0 to |order|
        invariant views == Views(store, Hits(store, order[..i], resourceType, parent, expected))
      {
        var key := order[i];
        ViewsStep(store, order, i, resourceType, parent, expected);
        if key.resourceType == resourceType && key.parent == parent && ItemContains(resources[key], expected) {
          views := views + [ProjectItem(resources[key])];
        }
      }
      assert order[..|order|] == order;
    }
  }

  lemma HitsStep(s: Store, order: seq<Key>, i: nat, resourceType: string, parent: Option<string>, expected: string)
    requires i < |order| && forall k | k in order :: k in s.items
    ensures var k := order[i];
            var before := Hits(s, order[..i], resourceType, parent, expected);
            Hits(s, order[..i + 1], resourceType, parent, expected) ==
            if k.resourceType == resourceType && k.parent == parent && ItemContains(s.items[k], expected) then
                before + [k] else before
  {
    assert order[..i + 1][..i] == order[..i];
    var before := Hits(s, order[..i], resourceType, parent, expected);
    assert before + [] == before;
  }

  lemma ViewsStep(s: Store, order: seq<Key>, i: nat, resourceType: string, parent: Option<string>, expected: string)
    requires i < |order| && forall k | k in order :: k in s.items
    ensures var k := order[i];
            var before := Views(s, Hits(s, order[..i], resourceType, parent, expected));
            Views(s, Hits(s, order[..i + 1], resourceType, parent, expected)) ==
            if k.resourceType == resourceType && k.parent == parent && ItemContains(s.items[k], expected)
            then before + [ProjectItem(s.items[k])] else before
  {
    HitsStep(s, order, i, resourceType, parent, expected);
    ViewsAppend(s, Hits(s, order[..i], resourceType, parent, expected), order[i]);
  }

  lemma ViewsAppend(s: Store, keys: seq<Key>, k: Key)
    requires k in s.items && forall j | j in keys :: j in s.items
    ensures Views(s, keys + [k]) == Views(s, keys) + [ProjectItem(s.items[k])]
  {
  }

  /** The key an initial resource is stored under. */
  function KeyOf(item: Item): Key {
    Key(item.resourceType,
        if item.resourceType != "task" && item.resourceType != "calendar_event" then None
        else if item.parentId.Str? then Some(item.parentId.s) else None,
        item.resourceId)
  }

  /** `_stored_parent` accepts it. */
  predicate Placed(item: Item) {
    item.resourceType == "task" || item.resourceType == "calendar_event" ==> item.parentId.Str? && item.parentId.s != ""
  }

  // ----- Runs of writes

  /** A write that succeeded. */
  datatype Effect = Effect(tool: Tool, created: bool, key: Key, payload: Fields)

  function StateAfter(start: State, calls: seq<Call>): State {
    if calls == [] then start
    else Write(StateAfter(start, calls[..|calls| - 1]), calls[|calls| - 1]).0
  }

  /** The successful writes of a run, in order. */
  function EffectLog(start: State, calls: seq<Call>): seq<Effect> {
    if calls == [] then []
    else
      var before, c := StateAfter(start, calls[..|calls| - 1]), calls[|calls| - 1];
      EffectLog(start, calls[..|calls| - 1]) + LogOf(c, Write(before, c).1)
  }

  function LogOf(c: Call, result: Result<(Key, Item), Failure>): seq<Effect> {
    var identity := WriteIdentity(c.tool);
    if result.Err? || identity.None? then []
    else [Effect(c.tool, IsCreate(c.tool), result.value.0, BusinessPayload(c.arguments, identity.value))]
  }

  /** A failed write is recorded as a call and may spend a sequence number; nothing else changes. */
  lemma FailedWriteChangesNothing(s: State, c: Call)
    requires Write(s, c).1.Err?
    ensures var s' := Write(s, c).0;
            && s'.store == s.store && s'.effects == s.effects && s'.writeCalls == s.writeCalls + [c.tool]
            && s.sequence <= s'.sequence <= s.sequence + 1
  {
  }

  /** What a successful write does, told by its effect alone. */
  lemma SuccessfulWriteIsItsEffect(s: State, c: Call)
    requires Write(s, c).1.Ok?
    ensures var (s', result) := Write(s, c);
            var log := LogOf(c, result);
            && |log| == 1
            && var e := log[0];
            && s'.effects == s.effects[e.tool := Effects(s.effects, e.tool) + 1]
            && (if e.created then
                  && e.key !in s.store.items
                  && s'.store == Store(s.store.items[e.key := NewItem(e.key, e.payload)], s.store.order + [e.key])
                else
                  && e.key in s.store.items
                  && var current := s.store.items[e.key];
                  && PayloadFields(current).Some? && StoredVersion(current).Some?
                  && s'.store == s.store.(items := s.store.items[e.key :=
                       UpdatedItem(current, PayloadFields(current).value, StoredVersion(current).value, e.payload)]))
            && result.value == (e.key, s'.store.items[e.key])
  {
  }

  function Creates(log: seq<Effect>): nat {
    if log == [] then 0 else Creates(log[..|log| - 1]) + if log[|log| - 1].created then 1 else 0
  }

  /** The updates a log makes to a key. */
  function UpdatesOf(log: seq<Effect>, key: Key): nat {
    if log == [] then 0
    else UpdatesOf(log[..|log| - 1], key) + if !log[|log| - 1].created && log[|log| - 1].key == key then 1 else 0
  }

  predicate CreatesKey(log: seq<Effect>, key: Key) {
    exists i | 0 <= i < |log| :: log[i].created && log[i].key == key
  }

  function ByTool(log: seq<Effect>, tool: Tool): nat {
    if log == [] then 0 else ByTool(log[..|log| - 1], tool) + if log[|log| - 1].tool == tool then 1 else 0
  }

  /** The last value a log gives a payload field of a key. */
  function LastSet(log: seq<Effect>, key: Key, field: string): Option<Value> {
    if log == [] then None
    else
      var e := log[|log| - 1];
      if e.key == key && field in e.payload then Some(e.payload[field]) else LastSet(log[..|log| - 1], key, field)
  }

  function Lookup(fields: Fields, field: string): Option<Value> {
    if field in fields then Some(fields[field]) else None
  }

  /** What a key's item starts from: the initial one, or a created one without its payload. */
  function BaseItem(start: Store, key: Key): Item {
    if key in start.items then start.items[key] else NewItem(key, map[])
  }

  predicate Updatable(item: Item) {
    StoredVersion(item).Some? && PayloadFields(item).Some?
  }

  /** A key is there if it was initially or has been created, never both, and only a stored key has effects. */
  ghost predicate PresenceExplained(start: Store, log: seq<Effect>, s: Store, key: Key) {
    && (key in s.items <==> key in start.items || CreatesKey(log, key))
    && (key in start.items ==> !CreatesKey(log, key))
    && (key !in s.items ==> UpdatesOf(log, key) == 0 && forall f :: LastSet(log, key, f).None?)
  }

  /** Only version and payload ever change, and only of an item that can be updated. */
  predicate IdentityExplained(log: seq<Effect>, item: Item, key: Key, base: Item) {
    && item.resourceType == base.resourceType && item.resourceId == base.resourceId
    && item.parentId == base.parentId && item.extra == base.extra
    && (UpdatesOf(log, key) > 0 ==> Updatable(base))
  }

  predicate VersionExplained(log: seq<Effect>, item: Item, key: Key, base: Item) {
    StoredVersion(base).Some? ==> StoredVersion(item) == Some(StoredVersion(base).value + UpdatesOf(log, key))
  }

  predicate FieldExplained(log: seq<Effect>, item: Item, key: Key, base: Item, f: string)
    requires PayloadFields(item).Some? && PayloadFields(base).Some?
  {
    Lookup(PayloadFields(item).value, f) ==
    if LastSet(log, key, f).Some? then LastSet(log, key, f) else Lookup(PayloadFields(base).value, f)
  }

  ghost predicate FieldsExplained(log: seq<Effect>, item: Item, key: Key, base: Item) {
    PayloadFields(base).Some? ==> PayloadFields(item).Some? && forall f :: FieldExplained(log, item, key, base, f)
  }

  ghost predicate ItemExplained(start: Store, log: seq<Effect>, item: Item, key: Key) {
    var base := BaseItem(start, key);
    && IdentityExplained(log, item, key, base)
    && (UpdatesOf(log, key) == 0 && key in start.items ==> item == base)
    && VersionExplained(log, item, key, base)
    && FieldsExplained(log, item, key, base)
  }

  /** What the store must hold for a key, told from the initial resources and the successful writes alone. */
  ghost predicate Explained(start: Store, log: seq<Effect>, s: Store, key: Key) {
    PresenceExplained(start, log, s, key) && (key in s.items ==> ItemExplained(start, log, s.items[key], key))
  }

  lemma LogAppend(log: seq<Effect>, e: Effect, key: Key)
    ensures CreatesKey(log + [e], key) <==> CreatesKey(log, key) || (e.created && e.key == key)
    ensures UpdatesOf(log + [e], key) == UpdatesOf(log, key) + if !e.created && e.key == key then 1 else 0
    ensures forall f :: LastSet(log + [e], key, f) ==
              if e.key == key && f in e.payload then Some(e.payload[f]) else LastSet(log, key, f)
  {
    var all := log + [e];
    assert all[..|all| - 1] == log && all[|all| - 1] == e;
    if CreatesKey(log, key) {
      var i :| 0 <= i < |log| && log[i].created && log[i].key == key;
      assert all[i] == log[i];
    }
  }

  lemma NewItemVersion(key: Key, payload: Fields)
    ensures StoredVersion(NewItem(key, payload)) == Some(1)
  {
    DecimalParses(1);
    assert Decimal(1) == "1";
  }

  /** An effect on another key leaves a key explained. */
  lemma OtherStaysExplained(start: Store, log: seq<Effect>, s: Store, s': Store, e: Effect, key: Key)
    requires Explained(start, log, s, key) && e.key != key
    requires (key in s'.items <==> key in s.items) && (key in s.items ==> s'.items[key] == s.items[key])
    ensures Explained(start, log + [e], s', key)
  {
    LogAppend(log, e, key);
    if key in s.items && PayloadFields(BaseItem(start, key)).Some? {
      forall f
        ensures FieldExplained(log + [e], s'.items[key], key, BaseItem(start, key), f)
      {
        assert FieldExplained(log, s.items[key], key, BaseItem(start, key), f);
      }
    }
  }

  lemma CreateExplained(start: Store, log: seq<Effect>, s: Store, e: Effect)
    requires Explained(start, log, s, e.key) && e.created && e.key !in s.items
    ensures Explained(start, log + [e], Store(s.items[e.key := NewItem(e.key, e.payload)], s.order + [e.key]), e.key)
  {
    LogAppend(log, e, e.key);
    CreatedItemExplained(start, log, e);
  }

  lemma CreatedItemExplained(start: Store, log: seq<Effect>, e: Effect)
    requires e.created && e.key !in start.items && UpdatesOf(log, e.key) == 0
    requires forall f :: LastSet(log, e.key, f).None?
    ensures ItemExplained(start, log + [e], NewItem(e.key, e.payload), e.key)
  {
    LogAppend(log, e, e.key);
    NewItemVersion(e.key, e.payload);
    NewItemVersion(e.key, map[]);
    CreatedFieldsExplained(log, e);
  }

  lemma CreatedFieldsExplained(log: seq<Effect>, e: Effect)
    requires forall f :: LastSet(log, e.key, f).None?
    ensures FieldsExplained(log + [e], NewItem(e.key, e.payload), e.key, NewItem(e.key, map[]))
  {
    LogAppend(log, e, e.key);
    forall f
      ensures FieldExplained(log + [e], NewItem(e.key, e.payload), e.key, NewItem(e.key, map[]), f)
    {
      assert LastSet(log, e.key, f).None?;
    }
  }

  /** The stored item after a successful update. */
  function Overlaid(item: Item, payload: Fields): Item
    requires Updatable(item)
  {
    UpdatedItem(item, PayloadFields(item).value, StoredVersion(item).value, payload)
  }

  lemma OverlaidIsUpdated(item: Item, payload: Fields)
    requires Updatable(item)
    ensures var item' := Overlaid(item, payload);
            && StoredVersion(item') == Some(StoredVersion(item).value + 1)
            && PayloadFields(item') == Some(PayloadFields(item).value + payload)
            && item'.resourceType == item.resourceType && item'.resourceId == item.resourceId
            && item'.parentId == item.parentId && item'.extra == item.extra
  {
    DecimalParses(StoredVersion(item).value + 1);
  }

  lemma ExplainedBaseIsUpdatable(start: Store, log: seq<Effect>, item: Item, key: Key)
    requires ItemExplained(start, log, item, key) && Updatable(item)
    ensures Updatable(BaseItem(start, key))
  {
    NewItemVersion(key, map[]);
  }

  lemma UpdatedFieldsExplained(log: seq<Effect>, item: Item, base: Item, e: Effect)
    requires FieldsExplained(log, item, e.key, base) && Updatable(item) && Updatable(base) && !e.created
    ensures FieldsExplained(log + [e], Overlaid(item, e.payload), e.key, base)
  {
    LogAppend(log, e, e.key);
    OverlaidIsUpdated(item, e.payload);
    forall f
      ensures FieldExplained(log + [e], Overlaid(item, e.payload), e.key, base, f)
    {
      assert FieldExplained(log, item, e.key, base, f);
    }
  }

  lemma UpdatedItemExplained(start: Store, log: seq<Effect>, item: Item, e: Effect)
    requires ItemExplained(start, log, item, e.key) && Updatable(item) && !e.created
    ensures ItemExplained(start, log + [e], Overlaid(item, e.payload), e.key)
  {
    LogAppend(log, e, e.key);
    OverlaidIsUpdated(item, e.payload);
    ExplainedBaseIsUpdatable(start, log, item, e.key);
    UpdatedFieldsExplained(log, item, BaseItem(start, e.key), e);
  }

  lemma UpdateExplained(start: Store, log: seq<Effect>, s: Store, e: Effect)
    requires Explained(start, log, s, e.key) && !e.created && e.key in s.items && Updatable(s.items[e.key])
    ensures Explained(start, log + [e], s.(items := s.items[e.key := Overlaid(s.items[e.key], e.payload)]), e.key)
  {
    LogAppend(log, e, e.key);
    UpdatedItemExplained(start, log, s.items[e.key], e);
  }

  /** Over every run of writes each key holds exactly what the initial resources and the successful writes to it say. */
  lemma {:induction false} RunIsExplained(start: State, calls: seq<Call>, key: Key)
    ensures Explained(start.store, EffectLog(start, calls), StateAfter(start, calls).store, key)
  {
    if calls != [] {
      var init, c := calls[..|calls| - 1], calls[|calls| - 1];
      RunIsExplained(start, init, key);
      var before, log := StateAfter(start, init), EffectLog(start, init);
      if Write(before, c).1.Err? {
        FailedWriteChangesNothing(before, c);
        assert EffectLog(start, calls) == log;
      } else {
        SuccessfulWriteIsItsEffect(before, c);
        var e := LogOf(c, Write(before, c).1)[0];
        if e.key != key {
          OtherStaysExplained(start.store, log, before.store, Write(before, c).0.store, e, key);
        } else if e.created {
          CreateExplained(start.store, log, before.store, e);
        } else {
          UpdateExplained(start.store, log, before.store, e);
        }
      }
    }
  }

  /** The store has grown by its creates, and effect counts are the successful writes, tool by tool. */
  lemma {:induction false} RunCounts(start: State, calls: seq<Call>, tool: Tool)
    requires ValidStore(start.store)
    ensures var s, log := StateAfter(start, calls), EffectLog(start, calls);
            && ValidStore(s.store)
            && |s.store.items| == |start.store.items| + Creates(log)
            && Effects(s.effects, tool) == Effects(start.effects, tool) + ByTool(log, tool)
            && |s.writeCalls| == |start.writeCalls| + |calls|
  {
    if calls != [] {
      var init, c := calls[..|calls| - 1], calls[|calls| - 1];
      RunCounts(start, init, tool);
      var before, log := StateAfter(start, init), EffectLog(start, init);
      WriteKeepsValid(before, c);
      if Write(before, c).1.Err? {
        FailedWriteChangesNothing(before, c);
        assert EffectLog(start, calls) == log;
      } else {
        SuccessfulWriteIsItsEffect(before, c);
        var e := LogOf(c, Write(before, c).1)[0];
        assert (log + [e])[..|log|] == log;
        WriteCalls(before, c);
      }
    }
  }

  lemma WriteCalls(s: State, c: Call)
    ensures Write(s, c).0.writeCalls == s.writeCalls + [c.tool]
  {
  }

  lemma WriteKeepsValid(s: State, c: Call)
    requires ValidStore(s.store)
    ensures ValidStore(Write(s, c).0.store)
  {
    if Write(s, c).1.Err? {
      FailedWriteChangesNothing(s, c);
    } else {
      SuccessfulWriteIsItsEffect(s, c);
    }
  }

  /** The arguments of a get-style read name the key. */
  predicate AsksForKey(tool: Tool, arguments: Fields, key: Key) {
    && ReadIdentity(tool).Some?
    && var identity := ReadIdentity(tool).value;
       && key.resourceType == identity.resourceType
       && TextArgument(arguments, identity.idKey) == Some(key.id)
       && RequiredParent(arguments, identity.parentKey) == Ok(key.parent)
  }

  lemma GetShowsTheStore(s: Store, tool: Tool, arguments: Fields, key: Key)
    requires AsksForKey(tool, arguments, key)
    ensures Get(s, tool, arguments) == Ok(if key in s.items then Some(ProjectItem(s.items[key])) else None)
    ensures key in s.items && PayloadFields(s.items[key]).Some? ==>
      ProjectItem(s.items[key]).payload == PayloadFields(s.items[key]).value
  {
  }

  lemma {:induction false} SetByAnEffect(log: seq<Effect>, key: Key, field: string)
    requires LastSet(log, key, field).Some?
    ensures UpdatesOf(log, key) > 0 || CreatesKey(log, key)
    decreases |log|
  {
    var before, e := log[..|log| - 1], log[|log| - 1];
    assert log == before + [e];
    LogAppend(before, e, key);
    if !(e.key == key && field in e.payload) {
      SetByAnEffect(before, key, field);
    }
  }

  /**
   After any run of writes a get finds exactly the initial and the created keys, and shows each payload field as the
   last successful write to that key set it, or else as it was initially.
   */
  lemma LaterGetShowsTheWrites(start: State, calls: seq<Call>, tool: Tool, arguments: Fields, key: Key, field: string)
    requires AsksForKey(tool, arguments, key)
    ensures var log, got := EffectLog(start, calls), Get(StateAfter(start, calls).store, tool, arguments);
            && got.Ok?
            && (got.value.Some? <==> key in start.store.items || CreatesKey(log, key))
            && (got.value.Some? ==>
                  Lookup(got.value.value.payload, field) ==
                  if LastSet(log, key, field).Some? then LastSet(log, key, field)
                  else if key in start.store.items then Lookup(ProjectItem(start.store.items[key]).payload, field)
                  else None)
  {
    var log, s := EffectLog(start, calls), StateAfter(start, calls).store;
    RunIsExplained(start, calls, key);
    GetShowsTheStore(s, tool, arguments, key);
    if key in s.items {
      ExplainedView(start.store, log, s, key, field);
    }
  }

  lemma ExplainedView(start: Store, log: seq<Effect>, s: Store, key: Key, field: string)
    requires Explained(start, log, s, key) && key in s.items
    ensures Lookup(ProjectItem(s.items[key]).payload, field) ==
            if LastSet(log, key, field).Some? then LastSet(log, key, field)
            else if key in start.items then Lookup(ProjectItem(start.items[key]).payload, field)
            else None
  {
    if LastSet(log, key, field).Some? {
      SetByAnEffect(log, key, field);
    }
    var base := BaseItem(start, key);
    ViewShowsPayload(base);
    ViewShowsPayload(s.items[key]);
    if PayloadFields(base).Some? {
      assert FieldExplained(log, s.items[key], key, base, field);
    }
  }

  lemma ViewShowsPayload(item: Item)
    ensures PayloadFields(item).Some? ==> ProjectItem(item).payload == PayloadFields(item).value
  {
  }
}
