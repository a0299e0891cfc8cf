/**
 Any number of launcher processes contend for `service.lock`.  The world is the
 lock file, the stale guard, the temporary file of a rebind and all process
 incarnations; `Step` performs one atomic file-system or process-table access.
 */
module SingleInstanceProtocol {
  import opened Prelude

  /** A process token names one incarnation: it is never issued twice. */
  type Token = nat

  const PIPE_PREFIX := "\\\\.\\pipe\\GoogleWorkAgent-"
  const MAX_ENDPOINT := 128
  const HASH_PREFIX := 24

  /** The parsed lock; a field of the wrong JSON type is represented by pid 0. */
  datatype Record = Record(user: string, pid: int, token: Token, service: Option<string>, endpoint: string)

  /** What a lock file holds: nothing yet, decodable text that is no lock record, or a record. */
  datatype Content = Empty | Malformed | Lease(record: Record)

  /** `file` is the identity an open descriptor is bound to; `version` is all that `stat` shows and may repeat. */
  datatype LockFile = Absent | Present(file: nat, version: nat, content: Content)

  /** The safe codes of `SingleInstanceError`; `OsError` is an `OSError` the launcher lets through. */
  datatype Failure = UserMismatch | Untrusted | Conflict | OsError

  /** Where a launcher stands; each constructor is the access it performs next, or a state at rest. */
  datatype Pc =
    | Idle
    | Creating(attempt: nat)
    | Writing(file: nat)
    | Statting(attempt: nat)
    | Reading(attempt: nat, version: nat)
    | Judging(attempt: nat, version: nat, seen: Record)
    | Guarding(attempt: nat, version: nat, seen: Record)
    | GuardStatting(attempt: nat, version: nat, seen: Record)
    | GuardReading(attempt: nat, version: nat, seen: Record, current: nat)
    | GuardJudging(attempt: nat, seen: Record)
    | Unlinking(attempt: nat, seen: Record)
    | Unguarding(attempt: nat, raised: Option<Failure>)
    | Holding
    | BindOpening(service: string)
    | BindWriting(service: string)
    | BindReplacing(service: string)
    | ReleaseChecking
    | ReleaseReading
    | ReleaseUnlinking
    | Deferred(endpoint: string, serving: Option<string>)
    | Refused(failure: Failure)

  datatype Process = Process(pid: int, user: string, alive: bool, maxAttempts: nat, tries: nat, pc: Pc)

  datatype World = World(
    lock: LockFile,
    guard: bool,
    temp: Option<Content>,
    processes: map<Token, Process>,
    nextFile: nat)

  /** `fails` makes the next access raise `OSError`; `version` is the stat of a file it writes. */
  datatype Action =
    | Spawn(actor: Token, pid: int, user: string)
    | Crash(actor: Token)
    | Begin(actor: Token, maxAttempts: nat)
    | Bind(actor: Token, service: string)
    | Release(actor: Token)
    | Advance(actor: Token, fails: bool, version: nat)

  function EndpointOf(user: string): string {
    PIPE_PREFIX + if |user| <= HASH_PREFIX then user else user[..HASH_PREFIX]
  }

  predicate TrustedFields(r: Record) {
    r.pid > 0 && PIPE_PREFIX <= r.endpoint && |r.endpoint| <= MAX_ENDPOINT
  }

  /** `_optional_string`: an empty service id is read as none. */
  function NonEmpty(service: Option<string>): Option<string> {
    if service == Some("") then None else service
  }

  function OwnRecord(t: Token, p: Process, service: Option<string>): Record {
    Record(p.user, p.pid, t, service, EndpointOf(p.user))
  }

  /** `process_identity(pid) == token`: the running process with that pid is that incarnation. */
  predicate IsRunning(w: World, pid: int, token: Token) {
    token in w.processes && w.processes[token].alive && w.processes[token].pid == pid && pid > 0
  }

  predicate Alive(w: World, t: Token) {
    t in w.processes && w.processes[t].alive
  }

  function At(w: World, t: Token, pc: Pc): (w': World)
    requires t in w.processes
  {
    w.(processes := w.processes[t := w.processes[t].(pc := pc)])
  }

  /** The retry loop's `continue`: the next attempt, or the conflict error after the last one. */
  function Retry(p: Process, attempt: nat): Pc {
    if attempt + 1 < p.maxAttempts then Creating(attempt + 1) else Refused(Conflict)
  }

  /** What an acquisition makes of a lock it has read: an error, or a record whose incarnation is judged next. */
  function Examine(p: Process, attempt: nat, version: nat, content: Content): Pc {
    if !content.Lease? then Refused(Untrusted)
    else if content.record.user != p.user then Refused(UserMismatch)
    else if !TrustedFields(content.record) then Refused(Untrusted)
    else Judging(attempt, version, content.record)
  }

  function Unchanged(expected: nat, current: nat, seen: Record, content: Content): bool {
    content.Lease? && expected == current && content.record.pid == seen.pid && content.record.token == seen.token
  }

  /** The next access of an acquisition outside the stale guard. */
  function AdvanceAcquire(w: World, t: Token, fails: bool, version: nat): World
    requires t in w.processes
  {
    var p := w.processes[t];
    match p.pc
    case Creating(attempt) =>
      var w := w.(processes := w.processes[t := p.(tries := p.tries + 1)]);
      if fails then At(w, t, Refused(Conflict))
      else if w.lock.Present? then At(w, t, Statting(attempt))
      else At(w.(lock := Present(w.nextFile, version, Empty), nextFile := w.nextFile + 1), t, Writing(w.nextFile))
    case Writing(file) =>
      if fails then At(w, t, Refused(OsError))
      else
        // The write goes to the open descriptor, whatever the path names by now.
        var lock := if w.lock.Present? && w.lock.file == file
                    then Present(file, version, Lease(OwnRecord(t, p, None))) else w.lock;
        At(w.(lock := lock), t, Holding)
    case Statting(attempt) =>
      if fails then At(w, t, Refused(Untrusted))
      else if w.lock.Absent? then At(w, t, Retry(p, attempt))
      else At(w, t, Reading(attempt, w.lock.version))
    case Reading(attempt, seenVersion) =>
      if fails then At(w, t, Refused(Untrusted))
      else if w.lock.Absent? then At(w, t, Retry(p, attempt))
      else At(w, t, Examine(p, attempt, seenVersion, w.lock.content))
    case Judging(attempt, seenVersion, seen) =>
      if IsRunning(w, seen.pid, seen.token) then At(w, t, Deferred(seen.endpoint, NonEmpty(seen.service)))
      else At(w, t, Guarding(attempt, seenVersion, seen))
    case _ => w
  }

  /** The next access of `_remove_stale_lock`. */
  function AdvanceRemoval(w: World, t: Token, fails: bool): World
    requires t in w.processes
  {
    var p := w.processes[t];
    match p.pc
    case Guarding(attempt, version, seen) =>
      if fails then At(w, t, Refused(OsError))
      else if w.guard then At(w, t, Retry(p, attempt))
      else At(w.(guard := true), t, GuardStatting(attempt, version, seen))
    case GuardStatting(attempt, version, seen) =>
      if fails then At(w, t, Unguarding(attempt, Some(Untrusted)))
      else if w.lock.Absent? then At(w, t, Unguarding(attempt, None))
      else At(w, t, GuardReading(attempt, version, seen, w.lock.version))
    case GuardReading(attempt, version, seen, current) =>
      if fails then At(w, t, Unguarding(attempt, Some(Untrusted)))
      else if w.lock.Absent? then At(w, t, Unguarding(attempt, None))
      else if !w.lock.content.Lease? then At(w, t, Unguarding(attempt, Some(Untrusted)))
      else if Unchanged(version, current, seen, w.lock.content) then At(w, t, GuardJudging(attempt, seen))
      else At(w, t, Unguarding(attempt, None))
    case GuardJudging(attempt, seen) =>
      if IsRunning(w, seen.pid, seen.token) then At(w, t, Unguarding(attempt, None))
      else At(w, t, Unlinking(attempt, seen))
    case Unlinking(attempt, seen) =>
      if fails then At(w, t, Unguarding(attempt, Some(OsError)))
      else At(w.(lock := Absent), t, Unguarding(attempt, None))
    case Unguarding(attempt, raised) =>
      if fails then At(w, t, Refused(OsError))
      else At(w.(guard := false), t, if raised.Some? then Refused(raised.value) else Retry(p, attempt))
    case _ => w
  }

  /** The next access of `bind_service_instance` or `release`. */
  function AdvanceLease(w: World, t: Token, fails: bool, version: nat): World
    requires t in w.processes
  {
    var p := w.processes[t];
    match p.pc
    case BindOpening(service) =>
      if fails then At(w, t, Holding) else At(w.(temp := Some(Empty)), t, BindWriting(service))
    case BindWriting(service) =>
      if fails then At(w.(temp := Some(Malformed)), t, Holding)
      else At(w.(temp := Some(Lease(OwnRecord(t, p, Some(service))))), t, BindReplacing(service))
    case BindReplacing(service) =>
      if fails || w.temp.None? then At(w, t, Holding)
      else At(w.(lock := Present(w.nextFile, version, w.temp.value), temp := None, nextFile := w.nextFile + 1), t,
          Holding)
    case ReleaseChecking =>
      At(w, t, if w.lock.Present? then ReleaseReading else Holding)
    case ReleaseReading =>
      if !fails && w.lock.Present? && w.lock.content.Lease?
         && w.lock.content.record.user == p.user && w.lock.content.record.pid == p.pid
         && w.lock.content.record.token == t
      then At(w, t, ReleaseUnlinking) else At(w, t, Holding)
    case ReleaseUnlinking =>
      if fails then At(w, t, Holding) else At(w.(lock := Absent), t, Idle)
    case _ => w
  }

  predicate Removing(pc: Pc) {
    pc.Guarding? || Guarded(pc)
  }

  /** Inside the `try` that the stale guard protects. */
  predicate Guarded(pc: Pc) {
    pc.GuardStatting? || pc.GuardReading? || pc.GuardJudging? || pc.Unlinking? || pc.Unguarding?
  }

  /** The process has an acquired lease that it has not released. */
  predicate Leased(pc: Pc) {
    pc.Holding? || pc.BindOpening? || pc.BindWriting? || pc.BindReplacing?
    || pc.ReleaseChecking? || pc.ReleaseReading? || pc.ReleaseUnlinking?
  }

  predicate AtRest(pc: Pc) {
    pc.Idle? || pc.Deferred? || pc.Refused?
  }

  /** One action; an action that is not enabled changes nothing. */
  function Step(w: World, a: Action): World {
    match a
    case Spawn(t, pid, user) =>
      if t in w.processes || pid <= 0
          || (exists u | u in w.processes :: Alive(w, u) && w.processes[u].pid == pid) then w
      else w.(processes := w.processes[t := Process(pid, user, true, 0, 0, Idle)])
    case Crash(t) =>
      if !Alive(w, t) then w else w.(processes := w.processes[t := w.processes[t].(alive := false)])
    case Begin(t, maxAttempts) =>
      if !Alive(w, t) || !AtRest(w.processes[t].pc) || maxAttempts < 1 then w
      else w.(processes := w.processes[t := w.processes[t].(maxAttempts := maxAttempts, tries := 0, pc := Creating(0))])
    case Bind(t, service) =>
      if !Alive(w, t) || !w.processes[t].pc.Holding? then w else At(w, t, BindOpening(service))
    case Release(t) =>
      if !Alive(w, t) || !w.processes[t].pc.Holding? then w else At(w, t, ReleaseChecking)
    case Advance(t, fails, version) =>
      if !Alive(w, t) then w
      else if Removing(w.processes[t].pc) then AdvanceRemoval(w, t, fails)
      else if Leased(w.processes[t].pc) then AdvanceLease(w, t, fails, version)
      else AdvanceAcquire(w, t, fails, version)
  }

  function Run(w: World, actions: seq<Action>): World
    decreases |actions|
  {
    if actions == [] then w else Run(Step(w, actions[0]), actions[1..])
  }

  // ----- What every reachable world satisfies

  /** A record of a running incarnation is the one that incarnation writes. */
  ghost predicate Genuine(w: World, r: Record) {
    r.token in w.processes
    && (w.processes[r.token].alive ==>
          var p := w.processes[r.token];
          r.pid == p.pid > 0 && r.user == p.user && r.endpoint == EndpointOf(p.user))
  }

  ghost predicate Dead(w: World, t: Token) {
    t in w.processes && !w.processes[t].alive
  }

  /** The lock file is a record of incarnation `t`. */
  predicate Names(lock: LockFile, t: Token) {
    lock.Present? && lock.content.Lease? && lock.content.record.token == t
  }

  /** Attempts are counted: the k-th try is made at attempt k, and none after `maxAttempts`. */
  predicate Counted(p: Process) {
    match p.pc
    case Creating(attempt) => p.tries == attempt < p.maxAttempts
    case Statting(attempt) => p.tries == attempt + 1 <= p.maxAttempts
    case Reading(attempt, _) => p.tries == attempt + 1 <= p.maxAttempts
    case Judging(attempt, _, _) => p.tries == attempt + 1 <= p.maxAttempts
    case Guarding(attempt, _, _) => p.tries == attempt + 1 <= p.maxAttempts
    case GuardStatting(attempt, _, _) => p.tries == attempt + 1 <= p.maxAttempts
    case GuardReading(attempt, _, _, _) => p.tries == attempt + 1 <= p.maxAttempts
    case GuardJudging(attempt, _) => p.tries == attempt + 1 <= p.maxAttempts
    case Unlinking(attempt, _) => p.tries == attempt + 1 <= p.maxAttempts
    case Unguarding(attempt, _) => p.tries == attempt + 1 <= p.maxAttempts
    case _ => p.tries <= p.maxAttempts
  }

  /** What a running launcher can rely on at its control point. */
  ghost predicate Justified(w: World, t: Token)
    requires t in w.processes
  {
    var p := w.processes[t];
    p.alive ==>
      && p.pid > 0
      && Counted(p)
      && (Leased(p.pc) ==> Names(w.lock, t))
      && (p.pc.Writing? ==> w.lock.Present? && w.lock.file == p.pc.file && w.lock.content.Empty?)
      && (p.pc.Judging? ==> Genuine(w, p.pc.seen) && p.pc.seen.user == p.user)
      && (Removing(p.pc) && !p.pc.Unguarding? ==> Dead(w, p.pc.seen.token))
      && (p.pc.GuardJudging? || p.pc.Unlinking? ==> Names(w.lock, p.pc.seen.token))
      && (p.pc.BindReplacing? ==> w.temp == Some(Lease(OwnRecord(t, p, Some(p.pc.service)))))
      && (p.pc.Deferred? ==> p.pc.endpoint == EndpointOf(p.user))
  }

  ghost predicate Exclusive(w: World, t: Token, u: Token)
    requires t in w.processes && u in w.processes
  {
    Alive(w, t) && Alive(w, u) && t != u ==>
      && w.processes[t].pid != w.processes[u].pid
      && !(Guarded(w.processes[t].pc) && Guarded(w.processes[u].pc))
      && !(w.processes[t].pc.Writing? && w.processes[u].pc.Writing?)
  }

  ghost predicate LockGenuine(w: World) {
    w.lock.Present? && w.lock.content.Lease? ==> Genuine(w, w.lock.content.record)
  }

  ghost predicate GuardHeld(w: World, t: Token)
    requires t in w.processes
  {
    Alive(w, t) && Guarded(w.processes[t].pc) ==> w.guard
  }

  ghost predicate Inv(w: World) {
    && LockGenuine(w)
    && (forall t | t in w.processes :: Justified(w, t) && GuardHeld(w, t))
    && (forall t, u | t in w.processes && u in w.processes :: Exclusive(w, t, u))
  }

  /**
   Where a run may start: only dead incarnations are known, an orphaned guard
   and any temporary file may be lying about, and the lock is absent, unusable
   text, or whatever record some dead incarnation left.
   */
  ghost predicate Init(w: World) {
    && (forall t | t in w.processes :: !w.processes[t].alive)
    && (w.lock.Present? && w.lock.content.Lease? ==> w.lock.content.record.token in w.processes)
  }

  /** How a running process `t` may change the world: its own control state, and the lock, guard and temporary file
      only when they are its to change. */
  ghost predicate Moves(w: World, w': World, t: Token) {
    && Alive(w, t) && Alive(w', t)
    && w'.processes == w.processes[t := w'.processes[t]]
    && var p, p' := w.processes[t], w'.processes[t];
    && p'.pid == p.pid && p'.user == p.user
    && LockGenuine(w')
    && Justified(w', t) && GuardHeld(w', t)
    && (w'.lock == w.lock
        || w.lock.Absent?
        || (p.pc.Writing? && w.lock.Present? && w.lock.content.Empty?)
        || Names(w.lock, t)
        || (p.pc.Unlinking? && w'.lock.Absent? && Names(w.lock, p.pc.seen.token) && Dead(w, p.pc.seen.token)))
    && (w'.guard != w.guard ==> if w'.guard then !w.guard else Guarded(p.pc))
    && (Guarded(p'.pc) && !Guarded(p.pc) ==> !w.guard)
    && (w'.temp != w.temp ==> Leased(p.pc))
    && (p'.pc.Writing? ==> w.lock.Absent?)
  }

  lemma MovesKeepOther(w: World, w': World, t: Token, u: Token)
    requires Moves(w, w', t) && u in w.processes && u != t
    requires Justified(w, t) && Justified(w, u) && Exclusive(w, t, u) && GuardHeld(w, u)
    ensures Justified(w', u) && GuardHeld(w', u) && Exclusive(w', t, u) && Exclusive(w', u, t)
  {
  }

  lemma MovesKeepInv(w: World, w': World, t: Token)
    requires Inv(w) && Moves(w, w', t)
    ensures Inv(w')
  {
    forall u | u in w'.processes
      ensures Justified(w', u) && GuardHeld(w', u)
    {
      if u != t {
        assert Exclusive(w, t, u);
        MovesKeepOther(w, w', t, u);
      }
    }
    forall u, v | u in w'.processes && v in w'.processes
      ensures Exclusive(w', u, v)
    {
      assert Exclusive(w, u, v);
      if u == t && v != t {
        MovesKeepOther(w, w', t, v);
      } else if v == t && u != t {
        assert Exclusive(w, t, u);
        MovesKeepOther(w, w', t, u);
      }
    }
  }

  lemma CreateMoves(w: World, t: Token, fails: bool, version: nat)
    requires Alive(w, t) && w.processes[t].pc.Creating? && LockGenuine(w) && Justified(w, t)
    ensures Moves(w, AdvanceAcquire(w, t, fails, version), t)
  {
  }

  lemma WriteMoves(w: World, t: Token, fails: bool, version: nat)
    requires Alive(w, t) && w.processes[t].pc.Writing? && LockGenuine(w) && Justified(w, t)
    ensures Moves(w, AdvanceAcquire(w, t, fails, version), t)
  {
  }

  lemma StatMoves(w: World, t: Token, fails: bool, version: nat)
    requires Alive(w, t) && w.processes[t].pc.Statting? && LockGenuine(w) && Justified(w, t)
    ensures Moves(w, AdvanceAcquire(w, t, fails, version), t)
  {
  }

  lemma ReadMoves(w: World, t: Token, fails: bool, version: nat)
    requires Alive(w, t) && w.processes[t].pc.Reading? && LockGenuine(w) && Justified(w, t)
    ensures Moves(w, AdvanceAcquire(w, t, fails, version), t)
  {
  }

  lemma JudgeMoves(w: World, t: Token, fails: bool, version: nat)
    requires Alive(w, t) && w.processes[t].pc.Judging? && LockGenuine(w) && Justified(w, t)
    ensures Moves(w, AdvanceAcquire(w, t, fails, version), t)
  {
  }

  lemma GuardMoves(w: World, t: Token, fails: bool)
    requires Alive(w, t) && w.processes[t].pc.Guarding? && LockGenuine(w) && Justified(w, t) && GuardHeld(w, t)
    ensures Moves(w, AdvanceRemoval(w, t, fails), t)
  {
  }

  lemma RestatMoves(w: World, t: Token, fails: bool)
    requires Alive(w, t) && w.processes[t].pc.GuardStatting? && LockGenuine(w) && Justified(w, t) && GuardHeld(w, t)
    ensures Moves(w, AdvanceRemoval(w, t, fails), t)
  {
  }

  lemma RereadMoves(w: World, t: Token, fails: bool)
    requires Alive(w, t) && w.processes[t].pc.GuardReading? && LockGenuine(w) && Justified(w, t) && GuardHeld(w, t)
    ensures Moves(w, AdvanceRemoval(w, t, fails), t)
  {
  }

  lemma RejudgeMoves(w: World, t: Token, fails: bool)
    requires Alive(w, t) && w.processes[t].pc.GuardJudging? && LockGenuine(w) && Justified(w, t) && GuardHeld(w, t)
    ensures Moves(w, AdvanceRemoval(w, t, fails), t)
  {
  }

  lemma UnlinkMoves(w: World, t: Token, fails: bool)
    requires Alive(w, t) && w.processes[t].pc.Unlinking? && LockGenuine(w) && Justified(w, t) && GuardHeld(w, t)
    ensures Moves(w, AdvanceRemoval(w, t, fails), t)
  {
  }

  lemma UnguardMoves(w: World, t: Token, fails: bool)
    requires Alive(w, t) && w.processes[t].pc.Unguarding? && LockGenuine(w) && Justified(w, t) && GuardHeld(w, t)
    ensures Moves(w, AdvanceRemoval(w, t, fails), t)
  {
  }

  lemma OpenTemporaryMoves(w: World, t: Token, fails: bool, version: nat)
    requires Alive(w, t) && w.processes[t].pc.BindOpening? && LockGenuine(w) && Justified(w, t)
    ensures Moves(w, AdvanceLease(w, t, fails, version), t)
  {
  }

  lemma WriteTemporaryMoves(w: World, t: Token, fails: bool, version: nat)
    requires Alive(w, t) && w.processes[t].pc.BindWriting? && LockGenuine(w) && Justified(w, t)
    ensures Moves(w, AdvanceLease(w, t, fails, version), t)
  {
  }

  lemma ReplaceMoves(w: World, t: Token, fails: bool, version: nat)
    requires Alive(w, t) && w.processes[t].pc.BindReplacing? && LockGenuine(w) && Justified(w, t)
    ensures Moves(w, AdvanceLease(w, t, fails, version), t)
  {
  }

  lemma CheckMoves(w: World, t: Token, fails: bool, version: nat)
    requires Alive(w, t) && w.processes[t].pc.ReleaseChecking? && LockGenuine(w) && Justified(w, t)
    ensures Moves(w, AdvanceLease(w, t, fails, version), t)
  {
  }

  lemma ReadOwnMoves(w: World, t: Token, fails: bool, version: nat)
    requires Alive(w, t) && w.processes[t].pc.ReleaseReading? && LockGenuine(w) && Justified(w, t)
    ensures Moves(w, AdvanceLease(w, t, fails, version), t)
  {
  }

  lemma UnlinkOwnMoves(w: World, t: Token, fails: bool, version: nat)
    requires Alive(w, t) && w.processes[t].pc.ReleaseUnlinking? && LockGenuine(w) && Justified(w, t)
    ensures Moves(w, AdvanceLease(w, t, fails, version), t)
  {
  }

  lemma AcquireMoves(w: World, t: Token, fails: bool, version: nat)
    requires Alive(w, t) && !Removing(w.processes[t].pc) && LockGenuine(w) && Justified(w, t)
             && AdvanceAcquire(w, t, fails, version) != w
    ensures Moves(w, AdvanceAcquire(w, t, fails, version), t)
  {
    match w.processes[t].pc {
      case Creating(_) => CreateMoves(w, t, fails, version);
      case Writing(_) => WriteMoves(w, t, fails, version);
      case Statting(_) => StatMoves(w, t, fails, version);
      case Reading(_,_) => ReadMoves(w, t, fails, version);
      case Judging(_,_,_) => JudgeMoves(w, t, fails, version);
      case _ =>
    }
  }

  lemma RemovalMoves(w: World, t: Token, fails: bool)
    requires Alive(w, t) && Removing(w.processes[t].pc) && LockGenuine(w) && Justified(w, t) && GuardHeld(w, t)
             && AdvanceRemoval(w, t, fails) != w
    ensures Moves(w, AdvanceRemoval(w, t, fails), t)
  {
    match w.processes[t].pc {
      case Guarding(_,_,_) => GuardMoves(w, t, fails);
      case GuardStatting(_,_,_) => RestatMoves(w, t, fails);
      case GuardReading(_,_,_,_) => RereadMoves(w, t, fails);
      case GuardJudging(_,_) => RejudgeMoves(w, t, fails);
      case Unlinking(_,_) => UnlinkMoves(w, t, fails);
      case Unguarding(_,_) => UnguardMoves(w, t, fails);
      case _ =>
    }
  }

  lemma LeaseMoves(w: World, t: Token, fails: bool, version: nat)
    requires Alive(w, t) && Leased(w.processes[t].pc) && LockGenuine(w) && Justified(w, t)
             && AdvanceLease(w, t, fails, version) != w
    ensures Moves(w, AdvanceLease(w, t, fails, version), t)
  {
    match w.processes[t].pc {
      case BindOpening(_) => OpenTemporaryMoves(w, t, fails, version);
      case BindWriting(_) => WriteTemporaryMoves(w, t, fails, version);
      case BindReplacing(_) => ReplaceMoves(w, t, fails, version);
      case ReleaseChecking => CheckMoves(w, t, fails, version);
      case ReleaseReading => ReadOwnMoves(w, t, fails, version);
      case ReleaseUnlinking => UnlinkOwnMoves(w, t, fails, version);
      case _ =>
    }
  }

  /** Every enabled access of a running launcher is one it is entitled to. */
  lemma AdvanceMoves(w: World, a: Action)
    requires a.Advance? && LockGenuine(w) && a.actor in w.processes && Step(w, a) != w
    requires Justified(w, a.actor) && GuardHeld(w, a.actor)
    ensures var w' := Step(w, a); Moves(w, w', a.actor)
  {
    var pc := w.processes[a.actor].pc;
    if Removing(pc) {
      RemovalMoves(w, a.actor, a.fails);
    } else if Leased(pc) {
      LeaseMoves(w, a.actor, a.fails, a.version);
    } else {
      AcquireMoves(w, a.actor, a.fails, a.version);
    }
  }

  lemma SpawnKeepsInv(w: World, a: Action)
    requires Inv(w) && a.Spawn?
    ensures Inv(Step(w, a))
  {
    var w' := Step(w, a);
    forall u | u in w'.processes
      ensures Justified(w', u) && GuardHeld(w', u)
    {
      assert u in w.processes ==> Justified(w, u) && GuardHeld(w, u);
    }
    forall u, v | u in w'.processes && v in w'.processes
      ensures Exclusive(w', u, v)
    {
      assert u in w.processes && v in w.processes ==> Exclusive(w, u, v);
    }
  }

  lemma CrashSpares(w: World, t: Token, u: Token)
    requires Alive(w, t) && u in w.processes && Justified(w, u) && GuardHeld(w, u)
    ensures Justified(Step(w, Crash(t)), u) && GuardHeld(Step(w, Crash(t)), u)
  {
  }

  lemma CrashKeepsInv(w: World, t: Token)
    requires Inv(w) && Alive(w, t)
    ensures Inv(Step(w, Crash(t)))
  {
    var w' := Step(w, Crash(t));
    forall u | u in w'.processes
      ensures Justified(w', u) && GuardHeld(w', u)
    {
      CrashSpares(w, t, u);
    }
    forall u, v | u in w'.processes && v in w'.processes
      ensures Exclusive(w', u, v)
    {
      assert Exclusive(w, u, v);
    }
  }

  /** Processes come and go without disturbing anyone's justification. */
  lemma TurnoverKeepsInv(w: World, a: Action)
    requires Inv(w) && (a.Spawn? || a.Crash?)
    ensures Inv(Step(w, a))
  {
    if a.Spawn? {
      SpawnKeepsInv(w, a);
    } else if Alive(w, a.actor) {
      CrashKeepsInv(w, a.actor);
    }
  }

  lemma StepKeepsInv(w: World, a: Action)
    requires Inv(w)
    ensures Inv(Step(w, a))
  {
    if a.Spawn? || a.Crash? {
      TurnoverKeepsInv(w, a);
    } else if Step(w, a) != w {
      var t := a.actor;
      assert Justified(w, t) && GuardHeld(w, t);
      if a.Advance? {
        AdvanceMoves(w, a);
      }
      MovesKeepInv(w, Step(w, a), t);
    }
  }

  lemma {:induction false} RunKeepsInv(w: World, actions: seq<Action>)
    requires Inv(w)
    ensures Inv(Run(w, actions))
    decreases |actions|
  {
    if actions != [] {
      StepKeepsInv(w, actions[0]);
      RunKeepsInv(Step(w, actions[0]), actions[1..]);
    }
  }

  lemma InitHasInv(w: World)
    requires Init(w)
    ensures Inv(w)
  {
  }

  // ----- Main results, over every run from every initial world

  /** At most one running process holds an unreleased lease, and the lock file names it. */
  lemma AtMostOneLease(start: World, actions: seq<Action>, t: Token, u: Token)
    requires Init(start)
    requires var w := Run(start, actions); Alive(w, t) && Leased(w.processes[t].pc)
    ensures var w := Run(start, actions);
            && Names(w.lock, t)
            && (Alive(w, u) && Leased(w.processes[u].pc) ==> t == u)
  {
    InitHasInv(start);
    RunKeepsInv(start, actions);
    var w := Run(start, actions);
    assert Justified(w, t);
    assert u in w.processes ==> Justified(w, u);
  }

  /** Whatever takes the lock file away is its owner's release, or removes the record of a dead incarnation. */
  lemma UnlinkSparesTheLiving(start: World, actions: seq<Action>, a: Action)
    requires Init(start)
    requires Run(start, actions).lock.Present? && Step(Run(start, actions), a).lock.Absent?
    ensures var w := Run(start, actions);
            && w.lock.content.Lease?
            && var owner := w.lock.content.record.token;
            if a.actor == owner then Alive(w, owner) && w.processes[owner].pc.ReleaseUnlinking? else Dead(w, owner)
  {
    InitHasInv(start);
    RunKeepsInv(start, actions);
    var w := Run(start, actions);
    assert Alive(w, a.actor) ==> Justified(w, a.actor);
  }

  /** No schedule of other launchers, crashes and new processes touches the lock or the state of a leaseholder. */
  lemma {:induction false} OthersCannotTakeALease(w: World, t: Token, actions: seq<Action>)
    requires Inv(w) && Alive(w, t) && Leased(w.processes[t].pc)
    requires forall a | a in actions :: a.actor != t
    ensures var w' := Run(w, actions); w'.lock == w.lock && Alive(w', t) && w'.processes[t] == w.processes[t]
    decreases |actions|
  {
    if actions != [] {
      var a := actions[0];
      StepKeepsInv(w, a);
      OtherStepSparesLease(w, t, a);
      OthersCannotTakeALease(Step(w, a), t, actions[1..]);
    }
  }

  lemma OtherStepSparesLease(w: World, t: Token, a: Action)
    requires Inv(w) && Alive(w, t) && Leased(w.processes[t].pc) && a.actor != t
    ensures var w' := Step(w, a); w'.lock == w.lock && Alive(w', t) && w'.processes[t] == w.processes[t]
  {
    assert Justified(w, t);
    if a.actor in w.processes {
      assert Justified(w, a.actor) && GuardHeld(w, a.actor);
      if a.Advance? && Step(w, a) != w {
        AdvanceMoves(w, a);
      }
    }
  }

  /** An acquisition never makes more tries than it was allowed. */
  lemma TriesAreBounded(start: World, actions: seq<Action>, t: Token)
    requires Init(start) && Alive(Run(start, actions), t)
    ensures var p := Run(start, actions).processes[t]; p.tries <= p.maxAttempts
  {
    InitHasInv(start);
    RunKeepsInv(start, actions);
    assert Justified(Run(start, actions), t);
  }

  /** A launcher that gives way was just told of a running process of its own user, and gets that user's pipe. */
  lemma DeferralIsTrustworthy(start: World, actions: seq<Action>, a: Action)
    requires Init(start) && a.Advance?
    requires var w := Run(start, actions);
             Alive(w, a.actor) && w.processes[a.actor].pc.Judging? && Step(w, a).processes[a.actor].pc.Deferred?
    ensures var w := Run(start, actions);
            var peer := w.processes[a.actor].pc.seen.token;
            && Alive(w, peer)
            && w.processes[peer].user == w.processes[a.actor].user
            && Step(w, a).processes[a.actor].pc.endpoint == EndpointOf(w.processes[peer].user)
  {
    InitHasInv(start);
    RunKeepsInv(start, actions);
    assert Justified(Run(start, actions), a.actor);
  }

  /** An unusable lock that nobody is about to write: what is left when the create is not
      followed by a successful write. */
  ghost predicate Wedged(w: World) {
    && w.lock.Present? && !w.lock.content.Lease?
    && forall t | t in w.processes :: Alive(w, t) ==> !w.processes[t].pc.Writing?
  }

  lemma StepKeepsWedged(w: World, a: Action)
    requires Inv(w) && Wedged(w)
    ensures Wedged(Step(w, a)) && Step(w, a).lock == w.lock
  {
    if a.actor in w.processes {
      assert Justified(w, a.actor) && GuardHeld(w, a.actor);
      if a.Advance? && Step(w, a) != w {
        AdvanceMoves(w, a);
      }
    }
  }

  /** From then on the lock never changes and nobody ever acquires: the launcher refuses for ever, safely. */
  lemma {:induction false} WedgedForEver(w: World, actions: seq<Action>)
    requires Inv(w) && Wedged(w)
    ensures var w' := Run(w, actions);
            w'.lock == w.lock && forall t | t in w'.processes :: Alive(w', t) ==> !Leased(w'.processes[t].pc)
    decreases |actions|
  {
    if actions == [] {
      forall t | t in w.processes && Alive(w, t)
        ensures !Leased(w.processes[t].pc)
      {
        assert Justified(w, t);
      }
    } else {
      StepKeepsInv(w, actions[0]);
      StepKeepsWedged(w, actions[0]);
      WedgedForEver(Step(w, actions[0]), actions[1..]);
    }
  }

  /** A stale lock whose guard nobody holds any more. */
  ghost predicate Orphaned(w: World, dead: Token) {
    && w.guard && Names(w.lock, dead) && Dead(w, dead)
    && forall t | t in w.processes :: Alive(w, t) ==> !Guarded(w.processes[t].pc)
  }

  lemma StepKeepsOrphaned(w: World, a: Action, dead: Token)
    requires Inv(w) && Orphaned(w, dead)
    ensures Orphaned(Step(w, a), dead) && Step(w, a).lock == w.lock
  {
    if a.actor in w.processes {
      assert Justified(w, a.actor) && GuardHeld(w, a.actor);
      if a.Advance? && Step(w, a) != w {
        AdvanceMoves(w, a);
      }
    }
  }

  /** An orphaned guard keeps the stale lock in place, and every launcher out, for ever. */
  lemma {:induction false} OrphanedForEver(w: World, actions: seq<Action>, dead: Token)
    requires Inv(w) && Orphaned(w, dead)
    ensures var w' := Run(w, actions);
            && w'.lock == w.lock && w'.guard
            && forall t | t in w'.processes :: Alive(w', t) ==> !Leased(w'.processes[t].pc)
    decreases |actions|
  {
    if actions == [] {
      forall t | t in w.processes && Alive(w, t)
        ensures !Leased(w.processes[t].pc)
      {
        assert Justified(w, t);
      }
    } else {
      StepKeepsInv(w, actions[0]);
      StepKeepsOrphaned(w, actions[0], dead);
      OrphanedForEver(Step(w, actions[0]), actions[1..], dead);
    }
  }
}
