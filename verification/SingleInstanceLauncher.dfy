/**
 The acquisition procedure as the launcher runs it: the retry loop, the two
 reads of the lock and the guarded removal, each file access preceded by
 whatever the other launchers do in the meantime.  Every run of it is a run of
 the protocol in `SingleInstanceProtocol`.
 */
module SingleInstanceLauncher {
  import opened Prelude
  import opened SingleInstanceProtocol

  /** Before one access of ours: the actions of the others, whether the access raises
      `OSError`, and the stat it would leave. */
  datatype Turn = Turn(others: seq<Action>, fails: bool, version: nat)

  datatype Outcome =
    | Acquired(endpoint: string)
    | Existing(endpoint: string, service: Option<string>)
    | Raised(failure: Failure)
    | InvalidArgument

  datatype Reading = Missing | Unusable | Found(record: Record, version: nat)

  predicate ByOthers(actions: seq<Action>, me: Token) {
    forall a | a in actions :: a.actor != me
  }

  lemma {:induction false} RunAppend(w: World, first: seq<Action>, second: seq<Action>)
    ensures Run(w, first + second) == Run(Run(w, first), second)
    decreases |first|
  {
    if first == [] {
      assert first + second == second;
    } else {
      assert (first + second)[1..] == first[1..] + second;
      RunAppend(Step(w, first[0]), first[1..], second);
    }
  }

  /** Others never write a launcher's own entry in the process table. */
  lemma {:induction false} OthersLeaveMyEntry(w: World, actions: seq<Action>, me: Token)
    requires Alive(w, me) && ByOthers(actions, me)
    ensures Alive(Run(w, actions), me) && Run(w, actions).processes[me] == w.processes[me]
    decreases |actions|
  {
    if actions != [] {
      OthersLeaveMyEntry(Step(w, actions[0]), actions[1..], me);
    }
  }

  /** What the others do before our next access. */
  function Pending(turns: seq<Turn>): seq<Action> {
    if turns == [] then [] else turns[0].others
  }

  /** Only file contents and control states may differ: same guard, same processes with the same pids and users. */
  ghost predicate Still(before: World, after: World) {
    && after.guard == before.guard
    && after.processes.Keys == before.processes.Keys
    && forall t | t in before.processes ::
         after.processes[t].alive == before.processes[t].alive && after.processes[t].pid == before.processes[t].pid
  }

  /** The lock names `me`, and nobody else that runs has an unreleased lease. */
  ghost predicate SoleHolder(w: World, me: Token) {
    Names(w.lock, me) && forall t | t in w.processes && Alive(w, t) && Leased(w.processes[t].pc) :: t == me
  }

  class Launcher {
    const me: Token
    ghost const origin: World
    ghost var trace: seq<Action>
    var world: World
    var turns: seq<Turn>

    constructor (me: Token, world: World, turns: seq<Turn>)
      requires Alive(world, me) && forall turn | turn in turns :: ByOthers(turn.others, me)
      ensures Valid() && this.me == me && this.world == world && this.turns == turns && this.origin == world
              && trace == []
    {
      this.me, this.world, this.turns, this.origin, this.trace := me, world, turns, world, [];
    }

    /** The world is what the recorded actions make of the original one. */
    ghost predicate Valid()
      reads this
    {
      && Alive(world, me)
      && (forall turn | turn in turns :: ByOthers(turn.others, me))
      && world == Run(origin, trace)
    }

    function Self(): Process
      requires Alive(world, me)
      reads this
    {
      world.processes[me]
    }

    /** Nobody else moves and no access fails from here on. */
    predicate Quiet()
      reads this
    {
      turns == []
    }

    /** No access of ours fails, whatever the others do. */
    predicate Faultless()
      reads this
    {
      forall turn | turn in turns :: !turn.fails
    }

    /** The others take their turn. */
    method Others() returns (fails: bool, version: nat)
      requires Valid()
      modifies this
      ensures Valid() && Self() == old(Self()) && old(trace) <= trace
      ensures world == Run(old(world), Pending(old(turns)))
      ensures old(Quiet()) ==> Quiet() && !fails && version == 0 && world == old(world)
      ensures old(Faultless()) ==> Faultless() && !fails
    {
      fails, version := false, 0;
      if turns != [] {
        var turn := turns[0];
        RunAppend(origin, trace, turn.others);
        OthersLeaveMyEntry(world, turn.others, me);
        trace := trace + turn.others;
        world := Run(world, turn.others);
        fails, version := turn.fails, turn.version;
        turns := turns[1..];
      }
    }

    /** Replaces our own entry; the world since `before` is one protocol step of ours. */
    method Become(self: Process, ghost before: World, ghost a: Action)
      requires Alive(world, me) && before == Run(origin, trace) && a.actor == me
      requires self.alive && self.pid == Self().pid
      requires Step(before, a) == world.(processes := world.processes[me := self])
      requires forall turn | turn in turns :: ByOthers(turn.others, me)
      modifies this`world, this`trace
      ensures Valid() && old(trace) <= trace && world == old(world).(processes := old(world).processes[me := self])
      ensures Still(old(world), world)
    {
      RunAppend(origin, trace, [a]);
      trace := trace + [a];
      world := world.(processes := world.processes[me := self]);
    }

    /** Moves on to `pc`; the world since `before` is one protocol step of ours. */
    method Goto(pc: Pc, ghost before: World, ghost a: Action)
      requires Alive(world, me) && before == Run(origin, trace) && a.actor == me
      requires Step(before, a) == At(world, me, pc)
      requires forall turn | turn in turns :: ByOthers(turn.others, me)
      modifies this`world, this`trace
      ensures Valid() && old(trace) <= trace && world == At(old(world), me, pc) && Still(old(world), world)
    {
      Become(Self().(pc := pc), before, a);
    }

    /** `os.open(lock_path, O_CREAT | O_EXCL)`: the new file, or `FileExistsError`, or another `OSError`. */
    method OpenLockExclusive(attempt: nat) returns (file: Option<nat>, fails: bool)
      requires Valid() && Self().pc == Creating(attempt)
      modifies this
      ensures Valid() && old(trace) <= trace
      ensures Self() == old(Self()).(tries := old(Self()).tries + 1,
                pc := if fails then Refused(Conflict)
                    else if file.None? then Statting(attempt) else Writing(file.value))
      ensures old(Quiet()) ==>
        && Quiet() && !fails && Still(old(world), world) && (file.Some? <==> old(world.lock.Absent?))
        && world.lock == (if file.Some? then Present(file.value, 0, Empty) else old(world.lock))
    {
      var version;
      fails, version := Others();
      ghost var before := world;
      file := if fails || world.lock.Present? then None else Some(world.nextFile);
      if file.Some? {
        world := world.(lock := Present(world.nextFile, version, Empty), nextFile := world.nextFile + 1);
      }
      var self := Self().(tries := Self().tries + 1,
                          pc := if fails then Refused(Conflict)
                              else if file.None? then Statting(attempt) else Writing(file.value));
      Become(self, before, Advance(me, fails, version));
    }

    /** `os.write(descriptor, encoded)`. */
    method WriteLock(file: nat) returns (fails: bool)
      requires Valid() && Self().pc == Writing(file)
      modifies this
      ensures Valid() && old(trace) <= trace
      ensures Self() == old(Self()).(pc := if fails then Refused(OsError) else Holding)
      ensures old(Quiet()) && old(world.lock) == Present(file, 0, Empty) ==>
        && Quiet() && !fails && Still(old(world), world)
        && world.lock == Present(file, 0, Lease(OwnRecord(me, Self(), None)))
    {
      var version;
      fails, version := Others();
      ghost var before := world;
      ghost var a := Advance(me, fails, version);
      if fails {
        Goto(Refused(OsError), before, a);
      } else {
        if world.lock.Present? && world.lock.file == file {
          world := world.(lock := Present(file, version, Lease(OwnRecord(me, Self(), None))));
        }
        Goto(Holding, before, a);
      }
    }

    /** `path.stat()` of the acquisition; none when the file is missing or unreadable. */
    method StatLock(attempt: nat) returns (version: Option<nat>, fails: bool)
      requires Valid() && Self().pc == Statting(attempt)
      modifies this
      ensures Valid() && old(trace) <= trace
      ensures Self() == old(Self()).(pc := if fails then Refused(Untrusted)
                else if version.None? then Retry(old(Self()), attempt) else Reading(attempt, version.value))
      ensures old(Quiet()) ==>
        && Quiet() && !fails && Still(old(world), world) && world.lock == old(world.lock)
        && version == (if world.lock.Absent? then None else Some(world.lock.version))
    {
      var unused;
      fails, unused := Others();
      ghost var before := world;
      ghost var a := Advance(me, fails, unused);
      version := None;
      if fails {
        Goto(Refused(Untrusted), before, a);
      } else if world.lock.Absent? {
        Goto(Retry(Self(), attempt), before, a);
      } else {
        version := Some(world.lock.version);
        Goto(Reading(attempt, world.lock.version), before, a);
      }
    }

    /** `path.read_text()` of the acquisition. */
    method ReadLock(attempt: nat, version: nat) returns (content: Option<Content>, fails: bool)
      requires Valid() && Self().pc == Reading(attempt, version)
      modifies this
      ensures Valid() && old(trace) <= trace
      ensures Self() == old(Self()).(pc := if fails then Refused(Untrusted)
                else if content.None? then Retry(old(Self()), attempt)
                    else Examine(old(Self()), attempt, version, content.value))
      ensures old(Quiet()) ==>
        && Quiet() && !fails && Still(old(world), world) && world.lock == old(world.lock)
        && content == (if world.lock.Absent? then None else Some(world.lock.content))
    {
      var unused;
      fails, unused := Others();
      ghost var before := world;
      ghost var a := Advance(me, fails, unused);
      content := None;
      if fails {
        Goto(Refused(Untrusted), before, a);
      } else if world.lock.Absent? {
        Goto(Retry(Self(), attempt), before, a);
      } else {
        content := Some(world.lock.content);
        Goto(Examine(Self(), attempt, version, world.lock.content), before, a);
      }
    }

    /** `_read_existing_lock` of the acquisition. */
    method ReadExistingLock(attempt: nat) returns (reading: Reading)
      requires Valid() && Self().pc == Statting(attempt)
      modifies this
      ensures Valid() && old(trace) <= trace
      ensures Self() == old(Self()).(pc := match reading
                case Missing => Retry(old(Self()), attempt)
                case Unusable => Refused(Untrusted)
                case Found(record, version) => Examine(old(Self()), attempt, version, Lease(record)))
      ensures old(Quiet()) ==> Quiet() && Still(old(world), world) && world.lock == old(world.lock)
      ensures old(Quiet()) ==>
        reading == if old(world.lock).Absent? then Missing
                   else if !old(world.lock).content.Lease? then Unusable
                   else Found(old(world.lock).content.record, old(world.lock).version)
    {
      var version, fails := StatLock(attempt);
      if fails {
        return Unusable;
      }
      if version.None? {
        return Missing;
      }
      var content;
      content, fails := ReadLock(attempt, version.value);
      if fails {
        return Unusable;
      }
      if content.None? {
        return Missing;
      }
      if !content.value.Lease? {
        return Unusable;
      }
      return Found(content.value.record, version.value);
    }

    /** `resolve_process(existing_pid) == existing_token` of the acquisition. */
    method JudgeOwner(attempt: nat, version: nat, seen: Record) returns (running: bool)
      requires Valid() && Self().pc == Judging(attempt, version, seen)
      modifies this
      ensures Valid() && old(trace) <= trace
      ensures Self() == old(Self()).(pc := if running then Deferred(seen.endpoint, NonEmpty(seen.service))
                else Guarding(attempt, version, seen))
      ensures old(Quiet()) ==>
        && Quiet() && Still(old(world), world) && world.lock == old(world.lock)
        && running == IsRunning(old(world), seen.pid, seen.token)
    {
      var fails, unused := Others();
      ghost var before := world;
      ghost var a := Advance(me, fails, unused);
      running := IsRunning(world, seen.pid, seen.token);
      if running {
        Goto(Deferred(seen.endpoint, NonEmpty(seen.service)), before, a);
      } else {
        Goto(Guarding(attempt, version, seen), before, a);
      }
    }

    /** `os.open(guard_path, O_CREAT | O_EXCL)`. */
    method OpenGuard(attempt: nat, version: nat, seen: Record) returns (taken: bool, fails: bool)
      requires Valid() && Self().pc == Guarding(attempt, version, seen)
      modifies this
      ensures Valid() && old(trace) <= trace
      ensures Self() == old(Self()).(pc := if fails then Refused(OsError)
                else if taken then GuardStatting(attempt, version, seen) else Retry(old(Self()), attempt))
      ensures old(Quiet()) ==>
        && Quiet() && !fails && taken == !old(world.guard) && world.lock == old(world.lock)
        && Still(old(world).(guard := true), world)
    {
      var unused;
      fails, unused := Others();
      ghost var before := world;
      ghost var a := Advance(me, fails, unused);
      taken := false;
      if fails {
        Goto(Refused(OsError), before, a);
      } else if world.guard {
        Goto(Retry(Self(), attempt), before, a);
      } else {
        taken := true;
        world := world.(guard := true);
        Goto(GuardStatting(attempt, version, seen), before, a);
      }
    }

    /** `path.stat()` under the guard. */
    method RestatLock(attempt: nat, version: nat, seen: Record) returns (current: Option<nat>, fails: bool)
      requires Valid() && Self().pc == GuardStatting(attempt, version, seen)
      modifies this
      ensures Valid() && old(trace) <= trace
      ensures Self() == old(Self()).(pc := if fails then Unguarding(attempt, Some(Untrusted))
                else if current.None? then Unguarding(attempt, None)
                    else GuardReading(attempt, version, seen, current.value))
      ensures old(Quiet()) ==>
        && Quiet() && !fails && Still(old(world), world) && world.lock == old(world.lock)
        && current == (if world.lock.Absent? then None else Some(world.lock.version))
    {
      var unused;
      fails, unused := Others();
      ghost var before := world;
      ghost var a := Advance(me, fails, unused);
      current := None;
      if fails {
        Goto(Unguarding(attempt, Some(Untrusted)), before, a);
      } else if world.lock.Absent? {
        Goto(Unguarding(attempt, None), before, a);
      } else {
        current := Some(world.lock.version);
        Goto(GuardReading(attempt, version, seen, world.lock.version), before, a);
      }
    }

    /** `path.read_text()` under the guard, and the comparison with what was judged. */
    method RereadLock(attempt: nat, version: nat, seen: Record, current: nat)
        returns (same: bool, raised: Option<Failure>)
      requires Valid() && Self().pc == GuardReading(attempt, version, seen, current)
      modifies this
      ensures Valid() && old(trace) <= trace && (same ==> raised.None?)
      ensures Self() == old(Self()).(pc := if same then GuardJudging(attempt, seen) else Unguarding(attempt, raised))
      ensures old(Quiet()) ==>
        && Quiet() && Still(old(world), world) && world.lock == old(world.lock)
        && same == (world.lock.Present? && Unchanged(version, current, seen, world.lock.content))
        && raised == (if world.lock.Present? && !world.lock.content.Lease? then Some(Untrusted) else None)
    {
      var fails, unused := Others();
      ghost var before := world;
      ghost var a := Advance(me, fails, unused);
      same, raised := false, None;
      if fails || (world.lock.Present? && !world.lock.content.Lease?) {
        raised := Some(Untrusted);
        Goto(Unguarding(attempt, raised), before, a);
      } else if world.lock.Present? && Unchanged(version, current, seen, world.lock.content) {
        same := true;
        Goto(GuardJudging(attempt, seen), before, a);
      } else {
        Goto(Unguarding(attempt, None), before, a);
      }
    }

    /** `process_identity(expected_pid) != expected_token` under the guard. */
    method RejudgeOwner(attempt: nat, seen: Record) returns (running: bool)
      requires Valid() && Self().pc == GuardJudging(attempt, seen)
      modifies this
      ensures Valid() && old(trace) <= trace
      ensures Self() == old(Self()).(pc := if running then Unguarding(attempt, None) else Unlinking(attempt, seen))
      ensures old(Quiet()) ==>
        && Quiet() && Still(old(world), world) && world.lock == old(world.lock)
        && running == IsRunning(old(world), seen.pid, seen.token)
    {
      var fails, unused := Others();
      ghost var before := world;
      ghost var a := Advance(me, fails, unused);
      running := IsRunning(world, seen.pid, seen.token);
      if running {
        Goto(Unguarding(attempt, None), before, a);
      } else {
        Goto(Unlinking(attempt, seen), before, a);
      }
    }

    /** `lock_path.unlink(missing_ok=True)` under the guard. */
    method UnlinkLock(attempt: nat, seen: Record) returns (raised: Option<Failure>)
      requires Valid() && Self().pc == Unlinking(attempt, seen)
      modifies this
      ensures Valid() && old(trace) <= trace
      ensures Self() == old(Self()).(pc := Unguarding(attempt, raised))
      ensures old(Quiet()) ==> Quiet() && raised.None? && Still(old(world), world) && world.lock.Absent?
    {
      var fails, unused := Others();
      ghost var before := world;
      ghost var a := Advance(me, fails, unused);
      if fails {
        raised := Some(OsError);
      } else {
        raised := None;
        world := world.(lock := Absent);
      }
      Goto(Unguarding(attempt, raised), before, a);
    }

    /** `guard_path.unlink(missing_ok=True)`, whichever way the `try` was left; its own
        `OSError` replaces what was raised. */
    method DropGuard(attempt: nat, raised: Option<Failure>) returns (finally: Option<Failure>, fails: bool)
      requires Valid() && Self().pc == Unguarding(attempt, raised)
      modifies this
      ensures Valid() && old(trace) <= trace
      ensures finally == if fails then Some(OsError) else raised
      ensures Self() == old(Self()).(pc := if finally.Some? then Refused(finally.value)
              else Retry(old(Self()), attempt))
      ensures !fails ==> !world.guard
      ensures fails && Inv(old(world)) ==> world.guard
      ensures old(Quiet()) ==> Quiet() && !fails
      ensures old(Quiet()) ==> Still(old(world).(guard := false), world) && world.lock == old(world.lock)
    {
      var unused;
      ghost var start, turn := world, Pending(turns);
      fails, unused := Others();
      ghost var before := world;
      ghost var a := Advance(me, fails, unused);
      finally := if fails then Some(OsError) else raised;
      if fails {
        if Inv(start) {
          RunKeepsInv(start, turn);
          assert GuardHeld(before, me);
        }
      } else {
        world := world.(guard := false);
      }
      Goto(if finally.Some? then Refused(finally.value) else Retry(Self(), attempt), before, a);
    }

    /** The lock after an undisturbed guarded removal: gone if it is the one that was judged
        and its owner does not run. */
    ghost function Cleared(w: World, version: nat, seen: Record): LockFile {
      if w.lock.Present? && Unchanged(version, w.lock.version, seen, w.lock.content)
          && !IsRunning(w, seen.pid, seen.token)
      then Absent else w.lock
    }

    /** `_read_existing_lock` under the guard, and whether the lock is still the one that was judged. */
    method RereadExistingLock(attempt: nat, version: nat, seen: Record) returns (same: bool, raised: Option<Failure>)
      requires Valid() && Self().pc == GuardStatting(attempt, version, seen)
      modifies this
      ensures Valid() && old(trace) <= trace && (same ==> raised.None?)
      ensures Self() == old(Self()).(pc := if same then GuardJudging(attempt, seen) else Unguarding(attempt, raised))
      ensures old(Quiet()) ==>
        && Quiet() && Still(old(world), world) && world.lock == old(world.lock)
        && same == (world.lock.Present? && Unchanged(version, world.lock.version, seen, world.lock.content))
        && raised == (if world.lock.Present? && !world.lock.content.Lease? then Some(Untrusted) else None)
    {
      var current, fails := RestatLock(attempt, version, seen);
      if fails {
        return false, Some(Untrusted);
      }
      if current.None? {
        return false, None;
      }
      same, raised := RereadLock(attempt, version, seen, current.value);
    }

    /** The `try` block of `_remove_stale_lock`: re-read, compare, re-judge, unlink. */
    method RemoveIfUnchanged(attempt: nat, version: nat, seen: Record) returns (raised: Option<Failure>)
      requires Valid() && Self().pc == GuardStatting(attempt, version, seen)
      modifies this
      ensures Valid() && old(trace) <= trace
      ensures Self() == old(Self()).(pc := Unguarding(attempt, raised))
      ensures old(Quiet()) ==>
        && Quiet() && Still(old(world), world) && world.lock == Cleared(old(world), version, seen)
        && raised == (if old(world.lock).Present? && !old(world.lock).content.Lease? then Some(Untrusted) else None)
    {
      var same;
      same, raised := RereadExistingLock(attempt, version, seen);
      if same {
        var running := RejudgeOwner(attempt, seen);
        if !running {
          raised := UnlinkLock(attempt, seen);
        }
      }
    }

    /** `_remove_stale_lock`. */
    method RemoveStaleLock(attempt: nat, version: nat, seen: Record) returns (raised: Option<Failure>)
      requires Valid() && Self().pc == Guarding(attempt, version, seen)
      modifies this
      ensures Valid() && old(trace) <= trace
      ensures Self() == old(Self()).(pc := if raised.Some? then Refused(raised.value) else Retry(old(Self()), attempt))
      ensures old(Quiet()) ==> Quiet() && Still(old(world), world)
      ensures old(Quiet()) && old(world.guard) ==> raised.None? && world.lock == old(world.lock)
      ensures old(Quiet()) && !old(world.guard) ==>
        && world.lock == Cleared(old(world), version, seen)
        && raised == (if old(world.lock).Present? && !old(world.lock).content.Lease? then Some(Untrusted) else None)
    {
      var taken, fails := OpenGuard(attempt, version, seen);
      if fails {
        return Some(OsError);
      }
      if !taken {
        return None;
      }
      raised := RemoveIfUnchanged(attempt, version, seen);
      raised, fails := DropGuard(attempt, raised);
    }

    /** What an undisturbed look at an existing lock comes to; none if its owner does not run. */
    ghost function Contested(w: World): Option<Outcome>
      requires Alive(w, me) && w.lock.Present?
    {
      if !w.lock.content.Lease? then Some(Raised(Untrusted))
      else
        var r := w.lock.content.record;
        if r.user != w.processes[me].user then Some(Raised(UserMismatch))
        else if !TrustedFields(r) then Some(Raised(Untrusted))
        else if IsRunning(w, r.pid, r.token) then Some(Existing(r.endpoint, NonEmpty(r.service)))
        else None
    }

    /** The lock after that: a stale one is removed unless somebody has the guard. */
    ghost function LockAfterContest(w: World): LockFile
      requires Alive(w, me) && w.lock.Present?
    {
      if Contested(w).None? && !w.guard then Absent else w.lock
    }

    /** A trusted lock: its owner's endpoint if the owner runs, and otherwise its removal. */
    method DeferOrRemove(attempt: nat, version: nat, existing: Record) returns (outcome: Option<Outcome>)
      requires Valid() && Self().pc == Judging(attempt, version, existing)
      modifies this
      ensures Valid() && old(trace) <= trace
      ensures outcome.Some? ==> outcome.value.Raised? || outcome.value.Existing?
      ensures Self() == old(Self()).(pc := match outcome
                case None => Retry(old(Self()), attempt)
                case Some(Existing(endpoint, service)) => Deferred(endpoint, service)
                case Some(Raised(failure)) => Refused(failure)
                case _ => Idle)
      ensures old(Quiet()) ==> Quiet() && Still(old(world), world)
      ensures old(Quiet()) && IsRunning(old(world), existing.pid, existing.token) ==>
        outcome == Some(Existing(existing.endpoint, NonEmpty(existing.service))) && world.lock == old(world.lock)
      ensures old(Quiet()) && !IsRunning(old(world), existing.pid, existing.token)
              && old(world.lock).Present? && old(world.lock).content == Lease(existing)
              && old(world.lock).version == version ==>
        outcome.None? && world.lock == if old(world.guard) then old(world.lock) else Absent
    {
      var running := JudgeOwner(attempt, version, existing);
      if running {
        return Some(Existing(existing.endpoint, NonEmpty(existing.service)));
      }
      var raised := RemoveStaleLock(attempt, version, existing);
      outcome := if raised.Some? then Some(Raised(raised.value)) else None;
    }

    /** The `FileExistsError` branch: the outcome it raises or returns, or none when the loop goes round again. */
    method ContestExisting(attempt: nat) returns (outcome: Option<Outcome>)
      requires Valid() && Self().pc == Statting(attempt)
      modifies this
      ensures Valid() && old(trace) <= trace
      ensures outcome.Some? ==> outcome.value.Raised? || outcome.value.Existing?
      ensures Self() == old(Self()).(pc := match outcome
                case None => Retry(old(Self()), attempt)
                case Some(Existing(endpoint, service)) => Deferred(endpoint, service)
                case Some(Raised(failure)) => Refused(failure)
                case _ => Idle)
      ensures old(Quiet()) && old(world.lock.Present?) ==>
        && Quiet() && Still(old(world), world)
        && outcome == Contested(old(world)) && world.lock == LockAfterContest(old(world))
    {
      var user := Self().user;
      var reading := ReadExistingLock(attempt);
      if reading.Missing? {
        return None;
      }
      if reading.Unusable? {
        return Some(Raised(Untrusted));
      }
      var existing := reading.record;
      if existing.user != user {
        return Some(Raised(UserMismatch));
      }
      if !TrustedFields(existing) {
        return Some(Raised(Untrusted));
      }
      outcome := DeferOrRemove(attempt, reading.version, existing);
    }

    /** What an undisturbed acquisition comes to, whatever it finds. */
    ghost function Undisturbed(w: World, maxAttempts: nat): Outcome
      requires Alive(w, me)
    {
      if w.lock.Absent? then Acquired(EndpointOf(w.processes[me].user))
      else match Contested(w)
        case Some(outcome) => outcome
        case None => if maxAttempts >= 2 && !w.guard then Acquired(EndpointOf(w.processes[me].user))
            else Raised(Conflict)
    }

    /** The lock it leaves behind when it does not acquire. */
    ghost function LeftBehind(w: World): LockFile
      requires Alive(w, me)
    {
      if w.lock.Present? then LockAfterContest(w) else w.lock
    }

    method Start(maxAttempts: nat)
      requires Valid() && AtRest(Self().pc) && maxAttempts >= 1
      modifies this`world, this`trace
      ensures Valid() && old(trace) <= trace && Still(old(world), world) && world.lock == old(world.lock)
      ensures Self() == old(Self()).(maxAttempts := maxAttempts, tries := 0, pc := Creating(0))
    {
      ghost var before := world;
      world := world.(processes := world.processes[me := Self().(maxAttempts := maxAttempts, tries := 0)]);
      Goto(Creating(0), before, Begin(me, maxAttempts));
    }

    lemma LeaseIsMine()
      requires Valid() && Leased(Self().pc)
      ensures Init(origin) ==> SoleHolder(world, me)
    {
      if Init(origin) {
        AtMostOneLease(origin, trace, me, me);
        forall t | t in world.processes && Alive(world, t) && Leased(world.processes[t].pc)
          ensures t == me
        {
          AtMostOneLease(origin, trace, me, t);
        }
      }
    }

    /** What an undisturbed try comes to. */
    ghost predicate Tried(before: World, after: World, outcome: Option<Outcome>)
      requires Alive(before, me) && Alive(after, me)
    {
      && Still(before, after) && after.processes[me].user == before.processes[me].user
      && if before.lock.Absent? then
           && outcome == Some(Acquired(EndpointOf(before.processes[me].user)))
           && after.lock.Present? && after.lock.content == Lease(OwnRecord(me, after.processes[me], None))
         else outcome == Contested(before) && after.lock == LockAfterContest(before)
    }

    /** One pass of the retry loop: what it returns or raises, or none for `continue`. */
    method TryOnce(attempt: nat) returns (outcome: Option<Outcome>)
      requires Valid() && Self().pc == Creating(attempt)
      modifies this
      ensures Valid() && old(trace) <= trace
      ensures outcome != Some(InvalidArgument)
      ensures outcome.Some? && outcome.value.Acquired? ==> outcome.value.endpoint == EndpointOf(Self().user)
      ensures Self() == old(Self()).(tries := old(Self()).tries + 1, pc := match outcome
                case None => Retry(old(Self()), attempt)
                case Some(Acquired(_)) => Holding
                case Some(Existing(endpoint, service)) => Deferred(endpoint, service)
                case Some(Raised(failure)) => Refused(failure)
                case _ => Idle)
      ensures old(Quiet()) ==> Quiet() && Tried(old(world), world, outcome)
    {
      var user := Self().user;
      var file, fails := OpenLockExclusive(attempt);
      if fails {
        return Some(Raised(Conflict));
      }
      if file.None? {
        outcome := ContestExisting(attempt);
        return;
      }
      fails := WriteLock(file.value);
      outcome := Some(if fails then Raised(OsError) else Acquired(EndpointOf(user)));
    }

    /** After so many undisturbed tries the loop goes on only because it met a stale lock, and it
        cleared it unless it was guarded. */
    ghost predicate OnCourse(start: World, now: World, attempt: nat)
      requires Alive(start, me)
    {
      && Still(start, now) && now.processes[me].user == start.processes[me].user
      && if attempt == 0 then now.lock == start.lock
         else start.lock.Present? && Contested(start).None? && now.lock == LockAfterContest(start)
              && (attempt == 1 || start.guard)
    }

    /** How an undisturbed acquisition ends: its outcome, and the lock it leaves. */
    ghost predicate Ends(start: World, end: World, outcome: Outcome, maxAttempts: nat)
      requires Alive(start, me) && Alive(end, me)
    {
      && outcome == Undisturbed(start, maxAttempts) && end.guard == start.guard
      && if outcome.Acquired? then
           end.lock.Present? && end.lock.content == Lease(OwnRecord(me, end.processes[me], None))
         else end.lock == LeftBehind(start)
    }

    lemma SameContest(start: World, now: World)
      requires Alive(start, me) && Still(start, now) && now.processes[me].user == start.processes[me].user
      requires start.lock.Present? && now.lock == start.lock
      ensures Contested(now) == Contested(start) && LockAfterContest(now) == LockAfterContest(start)
    {
    }

    lemma TryGoesOn(start: World, before: World, after: World, attempt: nat)
      requires Alive(start, me) && OnCourse(start, before, attempt) && Alive(after, me) && Tried(before, after, None)
      ensures OnCourse(start, after, attempt + 1)
    {
      if before.lock.Present? {
        SameContest(start, before);
      }
    }

    lemma TryEnds(start: World, before: World, after: World, attempt: nat, outcome: Outcome, maxAttempts: nat)
      requires Alive(start, me) && OnCourse(start, before, attempt) && Alive(after, me) && attempt < maxAttempts
      requires Tried(before, after, Some(outcome))
      ensures Ends(start, after, outcome, maxAttempts)
    {
      if before.lock.Present? {
        SameContest(start, before);
      }
    }

    lemma TriesRunOut(start: World, now: World, maxAttempts: nat)
      requires Alive(start, me) && Alive(now, me) && maxAttempts >= 1 && OnCourse(start, now, maxAttempts)
      ensures Ends(start, now, Raised(Conflict), maxAttempts)
    {
    }

    method AcquireSingleInstance(maxAttempts: nat) returns (outcome: Outcome)
      requires Valid() && AtRest(Self().pc)
      modifies this
      ensures Valid() && old(trace) <= trace
      ensures outcome.InvalidArgument? <==> maxAttempts < 1
      ensures outcome.InvalidArgument? ==> world == old(world)
      ensures !outcome.InvalidArgument? ==> 1 <= Self().tries <= maxAttempts
      ensures outcome.Acquired? ==> Self().pc.Holding? && outcome.endpoint == EndpointOf(Self().user)
      ensures outcome.Existing? ==> Self().pc == Deferred(outcome.endpoint, outcome.service)
      ensures outcome.Raised? ==> Self().pc == Refused(outcome.failure)
      ensures outcome.Acquired? && Init(origin) ==> SoleHolder(world, me)
      ensures maxAttempts >= 1 && old(Quiet()) ==> Ends(old(world), world, outcome, maxAttempts)
    {
      if maxAttempts < 1 {
        return InvalidArgument;
      }
      ghost var calm, start := Quiet(), world;
      Start(maxAttempts);
      var self := Self();
      for attempt := 0 to maxAttempts
        invariant Valid() && old(trace) <= trace
        invariant Self() == self.(tries := attempt,
                                  pc := if attempt < maxAttempts then Creating(attempt) else Refused(Conflict))
        invariant calm ==> Quiet() && OnCourse(start, world, attempt)
      {
        ghost var before := world;
        var result := TryOnce(attempt);
        if result.Some? {
          outcome := result.value;
          if calm {
            TryEnds(start, before, world, attempt, outcome, maxAttempts);
          }
          if outcome.Acquired? {
            LeaseIsMine();
          }
          return;
        }
        if calm {
          TryGoesOn(start, before, world, attempt);
        }
      }
      if calm {
        TriesRunOut(start, world, maxAttempts);
      }
      return Raised(Conflict);
    }

    /** `Valid` in a world that can be reached. */
    ghost predicate Sound()
      reads this
    {
      Valid() && Inv(world) && Justified(world, me)
    }

    /** While we hold the lease, the others' turn leaves the lock and our standing alone. */
    method OthersWhileLeased() returns (fails: bool, version: nat)
      requires Sound() && Leased(Self().pc)
      modifies this
      ensures Sound() && Self() == old(Self()) && old(trace) <= trace && world.lock == old(world.lock)
      ensures old(Faultless()) ==> Faultless() && !fails
    {
      RunKeepsInv(world, Pending(turns));
      OthersCannotTakeALease(world, me, Pending(turns));
      fails, version := Others();
    }

    /** `Goto` in a reachable world. */
    method Proceed(pc: Pc, ghost before: World, ghost a: Action)
      requires Alive(world, me) && before == Run(origin, trace) && a.actor == me
      requires Inv(before) && Step(before, a) == At(world, me, pc)
      requires forall turn | turn in turns :: ByOthers(turn.others, me)
      modifies this`world, this`trace
      ensures Sound() && old(trace) <= trace && world == At(old(world), me, pc)
    {
      StepKeepsInv(before, a);
      Goto(pc, before, a);
    }

    /** `temporary.open("w")`. */
    method OpenTemporary(service: string) returns (fails: bool)
      requires Sound() && Self().pc == BindOpening(service)
      modifies this
      ensures Sound() && old(trace) <= trace && (old(Faultless()) ==> Faultless() && !fails)
      ensures Self() == old(Self()).(pc := if fails then Holding else BindWriting(service))
    {
      var version;
      fails, version := OthersWhileLeased();
      ghost var before := world;
      if !fails {
        world := world.(temp := Some(Empty));
      }
      Proceed(if fails then Holding else BindWriting(service), before, Advance(me, fails, version));
    }

    /** `json.dump(payload, stream)`. */
    method WriteTemporary(service: string) returns (fails: bool)
      requires Sound() && Self().pc == BindWriting(service)
      modifies this
      ensures Sound() && old(trace) <= trace && (old(Faultless()) ==> Faultless() && !fails)
      ensures Self() == old(Self()).(pc := if fails then Holding else BindReplacing(service))
    {
      var version;
      fails, version := OthersWhileLeased();
      ghost var before := world;
      world := world.(temp := Some(if fails then Malformed else Lease(OwnRecord(me, Self(), Some(service)))));
      Proceed(if fails then Holding else BindReplacing(service), before, Advance(me, fails, version));
    }

    /** `os.replace(temporary, lock_path)`; the shared temporary file can only hold our own record. */
    method ReplaceLock(service: string) returns (fails: bool)
      requires Sound() && Self().pc == BindReplacing(service)
      modifies this
      ensures Sound() && old(trace) <= trace && (old(Faultless()) ==> !fails)
      ensures Self() == old(Self()).(pc := Holding)
      ensures if fails then world.lock == old(world.lock)
              else world.lock.Present? && world.lock.content == Lease(OwnRecord(me, Self(), Some(service)))
    {
      var version;
      fails, version := OthersWhileLeased();
      ghost var before := world;
      if !fails {
        world := world.(lock := Present(world.nextFile, version, world.temp.value), temp := None,
            nextFile := world.nextFile + 1);
      }
      Proceed(Holding, before, Advance(me, fails, version));
    }

    /** `bind_service_instance`: only an access of its own that fails can keep a leaseholder from binding. */
    method BindServiceInstance(service: string) returns (bound: bool)
      requires Sound()
      modifies this
      ensures Sound() && old(trace) <= trace
      ensures old(!Self().pc.Holding?) ==> !bound && world == old(world)
      ensures old(Self().pc.Holding?) ==> Self() == old(Self()) && (old(Faultless()) ==> bound)
      ensures bound ==> world.lock.Present? && world.lock.content == Lease(OwnRecord(me, Self(), Some(service)))
    {
      if !Self().pc.Holding? {
        return false;
      }
      Proceed(BindOpening(service), world, Bind(me, service));
      var fails := OpenTemporary(service);
      if !fails {
        fails := WriteTemporary(service);
        if !fails {
          fails := ReplaceLock(service);
        }
      }
      bound := !fails;
    }

    /** `lock_path.is_file()`. */
    method CheckLock()
      requires Sound() && Self().pc.ReleaseChecking?
      modifies this
      ensures Sound() && old(trace) <= trace && (old(Faultless()) ==> Faultless())
      ensures Self() == old(Self()).(pc := ReleaseReading)
    {
      var fails, version := OthersWhileLeased();
      Proceed(ReleaseReading, world, Advance(me, fails, version));
    }

    /** `lock_path.read_text()` and the comparison with the lease; the file is always found to be ours. */
    method ReadOwnLock() returns (mine: bool)
      requires Sound() && Self().pc.ReleaseReading?
      modifies this
      ensures Sound() && old(trace) <= trace && (old(Faultless()) ==> Faultless() && mine)
      ensures Self() == old(Self()).(pc := if mine then ReleaseUnlinking else Holding)
    {
      var fails, version := OthersWhileLeased();
      mine := !fails && world.lock.content.record.user == Self().user && world.lock.content.record.pid == Self().pid;
      Proceed(if mine then ReleaseUnlinking else Holding, world, Advance(me, fails, version));
    }

    /** `lock_path.unlink(missing_ok=True)` of the owner. */
    method UnlinkOwnLock() returns (fails: bool)
      requires Sound() && Self().pc.ReleaseUnlinking?
      modifies this
      ensures Sound() && old(trace) <= trace && (old(Faultless()) ==> !fails)
      ensures Self() == old(Self()).(pc := if fails then Holding else Idle)
      ensures !fails ==> world.lock.Absent?
    {
      var version;
      fails, version := OthersWhileLeased();
      ghost var before := world;
      if !fails {
        world := world.(lock := Absent);
      }
      Proceed(if fails then Holding else Idle, before, Advance(me, fails, version));
    }

    /** `release`: whatever the others do in between, the lock it reads and unlinks is its own. */
    method ReleaseLease() returns (released: bool)
      requires Sound()
      modifies this
      ensures Sound() && old(trace) <= trace
      ensures old(!Self().pc.Holding?) ==> !released && world == old(world)
      ensures old(Self().pc.Holding?) ==> Self() == old(Self()).(pc := if released then Idle else Holding)
      ensures old(Self().pc.Holding?) && old(Faultless()) ==> released
      ensures released ==> world.lock.Absent?
    {
      released := false;
      if !Self().pc.Holding? {
        return;
      }
      Proceed(ReleaseChecking, world, Release(me));
      CheckLock();
      var mine := ReadOwnLock();
      if mine {
        var fails := UnlinkOwnLock();
        released := !fails;
      }
    }
  }
}
