/**
 After a crash: which worlds a launcher can still acquire in, which ones refuse
 for ever, and which crashes lead there.
 */
module SingleInstanceRecovery {
  import opened Prelude
  import opened SingleInstanceProtocol

  /** Some schedule leads to a lease of `t`, which need not exist yet. */
  ghost predicate CanLease(w: World, t: Token) {
    exists actions :: LeasedAfter(w, actions, t)
  }

  ghost predicate LeasedAfter(w: World, actions: seq<Action>, t: Token) {
    var w' := Run(w, actions);
    Alive(w', t) && Leased(w'.processes[t].pc)
  }

  ghost predicate AllDead(w: World) {
    forall t | t in w.processes :: !w.processes[t].alive
  }

  // ----- Ways to a lease, followed from their end

  lemma LeasedNow(w: World, t: Token)
    requires Alive(w, t) && Leased(w.processes[t].pc)
    ensures CanLease(w, t)
  {
    assert Run(w, []) == w;
    assert LeasedAfter(w, [], t);
  }

  lemma LeaseAfterStep(w: World, a: Action, t: Token)
    requires CanLease(Step(w, a), t)
    ensures CanLease(w, t)
  {
    var actions :| LeasedAfter(Step(w, a), actions, t);
    assert ([a] + actions)[0] == a && ([a] + actions)[1..] == actions;
    assert Run(w, [a] + actions) == Run(Step(w, a), actions);
    assert LeasedAfter(w, [a] + actions, t);
  }

  /** One access of `t` that succeeds. */
  function Moved(w: World, t: Token): World {
    Step(w, Advance(t, false, 0))
  }

  /** An absent lock is created and written. */
  lemma TakesAbsentLock(w: World, t: Token)
    requires Alive(w, t) && w.processes[t].pc.Creating? && w.lock.Absent?
    ensures CanLease(w, t)
  {
    var created := Moved(w, t);
    var written := Moved(created, t);
    LeasedNow(written, t);
    LeaseAfterStep(created, Advance(t, false, 0), t);
    LeaseAfterStep(w, Advance(t, false, 0), t);
  }

  /** A launcher that has just removed a stale lock drops its guard and takes its next attempt. */
  lemma TakesAfterRemoval(w: World, t: Token)
    requires Alive(w, t) && w.processes[t].pc == Unguarding(0, None) && w.processes[t].maxAttempts >= 2
             && w.lock.Absent?
    ensures CanLease(w, t)
  {
    TakesAbsentLock(Moved(w, t), t);
    LeaseAfterStep(w, Advance(t, false, 0), t);
  }

  /** The record `t` works on is the lock's own, and its incarnation is dead. */
  ghost predicate Stale(w: World, t: Token, seen: Record, version: nat) {
    && Alive(w, t) && w.processes[t].maxAttempts >= 2
    && w.lock.Present? && w.lock.version == version && w.lock.content == Lease(seen)
    && Dead(w, seen.token)
  }

  lemma TakesUnderGuard(w: World, t: Token, seen: Record, version: nat)
    requires Stale(w, t, seen, version) && w.processes[t].pc == GuardStatting(0, version, seen)
    ensures CanLease(w, t)
  {
    var a := Advance(t, false, 0);
    var statted := Moved(w, t);
    var read := Moved(statted, t);
    var judged := Moved(read, t);
    assert judged.processes[t].pc == Unlinking(0, seen);
    TakesAfterRemoval(Moved(judged, t), t);
    LeaseAfterStep(judged, a, t);
    LeaseAfterStep(read, a, t);
    LeaseAfterStep(statted, a, t);
    LeaseAfterStep(w, a, t);
  }

  lemma TakesJudgedLock(w: World, t: Token, seen: Record, version: nat)
    requires Stale(w, t, seen, version) && w.processes[t].pc == Judging(0, version, seen) && !w.guard
    ensures CanLease(w, t)
  {
    var judged := Moved(w, t);
    TakesUnderGuard(Moved(judged, t), t, seen, version);
    LeaseAfterStep(judged, Advance(t, false, 0), t);
    LeaseAfterStep(w, Advance(t, false, 0), t);
  }

  lemma TakesStattedLock(w: World, t: Token, seen: Record, version: nat)
    requires Stale(w, t, seen, version) && w.processes[t].pc == Reading(0, version)
    requires TrustedFields(seen) && seen.user == w.processes[t].user && !w.guard
    ensures CanLease(w, t)
  {
    TakesJudgedLock(Moved(w, t), t, seen, version);
    LeaseAfterStep(w, Advance(t, false, 0), t);
  }

  lemma TakesStaleLock(w: World, t: Token, seen: Record, version: nat)
    requires Stale(w, t, seen, version) && w.processes[t].pc == Creating(0)
    requires TrustedFields(seen) && seen.user == w.processes[t].user && !w.guard
    ensures CanLease(w, t)
  {
    var found := Moved(w, t);
    TakesStattedLock(Moved(found, t), t, seen, version);
    LeaseAfterStep(found, Advance(t, false, 0), t);
    LeaseAfterStep(w, Advance(t, false, 0), t);
  }

  /** A token no process has had yet. */
  lemma {:induction false} FreshToken(used: set<Token>) returns (t: Token)
    ensures forall u | u in used :: u < t
    decreases |used|
  {
    if used == {} {
      t := 0;
    } else {
      var u :| u in used;
      var others := used - {u};
      t := FreshToken(others);
      assert forall v | v in used && v != u :: v in others;
      t := if t <= u then u + 1 else t;
    }
  }

  /** A process id nobody running has. */
  lemma {:induction false} FreshPid(w: World, tokens: set<Token>) returns (pid: int)
    requires tokens <= w.processes.Keys
    ensures pid > 0 && forall u | u in tokens :: w.processes[u].pid < pid
    decreases |tokens|
  {
    if tokens == {} {
      pid := 1;
    } else {
      var u :| u in tokens;
      var others := tokens - {u};
      pid := FreshPid(w, others);
      assert forall v | v in tokens && v != u :: v in others;
      pid := if pid <= w.processes[u].pid then w.processes[u].pid + 1 else pid;
    }
  }

  /** The world in which `t` has started as a launcher of `user` and stands before its first attempt. */
  function Started(w: World, t: Token, pid: int, user: string): World {
    Step(Step(w, Spawn(t, pid, user)), Begin(t, 2))
  }

  /** A launcher of any user can start beside the others. */
  lemma Starts(w: World, t: Token, user: string) returns (pid: int)
    requires t !in w.processes
    ensures Started(w, t, pid, user) == w.(processes := w.processes[t := Process(pid, user, true, 2, 0, Creating(0))])
  {
    pid := FreshPid(w, w.processes.Keys);
    var spawned := Step(w, Spawn(t, pid, user));
    assert spawned == w.(processes := w.processes[t := Process(pid, user, true, 0, 0, Idle)]);
  }

  lemma LeaseAfterStart(w: World, t: Token, pid: int, user: string)
    requires CanLease(Started(w, t, pid, user), t)
    ensures CanLease(w, t)
  {
    LeaseAfterStep(Step(w, Spawn(t, pid, user)), Begin(t, 2), t);
    LeaseAfterStep(w, Spawn(t, pid, user), t);
  }

  /** A new launcher gets past no lock, or past a stale one that it trusts and nobody guards. */
  lemma NewcomerTakes(w: World, t: Token)
    requires t !in w.processes
    requires w.lock.Present? ==>
               && w.lock.content.Lease? && TrustedFields(w.lock.content.record) && !w.guard
               && Dead(w, w.lock.content.record.token)
    ensures CanLease(w, t)
  {
    var user := if w.lock.Present? then w.lock.content.record.user else "";
    var pid := Starts(w, t, user);
    var started := Started(w, t, pid, user);
    if w.lock.Absent? {
      TakesAbsentLock(started, t);
    } else {
      TakesStaleLock(started, t, w.lock.content.record, w.lock.version);
    }
    LeaseAfterStart(w, t, pid, user);
  }

  /** The next step of a leaseholder on its way to giving the lease up. */
  function GivingUp(u: Token, pc: Pc): Action {
    match pc
    case Holding => Release(u)
    case BindOpening(_) => Advance(u, true, 0)
    case BindWriting(_) => Advance(u, true, 0)
    case BindReplacing(_) => Advance(u, true, 0)
    case _ => Advance(u, false, 0)
  }

  function StepsToGiveUp(pc: Pc): nat {
    match pc
    case ReleaseUnlinking => 0
    case ReleaseReading => 1
    case ReleaseChecking => 2
    case Holding => 3
    case _ => 4
  }

  /** The lock is the record of the running `u`, as far as a release compares it. */
  predicate Owns(w: World, u: Token) {
    && Names(w.lock, u) && Alive(w, u) && Leased(w.processes[u].pc)
    && w.lock.content.record.pid == w.processes[u].pid && w.lock.content.record.user == w.processes[u].user
  }

  lemma GivesUpStep(w: World, u: Token)
    requires Owns(w, u)
    ensures var pc, w' := w.processes[u].pc, Step(w, GivingUp(u, w.processes[u].pc));
            && w'.processes.Keys == w.processes.Keys
            && if pc.ReleaseUnlinking? then w'.lock.Absent?
               else Owns(w', u) && StepsToGiveUp(w'.processes[u].pc) < StepsToGiveUp(pc)
  {
  }

  /** A leaseholder can give its lease up, whatever it is doing, and then a newcomer takes it. */
  lemma {:induction false} NewcomerFollows(w: World, u: Token, t: Token)
    requires Owns(w, u) && t !in w.processes
    ensures CanLease(w, t)
    decreases StepsToGiveUp(w.processes[u].pc)
  {
    var a := GivingUp(u, w.processes[u].pc);
    GivesUpStep(w, u);
    if w.processes[u].pc.ReleaseUnlinking? {
      NewcomerTakes(Step(w, a), t);
    } else {
      NewcomerFollows(Step(w, a), u, t);
    }
    LeaseAfterStep(w, a, t);
  }

  // ----- The third way to refuse for ever

  /** A dead incarnation's record that no launcher trusts, and nobody has got past reading it. */
  ghost predicate Distrusted(w: World) {
    && w.lock.Present? && w.lock.content.Lease? && !TrustedFields(w.lock.content.record)
    && Dead(w, w.lock.content.record.token)
    && forall t | t in w.processes :: Alive(w, t) ==> !w.processes[t].pc.Judging? && !Removing(w.processes[t].pc)
  }

  lemma StepKeepsDistrusted(w: World, a: Action)
    requires Inv(w) && Distrusted(w)
    ensures Distrusted(Step(w, a)) && Step(w, a).lock == w.lock
  {
    if a.actor in w.processes {
      assert Justified(w, a.actor) && GuardHeld(w, a.actor);
      if a.Advance? && Step(w, a) != w {
        AdvanceMoves(w, a);
      }
    }
  }

  /** A record with a bad process id or pipe name, once its incarnation is dead, keeps every launcher out for ever. */
  lemma {:induction false} DistrustedForEver(w: World, actions: seq<Action>)
    requires Inv(w) && Distrusted(w)
    ensures var w' := Run(w, actions);
            w'.lock == w.lock && forall t | t in w'.processes :: Alive(w', t) ==> !Leased(w'.processes[t].pc)
    decreases |actions|
  {
    if actions == [] {
      forall t | t in w.processes && Alive(w, t)
        ensures !Leased(w.processes[t].pc)
      {
        assert Justified(w, t);
      }
    } else {
      StepKeepsInv(w, actions[0]);
      StepKeepsDistrusted(w, actions[0]);
      DistrustedForEver(Step(w, actions[0]), actions[1..]);
    }
  }

  // ----- Exactly when somebody can still acquire

  /** A lock that is not trusted is as old as the run, so nobody has got past reading it; and
      the owner of a lock holds it. */
  ghost predicate Settled(w: World) {
    w.lock.Present? && w.lock.content.Lease? ==>
      && (Alive(w, w.lock.content.record.token) ==> Leased(w.processes[w.lock.content.record.token].pc))
      && (!TrustedFields(w.lock.content.record) ==>
            forall t | t in w.processes :: Alive(w, t) ==> !w.processes[t].pc.Judging? && !Removing(w.processes[t].pc))
  }

  /** The record a launcher writes is one that launchers trust. */
  lemma OwnRecordIsTrusted(t: Token, p: Process, service: Option<string>)
    requires p.pid > 0
    ensures TrustedFields(OwnRecord(t, p, service))
  {
    assert |PIPE_PREFIX| <= 64;
  }

  lemma AcquireKeepsSettled(w: World, t: Token, fails: bool, version: nat)
    requires Inv(w) && Settled(w) && Alive(w, t) && !Removing(w.processes[t].pc) && !Leased(w.processes[t].pc)
    ensures Settled(AdvanceAcquire(w, t, fails, version))
  {
    assert Justified(w, t);
    OwnRecordIsTrusted(t, w.processes[t], None);
  }

  lemma RemovalKeepsSettled(w: World, t: Token, fails: bool)
    requires Inv(w) && Settled(w) && Alive(w, t) && Removing(w.processes[t].pc)
    ensures Settled(AdvanceRemoval(w, t, fails))
  {
    assert Justified(w, t);
  }

  lemma LeaseKeepsSettled(w: World, t: Token, fails: bool, version: nat)
    requires Inv(w) && Settled(w) && Alive(w, t) && Leased(w.processes[t].pc)
    ensures Settled(AdvanceLease(w, t, fails, version))
  {
    assert Justified(w, t);
    if w.processes[t].pc.BindReplacing? {
      OwnRecordIsTrusted(t, w.processes[t], Some(w.processes[t].pc.service));
    }
  }

  lemma StepKeepsSettled(w: World, a: Action)
    requires Inv(w) && Settled(w)
    ensures Settled(Step(w, a))
  {
    if a.Advance? && Alive(w, a.actor) {
      var pc := w.processes[a.actor].pc;
      if Removing(pc) {
        RemovalKeepsSettled(w, a.actor, a.fails);
      } else if Leased(pc) {
        LeaseKeepsSettled(w, a.actor, a.fails, a.version);
      } else {
        AcquireKeepsSettled(w, a.actor, a.fails, a.version);
      }
    }
  }

  lemma {:induction false} RunKeepsSettled(w: World, actions: seq<Action>)
    requires Inv(w) && Settled(w)
    ensures Settled(Run(w, actions))
    decreases |actions|
  {
    if actions != [] {
      StepKeepsInv(w, actions[0]);
      StepKeepsSettled(w, actions[0]);
      RunKeepsSettled(Step(w, actions[0]), actions[1..]);
    }
  }

  /**
   Nobody will ever acquire: an unusable lock that nobody is about to write, or a dead incarnation's record that is not
   trusted or stands under a guard that nobody holds.
   */
  predicate Stuck(w: World) {
    && w.lock.Present?
    && (if !w.lock.content.Lease? then forall t | t in w.processes :: Alive(w, t) ==> !w.processes[t].pc.Writing?
        else
          var r := w.lock.content.record;
          && r.token in w.processes && !w.processes[r.token].alive
          && (|| !TrustedFields(r)
              || (w.guard && forall t | t in w.processes :: Alive(w, t) ==> !Guarded(w.processes[t].pc))))
  }

  lemma StuckCannotLease(w: World, actions: seq<Action>, t: Token)
    requires Inv(w) && Settled(w) && Stuck(w)
    ensures !LeasedAfter(w, actions, t)
  {
    if !w.lock.content.Lease? {
      WedgedForEver(w, actions);
    } else if !TrustedFields(w.lock.content.record) {
      DistrustedForEver(w, actions);
    } else {
      OrphanedForEver(w, actions, w.lock.content.record.token);
    }
  }

  /** Whoever is inside the guarded block can get out of it, leaving the lock as it is and dropping the guard. */
  lemma LeavesGuard(w: World, u: Token, t: Token)
    requires w.lock.Present? && w.lock.content.Lease? && TrustedFields(w.lock.content.record)
    requires Alive(w, u) && Guarded(w.processes[u].pc) && Dead(w, w.lock.content.record.token) && t !in w.processes
    requires w.processes[u].pc.GuardJudging? ==> Dead(w, w.processes[u].pc.seen.token)
    ensures CanLease(w, t)
    decreases if w.processes[u].pc.GuardJudging? then 2 else if w.processes[u].pc.Unguarding? then 0 else 1
  {
    if w.processes[u].pc.Unguarding? {
      NewcomerTakes(Moved(w, u), t);
      LeaseAfterStep(w, Advance(u, false, 0), t);
    } else {
      LeavesGuard(Step(w, Advance(u, true, 0)), u, t);
      LeaseAfterStep(w, Advance(u, true, 0), t);
    }
  }

  lemma NewcomerAfterTheDead(w: World, t: Token)
    requires Inv(w) && !Stuck(w) && t !in w.processes
    requires w.lock.Present? && w.lock.content.Lease? && Dead(w, w.lock.content.record.token)
    ensures CanLease(w, t)
  {
    if w.guard {
      var u :| u in w.processes && Alive(w, u) && Guarded(w.processes[u].pc);
      assert Justified(w, u);
      LeavesGuard(w, u, t);
    } else {
      NewcomerTakes(w, t);
    }
  }

  lemma NewcomerAfterTheWriter(w: World, t: Token)
    requires Inv(w) && !Stuck(w) && t !in w.processes
    requires w.lock.Present? && !w.lock.content.Lease?
    ensures CanLease(w, t)
  {
    var u :| u in w.processes && Alive(w, u) && w.processes[u].pc.Writing?;
    assert Justified(w, u);
    NewcomerFollows(Moved(w, u), u, t);
    LeaseAfterStep(w, Advance(u, false, 0), t);
  }

  lemma NewcomerCanLease(w: World, t: Token)
    requires Inv(w) && Settled(w) && !Stuck(w) && t !in w.processes
    ensures CanLease(w, t)
  {
    if w.lock.Absent? {
      NewcomerTakes(w, t);
    } else if !w.lock.content.Lease? {
      NewcomerAfterTheWriter(w, t);
    } else if Alive(w, w.lock.content.record.token) {
      NewcomerFollows(w, w.lock.content.record.token, t);
    } else {
      NewcomerAfterTheDead(w, t);
    }
  }

  lemma ReachableIsSettled(start: World, actions: seq<Action>)
    requires Init(start)
    ensures Inv(Run(start, actions)) && Settled(Run(start, actions))
  {
    InitHasInv(start);
    RunKeepsInv(start, actions);
    RunKeepsSettled(start, actions);
  }

  /**
   In every reachable world, whoever runs and wherever, a launcher that does not exist yet can come to acquire exactly
   if the world is not stuck; in a stuck one it is refused for ever.
   */
  lemma NewcomerAcquiresExactlyUnlessStuck(start: World, actions: seq<Action>, t: Token)
    requires Init(start) && t !in Run(start, actions).processes
    ensures (exists more :: LeasedAfter(Run(start, actions), more, t)) <==> !Stuck(Run(start, actions))
  {
    var w := Run(start, actions);
    ReachableIsSettled(start, actions);
    if Stuck(w) {
      forall more
        ensures !LeasedAfter(w, more, t)
      {
        StuckCannotLease(w, more, t);
      }
    } else {
      NewcomerCanLease(w, t);
    }
  }

  /** The same of anybody: a stuck world has no leaseholder and never gets one. */
  lemma AcquirableExactlyUnlessStuck(start: World, actions: seq<Action>)
    requires Init(start)
    ensures (exists more, t :: LeasedAfter(Run(start, actions), more, t)) <==> !Stuck(Run(start, actions))
  {
    var w := Run(start, actions);
    ReachableIsSettled(start, actions);
    if Stuck(w) {
      forall more, t
        ensures !LeasedAfter(w, more, t)
      {
        StuckCannotLease(w, more, t);
      }
    } else {
      var t := FreshToken(w.processes.Keys);
      NewcomerCanLease(w, t);
    }
  }

  /** What a launcher finds after everything has stopped, and can still get past. */
  predicate Recoverable(w: World) {
    w.lock.Absent? || (w.lock.content.Lease? && TrustedFields(w.lock.content.record) && !w.guard)
  }

  /**
   Once every launcher has stopped, wherever each of them stood, some launcher can acquire again exactly if there is no
   lock, or the lock is a trusted record and there is no guard.
   */
  lemma RecoversExactly(w: World)
    requires Inv(w) && AllDead(w)
    ensures (exists actions, t :: LeasedAfter(w, actions, t)) <==> Recoverable(w)
  {
    assert Settled(w) && (Stuck(w) <==> !Recoverable(w));
    if Recoverable(w) {
      var t := FreshToken(w.processes.Keys);
      NewcomerCanLease(w, t);
    } else {
      forall actions, t
        ensures !LeasedAfter(w, actions, t)
      {
        StuckCannotLease(w, actions, t);
      }
    }
  }

  // ----- Which failures lead there

  /** A launcher that stops before it writes the lock it created, or whose write fails, wedges the lock. */
  lemma UnwrittenLockIsWedged(w: World, t: Token, version: nat)
    requires Inv(w) && Alive(w, t) && w.processes[t].pc.Writing?
    ensures Wedged(Step(w, Crash(t)))
    ensures Wedged(Step(w, Advance(t, true, version)))
  {
    assert Justified(w, t);
    forall u | u in w.processes && Alive(w, u) && u != t
      ensures !w.processes[u].pc.Writing?
    {
      assert Exclusive(w, t, u);
    }
  }

  /** The ways to leave the guarded block without dropping the guard: to stop inside it, or
      to fail to unlink the guard. */
  predicate LosesGuard(w: World, t: Token, a: Action)
    requires Alive(w, t)
  {
    || (a == Crash(t) && Guarded(w.processes[t].pc))
    || (a.Advance? && a.actor == t && a.fails && w.processes[t].pc.Unguarding?)
  }

  /** A lost guard keeps everybody out exactly if the lock then names a dead incarnation;
      with no lock it is harmless. */
  lemma LostGuardIsOrphaned(w: World, t: Token, a: Action, owner: Token)
    requires Inv(w) && Alive(w, t) && LosesGuard(w, t, a)
    ensures var w' := Step(w, a); w'.guard && (Orphaned(w', owner) <==> Names(w'.lock, owner) && Dead(w', owner))
  {
    assert Justified(w, t) && GuardHeld(w, t);
    forall u | u in w.processes && Alive(w, u) && u != t
      ensures !Guarded(w.processes[u].pc)
    {
      assert Exclusive(w, t, u);
    }
  }
}
