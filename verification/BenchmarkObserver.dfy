/** The observer of HTTP envelopes: attempts are numbered, paired by thread and counted while in flight. */
module BenchmarkObserver {
  import opened Prelude

  /** The callbacks of one trial, in the order in which they took the observer's lock. */
  datatype Event<E, R> =
    | Start(thread: nat, envelope: E)
    | Finish(thread: nat, envelope: E, result: R)

  datatype Row<E, R> = Row(attempt: nat, envelope: E, inFlightAtStart: Option<nat>, result: Option<R>, orphan: bool)

  datatype State<E, R> = State(httpIndex: nat, active: map<nat, nat>, inFlight: nat, maxInFlight: nat,
                               rows: seq<Row<E, R>>, started: nat, finished: nat)

  function Fresh<E, R>(): State<E, R> {
    State(0, map[], 0, 0, [], 0, 0)
  }

  /** Position of the first row of an attempt, if there is one. */
  function FindRow<E, R>(rows: seq<Row<E, R>>, attempt: nat): (found: Option<nat>)
    ensures found.Some? ==> found.value < |rows| && rows[found.value].attempt == attempt
    ensures found.None? ==> forall i | 0 <= i < |rows| :: rows[i].attempt != attempt
    ensures found.Some? ==> forall i | 0 <= i < found.value :: rows[i].attempt != attempt
  {
    if rows == [] then None
    else if rows[0].attempt == attempt then Some(0)
    else match FindRow(rows[1..], attempt)
      case Some(i) => Some(i + 1)
      case None => None
  }

  function Max(a: nat, b: nat): nat {
    if a >= b then a else b
  }

  function Started<E, R>(s: State<E, R>, thread: nat, envelope: E): State<E, R> {
    State(s.httpIndex + 1, s.active[thread := s.httpIndex + 1], s.inFlight + 1, Max(s.maxInFlight, s.inFlight + 1),
          s.rows + [Row(s.httpIndex + 1, envelope, Some(s.inFlight + 1), None, false)], s.started + 1, s.finished)
  }

  function Finished<E, R>(s: State<E, R>, thread: nat, envelope: E, result: R): State<E, R> {
    var attempt := if thread in s.active then s.active[thread] else 0;
    var rows := match FindRow(s.rows, attempt)
      case Some(i) => s.rows[i := s.rows[i].(result := Some(result))]
      case None => s.rows + [Row(0, envelope, None, Some(result), true)];
    State(s.httpIndex, s.active - {thread}, if s.inFlight == 0 then 0 else s.inFlight - 1, s.maxInFlight,
          rows, s.started, s.finished + 1)
  }

  function Next<E, R>(s: State<E, R>, e: Event<E, R>): State<E, R> {
    match e
    case Start(thread, envelope) => Started(s, thread, envelope)
    case Finish(thread, envelope, result) => Finished(s, thread, envelope, result)
  }

  function After<E, R>(events: seq<Event<E, R>>): State<E, R> {
    if events == [] then Fresh() else Next(After(events[..|events| - 1]), events[|events| - 1])
  }

  lemma AfterAppend<E, R>(events: seq<Event<E, R>>, e: Event<E, R>)
    ensures After(events + [e]) == Next(After(events), e)
  {
    assert (events + [e])[..|events + [e]| - 1] == events;
  }

  predicate ReportValid<E, R>(s: State<E, R>) {
    && s.started == s.finished
    && s.inFlight == 0
    && forall i | 0 <= i < |s.rows| :: !s.rows[i].orphan
  }

  class TrialObserver<E(!new), R(!new)> {
    var httpIndex: nat
    var active: map<nat, nat>
    var inFlight: nat
    var maxInFlight: nat
    var rows: seq<Row<E, R>>
    var startedEnvelopes: nat
    var finishedEnvelopes: nat
    /** The callbacks since the trial began. */
    ghost var events: seq<Event<E, R>>

    ghost function Current(): State<E, R>
      reads this
    {
      State(httpIndex, active, inFlight, maxInFlight, rows, startedEnvelopes, finishedEnvelopes)
    }

    ghost predicate Valid()
      reads this
    {
      Current() == After(events)
    }

    constructor ()
      ensures Valid() && events == []
    {
      httpIndex, active, inFlight, maxInFlight, rows := 0, map[], 0, 0, [];
      startedEnvelopes, finishedEnvelopes, events := 0, 0, [];
    }

    method Begin()
      modifies this
      ensures Valid() && events == []
    {
      httpIndex, active, inFlight, maxInFlight, rows := 0, map[], 0, 0, [];
      startedEnvelopes, finishedEnvelopes, events := 0, 0, [];
    }

    method OnHttpStarted(thread: nat, envelope: E)
      requires Valid()
      modifies this
      ensures Valid() && events == old(events) + [Start(thread, envelope)]
    {
      httpIndex := httpIndex + 1;
      active := active[thread := httpIndex];
      inFlight := inFlight + 1;
      maxInFlight := Max(maxInFlight, inFlight);
      startedEnvelopes := startedEnvelopes + 1;
      rows := rows + [Row(httpIndex, envelope, Some(inFlight), None, false)];
      events := events + [Start(thread, envelope)];
      AfterAppend(old(events), Start(thread, envelope));
      assert Current() == Started(old(Current()), thread, envelope);
    }

    method OnHttpFinished(thread: nat, envelope: E, result: R)
      requires Valid()
      modifies this
      ensures Valid() && events == old(events) + [Finish(thread, envelope, result)]
    {
      var attempt := 0;
      if thread in active {
        attempt := active[thread];
        active := active - {thread};
      }
      assert active == old(active) - {thread};
      match FindRow(rows, attempt) {
        case Some(i) =>
          rows := rows[i := rows[i].(result := Some(result))];
        case None =>
          rows := rows + [Row(0, envelope, None, Some(result), true)];
      }
      inFlight := if inFlight == 0 then 0 else inFlight - 1;
      finishedEnvelopes := finishedEnvelopes + 1;
      events := events + [Finish(thread, envelope, result)];
      AfterAppend(old(events), Finish(thread, envelope, result));
      assert Current() == Finished(old(Current()), thread, envelope, result);
    }

    /** The report: its rows, its peak and whether the instrumentation can be trusted, which is exactly `Complete`. */
    method Report() returns (reportRows: seq<Row<E, R>>, peak: nat, valid: bool)
      requires Valid()
      ensures reportRows == Current().rows && peak == Current().maxInFlight
      ensures valid <==> Complete(events)
      ensures valid ==> peak == Peak(events) && Records(events, reportRows)
    {
      reportRows, peak := rows, maxInFlight;
      valid := startedEnvelopes == finishedEnvelopes && inFlight == 0
               && forall i | 0 <= i < |rows| :: !rows[i].orphan;
      ValidExactlyWhenComplete(events);
      if valid {
        AlternatingRun(events);
      }
    }
  }

  // What the callbacks say on their own

  /** The thread's last event was a start. */
  ghost predicate Open<E, R>(events: seq<Event<E, R>>, thread: nat) {
    if events == [] then false
    else
      var last := events[|events| - 1];
      if last.thread == thread then last.Start? else Open(events[..|events| - 1], thread)
  }

  /** Every thread starts and finishes its envelopes in turn; the last one may still be open. */
  ghost predicate Alternating<E, R>(events: seq<Event<E, R>>) {
    if events == [] then true
    else
      var before, last := events[..|events| - 1], events[|events| - 1];
      Alternating(before) && (last.Start? <==> !Open(before, last.thread))
  }

  /** Every started envelope was finished by its own thread before that thread did anything
      else, and nothing else was. */
  ghost predicate Complete<E, R>(events: seq<Event<E, R>>) {
    Alternating(events) && forall thread: nat :: !Open(events, thread)
  }

  ghost function Starts<E, R>(events: seq<Event<E, R>>): nat {
    if events == [] then 0
    else Starts(events[..|events| - 1]) + if events[|events| - 1].Start? then 1 else 0
  }

  ghost function Finishes<E, R>(events: seq<Event<E, R>>): nat {
    if events == [] then 0
    else Finishes(events[..|events| - 1]) + if events[|events| - 1].Finish? then 1 else 0
  }

  /** The largest number of envelopes that were open at the same time. */
  ghost function Peak<E, R>(events: seq<Event<E, R>>): nat {
    if events == [] then 0
    else
      var before := Peak(events[..|events| - 1]);
      var here := Starts(events) - Finishes(events);
      if here > before then here else before
  }

  /** The thread does nothing from position `from` on. */
  ghost predicate Quiet<E, R>(events: seq<Event<E, R>>, thread: nat, from: nat) {
    forall i | from <= i < |events| :: events[i].thread != thread
  }

  /** The finish at `j` is the thread's next event after the start at `i`. */
  ghost predicate Closes<E, R>(events: seq<Event<E, R>>, i: nat, j: nat) {
    && i < j < |events| && events[i].Start? && events[j].Finish? && events[j].thread == events[i].thread
    && Quiet(events[..j], events[i].thread, i + 1)
  }

  /** The row of the start at `i`: its number, its envelope, how many were open, and the result of its own finish. */
  ghost predicate RecordsStart<E, R>(events: seq<Event<E, R>>, rows: seq<Row<E, R>>, i: nat)
    requires i < |events| && events[i].Start?
  {
    var k := Starts(events[..i]);
    && k < |rows|
    && rows[k].envelope == events[i].envelope
    && Finishes(events[..i]) <= k
    && rows[k].inFlightAtStart == Some(k + 1 - Finishes(events[..i]))
    && (rows[k].result.None? ==> Quiet(events, events[i].thread, i + 1))
    && (rows[k].result.Some? ==> exists j: nat :: Closes(events, i, j) && events[j].result == rows[k].result.value)
  }

  /** The rows are those of the starts, in their order, and of nothing else. */
  ghost predicate Records<E, R>(events: seq<Event<E, R>>, rows: seq<Row<E, R>>) {
    && |rows| == Starts(events)
    && (forall k | 0 <= k < |rows| :: !rows[k].orphan && rows[k].attempt == k + 1)
    && forall i {:trigger RecordsStart(events, rows, i)} | 0 <= i < |events| && events[i].Start? ::
        RecordsStart(events, rows, i)
  }

  // One event more

  lemma CountsOneMore<E, R>(events: seq<Event<E, R>>, e: Event<E, R>)
    ensures Starts(events + [e]) == Starts(events) + if e.Start? then 1 else 0
    ensures Finishes(events + [e]) == Finishes(events) + if e.Finish? then 1 else 0
    ensures Peak(events + [e]) == Max(Peak(events), if Starts(events + [e]) >= Finishes(events + [e])
                                                    then Starts(events + [e]) - Finishes(events + [e]) else 0)
  {
    assert (events + [e])[..|events + [e]| - 1] == events;
  }

  lemma TurnsOneMore<E, R>(events: seq<Event<E, R>>, e: Event<E, R>)
    ensures Alternating(events + [e]) <==> Alternating(events) && (e.Start? <==> !Open(events, e.thread))
    ensures forall thread: nat :: Open(events + [e], thread) <==>
              if thread == e.thread then e.Start? else Open(events, thread)
  {
    assert (events + [e])[..|events + [e]| - 1] == events;
  }

  lemma MapGrows(m: map<nat, nat>, key: nat, value: nat)
    requires key !in m
    ensures |m[key := value]| == |m| + 1
  {
    assert m[key := value].Keys == m.Keys + {key};
  }

  lemma MapShrinks(m: map<nat, nat>, key: nat)
    requires key in m
    ensures |m - {key}| == |m| - 1
  {
    assert (m - {key}).Keys == m.Keys - {key};
  }

  // Runs in which every thread takes its turns

  ghost predicate InTurn<E(!new), R(!new)>(events: seq<Event<E, R>>, s: State<E, R>) {
    && s.httpIndex == |s.rows| == s.started == Starts(events)
    && s.finished == Finishes(events)
    && s.inFlight == |s.active| == s.started - s.finished
    && s.maxInFlight == Peak(events)
    && (forall thread: nat :: thread in s.active <==> Open(events, thread))
  }

  ghost predicate Tracks<E(!new), R(!new)>(events: seq<Event<E, R>>, s: State<E, R>) {
    && (forall thread | thread in s.active :: 1 <= s.active[thread] <= |s.rows|)
    && (forall t, u | t in s.active && u in s.active && s.active[t] == s.active[u] :: t == u)
    && (forall i {:trigger TracksStart(events, s, i)} | 0 <= i < |events| && events[i].Start? ::
        TracksStart(events, s, i))
  }

  ghost predicate TracksStart<E, R>(events: seq<Event<E, R>>, s: State<E, R>, i: nat)
    requires i < |events| && events[i].Start?
  {
    var k := Starts(events[..i]);
    && k < |s.rows|
    && (s.rows[k].result.None? ==> events[i].thread in s.active && s.active[events[i].thread] == k + 1)
    && (forall thread | thread in s.active && s.active[thread] == k + 1 ::
          thread == events[i].thread && s.rows[k].result.None?)
  }

  ghost predicate Follows<E(!new), R(!new)>(events: seq<Event<E, R>>, s: State<E, R>) {
    InTurn(events, s) && Tracks(events, s) && Records(events, s.rows)
  }

  lemma CountsInTurn<E(!new), R(!new)>(events: seq<Event<E, R>>, s: State<E, R>, e: Event<E, R>)
    requires InTurn(events, s)
    requires e.Start? <==> !Open(events, e.thread)
    requires e.Finish? ==> FindRow(s.rows, s.active[e.thread]).Some?
    ensures InTurn(events + [e], Next(s, e))
  {
    CountsOneMore(events, e);
    TurnsOneMore(events, e);
    if e.Start? {
      MapGrows(s.active, e.thread, s.httpIndex + 1);
    } else {
      MapShrinks(s.active, e.thread);
    }
  }

  lemma FinishFindsItsRow<E(!new), R(!new)>(events: seq<Event<E, R>>, s: State<E, R>, e: Event<E, R>)
    requires Follows(events, s)
    requires e.Finish? && e.thread in s.active
    ensures FindRow(s.rows, s.active[e.thread]) == Some(s.active[e.thread] - 1)
  {
    assert s.rows[s.active[e.thread] - 1].attempt == s.active[e.thread];
  }

  lemma EventInTurn<E(!new), R(!new)>(events: seq<Event<E, R>>, s: State<E, R>, e: Event<E, R>)
    requires Follows(events, s)
    requires e.Start? <==> !Open(events, e.thread)
    ensures Follows(events + [e], Next(s, e))
  {
    if e.Finish? {
      FinishFindsItsRow(events, s, e);
    }
    CountsInTurn(events, s, e);
    var more, next := events + [e], Next(s, e);
    forall i | 0 <= i < |more| && more[i].Start?
      ensures TracksStart(more, next, i) && RecordsStart(more, next.rows, i)
    {
      EventRecorded(events, s, e, i);
    }
    RowsInTurn(events, s, e);
  }

  /** The rows stay numbered from 1 on, and different threads work on different rows. */
  lemma RowsInTurn<E(!new), R(!new)>(events: seq<Event<E, R>>, s: State<E, R>, e: Event<E, R>)
    requires Follows(events, s)
    requires e.Finish? ==> e.thread in s.active && FindRow(s.rows, s.active[e.thread]) == Some(s.active[e.thread] - 1)
    ensures var next := Next(s, e);
            && (forall thread | thread in next.active :: 1 <= next.active[thread] <= |next.rows|)
            && (forall t, u | t in next.active && u in next.active && next.active[t] == next.active[u] :: t == u)
            && (forall k | 0 <= k < |next.rows| :: !next.rows[k].orphan && next.rows[k].attempt == k + 1)
  {
  }

  lemma EventRecorded<E(!new), R(!new)>(events: seq<Event<E, R>>, s: State<E, R>, e: Event<E, R>, i: nat)
    requires Follows(events, s)
    requires e.Start? <==> !Open(events, e.thread)
    requires e.Finish? ==> FindRow(s.rows, s.active[e.thread]) == Some(s.active[e.thread] - 1)
    requires i < |events + [e]| && (events + [e])[i].Start?
    ensures TracksStart(events + [e], Next(s, e), i) && RecordsStart(events + [e], Next(s, e).rows, i)
  {
    if i == |events| {
      assert (events + [e])[..i] == events;
    } else if e.Start? {
      StartStaysRecorded(events, s, e, i);
    } else {
      FinishRecorded(events, s, e, i);
    }
  }

  lemma StartStaysRecorded<E(!new), R(!new)>(events: seq<Event<E, R>>, s: State<E, R>, e: Event<E, R>, i: nat)
    requires Follows(events, s)
    requires e.Start? && !Open(events, e.thread) && i < |events| && events[i].Start?
    ensures TracksStart(events + [e], Next(s, e), i) && RecordsStart(events + [e], Next(s, e).rows, i)
  {
    var more, next, k := events + [e], Next(s, e), Starts(events[..i]);
    assert more[..i] == events[..i] && more[i] == events[i];
    assert TracksStart(events, s, i) && RecordsStart(events, s.rows, i);
    assert next.rows[k] == s.rows[k];
    if s.rows[k].result.Some? {
      ClosingStays(events, e, i, s.rows[k].result.value);
    }
  }

  lemma ClosingStays<E, R>(events: seq<Event<E, R>>, e: Event<E, R>, i: nat, result: R)
    requires exists j: nat :: Closes(events, i, j) && events[j].result == result
    ensures exists j: nat :: Closes(events + [e], i, j) && (events + [e])[j].result == result
  {
    var j: nat :| Closes(events, i, j) && events[j].result == result;
    assert (events + [e])[..j] == events[..j];
    assert Closes(events + [e], i, j);
  }

  lemma FinishRecorded<E(!new), R(!new)>(events: seq<Event<E, R>>, s: State<E, R>, e: Event<E, R>, i: nat)
    requires Follows(events, s)
    requires e.Finish? && e.thread in s.active && i < |events| && events[i].Start?
    requires FindRow(s.rows, s.active[e.thread]) == Some(s.active[e.thread] - 1)
    ensures TracksStart(events + [e], Next(s, e), i) && RecordsStart(events + [e], Next(s, e).rows, i)
  {
    var more, next, k := events + [e], Next(s, e), Starts(events[..i]);
    assert more[..i] == events[..i] && more[i] == events[i];
    assert TracksStart(events, s, i) && RecordsStart(events, s.rows, i);
    if s.active[e.thread] == k + 1 {
      assert more[..|events|] == events;
      assert Closes(more, i, |events|);
    } else {
      assert next.rows[k] == s.rows[k];
      if s.rows[k].result.Some? {
        ClosingStays(events, e, i, s.rows[k].result.value);
      }
    }
  }

  lemma {:induction false} AlternatingRun<E(!new), R(!new)>(events: seq<Event<E, R>>)
    requires Alternating(events)
    ensures Follows(events, After(events))
    decreases |events|
  {
    if events == [] {
    } else {
      var before, e := events[..|events| - 1], events[|events| - 1];
      assert before + [e] == events;
      AlternatingRun(before);
      EventInTurn(before, After(before), e);
    }
  }

  // Any run at all

  ghost predicate NoOrphan<E, R>(rows: seq<Row<E, R>>) {
    forall k | 0 <= k < |rows| :: !rows[k].orphan
  }

  ghost predicate Numbered<E, R>(s: State<E, R>) {
    && (forall k | 0 <= k < |s.rows| :: s.rows[k].attempt == 0 <==> s.rows[k].orphan)
    && (forall thread | thread in s.active :: s.active[thread] >= 1)
  }

  lemma {:induction false} RunIsNumbered<E, R>(events: seq<Event<E, R>>)
    ensures Numbered(After(events))
    decreases |events|
  {
    if events != [] {
      RunIsNumbered(events[..|events| - 1]);
    }
  }

  /**
   * Without an orphan row, no finish came from a thread with nothing open, so the finishes can only make up for all
   * the starts if no thread ever started twice in a row.
   */
  lemma {:induction false} TrustedRun<E(!new), R(!new)>(events: seq<Event<E, R>>)
    requires NoOrphan(After(events).rows)
    ensures var s := After(events);
            && |s.active| + s.finished <= s.started
            && s.inFlight == s.started - s.finished
            && (|s.active| + s.finished == s.started ==>
                  Alternating(events) && forall thread: nat :: thread in s.active <==> Open(events, thread))
    decreases |events|
  {
    if events == [] {
    } else {
      var before, e := events[..|events| - 1], events[|events| - 1];
      var s, next := After(before), After(events);
      assert before + [e] == events;
      RunIsNumbered(before);
      OrphansStay(s, e);
      TrustedRun(before);
      TurnsOneMore(before, e);
      TrustedCounts(s, e);
    }
  }

  lemma TrustedCounts<E, R>(s: State<E, R>, e: Event<E, R>)
    requires Numbered(s) && NoOrphan(s.rows) && NoOrphan(Next(s, e).rows)
    ensures e.Finish? ==> e.thread in s.active
    ensures |Next(s, e).active| == if e.Finish? then |s.active| - 1
            else if e.thread in s.active then |s.active| else |s.active| + 1
  {
    if e.Finish? {
      FinishIsPaired(s, e);
      MapShrinks(s.active, e.thread);
    } else if e.thread in s.active {
      assert Next(s, e).active.Keys == s.active.Keys;
      assert |Next(s, e).active| == |Next(s, e).active.Keys| == |s.active.Keys| == |s.active|;
    } else {
      MapGrows(s.active, e.thread, s.httpIndex + 1);
    }
  }

  lemma OrphansStay<E, R>(s: State<E, R>, e: Event<E, R>)
    requires NoOrphan(Next(s, e).rows)
    ensures NoOrphan(s.rows)
  {
    forall k | 0 <= k < |s.rows|
      ensures !s.rows[k].orphan
    {
      assert s.rows[k].orphan == Next(s, e).rows[k].orphan;
    }
  }

  lemma FinishIsPaired<E, R>(s: State<E, R>, e: Event<E, R>)
    requires e.Finish? && Numbered(s) && NoOrphan(s.rows)
    ensures e.thread !in s.active ==> !NoOrphan(Next(s, e).rows)
  {
    if e.thread !in s.active {
      assert FindRow(s.rows, 0).None?;
      assert Next(s, e).rows[|s.rows|].orphan;
    }
  }

  /** The report calls itself valid exactly when every envelope was started and finished in turn. */
  lemma ValidExactlyWhenComplete<E(!new), R(!new)>(events: seq<Event<E, R>>)
    ensures ReportValid(After(events)) <==> Complete(events)
  {
    var s := After(events);
    if ReportValid(s) {
      TrustedRun(events);
      assert |s.active.Keys| == 0;
    }
    if Complete(events) {
      AlternatingRun(events);
      assert s.active.Keys == {};
    }
  }

  /** In a valid report every row holds the result of the one finish that belongs to its start. */
  lemma EveryStartIsFinishedOnce<E(!new), R(!new)>(events: seq<Event<E, R>>, i: nat) returns (j: nat)
    requires ReportValid(After(events)) && i < |events| && events[i].Start?
    ensures Closes(events, i, j)
    ensures forall other: nat :: Closes(events, i, other) ==> other == j
    ensures var k := Starts(events[..i]);
            k < |After(events).rows| && After(events).rows[k].result == Some(events[j].result)
  {
    ValidExactlyWhenComplete(events);
    AlternatingRun(events);
    var s := After(events);
    assert TracksStart(events, s, i) && RecordsStart(events, s.rows, i);
    j :| Closes(events, i, j) && events[j].result == s.rows[Starts(events[..i])].result.value;
    forall other: nat | Closes(events, i, other)
      ensures other == j
    {
      ClosingIsNotLater(events, i, j, other);
      ClosingIsNotLater(events, i, other, j);
    }
  }

  lemma ClosingIsNotLater<E, R>(events: seq<Event<E, R>>, i: nat, j: nat, other: nat)
    requires Closes(events, i, j) && other < |events|
    ensures Closes(events, i, other) ==> j <= other
  {
    if other < j {
      assert events[..j][other] == events[other];
    }
  }
}
