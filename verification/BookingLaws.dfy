/** What every step of the booking service keeps, and what a run of steps guarantees. */
module BookingLaws {
  import opened Collections
  import opened Slots
  import opened Booking

  // ----- requests and runs

  datatype Request =
    | BookRequest(client: ClientId, slot: Interval)
    | CancelRequest(id: RowId)
    | RescheduleRequest(id: RowId, slot: Interval)

  /** The request refers to an existing row, or its surroundings fit the state it meets. */
  predicate Possible(w: World, q: Request, env: Surroundings) {
    match q
    case BookRequest(client, slot) => Fits(w, client, slot, env)
    case CancelRequest(id) => id in w.rows
    case RescheduleRequest(id, _) => id in w.rows
  }

  function Apply(w: World, q: Request, env: Surroundings): Step
    requires Possible(w, q, env)
  {
    match q
    case BookRequest(client, slot) => Book(w, client, slot, env)
    case CancelRequest(id) => Cancel(w, id, env)
    case RescheduleRequest(id, slot) => Reschedule(w, id, slot, env)
  }

  datatype Timed = Timed(request: Request, env: Surroundings)

  ghost predicate Follows(w: World, t: Timed, next: World, outcome: Outcome) {
    Possible(w, t.request, t.env) && Apply(w, t.request, t.env) == Step(next, outcome)
  }

  /** `worlds` is what a sequential run of `requests` goes through, `outcomes` what it answers. */
  ghost predicate IsRun(worlds: seq<World>, requests: seq<Timed>, outcomes: seq<Outcome>) {
    && |worlds| == |requests| + 1 && |outcomes| == |requests|
    && forall i :: 0 <= i < |requests| ==> Follows(worlds[i], requests[i], worlds[i + 1], outcomes[i])
  }

  // ----- database and calendar agree

  ghost predicate RowAgrees(w: World, foreign: set<EventId>, r: RowId)
    requires r in w.rows
  {
    var a := w.rows[r];
    && Positive(a.slot)
    && (a.event.Some? ==> a.event.value in w.issued && a.event.value !in foreign)
    && (Active(a) ==> a.event.Some? && a.event.value in w.events && w.events[a.event.value] == a.slot)
    && (!Active(a) && a.event.Some? ==> a.event.value !in w.events)
  }

  ghost predicate Owned(w: World, e: EventId) {
    exists r :: r in w.rows && Active(w.rows[r]) && w.rows[r].event == Some(e)
  }

  /** Active rows and live events correspond one to one and carry the same interval; `foreign` are the
      events other people put into the same calendar. */
  ghost predicate Agree(w: World, foreign: set<EventId>) {
    && foreign <= w.events.Keys && w.events.Keys <= w.issued
    && (forall r :: r in w.rows ==> RowAgrees(w, foreign, r))
    && (forall r, s :: r in w.rows && s in w.rows && r != s && w.rows[r].event.Some?
                       ==> w.rows[r].event != w.rows[s].event)
    && (forall e :: e in w.events && e !in foreign ==> Owned(w, e))
  }

  /** The request would change the calendar and then have its commit refused: by the database, or for an
      interval that is not positive. Rescheduling to the time already stored changes no calendar. */
  predicate Tears(w: World, q: Request, env: Surroundings)
    requires Possible(w, q, env)
  {
    match q
    case BookRequest(client, slot) =>
      Hits(w.rows, client, slot) == {} && env.calendarUp && !(env.commitOk && Positive(slot))
    case CancelRequest(id) =>
      w.rows[id].event.Some? && CalendarAccepts(w, w.rows[id].event.value, env) && !env.commitOk
    case RescheduleRequest(id, slot) =>
      && w.rows[id].event.Some? && CalendarAccepts(w, w.rows[id].event.value, env)
      && slot != w.rows[id].slot && !(env.commitOk && Positive(slot))
  }

  lemma {:induction false} BookAgrees(w: World, foreign: set<EventId>, client: ClientId, slot: Interval,
                                      env: Surroundings)
    requires Agree(w, foreign) && Fits(w, client, slot, env)
    ensures Agree(Book(w, client, slot, env).world, foreign) <==> !Tears(w, BookRequest(client, slot), env)
  {
    var step := Book(w, client, slot, env);
    var w' := step.world;
    if step.outcome == CommitError {
      assert env.newEvent in w'.events && env.newEvent !in w.events;
      assert !Owned(w', env.newEvent);
    } else if w' != w {
      forall e | e in w'.events && e !in foreign
        ensures Owned(w', e)
      {
        if e == env.newEvent {
          assert w'.rows[env.newRow].event == Some(e);
        } else {
          var r :| r in w.rows && Active(w.rows[r]) && w.rows[r].event == Some(e);
          assert w'.rows[r] == w.rows[r];
        }
      }
      forall r | r in w'.rows
        ensures RowAgrees(w', foreign, r)
      {
        if r != env.newRow { assert RowAgrees(w, foreign, r); }
      }
      forall r | r in w.rows
        ensures w.rows[r].event != Some(env.newEvent)
      {
        assert RowAgrees(w, foreign, r);
      }
    }
  }

  lemma {:induction false} CancelAgrees(w: World, foreign: set<EventId>, id: RowId, env: Surroundings)
    requires Agree(w, foreign) && id in w.rows
    ensures Agree(Cancel(w, id, env).world, foreign) <==> !Tears(w, CancelRequest(id), env)
  {
    var step := Cancel(w, id, env);
    var w' := step.world;
    assert RowAgrees(w, foreign, id);
    if step.outcome == CommitError {
      if w' != w {
        assert !RowAgrees(w', foreign, id);
      }
    } else if w' != w {
      forall e | e in w'.events && e !in foreign
        ensures Owned(w', e)
      {
        var r :| r in w.rows && Active(w.rows[r]) && w.rows[r].event == Some(e);
        assert w'.rows[r] == w.rows[r];
      }
      forall r | r in w'.rows
        ensures RowAgrees(w', foreign, r)
      {
        assert RowAgrees(w, foreign, r);
      }
    }
  }

  lemma {:induction false} RescheduleAgrees(w: World, foreign: set<EventId>, id: RowId, slot: Interval,
                                            env: Surroundings)
    requires Agree(w, foreign) && id in w.rows
    ensures Agree(Reschedule(w, id, slot, env).world, foreign) <==> !Tears(w, RescheduleRequest(id, slot), env)
  {
    var step := Reschedule(w, id, slot, env);
    var w' := step.world;
    assert RowAgrees(w, foreign, id);
    if step.outcome == CommitError {
      if w' != w {
        assert w'.events[w.rows[id].event.value] == slot;
        assert slot == w.rows[id].slot ==> w'.events == w.events;
        assert !RowAgrees(w', foreign, id);
      }
    } else if w' != w {
      forall e | e in w'.events && e !in foreign
        ensures Owned(w', e)
      {
        var r :| r in w.rows && Active(w.rows[r]) && w.rows[r].event == Some(e);
        assert r in w'.rows && Active(w'.rows[r]) && w'.rows[r].event == Some(e);
      }
      forall r | r in w'.rows
        ensures RowAgrees(w', foreign, r)
      {
        assert RowAgrees(w, foreign, r);
      }
    }
  }

  /** Every step keeps the agreement exactly when it does not tear. */
  lemma {:induction false} StepAgrees(w: World, foreign: set<EventId>, q: Request, env: Surroundings)
    requires Agree(w, foreign) && Possible(w, q, env)
    ensures Agree(Apply(w, q, env).world, foreign) <==> !Tears(w, q, env)
  {
    match q
    case BookRequest(client, slot) => BookAgrees(w, foreign, client, slot, env);
    case CancelRequest(id) => CancelAgrees(w, foreign, id, env);
    case RescheduleRequest(id, slot) => RescheduleAgrees(w, foreign, id, slot, env);
  }

  /** With a working calendar and database, booking keeps the agreement exactly when the interval is
      positive or the client already has something there: nothing else checks the interval before the
      event is created. */
  lemma {:induction false} BookAgreesIff(w: World, foreign: set<EventId>, client: ClientId, slot: Interval,
                                         env: Surroundings)
    requires Agree(w, foreign) && Fits(w, client, slot, env) && env.calendarUp && env.commitOk
    ensures Agree(Book(w, client, slot, env).world, foreign)
            <==> Positive(slot) || Hits(w.rows, client, slot) != {}
  {
    BookAgrees(w, foreign, client, slot, env);
    if Hits(w.rows, client, slot) == {} && !Positive(slot) {
      assert env.newEvent in Book(w, client, slot, env).world.events && env.newEvent !in w.events;
    }
  }

  /** Rescheduling keeps it exactly when the new interval is positive, or the appointment has no live
      event to move. */
  lemma {:induction false} RescheduleAgreesIff(w: World, foreign: set<EventId>, id: RowId, slot: Interval,
                                               env: Surroundings)
    requires Agree(w, foreign) && id in w.rows && env.calendarUp && env.commitOk
    ensures Agree(Reschedule(w, id, slot, env).world, foreign)
            <==> Positive(slot) || !Active(w.rows[id])
  {
    RescheduleAgrees(w, foreign, id, slot, env);
    assert RowAgrees(w, foreign, id);
    var step := Reschedule(w, id, slot, env);
    if Active(w.rows[id]) && !Positive(slot) {
      var e := w.rows[id].event.value;
      assert step.world.events[e] == slot != w.events[e];
    }
  }

  /** An orphan: booking the empty interval [5, 5) leaves an event that no row knows. */
  lemma {:induction false} EmptyIntervalLeavesAnOrphan()
    ensures var w := World({1}, map[], map[], {});
            var step := Book(w, 1, Interval(5, 5), Surroundings(true, true, 7, 9, 0));
            && Agree(w, {}) && step.outcome == CommitError
            && step.world.events == map[7 := Interval(5, 5)] && step.world.rows == map[]
            && !Agree(step.world, {})
  {
  }

  predicate TearsAt(w: World, t: Timed) {
    Possible(w, t.request, t.env) && Tears(w, t.request, t.env)
  }

  /** The agreement holds throughout the first `n` steps of a run exactly when none of them tears. */
  lemma {:induction false} RunAgrees(worlds: seq<World>, requests: seq<Timed>, outcomes: seq<Outcome>,
                                     foreign: set<EventId>, n: nat)
    requires IsRun(worlds, requests, outcomes) && n <= |requests| && Agree(worlds[0], foreign)
    ensures (forall i :: 0 <= i <= n ==> Agree(worlds[i], foreign))
            <==> (forall i :: 0 <= i < n ==> !TearsAt(worlds[i], requests[i]))
  {
    if n > 0 {
      var k := n - 1;
      RunAgrees(worlds, requests, outcomes, foreign, k);
      assert Follows(worlds[k], requests[k], worlds[k + 1], outcomes[k]);
      if Agree(worlds[k], foreign) {
        StepAgrees(worlds[k], foreign, requests[k].request, requests[k].env);
      }
    }
  }

  /** The database takes the commit, and the interval asked for, if any, is positive. */
  predicate Sound(t: Timed) {
    t.env.commitOk && (t.request.CancelRequest? || Positive(t.request.slot))
  }

  /** When every request is sound, the agreement holds throughout: a calendar that fails, wrong ids,
      overlaps and repeats do no harm. */
  lemma {:induction false} SoundRunAgrees(worlds: seq<World>, requests: seq<Timed>, outcomes: seq<Outcome>,
                                          foreign: set<EventId>, n: nat)
    requires IsRun(worlds, requests, outcomes) && n <= |requests| && Agree(worlds[0], foreign)
    requires forall i :: 0 <= i < n ==> Sound(requests[i])
    ensures forall i :: 0 <= i <= n ==> Agree(worlds[i], foreign)
  {
    forall i | 0 <= i < n
      ensures !TearsAt(worlds[i], requests[i])
    {
      assert Sound(requests[i]);
    }
    RunAgrees(worlds, requests, outcomes, foreign, n);
  }

  // ----- one client's appointments do not overlap

  ghost predicate Disjoint(w: World) {
    forall r, s :: r in w.rows && s in w.rows && r != s && Active(w.rows[r]) && Active(w.rows[s])
                   && w.rows[r].client == w.rows[s].client
                   ==> !Overlap(w.rows[r].slot, w.rows[s].slot)
  }

  lemma {:induction false} BookKeepsDisjoint(w: World, client: ClientId, slot: Interval, env: Surroundings)
    requires Disjoint(w) && Fits(w, client, slot, env)
    ensures Disjoint(Book(w, client, slot, env).world)
  {
    var w' := Book(w, client, slot, env).world;
    forall r | r in w.rows && Hits(w.rows, client, slot) == {} && w.rows[r].client == client && Active(w.rows[r])
      ensures !Overlap(w.rows[r].slot, slot) && !Overlap(slot, w.rows[r].slot)
    {
      assert r !in Hits(w.rows, client, slot);
    }
  }

  lemma {:induction false} CancelKeepsDisjoint(w: World, id: RowId, env: Surroundings)
    requires Disjoint(w) && id in w.rows
    ensures Disjoint(Cancel(w, id, env).world)
  {
  }

  /** The request moves an appointment onto another active one of the same client, and nothing refuses. */
  predicate DoubleBooks(w: World, q: Request, env: Surroundings) {
    && q.RescheduleRequest? && q.id in w.rows
    && w.rows[q.id].event.Some? && CalendarAccepts(w, w.rows[q.id].event.value, env)
    && env.commitOk && Positive(q.slot)
    && !(Hits(w.rows, w.rows[q.id].client, q.slot) <= {q.id})
  }

  /** Rescheduling does not look for overlaps. It keeps a client's appointments apart exactly when the
      calendar or the database refuses it, or none of the client's other active appointments overlaps
      the new time. */
  lemma {:induction false} RescheduleKeepsDisjointIff(w: World, id: RowId, slot: Interval, env: Surroundings)
    requires Disjoint(w) && id in w.rows
    ensures Disjoint(Reschedule(w, id, slot, env).world)
            <==> w.rows[id].event.None? || !CalendarAccepts(w, w.rows[id].event.value, env)
                 || !env.commitOk || !Positive(slot)
                 || Hits(w.rows, w.rows[id].client, slot) <= {id}
  {
    var step := Reschedule(w, id, slot, env);
    var w', hits := step.world, Hits(w.rows, w.rows[id].client, slot);
    if step.outcome.Ok? {
      if !(hits <= {id}) {
        var r :| r in hits && r != id;
        assert w'.rows[r] == w.rows[r] && Overlap(w'.rows[r].slot, w'.rows[id].slot);
      } else {
        forall r | r in w.rows && r != id && Active(w.rows[r]) && w.rows[r].client == w.rows[id].client
          ensures !Overlap(w.rows[r].slot, slot) && !Overlap(slot, w.rows[r].slot)
        {
          assert r !in hits;
        }
      }
    }
  }

  /** One client, two appointments, both in the calendar. */
  function TwoAppointments(a: Interval, b: Interval): World {
    var rows := map[1 := Appointment(1, a, Confirmed, Some(1)), 2 := Appointment(1, b, Confirmed, Some(2))];
    World({1}, rows, map[1 := a, 2 := b], {1, 2})
  }

  lemma {:induction false} TwoAppointmentsAgree(a: Interval, b: Interval)
    requires Positive(a) && Positive(b) && !Overlap(a, b)
    ensures Agree(TwoAppointments(a, b), {}) && Disjoint(TwoAppointments(a, b))
  {
    var w := TwoAppointments(a, b);
    assert w.rows[1].event == Some(1) && w.rows[2].event == Some(2);
    assert Owned(w, 1) && Owned(w, 2);
  }

  lemma {:induction false} MovesOnto(a: Interval, b: Interval, onto: Interval, env: Surroundings)
    requires Positive(onto) && Overlap(a, onto) && env.calendarUp && env.commitOk
    ensures Reschedule(TwoAppointments(a, b), 2, onto, env).outcome == Ok(2)
    ensures DoubleBooks(TwoAppointments(a, b), RescheduleRequest(2, onto), env)
  {
    assert 1 in Hits(TwoAppointments(a, b).rows, 1, onto);
  }

  /** A double booking: moving the second of two appointments onto the first succeeds. */
  lemma {:induction false} RescheduleCanDoubleBook(a: Interval, b: Interval, onto: Interval, env: Surroundings)
    requires Positive(a) && Positive(b) && Positive(onto) && !Overlap(a, b) && Overlap(a, onto)
    requires env.calendarUp && env.commitOk
    ensures var w := TwoAppointments(a, b);
            var step := Reschedule(w, 2, onto, env);
            && Agree(w, {}) && Disjoint(w)
            && step.outcome == Ok(2) && !Disjoint(step.world)
  {
    TwoAppointmentsAgree(a, b);
    MovesOnto(a, b, onto, env);
    RescheduleKeepsDisjointIff(TwoAppointments(a, b), 2, onto, env);
  }

  lemma {:induction false} StepKeepsDisjoint(w: World, q: Request, env: Surroundings)
    requires Disjoint(w) && Possible(w, q, env)
    ensures Disjoint(Apply(w, q, env).world) <==> !DoubleBooks(w, q, env)
  {
    match q
    case BookRequest(client, slot) => BookKeepsDisjoint(w, client, slot, env);
    case CancelRequest(id) => CancelKeepsDisjoint(w, id, env);
    case RescheduleRequest(id, slot) => RescheduleKeepsDisjointIff(w, id, slot, env);
  }

  /** No client has two overlapping active appointments at any moment of the first `n` steps of a run,
      exactly when none of them moves an appointment onto another. */
  lemma {:induction false} RunKeepsDisjoint(worlds: seq<World>, requests: seq<Timed>, outcomes: seq<Outcome>, n: nat)
    requires IsRun(worlds, requests, outcomes) && n <= |requests| && Disjoint(worlds[0])
    ensures (forall i :: 0 <= i <= n ==> Disjoint(worlds[i]))
            <==> (forall i :: 0 <= i < n ==> !DoubleBooks(worlds[i], requests[i].request, requests[i].env))
  {
    if n > 0 {
      var k := n - 1;
      RunKeepsDisjoint(worlds, requests, outcomes, k);
      assert Follows(worlds[k], requests[k], worlds[k + 1], outcomes[k]);
      if Disjoint(worlds[k]) {
        StepKeepsDisjoint(worlds[k], requests[k].request, requests[k].env);
      }
    }
  }

  // ----- what each operation does to the stored rows and the calendar

  /** The row is the client's, is not cancelled, and neither it nor the slot ends before the other starts. */
  predicate Conflicts(w: World, client: ClientId, slot: Interval, r: RowId) {
    && r in w.rows && w.rows[r].client == client && w.rows[r].status != Cancelled
    && w.rows[r].slot.start < slot.end && slot.start < w.rows[r].slot.end
  }

  lemma {:induction false} SomeIdIsNew(ids: set<nat>) returns (id: nat)
    ensures forall i :: i in ids ==> i < id
    decreases |ids|
  {
    if ids == {} {
      id := 0;
    } else {
      var i :| i in ids;
      var rest := SomeIdIsNew(ids - {i});
      id := if i < rest then rest else i + 1;
      assert forall j :: j in ids ==> j == i || j in ids - {i};
    }
  }

  /** Nothing is assumed about what a booking meets: in every state the calendar and the database may fail or
      not, and the query may return any row in conflict. */
  lemma {:induction false} AnyFaultMayHappen(w: World, client: ClientId, slot: Interval, calendarUp: bool,
                                             commitOk: bool, hit: RowId)
    returns (env: Surroundings)
    requires (exists r :: Conflicts(w, client, slot, r)) ==> Conflicts(w, client, slot, hit)
    ensures Fits(w, client, slot, env)
    ensures env.calendarUp == calendarUp && env.commitOk == commitOk && env.firstHit == hit
  {
    var newEvent := SomeIdIsNew(w.issued);
    var newRow := SomeIdIsNew(w.rows.Keys);
    env := Surroundings(calendarUp, commitOk, newEvent, newRow, hit);
    forall r
      ensures Conflicts(w, client, slot, r) <==> r in Hits(w.rows, client, slot)
    {
    }
  }

  /** Booking: with a conflict, the row the query returns decides between a repeat and a refusal, and nothing
      changes. Without, a calendar that fails changes nothing either; otherwise exactly one event is
      created, and exactly one confirmed row for it, unless the commit is refused. */
  lemma {:induction false} BookDoes(w: World, client: ClientId, slot: Interval, env: Surroundings)
    requires Fits(w, client, slot, env)
    ensures var step := Book(w, client, slot, env);
            && ((exists r :: Conflicts(w, client, slot, r)) ==>
                  && Conflicts(w, client, slot, env.firstHit) && step.world == w
                  && step.outcome == if w.rows[env.firstHit].slot == slot then Ok(env.firstHit) else BookingError)
            && ((forall r :: !Conflicts(w, client, slot, r)) && !env.calendarUp ==> step == Step(w, CalendarError))
            && ((forall r :: !Conflicts(w, client, slot, r)) && env.calendarUp ==>
                  var row := Appointment(client, slot, Confirmed, Some(env.newEvent));
                  var stored := env.commitOk && slot.start < slot.end;
                  && step.outcome == (if stored then Ok(env.newRow) else CommitError)
                  && step.world == World(w.clients, if stored then w.rows[env.newRow := row] else w.rows,
                                         w.events[env.newEvent := slot], w.issued + {env.newEvent}))
  {
    forall r
      ensures Conflicts(w, client, slot, r) <==> r in Hits(w.rows, client, slot)
    {
    }
  }

  /** Cancelling: a calendar that does not take the event back changes nothing; otherwise exactly the row's
      event, if it has one, is removed, and exactly the row's status changes, unless the commit is refused. */
  lemma {:induction false} CancelDoes(w: World, id: RowId, env: Surroundings)
    requires id in w.rows
    ensures var step, row := Cancel(w, id, env), w.rows[id];
            if row.event.Some? && (!env.calendarUp || row.event.value !in w.events) then
              step == Step(w, CalendarError)
            else
              var stored := env.commitOk && row.slot.start < row.slot.end;
              var events := if row.event.Some? then w.events - {row.event.value} else w.events;
              var cancelled := Appointment(row.client, row.slot, Cancelled, row.event);
              && step.outcome == (if stored then Ok(id) else CommitError)
              && step.world == World(w.clients, if stored then w.rows[id := cancelled] else w.rows, events, w.issued)
  {
  }

  /** Rescheduling: refused without an event; a calendar that does not move it changes nothing; otherwise
      exactly the event moves, and exactly the row's time and status change, unless the commit is refused. */
  lemma {:induction false} RescheduleDoes(w: World, id: RowId, slot: Interval, env: Surroundings)
    requires id in w.rows
    ensures var step, row := Reschedule(w, id, slot, env), w.rows[id];
            if row.event.None? then step == Step(w, BookingError)
            else if !env.calendarUp || row.event.value !in w.events then step == Step(w, CalendarError)
            else
              var stored := env.commitOk && slot.start < slot.end;
              var moved := Appointment(row.client, slot, Rescheduled, row.event);
              && step.outcome == (if stored then Ok(id) else CommitError)
              && step.world == World(w.clients, if stored then w.rows[id := moved] else w.rows,
                                     w.events[row.event.value := slot], w.issued)
  {
  }

  // ----- repeating a booking

  /** A booking that succeeded is found again by an exact repeat, and nothing else is. */
  lemma {:induction false} RepeatHitsOnlyTheRow(w: World, client: ClientId, slot: Interval, env: Surroundings)
    requires Disjoint(w) && Fits(w, client, slot, env) && Book(w, client, slot, env).outcome.Ok?
    ensures var step := Book(w, client, slot, env);
            && step.outcome.row in step.world.rows && step.world.rows[step.outcome.row].slot == slot
            && Hits(step.world.rows, client, slot) == {step.outcome.row}
  {
  }

  /** Repeating a successful booking any number of times returns the same row every time and changes
      nothing, so exactly one event was created. */
  lemma {:induction false} RepeatsAreIdempotent(worlds: seq<World>, requests: seq<Timed>, outcomes: seq<Outcome>,
                                                client: ClientId, slot: Interval, n: nat)
    requires IsRun(worlds, requests, outcomes) && 0 < n <= |requests| && Disjoint(worlds[0])
    requires forall i :: 0 <= i < |requests| ==> requests[i].request == BookRequest(client, slot)
    requires outcomes[0].Ok?
    ensures worlds[n] == worlds[1] && outcomes[n - 1] == outcomes[0]
    ensures worlds[n].events in {worlds[0].events, worlds[0].events[requests[0].env.newEvent := slot]}
  {
    assert Follows(worlds[0], requests[0], worlds[0 + 1], outcomes[0]);
    if n > 1 {
      RepeatsAreIdempotent(worlds, requests, outcomes, client, slot, n - 1);
      RepeatHitsOnlyTheRow(worlds[0], client, slot, requests[0].env);
      assert Follows(worlds[n - 1], requests[n - 1], worlds[n - 1 + 1], outcomes[n - 1]);
    }
  }

  /** The request cancels or moves the row. */
  predicate Addresses(q: Request, id: RowId) {
    (q.CancelRequest? || q.RescheduleRequest?) && q.id == id
  }

  /** Between the first booking and a repeat: nothing addresses the row, and nothing is moved onto it. */
  ghost predicate LeftAlone(worlds: seq<World>, requests: seq<Timed>, id: RowId, n: nat)
    requires n <= |requests| < |worlds|
  {
    forall i :: 0 < i < n ==> !Addresses(requests[i].request, id)
                              && !DoubleBooks(worlds[i], requests[i].request, requests[i].env)
  }

  lemma {:induction false} BookedStays(worlds: seq<World>, requests: seq<Timed>, outcomes: seq<Outcome>,
                                       client: ClientId, slot: Interval, n: nat)
    requires IsRun(worlds, requests, outcomes) && 0 < n <= |requests| && Disjoint(worlds[0])
    requires requests[0].request == BookRequest(client, slot) && outcomes[0].Ok?
    requires LeftAlone(worlds, requests, outcomes[0].row, n)
    ensures var id := outcomes[0].row;
            && Disjoint(worlds[n]) && id in worlds[n].rows && Active(worlds[n].rows[id]) && Positive(slot)
            && worlds[n].rows[id].client == client && worlds[n].rows[id].slot == slot
  {
    var k := n - 1;
    assert Follows(worlds[k], requests[k], worlds[k + 1], outcomes[k]);
    if n == 1 {
      RepeatHitsOnlyTheRow(worlds[0], client, slot, requests[0].env);
      BookKeepsDisjoint(worlds[0], client, slot, requests[0].env);
      assert outcomes[0].row in Hits(worlds[1].rows, client, slot);
    } else {
      BookedStays(worlds, requests, outcomes, client, slot, k);
      StepKeepsDisjoint(worlds[k], requests[k].request, requests[k].env);
    }
  }

  lemma {:induction false} OnlyTheRow(w: World, client: ClientId, slot: Interval, id: RowId)
    requires Disjoint(w) && id in w.rows && Active(w.rows[id]) && Positive(slot)
    requires w.rows[id].client == client && w.rows[id].slot == slot
    ensures Hits(w.rows, client, slot) == {id}
  {
  }

  /** With any other requests in between, as long as none addresses the row or moves another appointment
      onto it, a later exact repeat of a booking returns the same row and changes nothing. */
  lemma {:induction false} LaterRepeatFindsTheRow(worlds: seq<World>, requests: seq<Timed>, outcomes: seq<Outcome>,
                                                  client: ClientId, slot: Interval, n: nat)
    requires IsRun(worlds, requests, outcomes) && 0 < n < |requests| && Disjoint(worlds[0])
    requires requests[0].request == requests[n].request == BookRequest(client, slot) && outcomes[0].Ok?
    requires LeftAlone(worlds, requests, outcomes[0].row, n)
    ensures worlds[n + 1] == worlds[n] && outcomes[n] == outcomes[0]
  {
    BookedStays(worlds, requests, outcomes, client, slot, n);
    OnlyTheRow(worlds[n], client, slot, outcomes[0].row);
    assert Follows(worlds[n], requests[n], worlds[n + 1], outcomes[n]);
  }
}
