/** Booking, cancelling and rescheduling against one calendar and one database of appointment rows. */
module Booking {
  import opened Collections
  import opened Slots

  type ClientId = nat
  type RowId = nat
  type EventId = nat

  datatype Status = Scheduled | Confirmed | Cancelled | Rescheduled | Completed

  datatype Appointment = Appointment(client: ClientId, slot: Interval, status: Status, event: Option<EventId>)

  /** `issued` holds every event id the calendar ever gave out, live or not. */
  datatype World = World(
    clients: set<ClientId>, rows: map<RowId, Appointment>, events: map<EventId, Interval>, issued: set<EventId>)

  /** What one request meets: whether the calendar answers, whether the database accepts the commit,
      the ids handed out for a new event and a new row, and which of several matching rows an
      unordered query returns first. */
  datatype Surroundings = Surroundings(
    calendarUp: bool, commitOk: bool, newEvent: EventId, newRow: RowId, firstHit: RowId)

  datatype Outcome = Ok(row: RowId) | BookingError | CalendarError | CommitError

  datatype Step = Step(world: World, outcome: Outcome)

  predicate Positive(slot: Interval) {
    slot.start < slot.end
  }

  /** Not cancelled. */
  predicate Active(a: Appointment) {
    a.status != Cancelled
  }

  /** The rows the overlap query matches. */
  function Hits(rows: map<RowId, Appointment>, client: ClientId, slot: Interval): set<RowId> {
    set r | r in rows && rows[r].client == client && Active(rows[r]) && Overlap(rows[r].slot, slot)
  }

  /** Ids are new, and the query returns one of the rows it matches. */
  predicate Fits(w: World, client: ClientId, slot: Interval, env: Surroundings) {
    && env.newEvent !in w.issued && env.newRow !in w.rows
    && (Hits(w.rows, client, slot) != {} ==> env.firstHit in Hits(w.rows, client, slot))
  }

  /** A commit goes through when the database accepts it and the row meets the table's constraint. */
  predicate Commits(env: Surroundings, row: Appointment) {
    env.commitOk && Positive(row.slot)
  }

  /** An exact repeat of an active appointment returns it; any other overlap is refused; otherwise an
      event is created first and the row committed second. */
  function Book(w: World, client: ClientId, slot: Interval, env: Surroundings): Step
    requires Fits(w, client, slot, env)
  {
    if Hits(w.rows, client, slot) != {} then
      Step(w, if w.rows[env.firstHit].slot == slot then Ok(env.firstHit) else BookingError)
    else if !env.calendarUp then Step(w, CalendarError)
    else
      var withEvent := w.(events := w.events[env.newEvent := slot], issued := w.issued + {env.newEvent});
      var row := Appointment(client, slot, Confirmed, Some(env.newEvent));
      if !Commits(env, row) then Step(withEvent, CommitError)
      else Step(withEvent.(rows := w.rows[env.newRow := row]), Ok(env.newRow))
  }

  /** The calendar rejects ids it does not hold. */
  predicate CalendarAccepts(w: World, id: EventId, env: Surroundings) {
    env.calendarUp && id in w.events
  }

  function Cancel(w: World, id: RowId, env: Surroundings): Step
    requires id in w.rows
  {
    var row := w.rows[id];
    if row.event.Some? && !CalendarAccepts(w, row.event.value, env) then Step(w, CalendarError)
    else
      var without := if row.event.Some? then w.(events := w.events - {row.event.value}) else w;
      if !Commits(env, row) then Step(without, CommitError)
      else Step(without.(rows := w.rows[id := row.(status := Cancelled)]), Ok(id))
  }

  function Reschedule(w: World, id: RowId, slot: Interval, env: Surroundings): Step
    requires id in w.rows
  {
    var row := w.rows[id];
    if row.event.None? then Step(w, BookingError)
    else if !CalendarAccepts(w, row.event.value, env) then Step(w, CalendarError)
    else
      var moved := w.(events := w.events[row.event.value := slot]);
      var newRow := row.(slot := slot, status := Rescheduled);
      if !Commits(env, newRow) then Step(moved, CommitError)
      else Step(moved.(rows := w.rows[id := newRow]), Ok(id))
  }

  // ----- the objects

  class Calendar {
    var events: map<EventId, Interval>
    var issued: set<EventId>

    method CreateEvent(slot: Interval, env: Surroundings) returns (id: Option<EventId>)
      modifies this
      ensures id == if env.calendarUp then Some(env.newEvent) else None
      ensures events == if env.calendarUp then old(events)[env.newEvent := slot] else old(events)
      ensures issued == if env.calendarUp then old(issued) + {env.newEvent} else old(issued)
    {
      if !env.calendarUp {
        return None;
      }
      events := events[env.newEvent := slot];
      issued := issued + {env.newEvent};
      return Some(env.newEvent);
    }

    method CancelEvent(id: EventId, env: Surroundings) returns (done: bool)
      modifies this`events
      ensures done == (env.calendarUp && id in old(events))
      ensures events == if done then old(events) - {id} else old(events)
    {
      done := env.calendarUp && id in events;
      if done {
        events := events - {id};
      }
    }

    method RescheduleEvent(id: EventId, slot: Interval, env: Surroundings) returns (done: bool)
      modifies this`events
      ensures done == (env.calendarUp && id in old(events))
      ensures events == if done then old(events)[id := slot] else old(events)
    {
      done := env.calendarUp && id in events;
      if done {
        events := events[id := slot];
      }
    }
  }

  class Database {
    var clients: set<ClientId>
    var rows: map<RowId, Appointment>

    /** Inserts or updates one row; a refused commit leaves the stored rows as they were. */
    method Commit(id: RowId, row: Appointment, env: Surroundings) returns (done: bool)
      modifies this`rows
      ensures done == Commits(env, row)
      ensures rows == if done then old(rows)[id := row] else old(rows)
    {
      done := env.commitOk && Positive(row.slot);
      if done {
        rows := rows[id := row];
      }
    }

    /** Some active overlapping row of the client, or None when there is none. */
    method FindOverlapping(client: ClientId, slot: Interval, env: Surroundings) returns (hit: Option<RowId>)
      requires Hits(rows, client, slot) != {} ==> env.firstHit in Hits(rows, client, slot)
      ensures hit.Some? ==> hit.value in rows && rows[hit.value].client == client
                            && Active(rows[hit.value]) && Overlap(rows[hit.value].slot, slot)
      ensures hit.None? <==> forall r :: r in rows && rows[r].client == client && Active(rows[r])
                                         ==> !Overlap(rows[r].slot, slot)
      ensures hit == if Hits(rows, client, slot) == {} then None else Some(env.firstHit)
    {
      hit := if Hits(rows, client, slot) == {} then None else Some(env.firstHit);
      assert forall r :: r in rows && rows[r].client == client && Active(rows[r]) && Overlap(rows[r].slot, slot)
                         <==> r in Hits(rows, client, slot);
    }
  }

  class BookingService {
    const calendar: Calendar

    constructor (calendar: Calendar)
      ensures this.calendar == calendar
    {
      this.calendar := calendar;
    }

    function WorldOf(db: Database): World
      reads this, calendar, db
    {
      World(db.clients, db.rows, calendar.events, calendar.issued)
    }

    method BookAppointment(db: Database, client: ClientId, slot: Interval, env: Surroundings) returns (outcome: Outcome)
      requires Fits(WorldOf(db), client, slot, env)
      modifies calendar, db`rows
      ensures Step(WorldOf(db), outcome) == Book(old(WorldOf(db)), client, slot, env)
    {
      var existing := db.FindOverlapping(client, slot, env);
      if existing.Some? {
        var found := db.rows[existing.value].slot;
        if found.start == slot.start && found.end == slot.end {
          return Ok(existing.value);
        }
        return BookingError;
      }
      var event := calendar.CreateEvent(slot, env);
      if event.None? {
        return CalendarError;
      }
      var done := db.Commit(env.newRow, Appointment(client, slot, Confirmed, event), env);
      return if done then Ok(env.newRow) else CommitError;
    }

    method CancelAppointment(db: Database, id: RowId, env: Surroundings) returns (outcome: Outcome)
      requires id in db.rows
      modifies calendar`events, db`rows
      ensures Step(WorldOf(db), outcome) == Cancel(old(WorldOf(db)), id, env)
    {
      var row := db.rows[id];
      if row.event.Some? {
        var cancelled := calendar.CancelEvent(row.event.value, env);
        if !cancelled {
          return CalendarError;
        }
      }
      var done := db.Commit(id, row.(status := Cancelled), env);
      return if done then Ok(id) else CommitError;
    }

    method RescheduleAppointment(db: Database, id: RowId, slot: Interval, env: Surroundings) returns (outcome: Outcome)
      requires id in db.rows
      modifies calendar`events, db`rows
      ensures Step(WorldOf(db), outcome) == Reschedule(old(WorldOf(db)), id, slot, env)
    {
      var row := db.rows[id];
      if row.event.None? {
        return BookingError;
      }
      var moved := calendar.RescheduleEvent(row.event.value, slot, env);
      if !moved {
        return CalendarError;
      }
      var done := db.Commit(id, row.(slot := slot, status := Rescheduled), env);
      return if done then Ok(id) else CommitError;
    }
  }
}
