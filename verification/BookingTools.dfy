/** The tool dispatcher bound to one caller. Arguments arrive parsed: None stands for arguments that
    fail validation, for a datetime that is not timezone-aware ISO 8601, and for an id that is no UUID. */
module BookingTools {
  import opened Collections
  import opened Slots
  import opened SlotSearch
  import opened Booking

  datatype AvailabilityArgs = AvailabilityArgs(durationMinutes: Option<int>, searchDays: Option<int>)
  datatype BookArgs = BookArgs(start: Option<Time>, end: Option<Time>, callerConfirmed: bool)
  datatype CancelArgs = CancelArgs(id: Option<RowId>, callerConfirmed: bool)
  datatype RescheduleArgs = RescheduleArgs(
    id: Option<RowId>, start: Option<Time>, end: Option<Time>, callerConfirmed: bool)

  datatype Tool =
    | CheckAvailability(availability: Option<AvailabilityArgs>)
    | ListMyAppointments
    | BookAppointment(book: Option<BookArgs>)
    | CancelAppointment(cancel: Option<CancelArgs>)
    | RescheduleAppointment(reschedule: Option<RescheduleArgs>)
    | UnknownTool(name: string)

  datatype Refusal = InvalidArguments | NotConfirmed | InvalidTime | CallerNotFound | NoSuchAppointment | NoSuchTool

  /** `Failed` is a booking or calendar error reported to the model; `Crashed` is an exception the
      dispatcher does not catch. */
  datatype Answer =
    | Offered(slots: seq<Interval>)
    | Listed(rows: set<RowId>)
    | Booked(row: RowId, slot: Interval)
    | CancelledRow(row: RowId)
    | Moved(row: RowId, slot: Interval)
    | Refused(why: Refusal)
    | Failed
    | Crashed

  predicate IsError(a: Answer) {
    a.Refused? || a.Failed?
  }

  /** What one tool call meets besides the stored state: the time, and the busy list (None when the
      calendar cannot be read). */
  datatype ToolSurroundings = ToolSurroundings(env: Surroundings, now: Moment, busy: Option<seq<Interval>>)

  datatype ToolStep = ToolStep(world: World, answer: Answer)

  datatype Settings = Settings(hours: Hours, defaultMinutes: int)

  const DEFAULT_SEARCH_DAYS: int := 7
  const DEFAULT_MAX_RESULTS: int := 5

  function SearchDays(args: AvailabilityArgs): int {
    if args.searchDays.Some? && args.searchDays.value != 0 then args.searchDays.value else DEFAULT_SEARCH_DAYS
  }

  /** The client's active appointments that have not started. */
  function Upcoming(w: World, client: ClientId, now: Time): set<RowId> {
    set r | r in w.rows && w.rows[r].client == client && w.rows[r].slot.start >= now && Active(w.rows[r])
  }

  /** The appointment, but only if it belongs to this caller. */
  predicate OwnedBy(w: World, id: Option<RowId>, client: ClientId) {
    id.Some? && id.value in w.rows && w.rows[id.value].client == client
  }

  function Report(step: Step, done: RowId -> Answer): ToolStep {
    match step.outcome
    case Ok(row) => ToolStep(step.world, done(row))
    case BookingError => ToolStep(step.world, Failed)
    case CalendarError => ToolStep(step.world, Failed)
    case CommitError => ToolStep(step.world, Crashed)
  }

  /** A booking that gets as far as the service meets fresh ids and one of its overlap hits. */
  predicate Meets(w: World, client: ClientId, tool: Tool, t: ToolSurroundings) {
    match tool
    case BookAppointment(Some(BookArgs(Some(start), Some(end), _))) => Fits(w, client, Interval(start, end), t.env)
    case _ => true
  }

  function Act(w: World, client: ClientId, tool: Tool, t: ToolSurroundings): ToolStep
    requires Meets(w, client, tool, t) && !tool.CheckAvailability?
  {
    match tool
    case ListMyAppointments => ToolStep(w, Listed(Upcoming(w, client, t.now)))
    case BookAppointment(args) =>
      if args.None? then ToolStep(w, Refused(InvalidArguments))
      else if !args.value.callerConfirmed then ToolStep(w, Refused(NotConfirmed))
      else if args.value.start.None? || args.value.end.None? then ToolStep(w, Refused(InvalidTime))
      else if client !in w.clients then ToolStep(w, Refused(CallerNotFound))
      else
        var slot := Interval(args.value.start.value, args.value.end.value);
        Report(Book(w, client, slot, t.env), (r: RowId) => Booked(r, slot))
    case CancelAppointment(args) =>
      if args.None? then ToolStep(w, Refused(InvalidArguments))
      else if !args.value.callerConfirmed then ToolStep(w, Refused(NotConfirmed))
      else if !OwnedBy(w, args.value.id, client) then ToolStep(w, Refused(NoSuchAppointment))
      else Report(Cancel(w, args.value.id.value, t.env), (r: RowId) => CancelledRow(r))
    case RescheduleAppointment(args) =>
      if args.None? then ToolStep(w, Refused(InvalidArguments))
      else if !args.value.callerConfirmed then ToolStep(w, Refused(NotConfirmed))
      else if args.value.start.None? || args.value.end.None? then ToolStep(w, Refused(InvalidTime))
      else if !OwnedBy(w, args.value.id, client) then ToolStep(w, Refused(NoSuchAppointment))
      else
        var slot := Interval(args.value.start.value, args.value.end.value);
        Report(Reschedule(w, args.value.id.value, slot, t.env), (r: RowId) => Moved(r, slot))
    case UnknownTool(_) => ToolStep(w, Refused(NoSuchTool))
  }

  /** The search a call asks for. */
  function SearchFor(s: Settings, args: AvailabilityArgs, now: Moment): Search {
    Search(s.hours, now, SearchDays(args), ResolveDuration(args.durationMinutes, s.defaultMinutes), DEFAULT_MAX_RESULTS)
  }

  /** A search that is made ends. */
  predicate Settles(s: Settings, tool: Tool, t: ToolSurroundings) {
    match tool
    case CheckAvailability(Some(args)) => Settled(SearchFor(s, args, t.now), t.busy)
    case _ => true
  }

  function Searched(s: Settings, args: Option<AvailabilityArgs>, t: ToolSurroundings): Answer
    requires Settles(s, CheckAvailability(args), t)
  {
    if args.None? then Refused(InvalidArguments)
    else
      match SearchResult(SearchFor(s, args.value, t.now), t.busy)
      case Proposed(slots) => Offered(slots)
      case CalendarDown => Failed
      case Overflow => Crashed
  }

  /** One tool call, from `w` to `next`. */
  ghost predicate Executed(s: Settings, w: World, client: ClientId, tool: Tool, t: ToolSurroundings,
                           next: World, answer: Answer)
  {
    if tool.CheckAvailability? then
      Settles(s, tool, t) && next == w && answer == Searched(s, tool.availability, t)
    else
      Meets(w, client, tool, t) && Act(w, client, tool, t) == ToolStep(next, answer)
  }

  class BookingToolExecutor {
    const service: BookingService
    const db: Database
    const client: ClientId
    const settings: Settings

    constructor (service: BookingService, db: Database, client: ClientId, settings: Settings)
      ensures this.service == service && this.db == db && this.client == client && this.settings == settings
    {
      this.service, this.db, this.client, this.settings := service, db, client, settings;
    }

    method BookIt(args: Option<BookArgs>, t: ToolSurroundings) returns (answer: Answer)
      requires Meets(service.WorldOf(db), client, BookAppointment(args), t)
      modifies service.calendar, db`rows
      ensures ToolStep(service.WorldOf(db), answer) == Act(old(service.WorldOf(db)), client, BookAppointment(args), t)
    {
      if args.None? {
        return Refused(InvalidArguments);
      }
      if !args.value.callerConfirmed {
        return Refused(NotConfirmed);
      }
      var start, end := args.value.start, args.value.end;
      if start.None? || end.None? {
        return Refused(InvalidTime);
      }
      if client !in db.clients {
        return Refused(CallerNotFound);
      }
      var outcome := service.BookAppointment(db, client, Interval(start.value, end.value), t.env);
      match outcome
      case Ok(row) => return Booked(row, Interval(start.value, end.value));
      case CommitError => return Crashed;
      case _ => return Failed;
    }

    method CancelIt(args: Option<CancelArgs>, t: ToolSurroundings) returns (answer: Answer)
      modifies service.calendar, db`rows
      ensures ToolStep(service.WorldOf(db), answer) == Act(old(service.WorldOf(db)), client, CancelAppointment(args), t)
    {
      if args.None? {
        return Refused(InvalidArguments);
      }
      if !args.value.callerConfirmed {
        return Refused(NotConfirmed);
      }
      if !OwnedBy(service.WorldOf(db), args.value.id, client) {
        return Refused(NoSuchAppointment);
      }
      var outcome := service.CancelAppointment(db, args.value.id.value, t.env);
      match outcome
      case Ok(row) => return CancelledRow(row);
      case CommitError => return Crashed;
      case _ => return Failed;
    }

    method RescheduleIt(args: Option<RescheduleArgs>, t: ToolSurroundings) returns (answer: Answer)
      modifies service.calendar, db`rows
      ensures ToolStep(service.WorldOf(db), answer)
              == Act(old(service.WorldOf(db)), client, RescheduleAppointment(args), t)
    {
      if args.None? {
        return Refused(InvalidArguments);
      }
      if !args.value.callerConfirmed {
        return Refused(NotConfirmed);
      }
      var start, end := args.value.start, args.value.end;
      if start.None? || end.None? {
        return Refused(InvalidTime);
      }
      if !OwnedBy(service.WorldOf(db), args.value.id, client) {
        return Refused(NoSuchAppointment);
      }
      var outcome := service.RescheduleAppointment(db, args.value.id.value, Interval(start.value, end.value), t.env);
      match outcome
      case Ok(row) => return Moved(row, Interval(start.value, end.value));
      case CommitError => return Crashed;
      case _ => return Failed;
    }

    method Execute(tool: Tool, t: ToolSurroundings) returns (answer: Answer)
      requires Settles(settings, tool, t)
      requires Meets(service.WorldOf(db), client, tool, t)
      modifies service.calendar, db`rows
      ensures Executed(settings, old(service.WorldOf(db)), client, tool, t, service.WorldOf(db), answer)
    {
      match tool
      case CheckAvailability(args) =>
        if args.None? {
          return Refused(InvalidArguments);
        }
        var outcome := FindAvailableSlots(settings.hours, settings.defaultMinutes, t.now, SearchDays(args.value),
                                          args.value.durationMinutes, DEFAULT_MAX_RESULTS, t.busy);
        match outcome {
          case Proposed(slots) => return Offered(slots);
          case CalendarDown => return Failed;
          case Overflow => return Crashed;
        }
      case ListMyAppointments =>
        return Listed(Upcoming(service.WorldOf(db), client, t.now));
      case BookAppointment(args) =>
        answer := BookIt(args, t);
      case CancelAppointment(args) =>
        answer := CancelIt(args, t);
      case RescheduleAppointment(args) =>
        answer := RescheduleIt(args, t);
      case UnknownTool(_) =>
        return Refused(NoSuchTool);
    }
  }
}
