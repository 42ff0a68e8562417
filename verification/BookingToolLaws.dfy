/** What the model can and cannot do to stored appointments through its tools. */
module BookingToolLaws {
  import opened Collections
  import opened Slots
  import opened SlotLaws
  import opened Booking
  import opened BookingLaws
  import opened BookingTools

  datatype ToolCall = ToolCall(tool: Tool, surroundings: ToolSurroundings)

  ghost predicate Called(s: Settings, client: ClientId, w: World, call: ToolCall, next: World, answer: Answer) {
    Executed(s, w, client, call.tool, call.surroundings, next, answer)
  }

  /** A sequence of calls through one executor. */
  ghost predicate IsSession(s: Settings, client: ClientId, worlds: seq<World>, calls: seq<ToolCall>,
                            answers: seq<Answer>)
  {
    && |worlds| == |calls| + 1 && |answers| == |calls|
    && forall i :: 0 <= i < |calls| ==> Called(s, client, worlds[i], calls[i], worlds[i + 1], answers[i])
  }

  // ----- what a call asks of the booking service

  /** The booking request a confirmed, well-formed call of a known caller comes down to. */
  function AsRequest(w: World, client: ClientId, tool: Tool): Option<Request> {
    match tool
    case BookAppointment(Some(BookArgs(Some(start), Some(end), true))) =>
      if client in w.clients then Some(BookRequest(client, Interval(start, end))) else None
    case CancelAppointment(Some(CancelArgs(id, true))) =>
      if OwnedBy(w, id, client) then Some(CancelRequest(id.value)) else None
    case RescheduleAppointment(Some(RescheduleArgs(id, Some(start), Some(end), true))) =>
      if OwnedBy(w, id, client) then Some(RescheduleRequest(id.value, Interval(start, end))) else None
    case _ => None
  }

  /** The call searches for slots, and the window or some time the search computes is out of the
      calendar's range. */
  predicate LeavesCalendar(s: Settings, tool: Tool, t: ToolSurroundings)
    requires Settles(s, tool, t)
  {
    match tool
    case CheckAvailability(Some(args)) =>
      var q := SearchFor(s, args, t.now);
      !WindowInRange(q) || (t.busy.Some? && !InRange(q, t.busy.value))
    case _ => false
  }

  /** A call either leaves everything alone, and crashes exactly when it searches out of range, or takes
      the one service step it asks for, and crashes exactly when that step's commit is refused. */
  lemma {:induction false} ActsAsRequested(s: Settings, w: World, client: ClientId, tool: Tool, t: ToolSurroundings,
                                           next: World, answer: Answer)
    requires Executed(s, w, client, tool, t, next, answer)
    ensures var q := AsRequest(w, client, tool);
            && (q.None? ==> next == w && (answer.Crashed? <==> LeavesCalendar(s, tool, t)))
            && (q.Some? ==> Possible(w, q.value, t.env) && next == Apply(w, q.value, t.env).world
                            && !LeavesCalendar(s, tool, t)
                            && (answer.Crashed? <==> Apply(w, q.value, t.env).outcome == CommitError))
  {
  }

  // ----- other clients

  /** The rows of every client but this one. */
  function RowsOfOthers(w: World, client: ClientId): map<RowId, Appointment> {
    map r | r in w.rows && w.rows[r].client != client :: w.rows[r]
  }

  /** One call leaves the rows of all other clients exactly as they were, and adds none for them. */
  lemma {:induction false} OthersKeepTheirRows(s: Settings, w: World, client: ClientId, tool: Tool,
                                               t: ToolSurroundings, next: World, answer: Answer)
    requires Executed(s, w, client, tool, t, next, answer)
    ensures RowsOfOthers(next, client) == RowsOfOthers(w, client)
    ensures next.clients == w.clients
  {
  }

  lemma {:induction false} SessionKeepsOthers(s: Settings, client: ClientId, worlds: seq<World>, calls: seq<ToolCall>,
                                              answers: seq<Answer>, n: nat)
    requires IsSession(s, client, worlds, calls, answers) && n <= |calls|
    ensures RowsOfOthers(worlds[n], client) == RowsOfOthers(worlds[0], client)
  {
    if n > 0 {
      var k := n - 1;
      SessionKeepsOthers(s, client, worlds, calls, answers, k);
      assert Called(s, client, worlds[k], calls[k], worlds[k + 1], answers[k]);
      OthersKeepTheirRows(s, worlds[k], client, calls[k].tool, calls[k].surroundings, worlds[k + 1], answers[k]);
    }
  }

  /** The event belongs to somebody else: put there by other people, or some other client's appointment. */
  ghost predicate OfOthers(w: World, foreign: set<EventId>, client: ClientId, e: EventId) {
    || e in foreign
    || (exists r :: r in w.rows && w.rows[r].client != client && w.rows[r].event == Some(e))
  }

  /** A live event that no row of this client refers to. */
  ghost predicate NotTheirs(w: World, client: ClientId, e: EventId) {
    && e in w.events && e in w.issued
    && forall r :: r in w.rows && w.rows[r].client == client ==> w.rows[r].event != Some(e)
  }

  lemma {:induction false} OthersEventIsNotTheirs(w: World, foreign: set<EventId>, client: ClientId, e: EventId)
    requires Agree(w, foreign) && e in w.events && OfOthers(w, foreign, client, e)
    ensures NotTheirs(w, client, e)
  {
    forall r | r in w.rows && w.rows[r].client == client
      ensures w.rows[r].event != Some(e)
    {
      assert RowAgrees(w, foreign, r);
    }
  }

  /** One call leaves an event that is not this client's alone, and it stays not theirs: even a call that
      crashes halfway. */
  lemma {:induction false} NotTheirsIsSpared(s: Settings, w: World, client: ClientId, tool: Tool, t: ToolSurroundings,
                                             next: World, answer: Answer, e: EventId)
    requires Executed(s, w, client, tool, t, next, answer) && NotTheirs(w, client, e)
    ensures NotTheirs(next, client, e) && next.events[e] == w.events[e]
  {
  }

  /** Database and calendar agreeing at the start, no sequence of calls moves or removes an event of
      anybody else, whatever fails on the way. */
  lemma {:induction false} OthersKeepTheirEvents(s: Settings, foreign: set<EventId>, client: ClientId,
                                                 worlds: seq<World>, calls: seq<ToolCall>, answers: seq<Answer>,
                                                 e: EventId, n: nat)
    requires IsSession(s, client, worlds, calls, answers) && n <= |calls|
    requires Agree(worlds[0], foreign) && e in worlds[0].events && OfOthers(worlds[0], foreign, client, e)
    ensures NotTheirs(worlds[n], client, e) && worlds[n].events[e] == worlds[0].events[e]
  {
    if n == 0 {
      OthersEventIsNotTheirs(worlds[0], foreign, client, e);
    } else {
      var k := n - 1;
      OthersKeepTheirEvents(s, foreign, client, worlds, calls, answers, e, k);
      assert Called(s, client, worlds[k], calls[k], worlds[k + 1], answers[k]);
      NotTheirsIsSpared(s, worlds[k], client, calls[k].tool, calls[k].surroundings, worlds[k + 1], answers[k], e);
    }
  }

  // ----- confirmation

  /** The call carries the caller's confirmation. */
  predicate CarriesConfirmation(tool: Tool) {
    match tool
    case BookAppointment(Some(args)) => args.callerConfirmed
    case CancelAppointment(Some(args)) => args.callerConfirmed
    case RescheduleAppointment(Some(args)) => args.callerConfirmed
    case _ => false
  }

  /** Only a confirmed call changes anything, and a mutating tool without confirmation is an error. */
  lemma {:induction false} UnconfirmedChangesNothing(s: Settings, w: World, client: ClientId, tool: Tool,
                                                     t: ToolSurroundings, next: World, answer: Answer)
    requires Executed(s, w, client, tool, t, next, answer) && !CarriesConfirmation(tool)
    ensures next == w
    ensures !tool.CheckAvailability? && !tool.ListMyAppointments? ==> IsError(answer)
  {
  }

  lemma {:induction false} UnconfirmedSessionChangesNothing(s: Settings, client: ClientId, worlds: seq<World>,
                                                            calls: seq<ToolCall>, answers: seq<Answer>, n: nat)
    requires IsSession(s, client, worlds, calls, answers) && n <= |calls|
    requires forall i :: 0 <= i < n ==> !CarriesConfirmation(calls[i].tool)
    ensures worlds[n] == worlds[0]
  {
    if n > 0 {
      var k := n - 1;
      UnconfirmedSessionChangesNothing(s, client, worlds, calls, answers, k);
      assert Called(s, client, worlds[k], calls[k], worlds[k + 1], answers[k]);
      UnconfirmedChangesNothing(s, worlds[k], client, calls[k].tool, calls[k].surroundings, worlds[k + 1], answers[k]);
    }
  }

  // ----- errors and crashes

  /** An answer reported as an error means nothing was changed; only an uncaught exception can leave
      the calendar ahead of the database. */
  lemma {:induction false} ErrorsChangeNothing(s: Settings, w: World, client: ClientId, tool: Tool,
                                               t: ToolSurroundings, next: World, answer: Answer)
    requires Executed(s, w, client, tool, t, next, answer)
    ensures IsError(answer) ==> next == w
    ensures next.rows != w.rows ==> answer.Booked? || answer.CancelledRow? || answer.Moved?
  {
  }

  /** The request gets as far as the database: nothing is double-booked and the calendar does its part. */
  predicate ReachesCommit(w: World, q: Request, env: Surroundings)
    requires Possible(w, q, env)
  {
    match q
    case BookRequest(client, slot) => Hits(w.rows, client, slot) == {} && env.calendarUp
    case CancelRequest(id) => w.rows[id].event.Some? ==> CalendarAccepts(w, w.rows[id].event.value, env)
    case RescheduleRequest(id, _) => w.rows[id].event.Some? && CalendarAccepts(w, w.rows[id].event.value, env)
  }

  /** A call crashes exactly when it searches out of the calendar's range, or gets as far as the database
      and is refused there: the commit fails, or the interval asked for is not positive, which nothing has
      checked before. */
  lemma {:induction false} CallCrashesIff(s: Settings, w: World, foreign: set<EventId>, client: ClientId, tool: Tool,
                                          t: ToolSurroundings, next: World, answer: Answer)
    requires Executed(s, w, client, tool, t, next, answer) && Agree(w, foreign)
    ensures var q := AsRequest(w, client, tool);
            answer.Crashed? <==> LeavesCalendar(s, tool, t)
                                 || (q.Some? && Possible(w, q.value, t.env) && ReachesCommit(w, q.value, t.env)
                                     && !Sound(Timed(q.value, t.env)))
  {
    ActsAsRequested(s, w, client, tool, t, next, answer);
    var q := AsRequest(w, client, tool);
    if q.Some? && q.value.CancelRequest? {
      assert RowAgrees(w, foreign, q.value.id);
    }
  }

  /** A confirmed call of a known caller for an interval that ends no later than it starts. */
  predicate AsksForNoTime(w: World, client: ClientId, tool: Tool) {
    match tool
    case BookAppointment(Some(BookArgs(Some(start), Some(end), true))) =>
      client in w.clients && end <= start && Hits(w.rows, client, Interval(start, end)) == {}
    case RescheduleAppointment(Some(RescheduleArgs(id, Some(start), Some(end), true))) =>
      OwnedBy(w, id, client) && Active(w.rows[id.value]) && end <= start
    case _ => false
  }

  /** With a working calendar and database, a call raises exactly when it is a confirmed booking of a
      known caller, where the caller has nothing yet, or a confirmed move of the caller's own active
      appointment, to an interval that ends no later than it starts, or a search for slots that leaves
      the calendar's range. */
  lemma {:induction false} RaisesIff(s: Settings, w: World, foreign: set<EventId>, client: ClientId, tool: Tool,
                                     t: ToolSurroundings, next: World, answer: Answer)
    requires Executed(s, w, client, tool, t, next, answer) && Agree(w, foreign)
    requires t.env.calendarUp && t.env.commitOk
    ensures answer.Crashed? <==> AsksForNoTime(w, client, tool) || LeavesCalendar(s, tool, t)
  {
    ActsAsRequested(s, w, client, tool, t, next, answer);
    CallCrashesIff(s, w, foreign, client, tool, t, next, answer);
    var q := AsRequest(w, client, tool);
    if q.Some? && q.value.RescheduleRequest? {
      assert RowAgrees(w, foreign, q.value.id);
    }
  }

  /** A concrete call that raises: a confirmed booking of the empty interval [5, 5). */
  lemma {:induction false} EmptyBookingRaises(s: Settings)
    ensures var w := World({1}, map[], map[], {});
            var tool := BookAppointment(Some(BookArgs(Some(5), Some(5), true)));
            var t := ToolSurroundings(Surroundings(true, true, 7, 9, 0), 0, None);
            var torn := World({1}, map[], map[7 := Interval(5, 5)], {7});
            Agree(w, {}) && Executed(s, w, 1, tool, t, torn, Crashed) && !Agree(torn, {})
  {
    EmptyIntervalLeavesAnOrphan();
  }

  /** And one that only reads: a search ten million days ahead raises whatever the time, the stored state
      and the calendar. */
  lemma {:induction false} FarSearchRaises(s: Settings, w: World, client: ClientId, t: ToolSurroundings)
    requires ValidHours(s.hours)
    ensures Executed(s, w, client, CheckAvailability(Some(AvailabilityArgs(None, Some(10_000_000)))), t, w, Crashed)
  {
    var q := SearchFor(s, AvailabilityArgs(None, Some(10_000_000)), t.now);
    FarSearchIsOut(q);
  }

  /** A search with a positive duration whose reach is in range stays in it, whatever is busy. */
  lemma {:induction false} ReachKeepsToCalendar(s: Settings, args: AvailabilityArgs, t: ToolSurroundings)
    requires ValidSearch(SearchFor(s, args, t.now)) && ReachInRange(SearchFor(s, args, t.now))
    ensures !LeavesCalendar(s, CheckAvailability(Some(args)), t)
  {
    if t.busy.Some? {
      ReachSuffices(SearchFor(s, args, t.now), t.busy.value);
    }
  }

  // ----- database and calendar agree

  /** The call would change the calendar and then have its commit refused. */
  predicate CallTears(w: World, client: ClientId, call: ToolCall) {
    var q := AsRequest(w, client, call.tool);
    q.Some? && TearsAt(w, Timed(q.value, call.surroundings.env))
  }

  /** A tool call keeps database and calendar in agreement exactly when it does not tear. */
  lemma {:induction false} ToolKeepsAgreement(s: Settings, foreign: set<EventId>, client: ClientId, w: World,
                                              call: ToolCall, next: World, answer: Answer)
    requires Called(s, client, w, call, next, answer) && Agree(w, foreign)
    ensures Agree(next, foreign) <==> !CallTears(w, client, call)
  {
    ActsAsRequested(s, w, client, call.tool, call.surroundings, next, answer);
    var q := AsRequest(w, client, call.tool);
    if q.Some? {
      StepAgrees(w, foreign, q.value, call.surroundings.env);
    }
  }

  /** The agreement holds throughout the first `n` calls exactly when none of them tears. */
  lemma {:induction false} SessionAgreesIff(s: Settings, foreign: set<EventId>, client: ClientId, worlds: seq<World>,
                                            calls: seq<ToolCall>, answers: seq<Answer>, n: nat)
    requires IsSession(s, client, worlds, calls, answers) && n <= |calls| && Agree(worlds[0], foreign)
    ensures (forall i :: 0 <= i <= n ==> Agree(worlds[i], foreign))
            <==> (forall i :: 0 <= i < n ==> !CallTears(worlds[i], client, calls[i]))
  {
    if n > 0 {
      var k := n - 1;
      SessionAgreesIff(s, foreign, client, worlds, calls, answers, k);
      assert Called(s, client, worlds[k], calls[k], worlds[k + 1], answers[k]);
      if Agree(worlds[k], foreign) {
        ToolKeepsAgreement(s, foreign, client, worlds[k], calls[k], worlds[k + 1], answers[k]);
      }
    }
  }

  /** The database takes the commit, the interval named by the arguments, if any, is positive, and a
      search keeps to the calendar. */
  predicate SoundCall(s: Settings, call: ToolCall)
    requires Settles(s, call.tool, call.surroundings)
  {
    && call.surroundings.env.commitOk && !LeavesCalendar(s, call.tool, call.surroundings)
    && match call.tool
       case BookAppointment(Some(BookArgs(Some(start), Some(end), _))) => start < end
       case RescheduleAppointment(Some(RescheduleArgs(_, Some(start), Some(end), _))) => start < end
       case _ => true
  }

  /** When every call is sound, database and calendar agree throughout and no call raises. */
  lemma {:induction false} SoundSessionNeverRaises(s: Settings, foreign: set<EventId>, client: ClientId,
                                                   worlds: seq<World>, calls: seq<ToolCall>, answers: seq<Answer>)
    requires IsSession(s, client, worlds, calls, answers) && Agree(worlds[0], foreign)
    requires forall i :: 0 <= i < |calls| ==> Settles(s, calls[i].tool, calls[i].surroundings)
    requires forall i :: 0 <= i < |calls| ==> SoundCall(s, calls[i])
    ensures forall i :: 0 <= i <= |calls| ==> Agree(worlds[i], foreign)
    ensures forall i :: 0 <= i < |calls| ==> !answers[i].Crashed?
  {
    forall i | 0 <= i < |calls|
      ensures !CallTears(worlds[i], client, calls[i])
    {
      assert SoundCall(s, calls[i]);
    }
    SessionAgreesIff(s, foreign, client, worlds, calls, answers, |calls|);
    forall i | 0 <= i < |calls|
      ensures !answers[i].Crashed?
    {
      assert SoundCall(s, calls[i]) && Called(s, client, worlds[i], calls[i], worlds[i + 1], answers[i]);
      CallCrashesIff(s, worlds[i], foreign, client, calls[i].tool, calls[i].surroundings, worlds[i + 1], answers[i]);
    }
  }

  // ----- answers

  /** What a caller was told holds: a booked or moved appointment is this client's, active, at that time. */
  lemma {:induction false} AnswersAreTrue(s: Settings, w: World, client: ClientId, tool: Tool, t: ToolSurroundings,
                                          next: World, answer: Answer)
    requires Executed(s, w, client, tool, t, next, answer)
    ensures answer.Booked? ==> answer.row in next.rows && next.rows[answer.row].client == client
                               && next.rows[answer.row].slot == answer.slot && Active(next.rows[answer.row])
    ensures answer.Moved? ==> answer.row in next.rows && next.rows[answer.row].client == client
                              && next.rows[answer.row].slot == answer.slot && Active(next.rows[answer.row])
    ensures answer.CancelledRow? ==> answer.row in next.rows && next.rows[answer.row].client == client
                                     && !Active(next.rows[answer.row])
  {
  }
}
