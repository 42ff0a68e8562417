/** What each tool call answers, in terms of its arguments and what is stored. */
module ToolAnswers {
  import opened Collections
  import opened Slots
  import opened SlotAnswers
  import opened Booking
  import opened BookingLaws
  import opened BookingTools
  import opened BookingToolLaws

  // ----- refusals and results

  /** Why a call is refused before anything is looked up or done, in the order of the checks. */
  predicate IsRefusedFor(why: Refusal, w: World, client: ClientId, tool: Tool) {
    match tool
    case CheckAvailability(args) => why.InvalidArguments? && args.None?
    case ListMyAppointments => false
    case BookAppointment(None) => why.InvalidArguments?
    case BookAppointment(Some(BookArgs(start, end, confirmed))) =>
      if !confirmed then why.NotConfirmed?
      else if start.None? || end.None? then why.InvalidTime?
      else client !in w.clients && why.CallerNotFound?
    case CancelAppointment(None) => why.InvalidArguments?
    case CancelAppointment(Some(CancelArgs(id, confirmed))) =>
      if !confirmed then why.NotConfirmed?
      else (id.None? || id.value !in w.rows || w.rows[id.value].client != client) && why.NoSuchAppointment?
    case RescheduleAppointment(None) => why.InvalidArguments?
    case RescheduleAppointment(Some(RescheduleArgs(id, start, end, confirmed))) =>
      if !confirmed then why.NotConfirmed?
      else if start.None? || end.None? then why.InvalidTime?
      else (id.None? || id.value !in w.rows || w.rows[id.value].client != client) && why.NoSuchAppointment?
    case UnknownTool(_) => why.NoSuchTool?
  }

  lemma {:induction false} RefusedIff(s: Settings, w: World, client: ClientId, tool: Tool, t: ToolSurroundings,
                                      next: World, answer: Answer, why: Refusal)
    requires Executed(s, w, client, tool, t, next, answer)
    ensures answer == Refused(why) <==> IsRefusedFor(why, w, client, tool)
    ensures answer == Refused(why) ==> IsError(answer)
  {
  }

  /** A mutating call that is not refused reports its row and time, a booking or calendar error, or raises. */
  predicate Reports(answer: Answer, q: Request, outcome: Outcome) {
    match outcome
    case Ok(row) =>
      (match q
       case BookRequest(_, slot) => answer == Booked(row, slot) && !IsError(answer)
       case CancelRequest(_) => answer == CancelledRow(row) && !IsError(answer)
       case RescheduleRequest(_, slot) => answer == Moved(row, slot) && !IsError(answer))
    case BookingError => answer.Failed? && IsError(answer)
    case CalendarError => answer.Failed? && IsError(answer)
    case CommitError => answer.Crashed?
  }

  /** The request a mutating call comes down to is the caller's own, for the times given. */
  predicate Asks(q: Request, client: ClientId, tool: Tool) {
    match tool
    case BookAppointment(Some(args)) =>
      args.start.Some? && args.end.Some? && q == BookRequest(client, Interval(args.start.value, args.end.value))
    case CancelAppointment(Some(args)) => args.id.Some? && q == CancelRequest(args.id.value)
    case RescheduleAppointment(Some(args)) =>
      && args.id.Some? && args.start.Some? && args.end.Some?
      && q == RescheduleRequest(args.id.value, Interval(args.start.value, args.end.value))
    case _ => false
  }

  predicate Mutates(tool: Tool) {
    tool.BookAppointment? || tool.CancelAppointment? || tool.RescheduleAppointment?
  }

  /** A mutating call that is not refused is one service step for what it asks, and reports its outcome. */
  lemma {:induction false} DoneAndReported(s: Settings, w: World, client: ClientId, tool: Tool, t: ToolSurroundings,
                                           next: World, answer: Answer)
    returns (q: Request)
    requires Executed(s, w, client, tool, t, next, answer) && Mutates(tool) && !answer.Refused?
    ensures Asks(q, client, tool) && Possible(w, q, t.env)
    ensures next == Apply(w, q, t.env).world && Reports(answer, q, Apply(w, q, t.env).outcome)
  {
    q := AsRequest(w, client, tool).value;
  }

  // ----- the search

  /** Missing and zero arguments stand for the defaults: the configured duration, seven days. */
  function Minutes(s: Settings, args: AvailabilityArgs): int {
    match args.durationMinutes
    case None => s.defaultMinutes
    case Some(m) => if m == 0 then s.defaultMinutes else m
  }

  function Days(args: AvailabilityArgs): int {
    match args.searchDays
    case None => 7
    case Some(d) => if d == 0 then 7 else d
  }

  lemma {:induction false} SearchIsAsked(s: Settings, args: AvailabilityArgs, now: Moment)
    ensures SearchFor(s, args, now) == Search(s.hours, now, Days(args), Minutes(s, args) * 60_000_000, 5)
  {
  }

  /** What is offered lasts as long as asked for, and there are at most five. For a positive duration it is in
      office hours of the days asked for, keeps clear of everything busy, and leaves out nothing earlier. */
  lemma {:induction false} OffersAreAsAsked(s: Settings, w: World, client: ClientId, args: AvailabilityArgs,
                                            t: ToolSurroundings, next: World, answer: Answer)
    requires Executed(s, w, client, CheckAvailability(Some(args)), t, next, answer) && answer.Offered?
    ensures var q := Search(s.hours, t.now, Days(args), Minutes(s, args) * 60_000_000, 5);
            && t.busy.Some?
            && |answer.slots| <= 5
            && (forall slot :: slot in answer.slots ==> slot.end - slot.start == Minutes(s, args) * 60_000_000)
            && (Minutes(s, args) > 0 ==>
                  && (forall slot :: slot in answer.slots ==>
                        InOfficeHours(q, slot) && KeepsClear(slot, t.busy.value))
                  && (forall slot :: InOfficeHours(q, slot) && KeepsClear(slot, t.busy.value)
                                     && slot !in answer.slots ==>
                        |answer.slots| == 5 && forall i :: 0 <= i < 5 ==> answer.slots[i].end <= slot.start))
  {
    SearchIsAsked(s, args, t.now);
    var q := Search(s.hours, t.now, Days(args), Minutes(s, args) * 60_000_000, 5);
    SearchAnswers(q, t.busy);
    SlotsHaveTheDuration(q, t.busy.value);
    if Minutes(s, args) > 0 {
      ProposalsAre(q, t.busy.value);
    }
  }

  // ----- the list

  /** Listed is exactly what is stored for this caller, not cancelled, and not yet started. */
  lemma {:induction false} ListIs(s: Settings, w: World, client: ClientId, t: ToolSurroundings, next: World,
                                  answer: Answer)
    requires Executed(s, w, client, ListMyAppointments, t, next, answer)
    ensures next == w && answer.Listed?
    ensures forall r :: r in answer.rows
                        <==> r in w.rows && w.rows[r].client == client && w.rows[r].status != Cancelled
                             && w.rows[r].slot.start >= t.now
  {
  }

  /** A future appointment just booked or moved is on the next list, and one just cancelled is not. */
  lemma {:induction false} ListFollowsTheCall(s: Settings, client: ClientId, worlds: seq<World>, calls: seq<ToolCall>,
                                              answers: seq<Answer>, k: nat)
    requires IsSession(s, client, worlds, calls, answers) && k + 1 < |calls| && calls[k + 1].tool.ListMyAppointments?
    ensures answers[k + 1].Listed?
    ensures answers[k].Booked? && answers[k].slot.start >= calls[k + 1].surroundings.now
            ==> answers[k].row in answers[k + 1].rows
    ensures answers[k].Moved? && answers[k].slot.start >= calls[k + 1].surroundings.now
            ==> answers[k].row in answers[k + 1].rows
    ensures answers[k].CancelledRow? ==> answers[k].row !in answers[k + 1].rows
  {
    var later := k + 1;
    assert Called(s, client, worlds[k], calls[k], worlds[k + 1], answers[k]);
    assert Called(s, client, worlds[later], calls[later], worlds[later + 1], answers[later]);
    AnswersAreTrue(s, worlds[k], client, calls[k].tool, calls[k].surroundings, worlds[k + 1], answers[k]);
    ListIs(s, worlds[later], client, calls[later].surroundings, worlds[later + 1], answers[later]);
  }

  predicate StoredFor(w: World, client: ClientId, id: RowId) {
    id in w.rows && w.rows[id].client == client
  }

  /** No call removes a row or gives it to somebody else. */
  lemma {:induction false} RowIsKept(s: Settings, w: World, client: ClientId, tool: Tool, t: ToolSurroundings,
                                     next: World, answer: Answer, id: RowId)
    requires Executed(s, w, client, tool, t, next, answer) && id in w.rows
    ensures id in next.rows && next.rows[id].client == w.rows[id].client
  {
  }

  lemma {:induction false} StaysStored(s: Settings, client: ClientId, worlds: seq<World>, calls: seq<ToolCall>,
                                       answers: seq<Answer>, id: RowId, i: nat, j: nat)
    requires IsSession(s, client, worlds, calls, answers) && i <= j <= |calls| && StoredFor(worlds[i], client, id)
    ensures StoredFor(worlds[j], client, id)
    decreases j - i
  {
    if i < j {
      var k := j - 1;
      StaysStored(s, client, worlds, calls, answers, id, i, k);
      assert Called(s, client, worlds[k], calls[k], worlds[k + 1], answers[k]);
      RowIsKept(s, worlds[k], client, calls[k].tool, calls[k].surroundings, worlds[k + 1], answers[k], id);
    }
  }

  /** The call names the row, to cancel or to move it. */
  predicate Names(tool: Tool, id: RowId) {
    match tool
    case CancelAppointment(Some(args)) => args.id == Some(id)
    case RescheduleAppointment(Some(args)) => args.id == Some(id)
    case _ => false
  }

  /** Once listed, an appointment is known to every later call of the session that names it. */
  lemma {:induction false} ListedIsKnown(s: Settings, client: ClientId, worlds: seq<World>, calls: seq<ToolCall>,
                                         answers: seq<Answer>, id: RowId, i: nat, j: nat)
    requires IsSession(s, client, worlds, calls, answers) && i < j < |calls|
    requires calls[i].tool.ListMyAppointments? && answers[i].Listed? && id in answers[i].rows
    requires Names(calls[j].tool, id)
    ensures answers[j] != Refused(NoSuchAppointment)
  {
    assert Called(s, client, worlds[i], calls[i], worlds[i + 1], answers[i]);
    ListIs(s, worlds[i], client, calls[i].surroundings, worlds[i + 1], answers[i]);
    StaysStored(s, client, worlds, calls, answers, id, i, j);
    assert Called(s, client, worlds[j], calls[j], worlds[j + 1], answers[j]);
  }
}
