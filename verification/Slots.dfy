/** The search for free appointment slots: what it should return, and when it leaves the range of the
    calendar. Times are UTC microseconds since the first moment of the year 1. */
module Slots {
  import opened Collections

  type Time = int

  const MINUTE: int := 60_000_000
  const HOUR: int := 60 * MINUTE
  const DAY: int := 24 * HOUR

  /** A `datetime` reaches through the years 1 to 9999, which have 3,652,059 days. */
  const END_OF_CALENDAR: Time := 3_652_059 * 86_400_000_000

  predicate IsTime(t: Time) {
    0 <= t < END_OF_CALENDAR
  }

  /** A `timedelta` has up to 999,999,999 days either way. */
  predicate IsDelta(d: int) {
    -999_999_999 * DAY <= d < 1_000_000_000 * DAY
  }

  type Moment = t: Time | IsTime(t) witness 0

  datatype Interval = Interval(start: Time, end: Time)

  /** Half-open intervals that share a moment, as the code compares them. */
  predicate Overlap(a: Interval, b: Interval) {
    a.start < b.end && a.end > b.start
  }

  predicate OverlapsAny(slot: Interval, busy: seq<Interval>) {
    exists i :: 0 <= i < |busy| && Overlap(slot, busy[i])
  }

  function Midnight(t: Time): Time {
    t - t % DAY
  }

  /** `t.replace(hour=hour, minute=0, second=0, microsecond=0)`. */
  function AtHour(t: Time, hour: nat): Time
    requires hour < 24
  {
    Midnight(t) + hour * HOUR
  }

  datatype Hours = Hours(opens: nat, closes: nat)

  predicate ValidHours(h: Hours) {
    h.opens < 24 && h.closes < 24
  }

  /** The length of a working day; negative when closing comes before opening. */
  function OpenTime(h: Hours): int {
    (h.closes - h.opens) * HOUR
  }

  lemma {:induction false} OpeningHours(h: Hours, day: Time)
    requires ValidHours(h) && AtHour(day, h.opens) == day
    ensures AtHour(day + DAY, h.opens) == day + DAY
    ensures AtHour(day, h.closes) == day + OpenTime(h)
  {
  }

  /** Opening, closing and the next opening, as times; a date that has a next one closes on it in time. */
  lemma {:induction false} TimesOfDay(h: Hours, day: Time)
    requires ValidHours(h) && AtHour(day, h.opens) == day
    ensures AtHour(day, h.closes) == day + OpenTime(h) && AtHour(day + DAY, h.opens) == day + DAY
    ensures OpenTime(h) <= DAY
    ensures IsTime(day) && IsTime(day + DAY) ==> day + DAY + OpenTime(h) <= END_OF_CALENDAR
  {
    OpeningHours(h, day);
  }

  /** The first opening that is not before `searchFrom`. */
  function FirstOpening(h: Hours, searchFrom: Time): Time
    requires ValidHours(h)
  {
    var day := AtHour(searchFrom, h.opens);
    if day < searchFrom then day + DAY else day
  }

  lemma {:induction false} FirstOpeningIsOpening(h: Hours, searchFrom: Time)
    requires ValidHours(h)
    ensures AtHour(FirstOpening(h, searchFrom), h.opens) == FirstOpening(h, searchFrom) >= searchFrom
  {
  }

  // ----- what a search should return, for a positive duration

  /** From `start` on, back to back, all that end by `closing`. */
  function DaySlots(start: Time, closing: Time, duration: int): seq<Interval>
    requires duration > 0
    decreases closing - start
  {
    if start + duration > closing then []
    else [Interval(start, start + duration)] + DaySlots(start + duration, closing, duration)
  }

  /** The slots of every day that opens before `until`; `open` is the length of a working day. */
  function Grid(opening: Time, open: int, until: Time, duration: int): seq<Interval>
    requires duration > 0
    decreases until - opening
  {
    if opening >= until then []
    else DaySlots(opening, opening + open, duration) + Grid(opening + DAY, open, until, duration)
  }

  function Free(slots: seq<Interval>, busy: seq<Interval>): seq<Interval> {
    if slots == [] then []
    else (if OverlapsAny(slots[0], busy) then [] else [slots[0]]) + Free(slots[1..], busy)
  }

  function Take(slots: seq<Interval>, n: int): seq<Interval> {
    if n <= 0 then [] else if |slots| <= n then slots else slots[..n]
  }

  // ----- and for any other duration, which nothing rejects

  /** The earliest busy start, or 0 if that is earlier. */
  function Lowest(busy: seq<Interval>): (r: Time)
    ensures forall i :: 0 <= i < |busy| ==> r <= busy[i].start
  {
    if busy == [] then 0
    else
      var n := |busy| - 1;
      var low := Lowest(busy[..n]);
      if busy[n].start < low then busy[n].start else low
  }

  /** A step of zero gets past no busy moment. */
  predicate StepsAside(start: Time, duration: int, busy: seq<Interval>) {
    duration == 0 ==> !OverlapsAny(Interval(start, start), busy)
  }

  /** Stepping back from `start`, the first `n` free slots that run backwards. */
  function Backward(start: Time, duration: int, busy: seq<Interval>, n: int): (r: seq<Interval>)
    requires duration <= 0 && StepsAside(start, duration, busy)
    ensures |r| == if n < 0 then 0 else n
    decreases n, start - Lowest(busy)
  {
    if n <= 0 then []
    else
      var slot := Interval(start, start + duration);
      if OverlapsAny(slot, busy) then Backward(start + duration, duration, busy, n)
      else [slot] + Backward(start + duration, duration, busy, n - 1)
  }

  // ----- the search as a whole

  /** The search finds something on the first day, whatever the busy list. */
  predicate StartsToday(first: Time, open: int, until: Time, duration: int, maxResults: int) {
    first < until && duration <= open && maxResults > 0
  }

  /** The search ends: only a zero duration can keep it at one busy moment for ever. */
  predicate SearchEnds(first: Time, open: int, until: Time, duration: int, maxResults: int, busy: seq<Interval>) {
    StartsToday(first, open, until, duration, maxResults) ==> StepsAside(first, duration, busy)
  }

  /** What a search from a given first opening should return. */
  function SlotsFrom(first: Time, open: int, until: Time, duration: int, maxResults: int, busy: seq<Interval>)
      : seq<Interval>
    requires SearchEnds(first, open, until, duration, maxResults, busy)
  {
    if duration > 0 then Take(Free(Grid(first, open, until, duration), busy), maxResults)
    else if !StartsToday(first, open, until, duration, maxResults) then []
    else Backward(first, duration, busy, maxResults)
  }

  /** A missing or zero duration means the default. */
  function ResolveDuration(durationMinutes: Option<int>, defaultMinutes: int): int {
    (if durationMinutes.Some? && durationMinutes.value != 0 then durationMinutes.value else defaultMinutes) * MINUTE
  }

  /** A search request: a missing or zero duration has already become the default. */
  datatype Search = Search(hours: Hours, from: Moment, days: int, duration: int, maxResults: int)

  function Until(q: Search): Time {
    q.from + q.days * DAY
  }

  predicate Answerable(q: Search, busy: seq<Interval>) {
    && ValidHours(q.hours)
    && SearchEnds(FirstOpening(q.hours, q.from), OpenTime(q.hours), Until(q), q.duration, q.maxResults, busy)
  }

  function AvailableSlots(q: Search, busy: seq<Interval>): seq<Interval>
    requires Answerable(q, busy)
  {
    SlotsFrom(FirstOpening(q.hours, q.from), OpenTime(q.hours), Until(q), q.duration, q.maxResults, busy)
  }

  // ----- how far a search reaches

  /** The first slot end past closing. */
  function CutOff(opening: Time, closing: Time, duration: int): (r: Time)
    requires duration > 0
    ensures r > closing && r >= opening + duration
    ensures r <= closing + duration || r == opening + duration
    decreases closing - opening
  {
    if opening + duration > closing then opening + duration else CutOff(opening + duration, closing, duration)
  }

  /** The opening of the last day of the search. */
  function LastOpening(day: Time, until: Time): (r: Time)
    requires day < until
    ensures day <= r < until <= r + DAY
    decreases until - day
  {
    if day + DAY >= until then day else LastOpening(day + DAY, until)
  }

  /** The end of the last slot tried on a day on which `found` slots are found in the end. Enough found,
      it is the one after the last of them; otherwise the first that closing cuts off. */
  function LastTryOfDay(opening: Time, closing: Time, duration: int, maxResults: int, found: seq<Interval>): Time
    requires maxResults > 0
  {
    if |found| >= maxResults then found[maxResults - 1].end + duration
    else if duration > 0 then CutOff(opening, closing, duration)
    else opening + duration
  }

  /** The same for the whole search: with a positive duration the last day reaches furthest, otherwise the
      first one does. */
  function LastTry(first: Time, open: int, until: Time, duration: int, maxResults: int, found: seq<Interval>): Time
    requires maxResults > 0 && first < until
  {
    var opening := if duration > 0 then LastOpening(first, until) else first;
    LastTryOfDay(opening, opening + open, duration, maxResults, found)
  }

  /** A moment of the last day looked at. */
  function LastLook(first: Time, until: Time, duration: int, maxResults: int, found: seq<Interval>): Time
    requires maxResults > 0 && first < until
  {
    if |found| < maxResults then LastOpening(first, until)
    else if duration > 0 then found[maxResults - 1].start
    else first
  }

  /** The scan of the days stays within the calendar: so do the last slot tried and the day after the
      last day looked at, which is computed before the search is over. */
  predicate DaysInRange(first: Time, open: int, until: Time, duration: int, maxResults: int, found: seq<Interval>) {
    first < until && maxResults > 0 ==>
      && IsTime(LastTry(first, open, until, duration, maxResults, found))
      && IsTime(LastLook(first, until, duration, maxResults, found) + DAY)
  }

  /** The duration and the end of the window are representable. */
  predicate WindowInRange(q: Search) {
    IsDelta(q.duration) && IsTime(Until(q))
  }

  /** A search that leaves no time out of range. */
  predicate InRange(q: Search, busy: seq<Interval>)
    requires Answerable(q, busy)
  {
    && WindowInRange(q) && IsTime(FirstOpening(q.hours, q.from))
    && DaysInRange(FirstOpening(q.hours, q.from), OpenTime(q.hours), Until(q), q.duration, q.maxResults,
                   AvailableSlots(q, busy))
  }

  /** `Overflow` stands for the exception that datetime arithmetic raises. */
  datatype SearchOutcome = Proposed(slots: seq<Interval>) | CalendarDown | Overflow

  /** A search with valid hours that gets as far as scanning days ends. */
  predicate Settled(q: Search, busy: Option<seq<Interval>>) {
    ValidHours(q.hours) && (WindowInRange(q) && busy.Some? ==> Answerable(q, busy.value))
  }

  /** The busy list, None when the calendar cannot be read, is asked for once the window is known. */
  function SearchResult(q: Search, busy: Option<seq<Interval>>): SearchOutcome
    requires Settled(q, busy)
  {
    if !WindowInRange(q) then Overflow
    else if busy.None? then CalendarDown
    else if InRange(q, busy.value) then Proposed(AvailableSlots(q, busy.value))
    else Overflow
  }
}
