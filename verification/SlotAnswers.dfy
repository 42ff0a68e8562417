/** What a search answers, in dates, hours of the day and moments: no grid, no first opening. */
module SlotAnswers {
  import opened Collections
  import opened Slots
  import opened SlotLaws

  // ----- moments

  predicate During(t: Time, slot: Interval) {
    slot.start <= t < slot.end
  }

  /** Two intervals overlap when neither ends before the other starts; two intervals that run forward, when
      they share a moment. */
  lemma {:induction false} OverlapIs(a: Interval, b: Interval)
    ensures Overlap(a, b) <==> !(a.end <= b.start) && !(b.end <= a.start)
    ensures a.start < a.end && b.start < b.end ==> (Overlap(a, b) <==> exists t :: During(t, a) && During(t, b))
  {
    if Overlap(a, b) && a.start < a.end && b.start < b.end {
      var t := if a.start < b.start then b.start else a.start;
      assert During(t, a) && During(t, b);
    }
  }

  /** Every busy interval ends by the slot's start or starts at its end or later. */
  ghost predicate KeepsClear(slot: Interval, busy: seq<Interval>) {
    forall i :: 0 <= i < |busy| ==> busy[i].end <= slot.start || slot.end <= busy[i].start
  }

  lemma {:induction false} ClearIs(slot: Interval, busy: seq<Interval>)
    ensures KeepsClear(slot, busy) <==> !OverlapsAny(slot, busy)
  {
    forall i | 0 <= i < |busy|
      ensures Overlap(slot, busy[i]) <==> !(busy[i].end <= slot.start || slot.end <= busy[i].start)
    {
      OverlapIs(slot, busy[i]);
    }
  }

  // ----- dates and hours

  /** The slot starts a whole number of slots after an opening on some date, an opening that is in the window,
      and ends by closing on that date. `midnight` is where the date begins. */
  ghost predicate OnDate(q: Search, slot: Interval, midnight: Time, k: nat) {
    && midnight % 86_400_000_000 == 0
    && q.from <= midnight + q.hours.opens * 3_600_000_000 < q.from + q.days * 86_400_000_000
    && slot.start == midnight + q.hours.opens * 3_600_000_000 + k * q.duration
    && slot.end == slot.start + q.duration <= midnight + q.hours.closes * 3_600_000_000
  }

  ghost predicate InOfficeHours(q: Search, slot: Interval) {
    exists midnight, k: nat :: OnDate(q, slot, midnight, k)
  }

  /** The first opening is at the opening hour, in the window or after it, and the day before it is too early. */
  lemma {:induction false} FirstOpeningIs(q: Search)
    requires ValidHours(q.hours)
    ensures (First(q) - q.hours.opens * 3_600_000_000) % 86_400_000_000 == 0
    ensures q.from <= First(q) < q.from + 86_400_000_000
  {
  }

  lemma {:induction false} DaysBetween(first: Time, opening: Time, from: Time, hour: int) returns (d: nat)
    requires (first - hour) % 86_400_000_000 == 0 && (opening - hour) % 86_400_000_000 == 0
    requires from <= first < from + 86_400_000_000 && from <= opening
    ensures opening == first + d * 86_400_000_000
  {
    var gap := (opening - hour) / 86_400_000_000 - (first - hour) / 86_400_000_000;
    assert opening - first == gap * 86_400_000_000;
    d := gap;
  }

  lemma {:induction false} DaysAfter(first: Time, hour: int, d: nat)
    requires (first - hour) % 86_400_000_000 == 0
    ensures (first + d * 86_400_000_000 - hour) % 86_400_000_000 == 0
  {
  }

  lemma {:induction false} GridIsInOfficeHours(q: Search, slot: Interval)
    requires ValidSearch(q) && OnGrid(slot, First(q), OpenTime(q.hours), Until(q), q.duration)
    ensures InOfficeHours(q, slot)
  {
    var first, opens := First(q), q.hours.opens * 3_600_000_000;
    var d: nat, k: nat :| slot == GridSlot(first, d, k, q.duration)
                          && first + d * DAY < Until(q) && slot.end <= first + d * DAY + OpenTime(q.hours);
    FirstOpeningIs(q);
    DaysAfter(first, opens, d);
    assert OnDate(q, slot, first + d * DAY - opens, k);
  }

  lemma {:induction false} OfficeHoursAreOnGrid(q: Search, slot: Interval)
    requires ValidSearch(q) && InOfficeHours(q, slot)
    ensures OnGrid(slot, First(q), OpenTime(q.hours), Until(q), q.duration)
  {
    var first, opens := First(q), q.hours.opens * 3_600_000_000;
    var midnight, k: nat :| OnDate(q, slot, midnight, k);
    FirstOpeningIs(q);
    var d := DaysBetween(first, midnight + opens, q.from, opens);
    assert slot == GridSlot(first, d, k, q.duration);
  }

  /** The search grid is exactly the slots in office hours. */
  lemma {:induction false} GridIsOfficeHours(q: Search, slot: Interval)
    requires ValidSearch(q)
    ensures OnGrid(slot, First(q), OpenTime(q.hours), Until(q), q.duration) <==> InOfficeHours(q, slot)
  {
    if OnGrid(slot, First(q), OpenTime(q.hours), Until(q), q.duration) {
      GridIsInOfficeHours(q, slot);
    }
    if InOfficeHours(q, slot) {
      OfficeHoursAreOnGrid(q, slot);
    }
  }

  // ----- what is proposed

  /** Every slot proposed is as long as asked for. */
  lemma {:induction false} SlotsHaveTheDuration(q: Search, busy: seq<Interval>)
    requires Answerable(q, busy)
    ensures forall slot :: slot in AvailableSlots(q, busy) ==> slot.end - slot.start == q.duration
  {
    var slots := AvailableSlots(q, busy);
    if q.duration > 0 {
      FoundMayBeOffered(q, busy);
      forall slot | slot in slots
        ensures slot.end - slot.start == q.duration
      {
        var i :| 0 <= i < |slots| && slots[i] == slot;
        assert Offerable(q, busy, slots[i]);
      }
    } else if StartsToday(First(q), OpenTime(q.hours), Until(q), q.duration, q.maxResults) {
      BackwardIsFree(First(q), q.duration, busy, q.maxResults);
    }
  }

  /** For a positive duration, what is proposed is in office hours and keeps clear of everything busy, in
      order, and no such slot is left out unless enough earlier ones were found. */
  lemma {:induction false} ProposalsAre(q: Search, busy: seq<Interval>)
    requires q.hours.opens < 24 && q.hours.closes < 24 && q.duration > 0
    ensures var slots := AvailableSlots(q, busy);
            && |slots| <= (if q.maxResults < 0 then 0 else q.maxResults)
            && (forall slot :: slot in slots ==> InOfficeHours(q, slot) && KeepsClear(slot, busy))
            && (forall i, j :: 0 <= i < j < |slots| ==> slots[i].end <= slots[j].start)
            && (forall slot :: InOfficeHours(q, slot) && KeepsClear(slot, busy) && slot !in slots ==>
                  |slots| >= q.maxResults && forall i :: 0 <= i < |slots| ==> slots[i].end <= slot.start)
  {
    var slots := AvailableSlots(q, busy);
    FoundMayBeOffered(q, busy);
    forall slot | slot in slots
      ensures InOfficeHours(q, slot) && KeepsClear(slot, busy)
    {
      var i :| 0 <= i < |slots| && slots[i] == slot;
      assert Offerable(q, busy, slots[i]);
      GridIsOfficeHours(q, slot);
      ClearIs(slot, busy);
    }
    forall slot | InOfficeHours(q, slot) && KeepsClear(slot, busy) && slot !in slots
      ensures |slots| >= q.maxResults && forall i :: 0 <= i < |slots| ==> slots[i].end <= slot.start
    {
      GridIsOfficeHours(q, slot);
      ClearIs(slot, busy);
      NoneIsSkipped(q, busy, slot);
    }
  }

  /** The duration is a `timedelta`, and the window ends in the years 1 to 9999. */
  predicate WindowExists(q: Search) {
    && -999_999_999 * 86_400_000_000 <= q.duration < 1_000_000_000 * 86_400_000_000
    && 0 <= q.from + q.days * 86_400_000_000 < 3_652_059 * 86_400_000_000
  }

  /** The searches on which nothing is stated: those that get as far as scanning days, for slots of no length,
      with the first opening in the window and strictly inside something busy. */
  lemma {:induction false} SettledIff(q: Search, busy: Option<seq<Interval>>)
    requires q.hours.opens < 24 && q.hours.closes < 24
    ensures !Settled(q, busy) <==>
              && WindowExists(q) && busy.Some? && q.duration == 0 && q.maxResults > 0
              && q.hours.opens <= q.hours.closes && First(q) < q.from + q.days * 86_400_000_000
              && exists i :: 0 <= i < |busy.value| && busy.value[i].start < First(q) < busy.value[i].end
  {
    if busy.Some? {
      var b, first := busy.value, First(q);
      assert forall i :: 0 <= i < |b| ==> (Overlap(Interval(first, first), b[i]) <==> b[i].start < first < b[i].end);
    }
  }

  /** Without such a window the search overflows before the calendar is asked; with it, a calendar that
      cannot be read is reported; otherwise the slots are proposed, unless one more slot after the last, or
      one more day, is out of range. */
  lemma {:induction false} SearchAnswers(q: Search, busy: Option<seq<Interval>>)
    requires Settled(q, busy)
    ensures !WindowExists(q) ==> SearchResult(q, busy) == Overflow
    ensures SearchResult(q, busy) == CalendarDown <==> WindowExists(q) && busy.None?
    ensures var r := SearchResult(q, busy);
            r.Proposed? ==>
              && busy.Some? && Answerable(q, busy.value) && r.slots == AvailableSlots(q, busy.value)
              && (q.maxResults > 0 && |r.slots| >= q.maxResults ==>
                    && 0 <= r.slots[q.maxResults - 1].end + q.duration < 3_652_059 * 86_400_000_000
                    && (q.duration > 0 ==>
                          r.slots[q.maxResults - 1].start + 86_400_000_000 < 3_652_059 * 86_400_000_000))
  {
  }
}
