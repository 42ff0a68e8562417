/** What a search result is, in terms of days, hours and the busy list. */
module SlotLaws {
  import opened Collections
  import opened Slots

  /** The k-th slot of the d-th day after the first opening. */
  function GridSlot(opening: Time, d: nat, k: nat, duration: int): Interval {
    Interval(opening + d * DAY + k * duration, opening + d * DAY + k * duration + duration)
  }

  ghost predicate OnGrid(slot: Interval, opening: Time, open: int, until: Time, duration: int) {
    exists d: nat, k: nat :: slot == GridSlot(opening, d, k, duration)
                             && opening + d * DAY < until && slot.end <= opening + d * DAY + open
  }

  /** Slots come in order and do not overlap. */
  ghost predicate Ordered(slots: seq<Interval>) {
    forall i, j :: 0 <= i < j < |slots| ==> slots[i].end <= slots[j].start
  }

  lemma {:induction false} StepBack(k: nat, duration: int)
    requires k > 0
    ensures duration + (k - 1) * duration == k * duration
  {
  }

  lemma {:induction false} NotNegative(k: nat, duration: int)
    requires duration >= 0
    ensures k * duration >= 0
  {
  }

  lemma {:induction false} NotPositive(k: nat, duration: int)
    requires duration <= 0
    ensures k * duration <= 0
  {
  }

  // ----- one day

  /** A day holds exactly the multiples of the duration that end by closing. */
  lemma {:induction false} DaySlotsAre(start: Time, closing: Time, duration: int, slot: Interval)
    requires duration > 0
    ensures slot in DaySlots(start, closing, duration)
            <==> exists k: nat :: slot == GridSlot(start, 0, k, duration) && slot.end <= closing
    decreases closing - start
  {
    if start + duration <= closing {
      var next := start + duration;
      DaySlotsAre(next, closing, duration, slot);
      if k: nat :| slot == GridSlot(next, 0, k, duration) && slot.end <= closing {
        StepBack(k + 1, duration);
        assert slot == GridSlot(start, 0, k + 1, duration);
      }
      if k: nat :| slot == GridSlot(start, 0, k, duration) && slot.end <= closing {
        if k > 0 {
          StepBack(k, duration);
          assert slot == GridSlot(next, 0, k - 1, duration);
        }
      }
      assert GridSlot(start, 0, 0, duration) == Interval(start, start + duration);
    } else if k: nat :| slot == GridSlot(start, 0, k, duration) && slot.end <= closing {
      NotNegative(k, duration);
      assert false;
    }
  }

  lemma {:induction false} ConsOrdered(first: Interval, rest: seq<Interval>)
    requires Ordered(rest) && forall i :: 0 <= i < |rest| ==> first.end <= rest[i].start
    ensures Ordered([first] + rest)
  {
  }

  lemma {:induction false} DaySlotsOrdered(start: Time, closing: Time, duration: int)
    requires duration > 0
    ensures var s := DaySlots(start, closing, duration);
            Ordered(s) && forall i :: 0 <= i < |s| ==> start <= s[i].start < s[i].end <= closing
    decreases closing - start
  {
    if start + duration <= closing {
      var next := start + duration;
      DaySlotsOrdered(next, closing, duration);
      ConsOrdered(Interval(start, next), DaySlots(next, closing, duration));
    }
  }

  // ----- all days

  lemma {:induction false} LaterDay(slot: Interval, opening: Time, open: int, until: Time, duration: int)
    requires opening < until
    ensures OnGrid(slot, opening, open, until, duration)
            <==> (exists k: nat :: slot == GridSlot(opening, 0, k, duration) && slot.end <= opening + open)
                 || OnGrid(slot, opening + DAY, open, until, duration)
  {
    var next := opening + DAY;
    if d: nat, k: nat :| slot == GridSlot(opening, d, k, duration)
                         && opening + d * DAY < until && slot.end <= opening + d * DAY + open {
      if d > 0 {
        assert slot == GridSlot(next, d - 1, k, duration);
      }
    }
    if d: nat, k: nat :| slot == GridSlot(next, d, k, duration)
                         && next + d * DAY < until && slot.end <= next + d * DAY + open {
      assert slot == GridSlot(opening, d + 1, k, duration);
    }
  }

  /** The grid is exactly the slots at whole multiples of the duration after each day's opening, on the
      days that open before `until`, that end by closing. */
  lemma {:induction false} GridIs(opening: Time, open: int, until: Time, duration: int, slot: Interval)
    requires duration > 0
    ensures slot in Grid(opening, open, until, duration) <==> OnGrid(slot, opening, open, until, duration)
    decreases until - opening
  {
    if opening < until {
      GridIs(opening + DAY, open, until, duration, slot);
      DaySlotsAre(opening, opening + open, duration, slot);
      LaterDay(slot, opening, open, until, duration);
    } else if d: nat, k: nat :| slot == GridSlot(opening, d, k, duration)
                                && opening + d * DAY < until && slot.end <= opening + d * DAY + open {
      NotNegative(d, DAY);
      assert false;
    }
  }

  lemma {:induction false} JoinOrdered(a: seq<Interval>, b: seq<Interval>, t: Time)
    requires Ordered(a) && Ordered(b)
    requires forall i :: 0 <= i < |a| ==> a[i].end <= t
    requires forall i :: 0 <= i < |b| ==> t <= b[i].start
    ensures Ordered(a + b)
  {
  }

  lemma {:induction false} GridOrdered(opening: Time, open: int, until: Time, duration: int)
    requires duration > 0 && open <= DAY
    ensures var s := Grid(opening, open, until, duration);
            Ordered(s) && forall i :: 0 <= i < |s| ==> opening <= s[i].start < s[i].end
    decreases until - opening
  {
    if opening < until {
      DaySlotsOrdered(opening, opening + open, duration);
      GridOrdered(opening + DAY, open, until, duration);
      var today, later := DaySlots(opening, opening + open, duration), Grid(opening + DAY, open, until, duration);
      JoinOrdered(today, later, opening + DAY);
    }
  }

  // ----- the free ones, and the first of them

  /** Filtering keeps exactly the slots no busy interval overlaps. */
  lemma {:induction false} FreeIs(slots: seq<Interval>, busy: seq<Interval>, slot: Interval)
    ensures slot in Free(slots, busy) <==> slot in slots && !OverlapsAny(slot, busy)
  {
    if slots != [] {
      FreeIs(slots[1..], busy, slot);
      assert slot in slots <==> slot == slots[0] || slot in slots[1..];
    }
  }

  lemma {:induction false} FreeIsAmong(slots: seq<Interval>, busy: seq<Interval>)
    ensures forall i :: 0 <= i < |Free(slots, busy)| ==> Free(slots, busy)[i] in slots
  {
    var free := Free(slots, busy);
    forall i | 0 <= i < |free|
      ensures free[i] in slots
    {
      FreeIs(slots, busy, free[i]);
    }
  }

  lemma {:induction false} FreeOrdered(slots: seq<Interval>, busy: seq<Interval>)
    requires Ordered(slots) && forall i :: 0 <= i < |slots| ==> slots[i].start < slots[i].end
    ensures Ordered(Free(slots, busy))
    ensures forall i :: 0 <= i < |Free(slots, busy)| ==> Free(slots, busy)[i] in slots
  {
    FreeIsAmong(slots, busy);
    if slots != [] {
      var first, others := slots[0], slots[1..];
      var rest := Free(others, busy);
      FreeOrdered(others, busy);
      forall i | 0 <= i < |rest|
        ensures first.end <= rest[i].start
      {
        var k :| 0 <= k < |others| && others[k] == rest[i];
        assert slots[k + 1] == rest[i];
      }
      ConsOrdered(first, rest);
      assert [] + rest == rest;
    }
  }

  /** A search as it is meant to be: hours of the day and a positive duration. */
  predicate ValidSearch(q: Search) {
    ValidHours(q.hours) && q.duration > 0
  }

  function First(q: Search): Time
    requires ValidHours(q.hours)
  {
    FirstOpening(q.hours, q.from)
  }

  function Found(q: Search, busy: seq<Interval>): seq<Interval>
    requires ValidSearch(q)
  {
    AvailableSlots(q, busy)
  }

  /** A slot a caller may be offered: on the grid of some scanned day, and free. */
  ghost predicate Offerable(q: Search, busy: seq<Interval>, slot: Interval)
    requires ValidSearch(q)
  {
    && OnGrid(slot, First(q), OpenTime(q.hours), Until(q), q.duration)
    && !OverlapsAny(slot, busy)
  }

  ghost function AllFree(q: Search, busy: seq<Interval>): seq<Interval>
    requires ValidSearch(q)
  {
    Free(Grid(First(q), OpenTime(q.hours), Until(q), q.duration), busy)
  }

  lemma {:induction false} AllFreeIs(q: Search, busy: seq<Interval>, slot: Interval)
    requires ValidSearch(q)
    ensures slot in AllFree(q, busy) <==> Offerable(q, busy, slot)
  {
    var opening, open := First(q), OpenTime(q.hours);
    GridIs(opening, open, Until(q), q.duration, slot);
    FreeIs(Grid(opening, open, Until(q), q.duration), busy, slot);
  }

  lemma {:induction false} AllFreeOrdered(q: Search, busy: seq<Interval>)
    requires ValidSearch(q)
    ensures Ordered(AllFree(q, busy))
    ensures forall i :: 0 <= i < |AllFree(q, busy)| ==> q.from <= AllFree(q, busy)[i].start < AllFree(q, busy)[i].end
  {
    var opening, open := First(q), OpenTime(q.hours);
    FirstOpeningIsOpening(q.hours, q.from);
    GridOrdered(opening, open, Until(q), q.duration);
    FreeOrdered(Grid(opening, open, Until(q), q.duration), busy);
  }

  lemma {:induction false} FoundIsPrefix(q: Search, busy: seq<Interval>)
    requires ValidSearch(q)
    ensures Found(q, busy) <= AllFree(q, busy)
    ensures |Found(q, busy)| <= if q.maxResults < 0 then 0 else q.maxResults
    ensures Found(q, busy) == AllFree(q, busy) || |Found(q, busy)| >= q.maxResults
  {
  }

  /** Every slot found may be offered; they come in order, do not overlap, and none starts before the search. */
  lemma {:induction false} FoundMayBeOffered(q: Search, busy: seq<Interval>)
    requires ValidSearch(q)
    ensures var found := Found(q, busy);
            && |found| <= (if q.maxResults < 0 then 0 else q.maxResults)
            && Ordered(found)
            && forall i :: 0 <= i < |found| ==> Offerable(q, busy, found[i]) && q.from <= found[i].start < found[i].end
  {
    var found, all := Found(q, busy), AllFree(q, busy);
    FoundIsPrefix(q, busy);
    AllFreeOrdered(q, busy);
    forall i | 0 <= i < |found|
      ensures Offerable(q, busy, found[i]) && found[i] == all[i]
    {
      AllFreeIs(q, busy, all[i]);
    }
  }

  /** A slot that may be offered is left out only when `maxResults` earlier ones were found. */
  lemma {:induction false} NoneIsSkipped(q: Search, busy: seq<Interval>, slot: Interval)
    requires ValidSearch(q) && Offerable(q, busy, slot) && slot !in Found(q, busy)
    ensures var found := Found(q, busy);
            |found| >= q.maxResults && forall i :: 0 <= i < |found| ==> found[i].end <= slot.start
  {
    var found, all := Found(q, busy), AllFree(q, busy);
    FoundIsPrefix(q, busy);
    AllFreeOrdered(q, busy);
    AllFreeIs(q, busy, slot);
    var k :| 0 <= k < |all| && all[k] == slot;
    assert forall i :: 0 <= i < |found| ==> found[i] == all[i];
  }

  // ----- slots and the end of the window

  ghost predicate EndInTime(q: Search, busy: seq<Interval>)
    requires ValidSearch(q)
  {
    forall i :: 0 <= i < |Found(q, busy)| ==> Found(q, busy)[i].end <= Until(q)
  }

  /** The last day of the search opens a whole number of days after the first. */
  lemma {:induction false} LastOpeningIs(first: Time, until: Time)
    requires first < until
    ensures LastOpening(first, until) == first + ((until - first - 1) / DAY) * DAY
    decreases until - first
  {
    if first + DAY < until {
      LastOpeningIs(first + DAY, until);
    }
  }

  /** Where the last slot of the last scanned day ends. */
  function LatestEnd(q: Search): Time
    requires ValidSearch(q) && First(q) < Until(q)
  {
    LastOpening(First(q), Until(q)) + (OpenTime(q.hours) / q.duration) * q.duration
  }

  lemma {:induction false} AtLeastOne(n: int, duration: int)
    requires n > 0 && duration > 0
    ensures n * duration >= duration
  {
  }

  lemma {:induction false} NotPositiveProduct(n: int, duration: int)
    requires duration > 0
    ensures n < 1 ==> n * duration <= 0
  {
    if n < 1 {
      NotNegative(-n, duration);
      assert (-n) * duration == -(n * duration);
    }
  }

  /** The whole multiples of the duration that fit into a day are those up to the quotient. */
  lemma {:induction false} FitsIntoTheDay(open: int, m: int, duration: int)
    requires duration > 0 && m * duration <= open
    ensures m <= open / duration && m * duration <= (open / duration) * duration
  {
    var n := open / duration;
    var gap := m - n;
    assert open < n * duration + duration;
    assert m * duration == n * duration + gap * duration;
    if gap > 0 {
      AtLeastOne(gap, duration);
    } else if gap < 0 {
      AtLeastOne(-gap, duration);
      assert (-gap) * duration == -(gap * duration);
    }
  }

  /** Among the scanned days, the last slot of the last one ends last. */
  lemma {:induction false} NoLaterEnd(q: Search, d: nat, k: nat)
    requires ValidSearch(q) && First(q) < Until(q)
    requires d * DAY < Until(q) - First(q) && k * q.duration + q.duration <= OpenTime(q.hours)
    ensures GridSlot(First(q), d, k, q.duration).end <= LatestEnd(q)
  {
    assert (k + 1) * q.duration == k * q.duration + q.duration;
    FitsIntoTheDay(OpenTime(q.hours), k + 1, q.duration);
    FitsIntoTheDay(Until(q) - First(q) - 1, d, DAY);
    LastOpeningIs(First(q), Until(q));
  }

  lemma {:induction false} GridSlotEnds(q: Search, slot: Interval)
    requires ValidSearch(q) && OnGrid(slot, First(q), OpenTime(q.hours), Until(q), q.duration)
    ensures First(q) <= slot.start < slot.end
    ensures First(q) < Until(q) && slot.end <= LatestEnd(q)
  {
    var opening, open := First(q), OpenTime(q.hours);
    var d: nat, k: nat :| slot == GridSlot(opening, d, k, q.duration)
                          && opening + d * DAY < Until(q) && slot.end <= opening + d * DAY + open;
    NotNegative(d, DAY);
    NotNegative(k, q.duration);
    NoLaterEnd(q, d, k);
  }

  lemma {:induction false} AllEndInTime(q: Search, busy: seq<Interval>)
    requires ValidSearch(q)
    requires q.maxResults <= 0 || First(q) >= Until(q) || LatestEnd(q) <= Until(q)
    ensures EndInTime(q, busy)
  {
    var found := Found(q, busy);
    FoundMayBeOffered(q, busy);
    forall i | 0 <= i < |found|
      ensures found[i].end <= Until(q)
    {
      assert Offerable(q, busy, found[i]);
      GridSlotEnds(q, found[i]);
    }
  }

  lemma {:induction false} QuotientFits(open: int, duration: int)
    requires duration > 0
    ensures (open / duration) * duration <= open
  {
  }

  lemma {:induction false} OnLastDay(q: Search, k: nat) returns (slot: Interval)
    requires ValidSearch(q) && First(q) < Until(q) && k * q.duration + q.duration <= OpenTime(q.hours)
    ensures OnGrid(slot, First(q), OpenTime(q.hours), Until(q), q.duration)
    ensures slot.end == LastOpening(First(q), Until(q)) + (k * q.duration + q.duration)
  {
    var d := (Until(q) - First(q) - 1) / DAY;
    LastOpeningIs(First(q), Until(q));
    slot := GridSlot(First(q), d, k, q.duration);
  }

  /** The last slot of the last scanned day, when that day has one. */
  lemma {:induction false} LastSlot(q: Search) returns (slot: Interval)
    requires ValidSearch(q) && First(q) < Until(q) && OpenTime(q.hours) >= q.duration
    ensures OnGrid(slot, First(q), OpenTime(q.hours), Until(q), q.duration)
    ensures slot.end == LatestEnd(q)
  {
    var n := OpenTime(q.hours) / q.duration;
    FitsIntoTheDay(OpenTime(q.hours), 1, q.duration);
    QuotientFits(OpenTime(q.hours), q.duration);
    StepBack(n, q.duration);
    slot := OnLastDay(q, n - 1);
  }

  lemma {:induction false} SomeSlotFits(q: Search)
    requires ValidSearch(q) && First(q) < Until(q) < LatestEnd(q)
    ensures OpenTime(q.hours) >= q.duration
  {
    var open := OpenTime(q.hours);
    QuotientFits(open, q.duration);
    NotPositiveProduct(open / q.duration, q.duration);
    AtLeastOne(open / q.duration, q.duration);
  }

  /** With everything before it busy, no other slot is free before the last one. */
  lemma {:induction false} FreeAfterBusy(q: Search, slot: Interval, at: Time)
    requires ValidSearch(q) && Offerable(q, [Interval(First(q) - 1, at)], slot)
    ensures slot.end > at
  {
    GridSlotEnds(q, slot);
    var busy := [Interval(First(q) - 1, at)];
    assert !Overlap(slot, busy[0]);
  }

  lemma {:induction false} LastSlotRunsOver(q: Search)
    requires ValidSearch(q) && q.maxResults > 0 && First(q) < Until(q) < LatestEnd(q)
    ensures exists busy :: !EndInTime(q, busy)
  {
    SomeSlotFits(q);
    var slot := LastSlot(q);
    var busy := [Interval(First(q) - 1, slot.start)];
    var found := Found(q, busy);
    FoundMayBeOffered(q, busy);
    forall i | 0 <= i < |found|
      ensures found[i].end > slot.start
    {
      assert Offerable(q, busy, found[i]);
      FreeAfterBusy(q, found[i], slot.start);
    }
    GridSlotEnds(q, slot);
    assert Offerable(q, busy, slot);
    if slot !in found {
      NoneIsSkipped(q, busy, slot);
    }
    var i :| 0 <= i < |found| && found[i] == slot;
    assert !EndInTime(q, busy);
  }

  /** No slot runs past the window, whatever the busy list, exactly when the last scanned day's slots
      end by it, or nothing is searched at all. Only the days' openings are compared with the window. */
  lemma {:induction false} SlotsEndInTimeIff(q: Search)
    requires ValidSearch(q)
    ensures (forall busy :: EndInTime(q, busy))
            <==> q.maxResults <= 0 || First(q) >= Until(q) || LatestEnd(q) <= Until(q)
  {
    if q.maxResults <= 0 || First(q) >= Until(q) || LatestEnd(q) <= Until(q) {
      forall busy
        ensures EndInTime(q, busy)
      {
        AllEndInTime(q, busy);
      }
    } else {
      LastSlotRunsOver(q);
    }
  }

  /** A concrete search whose first slot already ends after the window. */
  lemma {:induction false} SlotMayEndAfterTheSearch()
    ensures var q := Search(Hours(9, 17), 10 * HOUR, 1, 120 * MINUTE, 5);
            && ValidSearch(q)
            && Found(q, []) != [] && Found(q, [])[0].end > Until(q)
  {
    var q := Search(Hours(9, 17), 10 * HOUR, 1, 120 * MINUTE, 5);
    var opening := First(q);
    var slot := Interval(opening, opening + 120 * MINUTE);
    assert DaySlots(opening, opening + 8 * HOUR, 120 * MINUTE)[0] == slot;
    assert Grid(opening, 8 * HOUR, Until(q), 120 * MINUTE)[0] == slot;
    assert !OverlapsAny(slot, []);
    assert AllFree(q, [])[0] == slot;
  }

  // ----- durations that are not positive

  ghost predicate AllForward(slots: seq<Interval>) {
    forall i :: 0 <= i < |slots| ==> slots[i].start < slots[i].end
  }

  /** Stepping back from a day's opening: a free slot that does not run forwards. */
  predicate StepsBack(slot: Interval, start: Time, duration: int, busy: seq<Interval>) {
    slot.end == slot.start + duration && slot.start <= start && !OverlapsAny(slot, busy)
  }

  /** Stepping back finds only free slots, each running backwards from the day's opening or before it. */
  lemma {:induction false} BackwardIsFree(start: Time, duration: int, busy: seq<Interval>, n: int)
    requires duration <= 0 && StepsAside(start, duration, busy)
    ensures forall slot :: slot in Backward(start, duration, busy, n) ==> StepsBack(slot, start, duration, busy)
    decreases n, start - Lowest(busy)
  {
    if n > 0 {
      var slot := Interval(start, start + duration);
      BackwardIsFree(start + duration, duration, busy, if OverlapsAny(slot, busy) then n else n - 1);
    }
  }

  /** Every slot found runs forward exactly when the duration is positive or nothing is searched. */
  lemma {:induction false} SlotsRunForwardIff(q: Search, busy: seq<Interval>)
    requires Answerable(q, busy)
    ensures AllForward(AvailableSlots(q, busy))
            <==> q.duration > 0 || !StartsToday(First(q), OpenTime(q.hours), Until(q), q.duration, q.maxResults)
  {
    var slots := AvailableSlots(q, busy);
    if q.duration > 0 {
      FoundMayBeOffered(q, busy);
    } else if StartsToday(First(q), OpenTime(q.hours), Until(q), q.duration, q.maxResults) {
      BackwardIsFree(First(q), q.duration, busy, q.maxResults);
      assert slots[0] in slots;
      assert slots[0].end <= slots[0].start;
    }
  }

  /** And it skips none: a free slot a whole number of steps back is found, unless `n` later ones are. */
  lemma {:induction false} BackwardSkipsNone(start: Time, duration: int, busy: seq<Interval>, n: int, k: nat)
    requires duration <= 0 && StepsAside(start, duration, busy) && !OverlapsAny(GridSlot(start, 0, k, duration), busy)
    ensures var slots := Backward(start, duration, busy, n);
            GridSlot(start, 0, k, duration) in slots
            || forall i :: 0 <= i < |slots| ==> GridSlot(start, 0, k, duration).start <= slots[i].start
    decreases n, start - Lowest(busy)
  {
    if n > 0 {
      var slot, next := Interval(start, start + duration), start + duration;
      if k == 0 {
        assert GridSlot(start, 0, 0, duration) == slot;
      } else {
        StepBack(k, duration);
        assert GridSlot(start, 0, k, duration) == GridSlot(next, 0, k - 1, duration);
        NotPositive(k, duration);
        BackwardSkipsNone(next, duration, busy, if OverlapsAny(slot, busy) then n else n - 1, k - 1);
      }
    }
  }

  /** A concrete search with a negative duration: the slot found ends before it starts. */
  lemma {:induction false} NegativeDurationRunsBackwards()
    ensures var q := Search(Hours(9, 17), 0, 1, -30 * MINUTE, 1);
            && Answerable(q, [])
            && AvailableSlots(q, []) == [Interval(9 * HOUR, 9 * HOUR - 30 * MINUTE)]
  {
    var start, duration := 9 * HOUR, -30 * MINUTE;
    assert !OverlapsAny(Interval(start, start + duration), []);
    assert Backward(start + duration, duration, [], 0) == [];
  }

  // ----- searches that leave the calendar

  /** Every day cuts off at the same time of day. */
  lemma {:induction false} CutOffShifts(opening: Time, closing: Time, duration: int, shift: int)
    requires duration > 0
    ensures CutOff(opening + shift, closing + shift, duration) == CutOff(opening, closing, duration) + shift
    decreases closing - opening
  {
    if opening + duration <= closing {
      CutOffShifts(opening + duration, closing, duration, shift);
      assert opening + shift + duration == opening + duration + shift;
    }
  }

  lemma {:induction false} OneFewer(open: int, duration: int)
    requires open >= duration > 0
    ensures open - duration < duration ==> (open / duration) * duration == duration
    ensures (open / duration) * duration == ((open - duration) / duration) * duration + duration
  {
    var n, m := open / duration, (open - duration) / duration;
    FitsIntoTheDay(open, m + 1, duration);
    FitsIntoTheDay(open - duration, n - 1, duration);
    assert (m + 1) * duration == m * duration + duration;
    assert (n - 1) * duration == n * duration - duration;
  }

  /** The first slot end past closing, as a multiple of the duration. */
  lemma {:induction false} CutOffIs(opening: Time, closing: Time, duration: int)
    requires duration > 0
    ensures CutOff(opening, closing, duration)
            == if closing - opening < duration then opening + duration
               else opening + ((closing - opening) / duration) * duration + duration
    decreases closing - opening
  {
    var open := closing - opening;
    if open >= duration {
      CutOffIs(opening + duration, closing, duration);
      OneFewer(open, duration);
    }
  }

  lemma {:induction false} SlotBeforeCutOff(start: Time, closing: Time, duration: int, slot: Interval)
    requires duration > 0 && slot in DaySlots(start, closing, duration)
    ensures slot.end + duration <= CutOff(start, closing, duration)
    decreases closing - start
  {
    if start + duration <= closing && slot != Interval(start, start + duration) {
      SlotBeforeCutOff(start + duration, closing, duration, slot);
    }
  }

  lemma {:induction false} DayBeforeCutOff(opening: Time, open: int, last: Time, duration: int, slot: Interval)
    requires duration > 0 && opening <= last && slot in DaySlots(opening, opening + open, duration)
    ensures slot.end <= last + open && slot.end + duration <= CutOff(last, last + open, duration)
  {
    DaySlotsOrdered(opening, opening + open, duration);
    SlotBeforeCutOff(opening, opening + open, duration, slot);
    CutOffShifts(opening, opening + open, duration, last - opening);
    assert opening + (last - opening) == last && opening + open + (last - opening) == last + open;
  }

  /** No slot of the grid lies beyond the last day's. */
  lemma {:induction false} GridBeforeCutOff(opening: Time, open: int, until: Time, duration: int, slot: Interval)
    requires duration > 0 && slot in Grid(opening, open, until, duration)
    ensures opening < until
    ensures var last := LastOpening(opening, until);
            slot.end <= last + open && slot.end + duration <= CutOff(last, last + open, duration)
    decreases until - opening
  {
    if slot in DaySlots(opening, opening + open, duration) {
      DayBeforeCutOff(opening, open, LastOpening(opening, until), duration, slot);
    } else {
      GridBeforeCutOff(opening + DAY, open, until, duration, slot);
    }
  }

  /** A caller can tell before the busy list is known: the window, the first opening, the last day's
      cut-off and the day after it are in the calendar. */
  predicate ReachInRange(q: Search)
    requires ValidSearch(q)
  {
    && WindowInRange(q) && IsTime(First(q))
    && (First(q) < Until(q) && q.maxResults > 0 ==>
          var last := LastOpening(First(q), Until(q));
          IsTime(CutOff(last, last + OpenTime(q.hours), q.duration)) && IsTime(last + DAY))
  }

  lemma {:induction false} LastOpeningOpens(h: Hours, day: Time, until: Time)
    requires ValidHours(h) && AtHour(day, h.opens) == day < until
    ensures AtHour(LastOpening(day, until), h.opens) == LastOpening(day, until)
    decreases until - day
  {
    if day + DAY < until {
      OpeningHours(h, day);
      LastOpeningOpens(h, day + DAY, until);
    }
  }

  lemma {:induction false} ReachSuffices(q: Search, busy: seq<Interval>)
    requires ValidSearch(q) && ReachInRange(q)
    ensures InRange(q, busy)
  {
    var first, open, until := First(q), OpenTime(q.hours), Until(q);
    var found, all := Found(q, busy), AllFree(q, busy);
    if first < until && q.maxResults > 0 {
      var last := LastOpening(first, until);
      FirstOpeningIsOpening(q.hours, q.from);
      LastOpeningOpens(q.hours, first, until);
      TimesOfDay(q.hours, last);
      if |found| >= q.maxResults {
        var slot := found[q.maxResults - 1];
        FoundIsPrefix(q, busy);
        AllFreeOrdered(q, busy);
        assert slot == all[q.maxResults - 1];
        FreeIs(Grid(first, open, until, q.duration), busy, slot);
        GridBeforeCutOff(first, open, until, q.duration, slot);
        assert IsTime(q.from);
      }
    }
  }

  lemma {:induction false} NothingFree(slots: seq<Interval>, from: Time, until: Time)
    requires forall i :: 0 <= i < |slots| ==> from < slots[i].end && slots[i].start < until
    ensures Free(slots, [Interval(from, until)]) == []
  {
    if slots != [] {
      NothingFree(slots[1..], from, until);
      assert Overlap(slots[0], [Interval(from, until)][0]);
    }
  }

  lemma {:induction false} GridIsCovered(first: Time, open: int, until: Time, duration: int, end: Time)
    requires duration > 0 && open <= DAY && first < until
    requires end == CutOff(LastOpening(first, until), LastOpening(first, until) + open, duration)
    ensures Free(Grid(first, open, until, duration), [Interval(first - 1, end)]) == []
  {
    var grid := Grid(first, open, until, duration);
    GridOrdered(first, open, until, duration);
    forall i | 0 <= i < |grid|
      ensures first - 1 < grid[i].end && grid[i].start < end
    {
      GridBeforeCutOff(first, open, until, duration, grid[i]);
    }
    NothingFree(grid, first - 1, end);
  }

  lemma {:induction false} AllBusy(q: Search) returns (busy: seq<Interval>)
    requires ValidSearch(q) && First(q) < Until(q)
    ensures Found(q, busy) == []
  {
    var last := LastOpening(First(q), Until(q));
    var end := CutOff(last, last + OpenTime(q.hours), q.duration);
    busy := [Interval(First(q) - 1, end)];
    TimesOfDay(q.hours, AtHour(q.from, q.hours.opens));
    GridIsCovered(First(q), OpenTime(q.hours), Until(q), q.duration, end);
  }

  lemma {:induction false} ReachIsNeeded(q: Search) returns (busy: seq<Interval>)
    requires ValidSearch(q) && !ReachInRange(q)
    ensures !InRange(q, busy)
  {
    busy := [];
    if First(q) < Until(q) && q.maxResults > 0 {
      busy := AllBusy(q);
      assert AvailableSlots(q, busy) == [];
    }
  }

  /** For a positive duration, no busy list makes the search leave the calendar exactly when its reach
      is in range. */
  lemma {:induction false} InRangeIff(q: Search)
    requires ValidSearch(q)
    ensures (forall busy :: InRange(q, busy)) <==> ReachInRange(q)
  {
    if ReachInRange(q) {
      forall busy
        ensures InRange(q, busy)
      {
        ReachSuffices(q, busy);
      }
    } else {
      var busy := ReachIsNeeded(q);
      assert !InRange(q, busy);
    }
  }

  /** Ten million days ahead of any moment there is no date. */
  lemma {:induction false} FarSearchIsOut(q: Search)
    requires q.days >= 10_000_000
    ensures !WindowInRange(q)
  {
    assert IsTime(q.from);
    assert q.days * DAY >= 10_000_000 * DAY;
  }

  /** Stepping back past the first date leaves the calendar: at least two steps are tried. */
  lemma {:induction false} StepsBackTooFar(q: Search, busy: seq<Interval>)
    requires Answerable(q, busy) && q.duration <= 0 && First(q) + 2 * q.duration < 0
    requires StartsToday(First(q), OpenTime(q.hours), Until(q), q.duration, q.maxResults)
    ensures SearchResult(q, Some(busy)) == Overflow
  {
    var found := AvailableSlots(q, busy);
    var last := found[q.maxResults - 1];
    BackwardIsFree(First(q), q.duration, busy, q.maxResults);
    assert last in found;
  }

  // ----- searches that never end

  /** Where the inner loop stands on the first day. */
  datatype DayState = DayState(slotStart: Time, found: seq<Interval>)

  predicate GoesOn(st: DayState, closing: Time, duration: int, maxResults: int) {
    st.slotStart + duration <= closing && |st.found| < maxResults
  }

  function AfterRounds(st: DayState, duration: int, busy: seq<Interval>, n: nat): DayState {
    if n == 0 then st
    else
      var before := AfterRounds(st, duration, busy, n - 1);
      var slot := Interval(before.slotStart, before.slotStart + duration);
      DayState(before.slotStart + duration, if OverlapsAny(slot, busy) then before.found else before.found + [slot])
  }

  lemma {:induction false} StaysPut(at: Time, busy: seq<Interval>, n: nat)
    requires OverlapsAny(Interval(at, at), busy)
    ensures AfterRounds(DayState(at, []), 0, busy, n) == DayState(at, [])
  {
    if n > 0 {
      StaysPut(at, busy, n - 1);
    }
  }

  /** A search with valid hours that is not answerable is inside the inner loop after any number of rounds. */
  lemma {:induction false} UnanswerableNeverEnds(q: Search, busy: seq<Interval>, n: nat)
    requires ValidHours(q.hours) && !Answerable(q, busy)
    ensures First(q) < Until(q)
    ensures var st := AfterRounds(DayState(First(q), []), q.duration, busy, n);
            GoesOn(st, First(q) + OpenTime(q.hours), q.duration, q.maxResults)
  {
    StaysPut(First(q), busy, n);
  }
}
