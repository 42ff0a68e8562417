/** The loops of the search for free slots, proved against what it should return. Every sum of times that
    leaves the calendar ends them, as the exception it raises does. */
module SlotSearch {
  import opened Collections
  import opened Slots
  import opened SlotLaws
  import opened SlotAnswers

  // ----- one day of the search

  lemma {:induction false} FreeAppend(a: seq<Interval>, b: seq<Interval>, busy: seq<Interval>)
    ensures Free(a + b, busy) == Free(a, busy) + Free(b, busy)
  {
    if a == [] {
      assert a + b == b;
    } else {
      assert (a + b)[1..] == a[1..] + b;
      FreeAppend(a[1..], b, busy);
      Regroup(if OverlapsAny(a[0], busy) then [] else [a[0]], Free(a[1..], busy), Free(b, busy));
    }
  }

  /** What is found so far, and what the rest of the day and the later days still offer. */
  ghost predicate Searching(found: seq<Interval>, rest: seq<Interval>, later: seq<Interval>, busy: seq<Interval>,
                            maxResults: int, goal: seq<Interval>)
  {
    && (|found| <= maxResults || found == [])
    && Take(found + (Free(rest, busy) + Free(later, busy)), maxResults) == goal
  }

  lemma {:induction false} StartSearch(grid: seq<Interval>, busy: seq<Interval>, maxResults: int)
    ensures Searching([], [], grid, busy, maxResults, Take(Free(grid, busy), maxResults))
  {
    assert [] + ([] + Free(grid, busy)) == Free(grid, busy);
  }

  lemma {:induction false} NextSlot(found: seq<Interval>, rest: seq<Interval>, later: seq<Interval>,
                                    busy: seq<Interval>, maxResults: int, goal: seq<Interval>)
    requires Searching(found, rest, later, busy, maxResults, goal) && rest != [] && |found| < maxResults
    ensures var next := if OverlapsAny(rest[0], busy) then found else found + [rest[0]];
            Searching(next, rest[1..], later, busy, maxResults, goal)
  {
    var tail, after := Free(rest[1..], busy), Free(later, busy);
    if OverlapsAny(rest[0], busy) {
      assert [] + tail == tail;
    } else {
      Regroup([rest[0]], tail, after);
      Regroup(found, [rest[0]], tail + after);
    }
  }

  /** A day ends when its slots run out or enough have been found. */
  lemma {:induction false} DayEnds(found: seq<Interval>, rest: seq<Interval>, later: seq<Interval>,
                                   busy: seq<Interval>, maxResults: int, goal: seq<Interval>)
    requires Searching(found, rest, later, busy, maxResults, goal)
    requires rest == [] || |found| >= maxResults
    ensures Searching(found, [], later, busy, maxResults, goal)
  {
    if |found| >= maxResults && maxResults > 0 {
      assert (found + (Free(rest, busy) + Free(later, busy)))[..maxResults] == found;
      assert (found + ([] + Free(later, busy)))[..maxResults] == found;
    }
  }

  lemma {:induction false} SearchDone(found: seq<Interval>, later: seq<Interval>, busy: seq<Interval>,
                                      maxResults: int, goal: seq<Interval>)
    requires Searching(found, [], later, busy, maxResults, goal)
    ensures (|found| >= maxResults || later == []) ==> found == goal
  {
    assert [] + Free(later, busy) == Free(later, busy);
    if |found| >= maxResults {
      if maxResults > 0 {
        assert (found + Free(later, busy))[..maxResults] == found;
      }
    } else if later == [] {
      assert found + [] == found;
    }
  }

  /** Stepping back: what is found so far and what is still to come make up the whole. */
  ghost predicate SteppingBack(found: seq<Interval>, start: Time, slotStart: Time, duration: int, busy: seq<Interval>,
                               maxResults: int)
    requires duration <= 0 && StepsAside(start, duration, busy) && StepsAside(slotStart, duration, busy)
  {
    found + Backward(slotStart, duration, busy, maxResults - |found|) == Backward(start, duration, busy, maxResults)
  }

  lemma {:induction false} OneStepBack(found: seq<Interval>, start: Time, slotStart: Time, duration: int,
                                       busy: seq<Interval>, maxResults: int)
    requires duration <= 0 && StepsAside(start, duration, busy) && StepsAside(slotStart, duration, busy)
    requires SteppingBack(found, start, slotStart, duration, busy, maxResults) && |found| < maxResults
    ensures var slot := Interval(slotStart, slotStart + duration);
            var next := if OverlapsAny(slot, busy) then found else found + [slot];
            SteppingBack(next, start, slotStart + duration, duration, busy, maxResults)
  {
    var slot := Interval(slotStart, slotStart + duration);
    if !OverlapsAny(slot, busy) {
      Regroup(found, [slot], Backward(slotStart + duration, duration, busy, maxResults - |found| - 1));
    }
  }

  /** What is found once a day has been scanned, `found` coming from earlier days. */
  function DayFound(found: seq<Interval>, opening: Time, closing: Time, duration: int, busy: seq<Interval>,
                    maxResults: int): (r: seq<Interval>)
    requires |found| < maxResults
    requires opening + duration <= closing ==> StepsAside(opening, duration, busy)
    ensures |r| <= maxResults
  {
    if duration > 0 then Take(found + Free(DaySlots(opening, closing, duration), busy), maxResults)
    else if opening + duration <= closing then Backward(opening, duration, busy, maxResults)
    else []
  }

  lemma {:induction false} TakeTwice(a: seq<Interval>, b: seq<Interval>, n: int)
    requires n > 0
    ensures Take(Take(a, n) + b, n) == Take(a + b, n)
  {
    if |a| > n {
      assert (a[..n] + b)[..n] == a[..n] == (a + b)[..n];
    }
  }

  /** Scanning a day takes its slots into what has been found. */
  lemma {:induction false} DayJoins(found: seq<Interval>, day: seq<Interval>, later: seq<Interval>,
                                    busy: seq<Interval>, maxResults: int, goal: seq<Interval>)
    requires Searching(found, [], day + later, busy, maxResults, goal) && |found| < maxResults
    ensures Searching(Take(found + Free(day, busy), maxResults), [], later, busy, maxResults, goal)
  {
    var now, after := Free(day, busy), Free(later, busy);
    FreeAppend(day, later, busy);
    assert [] + (now + after) == now + after && [] + after == after;
    Regroup(found, now, after);
    TakeTwice(found + now, after, maxResults);
  }

  /** Inside a day, `k` steps after its opening. With a duration that is not positive the first day on
      which the loop is entered gives all the results. */
  ghost predicate MidDay(found: seq<Interval>, opening: Time, slotStart: Time, closing: Time, duration: int,
                         busy: seq<Interval>, maxResults: int, goal: seq<Interval>)
    requires opening + duration <= closing ==> StepsAside(opening, duration, busy)
  {
    && |found| <= maxResults
    && (duration > 0 ==> Searching(found, DaySlots(slotStart, closing, duration), [], busy, maxResults, goal))
    && (duration <= 0 ==>
          if opening + duration > closing then slotStart == opening && found == goal == []
          else && slotStart <= opening && StepsAside(slotStart, duration, busy)
               && SteppingBack(found, opening, slotStart, duration, busy, maxResults)
               && goal == Backward(opening, duration, busy, maxResults))
  }

  /** A day's cut-off does not depend on where the scan stands, and a search that has enough has just
      found the last. */
  ghost predicate Tried(found: seq<Interval>, opening: Time, slotStart: Time, closing: Time, duration: int,
                        maxResults: int)
  {
    && (duration > 0 ==> CutOff(slotStart, closing, duration) == CutOff(opening, closing, duration))
    && (|found| == maxResults > 0 ==> found[maxResults - 1].end == slotStart)
  }

  lemma {:induction false} MidDayStarts(found: seq<Interval>, opening: Time, closing: Time, duration: int,
                                        busy: seq<Interval>, maxResults: int)
    requires |found| < maxResults && (duration <= 0 ==> found == [])
    requires opening + duration <= closing ==> StepsAside(opening, duration, busy)
    ensures MidDay(found, opening, opening, closing, duration, busy, maxResults,
                   DayFound(found, opening, closing, duration, busy, maxResults))
  {
    if duration > 0 {
      var free := Free(DaySlots(opening, closing, duration), busy);
      assert free + [] == free;
    } else if opening + duration <= closing {
      assert [] + Backward(opening, duration, busy, maxResults) == Backward(opening, duration, busy, maxResults);
    }
  }

  lemma {:induction false} MidDayStep(found: seq<Interval>, opening: Time, slotStart: Time, closing: Time,
                                      duration: int, busy: seq<Interval>, maxResults: int, goal: seq<Interval>)
    requires opening + duration <= closing ==> StepsAside(opening, duration, busy)
    requires MidDay(found, opening, slotStart, closing, duration, busy, maxResults, goal)
    requires slotStart + duration <= closing && |found| < maxResults
    ensures var slot := Interval(slotStart, slotStart + duration);
            var next := if OverlapsAny(slot, busy) then found else found + [slot];
            && MidDay(next, opening, slotStart + duration, closing, duration, busy, maxResults, goal)
            && (next == found && duration <= 0 ==> Lowest(busy) < slotStart + duration < slotStart)
  {
    if duration > 0 {
      NextSlot(found, DaySlots(slotStart, closing, duration), [], busy, maxResults, goal);
    } else {
      OneStepBack(found, opening, slotStart, duration, busy, maxResults);
    }
  }

  lemma {:induction false} MidDayEnds(found: seq<Interval>, opening: Time, slotStart: Time, closing: Time,
                                      duration: int, busy: seq<Interval>, maxResults: int, goal: seq<Interval>)
    requires opening + duration <= closing ==> StepsAside(opening, duration, busy)
    requires MidDay(found, opening, slotStart, closing, duration, busy, maxResults, goal)
    requires slotStart + duration > closing || |found| >= maxResults
    ensures found == goal
  {
    if duration > 0 {
      DayEnds(found, DaySlots(slotStart, closing, duration), [], busy, maxResults, goal);
      SearchDone(found, [], busy, maxResults, goal);
    } else {
      assert found + [] == found;
    }
  }

  // ----- how far a day reaches

  lemma {:induction false} TakeLast(a: seq<Interval>, b: seq<Interval>, n: int)
    requires |a| < n && |Take(a + b, n)| >= n
    ensures Take(a + b, n)[n - 1] in b
  {
    assert Take(a + b, n)[n - 1] == (a + b)[n - 1] == b[n - 1 - |a|];
  }

  /** When more is found later on the day, the last of it ends after the time reached. */
  lemma {:induction false} LaterToday(found: seq<Interval>, opening: Time, slotStart: Time, closing: Time,
                                      duration: int, busy: seq<Interval>, maxResults: int, goal: seq<Interval>)
    requires opening + duration <= closing ==> StepsAside(opening, duration, busy)
    requires MidDay(found, opening, slotStart, closing, duration, busy, maxResults, goal)
    requires |found| < maxResults <= |goal|
    ensures duration > 0 ==> goal[maxResults - 1].end >= slotStart
    ensures duration <= 0 ==> goal[maxResults - 1].end <= slotStart
  {
    if duration > 0 {
      var rest := DaySlots(slotStart, closing, duration);
      assert Free(rest, busy) + [] == Free(rest, busy);
      TakeLast(found, Free(rest, busy), maxResults);
      FreeIs(rest, busy, goal[maxResults - 1]);
      DaySlotsOrdered(slotStart, closing, duration);
    } else if opening + duration <= closing {
      var rest := Backward(slotStart, duration, busy, maxResults - |found|);
      assert goal == found + rest;
      assert goal[maxResults - 1] == rest[maxResults - 1 - |found|];
      assert rest[maxResults - 1 - |found|] in rest;
      BackwardIsFree(slotStart, duration, busy, maxResults - |found|);
    }
  }

  /** No time tried on a day lies beyond the last one of `LastTryOfDay`. */
  lemma {:induction false} TriedBefore(found: seq<Interval>, opening: Time, slotStart: Time, closing: Time,
                                       duration: int, busy: seq<Interval>, maxResults: int, goal: seq<Interval>)
    requires opening + duration <= closing ==> StepsAside(opening, duration, busy)
    requires MidDay(found, opening, slotStart, closing, duration, busy, maxResults, goal)
    requires Tried(found, opening, slotStart, closing, duration, maxResults) && maxResults > 0
    ensures var last := LastTryOfDay(opening, closing, duration, maxResults, goal);
            if duration > 0 then slotStart + duration <= last else last <= slotStart + duration
  {
    if |found| == maxResults {
      MidDayEnds(found, opening, slotStart, closing, duration, busy, maxResults, goal);
    } else if |goal| >= maxResults {
      LaterToday(found, opening, slotStart, closing, duration, busy, maxResults, goal);
    }
  }

  /** And the last one tried is that one. */
  lemma {:induction false} TriedLast(found: seq<Interval>, opening: Time, slotStart: Time, closing: Time,
                                     duration: int, busy: seq<Interval>, maxResults: int, goal: seq<Interval>)
    requires opening + duration <= closing ==> StepsAside(opening, duration, busy)
    requires MidDay(found, opening, slotStart, closing, duration, busy, maxResults, goal)
    requires Tried(found, opening, slotStart, closing, duration, maxResults) && maxResults > 0
    requires slotStart + duration > closing || |found| >= maxResults
    ensures LastTryOfDay(opening, closing, duration, maxResults, goal) == slotStart + duration
  {
    MidDayEnds(found, opening, slotStart, closing, duration, busy, maxResults, goal);
  }

  /** The inner loop: one day's slots, appended to what earlier days gave. */
  method ScanDay(opening: Time, closing: Time, duration: int, maxResults: int, busy: seq<Interval>,
                 found: seq<Interval>)
    returns (candidates: Option<seq<Interval>>)
    requires |found| < maxResults && IsTime(opening) && (duration <= 0 ==> found == [])
    requires opening + duration <= closing ==> StepsAside(opening, duration, busy)
    ensures var after := DayFound(found, opening, closing, duration, busy, maxResults);
            candidates == if IsTime(LastTryOfDay(opening, closing, duration, maxResults, after))
                          then Some(after) else None
  {
    ghost var goal := DayFound(found, opening, closing, duration, busy, maxResults);
    var slots := found;
    var slotStart := opening;
    MidDayStarts(found, opening, closing, duration, busy, maxResults);
    TriedBefore(slots, opening, slotStart, closing, duration, busy, maxResults, goal);
    if !IsTime(slotStart + duration) {
      return None;
    }
    while slotStart + duration <= closing && |slots| < maxResults
      invariant MidDay(slots, opening, slotStart, closing, duration, busy, maxResults, goal)
      invariant Tried(slots, opening, slotStart, closing, duration, maxResults)
      invariant IsTime(slotStart + duration)
      decreases maxResults - |slots|, if duration > 0 then closing - slotStart else slotStart - Lowest(busy)
    {
      MidDayStep(slots, opening, slotStart, closing, duration, busy, maxResults, goal);
      var slot := Interval(slotStart, slotStart + duration);
      if !OverlapsAny(slot, busy) {
        slots := slots + [slot];
      }
      slotStart := slotStart + duration;
      TriedBefore(slots, opening, slotStart, closing, duration, busy, maxResults, goal);
      if !IsTime(slotStart + duration) {
        return None;
      }
    }
    MidDayEnds(slots, opening, slotStart, closing, duration, busy, maxResults, goal);
    TriedLast(slots, opening, slotStart, closing, duration, busy, maxResults, goal);
    return Some(slots);
  }

  // ----- the days

  lemma {:induction false} SlotsInside(slots: seq<Interval>, busy: seq<Interval>, found: seq<Interval>, n: int,
                                       from: Time, until: Time)
    requires |found| < n <= |Take(found + Free(slots, busy), n)|
    requires forall i :: 0 <= i < |slots| ==> from <= slots[i].start < slots[i].end <= until
    ensures from <= Take(found + Free(slots, busy), n)[n - 1].start
    ensures Take(found + Free(slots, busy), n)[n - 1].start < Take(found + Free(slots, busy), n)[n - 1].end <= until
  {
    var last := Take(found + Free(slots, busy), n)[n - 1];
    TakeLast(found, Free(slots, busy), n);
    FreeIs(slots, busy, last);
  }

  /** The last slot found on a day lies within it. */
  lemma {:induction false} LastOfDay(found: seq<Interval>, day: Time, open: int, duration: int, busy: seq<Interval>,
                                     maxResults: int)
    requires duration > 0 && |found| < maxResults
    requires |DayFound(found, day, day + open, duration, busy, maxResults)| >= maxResults
    ensures var last := DayFound(found, day, day + open, duration, busy, maxResults)[maxResults - 1];
            day <= last.start < last.end <= day + open
  {
    DaySlotsOrdered(day, day + open, duration);
    SlotsInside(DaySlots(day, day + open, duration), busy, found, maxResults, day, day + open);
  }

  /** The last slot found on later days starts on one of them. */
  lemma {:induction false} LastOfLaterDays(found: seq<Interval>, day: Time, open: int, until: Time, duration: int,
                                           busy: seq<Interval>, maxResults: int, goal: seq<Interval>)
    requires duration > 0 && open <= DAY && |found| < maxResults <= |goal|
    requires Searching(found, [], Grid(day, open, until, duration), busy, maxResults, goal)
    ensures day <= goal[maxResults - 1].start < goal[maxResults - 1].end
  {
    var grid := Grid(day, open, until, duration);
    assert [] + Free(grid, busy) == Free(grid, busy);
    GridOrdered(day, open, until, duration);
    TakeLast(found, Free(grid, busy), maxResults);
    FreeIs(grid, busy, goal[maxResults - 1]);
  }

  /** `day` is one of the days of the search, or the day after the last. */
  ghost predicate OneOfTheDays(first: Time, day: Time, until: Time) {
    && first <= day
    && (day < until ==> LastOpening(day, until) == LastOpening(first, until))
    && (first < day && until <= day ==> first < until && day == LastOpening(first, until) + DAY)
  }

  /** Between two days of the outer loop. */
  ghost predicate BetweenDays(found: seq<Interval>, first: Time, day: Time, open: int, until: Time, duration: int,
                              busy: seq<Interval>, maxResults: int)
    requires SearchEnds(first, open, until, duration, maxResults, busy)
  {
    var goal := SlotsFrom(first, open, until, duration, maxResults, busy);
    && OneOfTheDays(first, day, until)
    && (|found| <= maxResults || found == []) && (day == first ==> found == [])
    && (duration > 0 ==> Searching(found, [], Grid(day, open, until, duration), busy, maxResults, goal))
    && (duration <= 0 ==> found == if day == first then [] else goal)
  }

  /** What the days scanned so far have shown to be in range. */
  ghost predicate ReachedSoFar(found: seq<Interval>, first: Time, day: Time, open: int, duration: int, maxResults: int)
  {
    && IsTime(day)
    && (day > first && duration <= 0 && |found| < maxResults ==> IsTime(first + duration))
    && (day > first && duration > 0 && |found| < maxResults ==>
          IsTime(CutOff(day - DAY, day - DAY + open, duration)))
    && (day > first && maxResults > 0 && |found| >= maxResults ==>
          && IsTime(found[maxResults - 1].end + duration)
          && (if duration > 0 then IsTime(found[maxResults - 1].start + DAY) else day == first + DAY))
  }

  /** The state of the outer loop before `day`. */
  ghost predicate Scanning(found: seq<Interval>, first: Time, day: Time, open: int, until: Time, duration: int,
                           busy: seq<Interval>, maxResults: int)
  {
    && SearchEnds(first, open, until, duration, maxResults, busy)
    && BetweenDays(found, first, day, open, until, duration, busy, maxResults)
    && ReachedSoFar(found, first, day, open, duration, maxResults)
  }

  /** A day is scanned: what is found and what was reached carry over to the next. */
  lemma {:induction false} DayIsScanned(found: seq<Interval>, first: Time, day: Time, open: int, until: Time,
                                        duration: int, busy: seq<Interval>, maxResults: int)
    requires SearchEnds(first, open, until, duration, maxResults, busy)
    requires BetweenDays(found, first, day, open, until, duration, busy, maxResults)
    requires day < until && |found| < maxResults
    ensures duration <= 0 ==> found == []
    ensures day + duration <= day + open ==> StepsAside(day, duration, busy)
    ensures BetweenDays(DayFound(found, day, day + open, duration, busy, maxResults), first, day + DAY, open, until,
                        duration, busy, maxResults)
  {
    if duration > 0 {
      DayJoins(found, DaySlots(day, day + open, duration), Grid(day + DAY, open, until, duration), busy, maxResults,
               SlotsFrom(first, open, until, duration, maxResults, busy));
    }
  }

  /** When a day leaves something to find, later days reach at least as far. */
  lemma {:induction false} LaterDaysReach(after: seq<Interval>, first: Time, day: Time, open: int, until: Time,
                                          duration: int, busy: seq<Interval>, maxResults: int, goal: seq<Interval>)
    requires duration > 0 && open <= DAY && first < until && |after| < maxResults
    requires Searching(after, [], Grid(day + DAY, open, until, duration), busy, maxResults, goal)
    requires day <= LastOpening(first, until)
    ensures CutOff(day, day + open, duration) <= LastTry(first, open, until, duration, maxResults, goal)
    ensures day <= LastLook(first, until, duration, maxResults, goal)
  {
    var last := LastOpening(first, until);
    if |goal| >= maxResults {
      LastOfLaterDays(after, day + DAY, open, until, duration, busy, maxResults, goal);
    } else {
      CutOffShifts(day, day + open, duration, last - day);
      assert day + (last - day) == last && day + open + (last - day) == last + open;
    }
  }

  /** With a positive duration, the whole search reaches at least as far as any day of it. */
  lemma {:induction false} ReachesAsFar(found: seq<Interval>, first: Time, day: Time, open: int, until: Time,
                                        duration: int, busy: seq<Interval>, maxResults: int)
    requires duration > 0 && open <= DAY && day < until && |found| < maxResults
    requires BetweenDays(found, first, day, open, until, duration, busy, maxResults)
    ensures var goal := SlotsFrom(first, open, until, duration, maxResults, busy);
            var after := DayFound(found, day, day + open, duration, busy, maxResults);
            && day < LastTryOfDay(day, day + open, duration, maxResults, after)
               <= LastTry(first, open, until, duration, maxResults, goal)
            && day <= LastLook(first, until, duration, maxResults, goal)
  {
    var goal := SlotsFrom(first, open, until, duration, maxResults, busy);
    var after := DayFound(found, day, day + open, duration, busy, maxResults);
    DayIsScanned(found, first, day, open, until, duration, busy, maxResults);
    if |after| >= maxResults {
      SearchDone(after, Grid(day + DAY, open, until, duration), busy, maxResults, goal);
      LastOfDay(found, day, open, duration, busy, maxResults);
    } else {
      LaterDaysReach(after, first, day, open, until, duration, busy, maxResults, goal);
    }
  }

  /** A day that cannot be scanned to its end makes the whole search overflow. */
  lemma {:induction false} ScanOverruns(found: seq<Interval>, first: Time, day: Time, open: int, until: Time,
                                        duration: int, busy: seq<Interval>, maxResults: int)
    requires SearchEnds(first, open, until, duration, maxResults, busy)
    requires BetweenDays(found, first, day, open, until, duration, busy, maxResults)
    requires day < until && |found| < maxResults && IsTime(day) && open <= DAY
    requires day + duration <= day + open ==> StepsAside(day, duration, busy)
    requires var after := DayFound(found, day, day + open, duration, busy, maxResults);
             !IsTime(LastTryOfDay(day, day + open, duration, maxResults, after))
    ensures !DaysInRange(first, open, until, duration, maxResults,
                         SlotsFrom(first, open, until, duration, maxResults, busy))
  {
    if duration > 0 {
      ReachesAsFar(found, first, day, open, until, duration, busy, maxResults);
    }
  }

  /** So does a day after which there is none. */
  lemma {:induction false} DateOverruns(found: seq<Interval>, first: Time, day: Time, open: int, until: Time,
                                        duration: int, busy: seq<Interval>, maxResults: int)
    requires SearchEnds(first, open, until, duration, maxResults, busy)
    requires BetweenDays(found, first, day, open, until, duration, busy, maxResults)
    requires day < until && |found| < maxResults && IsTime(day) && !IsTime(day + DAY) && open <= DAY
    ensures !DaysInRange(first, open, until, duration, maxResults,
                         SlotsFrom(first, open, until, duration, maxResults, busy))
  {
    if duration > 0 {
      ReachesAsFar(found, first, day, open, until, duration, busy, maxResults);
    }
  }

  /** After a day, what has been reached is in range too. */
  lemma {:induction false} ReachedToday(first: Time, day: Time, open: int, duration: int, maxResults: int,
                                        after: seq<Interval>)
    requires IsTime(day + DAY) && maxResults > 0
    requires IsTime(LastTryOfDay(day, day + open, duration, maxResults, after))
    requires duration > 0 && |after| >= maxResults ==> IsTime(after[maxResults - 1].start + DAY)
    requires duration <= 0 && |after| >= maxResults ==> day == first
    requires duration <= 0 && |after| < maxResults ==> IsTime(first + duration)
    ensures ReachedSoFar(after, first, day + DAY, open, duration, maxResults)
  {
    var next := day + DAY;
    assert next - DAY == day;
  }

  /** Closing on the next date is in range, so what is found today has a next day. */
  lemma {:induction false} DayPasses(found: seq<Interval>, first: Time, day: Time, open: int, until: Time,
                                     duration: int, busy: seq<Interval>, maxResults: int, after: seq<Interval>)
    requires Scanning(found, first, day, open, until, duration, busy, maxResults)
    requires day < until && |found| < maxResults && IsTime(day + DAY) && day + DAY + open <= END_OF_CALENDAR
    requires day + duration <= day + open ==> StepsAside(day, duration, busy)
    requires after == DayFound(found, day, day + open, duration, busy, maxResults)
    requires IsTime(LastTryOfDay(day, day + open, duration, maxResults, after))
    ensures Scanning(after, first, day + DAY, open, until, duration, busy, maxResults)
  {
    DayIsScanned(found, first, day, open, until, duration, busy, maxResults);
    if duration > 0 && |after| >= maxResults {
      LastOfDay(found, day, open, duration, busy, maxResults);
    }
    ReachedToday(first, day, open, duration, maxResults, after);
  }

  lemma {:induction false} DaysEnd(found: seq<Interval>, first: Time, day: Time, open: int, until: Time,
                                   duration: int, busy: seq<Interval>, maxResults: int)
    requires Scanning(found, first, day, open, until, duration, busy, maxResults)
    requires day >= until || |found| >= maxResults
    ensures var goal := SlotsFrom(first, open, until, duration, maxResults, busy);
            found == goal && DaysInRange(first, open, until, duration, maxResults, goal)
  {
    var goal := SlotsFrom(first, open, until, duration, maxResults, busy);
    if duration > 0 {
      SearchDone(found, Grid(day, open, until, duration), busy, maxResults, goal);
    }
  }

  lemma {:induction false} DaysStart(first: Time, open: int, until: Time, duration: int, busy: seq<Interval>,
                                     maxResults: int)
    requires IsTime(first) && SearchEnds(first, open, until, duration, maxResults, busy)
    ensures Scanning([], first, first, open, until, duration, busy, maxResults)
  {
    if duration > 0 {
      StartSearch(Grid(first, open, until, duration), busy, maxResults);
    }
  }

  /** What scanning a day asks for. */
  lemma {:induction false} DayIsEntered(found: seq<Interval>, first: Time, day: Time, open: int, until: Time,
                                        duration: int, busy: seq<Interval>, maxResults: int)
    requires Scanning(found, first, day, open, until, duration, busy, maxResults)
    requires day < until && |found| < maxResults
    ensures IsTime(day) && (duration <= 0 ==> found == [])
    ensures day + duration <= day + open ==> StepsAside(day, duration, busy)
  {
    DayIsScanned(found, first, day, open, until, duration, busy, maxResults);
  }

  lemma {:induction false} SameDay(found: seq<Interval>, day: Time, dayEnd: Time, open: int, duration: int,
                                   busy: seq<Interval>, maxResults: int, after: seq<Interval>)
    requires dayEnd == day + open && |found| < maxResults
    requires day + duration <= dayEnd ==> StepsAside(day, duration, busy)
    ensures day + duration <= day + open ==> StepsAside(day, duration, busy)
    ensures DayFound(found, day, day + open, duration, busy, maxResults)
            == DayFound(found, day, dayEnd, duration, busy, maxResults)
    ensures LastTryOfDay(day, day + open, duration, maxResults, after)
            == LastTryOfDay(day, dayEnd, duration, maxResults, after)
  {
  }

  /** And what its result means. */
  lemma {:induction false} DayIsLeft(found: seq<Interval>, first: Time, day: Time, dayEnd: Time, open: int,
                                     until: Time, duration: int, busy: seq<Interval>, maxResults: int,
                                     after: seq<Interval>)
    requires Scanning(found, first, day, open, until, duration, busy, maxResults)
    requires day < until && |found| < maxResults && dayEnd == day + open && open <= DAY
    requires IsTime(day + DAY) ==> day + DAY + open <= END_OF_CALENDAR
    requires day + duration <= dayEnd ==> StepsAside(day, duration, busy)
    requires after == DayFound(found, day, dayEnd, duration, busy, maxResults)
    ensures if IsTime(LastTryOfDay(day, dayEnd, duration, maxResults, after)) && IsTime(day + DAY)
            then Scanning(after, first, day + DAY, open, until, duration, busy, maxResults)
            else !DaysInRange(first, open, until, duration, maxResults,
                              SlotsFrom(first, open, until, duration, maxResults, busy))
  {
    SameDay(found, day, dayEnd, open, duration, busy, maxResults, after);
    if !IsTime(day + DAY) {
      DateOverruns(found, first, day, open, until, duration, busy, maxResults);
    } else if !IsTime(LastTryOfDay(day, dayEnd, duration, maxResults, after)) {
      ScanOverruns(found, first, day, open, until, duration, busy, maxResults);
    } else {
      DayPasses(found, first, day, open, until, duration, busy, maxResults, after);
    }
  }

  /** One day of the outer loop; `open` is the length of a working day. */
  method ScanNextDay(first: Time, day: Time, dayEnd: Time, searchUntil: Time, duration: int, maxResults: int,
                     busy: seq<Interval>, found: seq<Interval>, ghost open: int)
    returns (scanned: Option<seq<Interval>>)
    requires day < searchUntil && |found| < maxResults && dayEnd == day + open && open <= DAY
    requires IsTime(day + DAY) ==> day + DAY + open <= END_OF_CALENDAR
    requires Scanning(found, first, day, open, searchUntil, duration, busy, maxResults)
    ensures scanned.Some? ==>
              Scanning(scanned.value, first, day + DAY, open, searchUntil, duration, busy, maxResults)
    ensures scanned.None? ==>
              !DaysInRange(first, open, searchUntil, duration, maxResults,
                           SlotsFrom(first, open, searchUntil, duration, maxResults, busy))
  {
    DayIsEntered(found, first, day, open, searchUntil, duration, busy, maxResults);
    scanned := ScanDay(day, dayEnd, duration, maxResults, busy, found);
    ghost var after := DayFound(found, day, dayEnd, duration, busy, maxResults);
    DayIsLeft(found, first, day, dayEnd, open, searchUntil, duration, busy, maxResults, after);
    if !IsTime(day + DAY) {
      return None;
    }
  }

  /** The outer loop: one day after another, from the first opening on. */
  method ScanDays(h: Hours, first: Time, searchUntil: Time, duration: int, maxResults: int, busy: seq<Interval>)
    returns (candidates: Option<seq<Interval>>)
    requires ValidHours(h) && AtHour(first, h.opens) == first && IsTime(first)
    requires SearchEnds(first, OpenTime(h), searchUntil, duration, maxResults, busy)
    ensures var goal := SlotsFrom(first, OpenTime(h), searchUntil, duration, maxResults, busy);
            candidates == if DaysInRange(first, OpenTime(h), searchUntil, duration, maxResults, goal)
                          then Some(goal) else None
  {
    ghost var open := OpenTime(h);
    var found := [];
    var day := first;
    DaysStart(first, open, searchUntil, duration, busy, maxResults);
    while day < searchUntil && |found| < maxResults
      invariant AtHour(day, h.opens) == day && IsTime(day)
      invariant Scanning(found, first, day, open, searchUntil, duration, busy, maxResults)
      decreases searchUntil - day
    {
      TimesOfDay(h, day);
      var dayEnd := AtHour(day, h.closes);
      var scanned := ScanNextDay(first, day, dayEnd, searchUntil, duration, maxResults, busy, found, open);
      if scanned.None? {
        return None;
      }
      found := scanned.value;
      day := AtHour(day + DAY, h.opens);
    }
    DaysEnd(found, first, day, open, searchUntil, duration, busy, maxResults);
    return Some(found);
  }

  lemma {:induction false} WindowIsShort(from: Moment, span: int)
    ensures IsTime(from + span) ==> IsDelta(span)
  {
    assert IsTime(from);
  }

  /** `AtHour` of a moment is a moment, and the first opening is that or a day later. */
  lemma {:induction false} FirstDay(h: Hours, from: Moment)
    requires ValidHours(h)
    ensures var day := AtHour(from, h.opens);
            IsTime(day) && FirstOpening(h, from) == if day < from then day + DAY else day
  {
    assert IsTime(from);
  }

  /** The search once the window and the busy list are known. */
  method SearchWindow(h: Hours, searchFrom: Moment, searchUntil: Time, duration: int, maxResults: int,
                      busy: seq<Interval>)
    returns (candidates: Option<seq<Interval>>)
    requires ValidHours(h)
    requires SearchEnds(FirstOpening(h, searchFrom), OpenTime(h), searchUntil, duration, maxResults, busy)
    ensures var first := FirstOpening(h, searchFrom);
            var goal := SlotsFrom(first, OpenTime(h), searchUntil, duration, maxResults, busy);
            candidates == if IsTime(first) && DaysInRange(first, OpenTime(h), searchUntil, duration, maxResults, goal)
                          then Some(goal) else None
  {
    var day := AtHour(searchFrom, h.opens);
    FirstOpeningIsOpening(h, searchFrom);
    FirstDay(h, searchFrom);
    if day < searchFrom {
      if !IsTime(day + DAY) {
        return None;
      }
      day := day + DAY;
    }
    candidates := ScanDays(h, day, searchUntil, duration, maxResults, busy);
  }

  /** The search. `busy` is what the calendar answers when asked for the window, None for an error. Every slot
      proposed lasts as long as asked for; neither None nor 0 minutes asks for anything but the default. */
  method FindAvailableSlots(h: Hours, defaultMinutes: int, searchFrom: Moment, searchDays: int,
                            durationMinutes: Option<int>, maxResults: int, busy: Option<seq<Interval>>)
    returns (outcome: SearchOutcome)
    requires Settled(Search(h, searchFrom, searchDays, ResolveDuration(durationMinutes, defaultMinutes), maxResults),
                     busy)
    ensures var duration := ResolveDuration(durationMinutes, defaultMinutes);
            outcome == SearchResult(Search(h, searchFrom, searchDays, duration, maxResults), busy)
    ensures var minutes := match durationMinutes
                           case None => defaultMinutes
                           case Some(m) => if m == 0 then defaultMinutes else m;
            outcome.Proposed? ==>
              forall slot :: slot in outcome.slots ==> slot.end - slot.start == minutes * 60_000_000
  {
    var duration := ResolveDuration(durationMinutes, defaultMinutes);
    var span := searchDays * DAY;
    var searchUntil := searchFrom + span;
    WindowIsShort(searchFrom, span);
    if !IsDelta(duration) || !IsDelta(span) || !IsTime(searchUntil) {
      return Overflow;
    }
    if busy.None? {
      return CalendarDown;
    }
    SlotsHaveTheDuration(Search(h, searchFrom, searchDays, duration, maxResults), busy.value);
    var candidates := SearchWindow(h, searchFrom, searchUntil, duration, maxResults, busy.value);
    return if candidates.Some? then Proposed(candidates.value) else Overflow;
  }
}
