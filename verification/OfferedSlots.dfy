/** The slots one search offers can all be booked: search, calendar and database taken together. */
module OfferedSlots {
  import opened Slots
  import opened SlotAnswers
  import opened SlotLaws
  import opened Booking
  import opened BookingLaws

  predicate Busy(busy: seq<Interval>, t: Time) {
    exists i :: 0 <= i < |busy| && During(t, busy[i])
  }

  /** The busy list covers every moment of every calendar event inside the searched window. */
  ghost predicate Covers(busy: seq<Interval>, events: map<EventId, Interval>, from: Time, until: Time) {
    forall e, t :: e in events && from <= t < until && During(t, events[e]) ==> Busy(busy, t)
  }

  /** No active appointment of the client overlaps the slot. */
  ghost predicate Clear(w: World, client: ClientId, slot: Interval) {
    Hits(w.rows, client, slot) == {}
  }

  /** A free slot inside the window overlaps no calendar event. */
  lemma {:induction false} FreeOfEvents(busy: seq<Interval>, events: map<EventId, Interval>, from: Time, until: Time,
                                        slot: Interval, e: EventId)
    requires Covers(busy, events, from, until) && e in events && Positive(events[e])
    requires from <= slot.start < slot.end <= until && !OverlapsAny(slot, busy)
    ensures !Overlap(events[e], slot)
  {
    if Overlap(events[e], slot) {
      var t := if events[e].start < slot.start then slot.start else events[e].start;
      assert During(t, events[e]) && During(t, slot);
      assert Busy(busy, t);
      var i :| 0 <= i < |busy| && During(t, busy[i]);
      assert Overlap(slot, busy[i]);
    }
  }

  /** Database and calendar agreeing, an offered slot that ends within the window is clear for every client. */
  lemma {:induction false} OfferedIsClear(q: Search, busy: seq<Interval>, w: World, foreign: set<EventId>,
                                          client: ClientId, i: nat)
    requires ValidSearch(q) && Agree(w, foreign) && Covers(busy, w.events, q.from, Until(q))
    requires i < |Found(q, busy)| && Found(q, busy)[i].end <= Until(q)
    ensures Clear(w, client, Found(q, busy)[i])
  {
    FoundMayBeOffered(q, busy);
    var slot := Found(q, busy)[i];
    assert Offerable(q, busy, slot);
    forall r | r in w.rows && Active(w.rows[r])
      ensures !Overlap(w.rows[r].slot, slot)
    {
      assert RowAgrees(w, foreign, r);
      FreeOfEvents(busy, w.events, q.from, Until(q), slot, w.rows[r].event.value);
    }
  }

  /** Booking a clear slot creates one event and one row, and leaves clear every slot apart from it. */
  lemma {:induction false} BookingAClearSlot(w: World, client: ClientId, slot: Interval, env: Surroundings)
    requires Fits(w, client, slot, env) && env.calendarUp && env.commitOk
    requires Clear(w, client, slot) && Positive(slot) && w.events.Keys <= w.issued
    ensures var step := Book(w, client, slot, env);
            && step.outcome == Ok(env.newRow) && env.newRow !in w.rows
            && step.world.events == w.events[env.newEvent := slot] && env.newEvent !in w.events
            && forall other :: Clear(w, client, other) && !Overlap(slot, other) ==> Clear(step.world, client, other)
  {
  }

  /** `picks` names found slots, each at most once and all ending within the window. */
  ghost predicate Picks(q: Search, found: seq<Interval>, picks: seq<nat>) {
    && (forall i :: 0 <= i < |picks| ==> picks[i] < |found| && found[picks[i]].end <= Until(q))
    && (forall i, j :: 0 <= i < j < |picks| ==> picks[i] != picks[j])
  }

  ghost predicate BooksIt(t: Timed, client: ClientId, slot: Interval) {
    t.request == BookRequest(client, slot) && t.env.calendarUp && t.env.commitOk
  }

  /** The run books the picked slots for one client, in the order picked, nothing failing around it. */
  ghost predicate BooksThem(requests: seq<Timed>, client: ClientId, found: seq<Interval>, picks: seq<nat>)
    requires forall i :: 0 <= i < |picks| ==> picks[i] < |found|
  {
    |requests| == |picks| && forall i :: 0 <= i < |picks| ==> BooksIt(requests[i], client, found[picks[i]])
  }

  lemma {:induction false} ApartInOrder(slots: seq<Interval>, i: nat, j: nat)
    requires Ordered(slots) && i < |slots| && j < |slots| && i != j
    ensures !Overlap(slots[i], slots[j])
  {
  }

  /** The booking answered with a row that was not there before. */
  ghost predicate BookedNew(before: World, t: Timed, outcome: Outcome) {
    outcome == Ok(t.env.newRow) && t.env.newRow !in before.rows
  }

  /** After `n` of the picked slots are booked, every one not yet booked is still clear. */
  lemma {:induction false} PickedStayClear(found: seq<Interval>, worlds: seq<World>, requests: seq<Timed>,
                                           outcomes: seq<Outcome>, client: ClientId, picks: seq<nat>, n: nat)
    requires Ordered(found) && forall i :: 0 <= i < |found| ==> Positive(found[i])
    requires forall i :: 0 <= i < |picks| ==> picks[i] < |found|
    requires forall i, j :: 0 <= i < j < |picks| ==> picks[i] != picks[j]
    requires BooksThem(requests, client, found, picks)
    requires IsRun(worlds, requests, outcomes) && n <= |picks|
    requires worlds[0].events.Keys <= worlds[0].issued
    requires forall i :: 0 <= i < |picks| ==> Clear(worlds[0], client, found[picks[i]])
    ensures worlds[n].events.Keys <= worlds[n].issued
    ensures forall i :: n <= i < |picks| ==> Clear(worlds[n], client, found[picks[i]])
    ensures |worlds[n].events| == |worlds[0].events| + n
    ensures forall i :: 0 <= i < n ==> BookedNew(worlds[i], requests[i], outcomes[i])
  {
    if n > 0 {
      var k := n - 1;
      PickedStayClear(found, worlds, requests, outcomes, client, picks, k);
      assert Follows(worlds[k], requests[k], worlds[k + 1], outcomes[k]);
      assert BooksIt(requests[k], client, found[picks[k]]);
      BookingAClearSlot(worlds[k], client, found[picks[k]], requests[k].env);
      forall i | n <= i < |picks|
        ensures Clear(worlds[n], client, found[picks[i]])
      {
        ApartInOrder(found, picks[k], picks[i]);
      }
    }
  }

  /** Every slot of one search that ends by the end of the window can be booked by the same client, in
      any order and any selection, with no error, each creating one row and exactly one event. */
  lemma {:induction false} AllOfferedSlotsCanBeBooked(q: Search, busy: seq<Interval>, worlds: seq<World>,
                                                      requests: seq<Timed>,
                                   outcomes: seq<Outcome>, client: ClientId, picks: seq<nat>, foreign: set<EventId>)
    requires ValidSearch(q) && Picks(q, Found(q, busy), picks) && BooksThem(requests, client, Found(q, busy), picks)
    requires IsRun(worlds, requests, outcomes)
    requires Agree(worlds[0], foreign) && Covers(busy, worlds[0].events, q.from, Until(q))
    ensures forall i :: 0 <= i < |picks| ==> BookedNew(worlds[i], requests[i], outcomes[i])
    ensures |worlds[|picks|].events| == |worlds[0].events| + |picks|
  {
    forall i | 0 <= i < |picks|
      ensures Clear(worlds[0], client, Found(q, busy)[picks[i]])
    {
      OfferedIsClear(q, busy, worlds[0], foreign, client, picks[i]);
    }
    FoundMayBeOffered(q, busy);
    PickedStayClear(Found(q, busy), worlds, requests, outcomes, client, picks, |picks|);
  }
}
