/**
 * The simulator's discrete-event queue as one traffic source sees it: a
 * clock, the pending (time, action) entries the source has scheduled, each
 * behind a handle, and cancellation by handle. Handle 0 plays the part of
 * an EventId that was never scheduled.
 */
module Scheduler {

  datatype Event<A> = Event(handle: nat, time: real, action: A)

  /** The pending entries without the one(s) behind handle `h`; cancelling twice is harmless. */
  function Cancelled<A>(pending: seq<Event<A>>, h: nat): (r: seq<Event<A>>)
    ensures forall k :: 0 <= k < |r| ==> r[k] in pending && r[k].handle != h
    ensures forall k :: 0 <= k < |pending| && pending[k].handle != h ==> pending[k] in r
    ensures |r| <= |pending|
  {
    if pending == [] then []
    else if pending[0].handle == h then Cancelled(pending[1..], h)
    else [pending[0]] + Cancelled(pending[1..], h)
  }

  /** Cancelling a handle that is no longer pending changes nothing. */
  lemma {:induction false} CancelAbsent<A>(pending: seq<Event<A>>, h: nat)
    requires forall k :: 0 <= k < |pending| ==> pending[k].handle != h
    ensures Cancelled(pending, h) == pending
  {
    if pending != [] {
      CancelAbsent(pending[1..], h);
    }
  }

  /** Cancellation is idempotent: a second cancel of the same handle is a no-op. */
  lemma CancelTwice<A>(pending: seq<Event<A>>, h: nat)
    ensures Cancelled(Cancelled(pending, h), h) == Cancelled(pending, h)
  {
    var once := Cancelled(pending, h);
    CancelAbsent(once, h);
  }

  /**
   * The entry the simulator fires next: the earliest time, and among entries
   * due at the same instant the one scheduled first.
   */
  method Earliest<A>(pending: seq<Event<A>>) returns (k: nat)
    requires |pending| > 0
    ensures k < |pending|
    ensures forall m :: 0 <= m < |pending| ==> pending[k].time <= pending[m].time
    ensures forall m :: 0 <= m < k ==> pending[m].time > pending[k].time
  {
    k := 0;
    var m := 1;
    while m < |pending|
      invariant k < m <= |pending|
      invariant forall n :: 0 <= n < m ==> pending[k].time <= pending[n].time
      invariant forall n :: 0 <= n < k ==> pending[n].time > pending[k].time
    {
      if pending[m].time < pending[k].time {
        k := m;
      }
      m := m + 1;
    }
  }

  class EventList<A> {
    /** Simulator::Now(), in seconds. */
    var now: real
    var pending: seq<Event<A>>
    /** The handle the next Schedule hands out. */
    var nextHandle: nat

    ghost predicate Valid()
      reads this
    {
      nextHandle >= 1 &&
      forall k :: 0 <= k < |pending| ==> 1 <= pending[k].handle < nextHandle
    }

    constructor ()
      ensures Valid() && now == 0.0 && pending == [] && nextHandle == 1
    {
      now := 0.0;
      pending := [];
      nextHandle := 1;
    }

    /** Simulator::Schedule: runs `action` after `delay` seconds; returns its handle. */
    method Schedule(delay: real, action: A) returns (h: nat)
      requires Valid()
      modifies this`pending, this`nextHandle
      ensures Valid()
      ensures h == old(nextHandle) && nextHandle == h + 1 && h >= 1
      ensures pending == old(pending) + [Event(h, now + delay, action)]
    {
      h := nextHandle;
      pending := pending + [Event(h, now + delay, action)];
      nextHandle := nextHandle + 1;
    }

    /** Simulator::Cancel: the entry behind `h`, if still pending, will not fire. */
    method Cancel(h: nat)
      requires Valid()
      modifies this`pending
      ensures Valid()
      ensures pending == Cancelled(old(pending), h)
    {
      pending := Cancelled(pending, h);
    }

    /** EventId::IsRunning: the entry behind `h` has neither fired nor been cancelled. */
    predicate IsRunning(h: nat)
      reads this
    {
      exists k :: 0 <= k < |pending| && pending[k].handle == h
    }

    /** Takes the entry that fires next off the list and advances the clock to it. */
    method Next() returns (e: Event<A>, k: nat)
      requires Valid() && |pending| > 0
      modifies this`pending, this`now
      ensures Valid()
      ensures k < |old(pending)| && e == old(pending)[k]
      ensures forall m :: 0 <= m < |old(pending)| ==> e.time <= old(pending)[m].time
      ensures forall m :: 0 <= m < k ==> old(pending)[m].time > e.time
      ensures pending == old(pending)[..k] + old(pending)[k + 1..]
      ensures now == e.time
    {
      k := Earliest(pending);
      e := pending[k];
      pending := pending[..k] + pending[k + 1..];
      now := e.time;
    }
  }
}
