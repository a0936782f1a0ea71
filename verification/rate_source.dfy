/**
 * MySource (examples/rtt-variations/my-source.h): an application that sends
 * fixed-size packets at the current data rate and switches rate, or pauses,
 * at the instants of a change-time list. The simulator's event queue is the
 * source's own Scheduler.EventList; the socket and the sent-packet log file
 * are append-only records of what the source did to them.
 */
module RateSource {
  import opened Optional
  import opened Scheduler
  import opened Net

  /** The callbacks MySource schedules on itself. */
  datatype Action = SendPacket | ChangeDataRate(index: nat) | StopSendNew

  /** One line of `<result_dir>/sent_ms.dat`: `[<ms>] SourceIDTag: <id>, size: <bytes>`. */
  datatype LogEntry = LogEntry(timeMs: int, sourceId: nat, size: nat)

  /** What the source does to its socket; the socket itself is opaque. */
  datatype SocketCall = Bind | Connect(peer: SocketAddress) | Send(tag: nat, size: nat) | Close

  /** The kinds of entry a count can select. */
  datatype Pick = Sends | Changes | Stops

  predicate Picked(pick: Pick, a: Action)
  {
    match pick
    case Sends => a.SendPacket?
    case Changes => a.ChangeDataRate?
    case Stops => a.StopSendNew?
  }

  /** How many pending entries carry an action of the kind `pick`. */
  function CountActions(pending: seq<Event<Action>>, pick: Pick): (n: nat)
    ensures n <= |pending|
    ensures n == 0 <==> forall k :: 0 <= k < |pending| ==> !Picked(pick, pending[k].action)
  {
    if pending == [] then 0
    else (if Picked(pick, pending[0].action) then 1 else 0) + CountActions(pending[1..], pick)
  }

  /** When `pick` selects every entry, every entry counts. */
  lemma {:induction false} CountAll(pending: seq<Event<Action>>, pick: Pick)
    requires forall k :: 0 <= k < |pending| ==> Picked(pick, pending[k].action)
    ensures CountActions(pending, pick) == |pending|
  {
    if pending != [] {
      CountAll(pending[1..], pick);
    }
  }

  /** Pending sends. */
  function SendCount(pending: seq<Event<Action>>): nat
  {
    CountActions(pending, Sends)
  }

  lemma {:induction false} CountAppend(a: seq<Event<Action>>, b: seq<Event<Action>>, pick: Pick)
    ensures CountActions(a + b, pick) == CountActions(a, pick) + CountActions(b, pick)
  {
    if a == [] {
      assert a + b == b;
    } else {
      CountAppend(a[1..], b, pick);
      assert (a + b)[0] == a[0];
      assert (a + b)[1..] == a[1..] + b;
    }
  }

  /** Taking one entry off the list lowers the count by one exactly when `pick` selects it. */
  lemma CountRemove(p: seq<Event<Action>>, k: nat, pick: Pick)
    requires k < |p|
    ensures CountActions(p[..k] + p[k + 1..], pick) + (if Picked(pick, p[k].action) then 1 else 0)
            == CountActions(p, pick)
  {
    assert p == p[..k] + ([p[k]] + p[k + 1..]);
    CountAppend(p[..k], [p[k]] + p[k + 1..], pick);
    CountAppend([p[k]], p[k + 1..], pick);
    CountAppend(p[..k], p[k + 1..], pick);
  }

  /** Simulator::Now().GetMilliSeconds() for a non-negative time in seconds. */
  function Millis(t: real): int
  {
    (t * 1000.0).Floor
  }

  /** The gap between two sends: the packet's bits divided by the bit rate, in seconds. */
  function TxInterval(packetSize: nat, bitRate: nat): (d: real)
    requires bitRate > 0
    ensures d >= 0.0
    ensures d * (bitRate as real) == (packetSize * 8) as real
  {
    (packetSize * 8) as real / bitRate as real
  }

  /**
   * The gap as MySource::ScheduleTx computes it, whatever the rate: the
   * packet's bits divided by the rate as a double. At a zero rate the
   * quotient is infinite and no simulation time (None).
   */
  function TxDelayAsWritten(packetSize: nat, bitRate: nat): (d: Option<real>)
    ensures d.None? <==> bitRate == 0
    ensures d.Some? ==> d.value * (bitRate as real) == (packetSize * 8) as real
  {
    if bitRate == 0 then None else Some(TxInterval(packetSize, bitRate))
  }

  /**
   * The entries StartApplication schedules after its first send, with
   * handles from `firstHandle` on: ChangeDataRate(i) at `now + changeTime[i]`
   * for every entry but the last, then StopSendNew at the last entry.
   */
  function RateSchedule(changeTime: seq<real>, firstHandle: nat, now: real): seq<Event<Action>>
    requires |changeTime| >= 1
  {
    var n := |changeTime| - 1;
    seq(n, i requires 0 <= i < n => Event(firstHandle + i, now + changeTime[i], ChangeDataRate(i)))
    + [Event(firstHandle + n, now + changeTime[n], StopSendNew)]
  }

  /**
   * A schedule of k change times yields exactly k - 1 rate changes, for
   * indices 0 .. k - 2 in order, one stop as the final entry, and no send;
   * every entry is due at its change time after `now`.
   */
  lemma RateScheduleCounts(changeTime: seq<real>, firstHandle: nat, now: real)
    requires |changeTime| >= 1
    ensures var r := RateSchedule(changeTime, firstHandle, now);
      && |r| == |changeTime|
      && CountActions(r, Changes) == |changeTime| - 1
      && CountActions(r, Stops) == 1
      && SendCount(r) == 0
      && r[|r| - 1].action == StopSendNew
      && (forall i :: 0 <= i < |r| - 1 ==> r[i].action == ChangeDataRate(i))
      && (forall i :: 0 <= i < |r| ==> r[i].time == now + changeTime[i])
  {
    var r := RateSchedule(changeTime, firstHandle, now);
    var n := |changeTime| - 1;
    assert r == r[..n] + [r[n]];
    CountAll(r[..n], Changes);
    CountAppend(r[..n], [r[n]], Changes);
    CountAppend(r[..n], [r[n]], Stops);
  }

  /** Strictly increasing change times give strictly increasing due times, all after `now` when positive. */
  lemma RateScheduleOrdered(changeTime: seq<real>, firstHandle: nat, now: real)
    requires |changeTime| >= 1
    requires forall i, j :: 0 <= i < j < |changeTime| ==> changeTime[i] < changeTime[j]
    ensures var r := RateSchedule(changeTime, firstHandle, now);
      forall i, j :: 0 <= i < j < |r| ==> r[i].time < r[j].time
    ensures (forall i :: 0 <= i < |changeTime| ==> changeTime[i] > 0.0) ==>
      var r := RateSchedule(changeTime, firstHandle, now);
      forall i :: 0 <= i < |r| ==> r[i].time > now
  {
    RateScheduleCounts(changeTime, firstHandle, now);
  }

  /**
   * The queue invariant of one source: at most one send is pending, the
   * entries behind `sendEvent` are exactly the sends, a stopped source has
   * none, and every pending rate change names a rate among the first
   * `rateCount`.
   */
  predicate QueueOk(pending: seq<Event<Action>>, sendEvent: nat, running: bool, rateCount: nat)
  {
    && SendCount(pending) <= 1
    && (forall k :: 0 <= k < |pending| ==> (pending[k].action.SendPacket? <==> pending[k].handle == sendEvent))
    && (!running ==> SendCount(pending) == 0)
    && (forall k :: 0 <= k < |pending| && pending[k].action.ChangeDataRate? ==>
          pending[k].action.index + 1 < rateCount)
  }

  /** The pending entries other than sends, in the order they were scheduled. */
  function Unsent(pending: seq<Event<Action>>): (r: seq<Event<Action>>)
    ensures forall k :: 0 <= k < |r| ==> r[k] in pending && !r[k].action.SendPacket?
    ensures forall k :: 0 <= k < |pending| && !pending[k].action.SendPacket? ==> pending[k] in r
  {
    if pending == [] then []
    else if pending[0].action.SendPacket? then Unsent(pending[1..])
    else [pending[0]] + Unsent(pending[1..])
  }

  /**
   * When the entries behind `h` are exactly the sends, cancelling `h` drops
   * the sends and keeps every rate change and stop, in order.
   */
  lemma {:induction false} CancelSendEvent(pending: seq<Event<Action>>, h: nat)
    requires forall k :: 0 <= k < |pending| ==> (pending[k].action.SendPacket? <==> pending[k].handle == h)
    ensures Cancelled(pending, h) == Unsent(pending)
  {
    if pending != [] {
      CancelSendEvent(pending[1..], h);
    }
  }

  /** Cancelling `sendEvent` leaves no send pending, whether or not the source goes on running. */
  lemma CancelKeepsQueue(pending: seq<Event<Action>>, sendEvent: nat, running: bool, running': bool, rateCount: nat)
    requires QueueOk(pending, sendEvent, running, rateCount)
    ensures SendCount(Cancelled(pending, sendEvent)) == 0
    ensures QueueOk(Cancelled(pending, sendEvent), sendEvent, running', rateCount)
  {
    NoSendAfterCancel(pending, sendEvent);
    var r := Cancelled(pending, sendEvent);
    forall k | 0 <= k < |r| && r[k].action.ChangeDataRate?
      ensures r[k].action.index + 1 < rateCount
    {
      var j :| 0 <= j < |pending| && pending[j] == r[k];
    }
  }

  /** A send added to a running source's queue that holds none becomes the one `sendEvent` must name. */
  lemma AddSendKeepsQueue(pending: seq<Event<Action>>, sendEvent: nat, h: nat, t: real, rateCount: nat)
    requires QueueOk(pending, sendEvent, true, rateCount) && SendCount(pending) == 0
    requires forall k :: 0 <= k < |pending| ==> pending[k].handle < h
    ensures SendCount(pending + [Event(h, t, SendPacket)]) == 1
    ensures QueueOk(pending + [Event(h, t, SendPacket)], h, true, rateCount)
  {
    CountAppend(pending, [Event(h, t, SendPacket)], Sends);
  }

  /**
   * Appending the rate schedule adds no send and keeps the invariant when
   * there are at least as many rates as change times.
   */
  lemma AppendScheduleKeepsQueue(pending: seq<Event<Action>>, changeTime: seq<real>, h: nat, now: real,
                                 sendEvent: nat, running: bool, rateCount: nat)
    requires QueueOk(pending, sendEvent, running, rateCount) && 1 <= |changeTime| <= rateCount
    requires sendEvent < h
    ensures SendCount(pending + RateSchedule(changeTime, h, now)) == SendCount(pending)
    ensures QueueOk(pending + RateSchedule(changeTime, h, now), sendEvent, running, rateCount)
  {
    var r := RateSchedule(changeTime, h, now);
    RateScheduleCounts(changeTime, h, now);
    CountAppend(pending, r, Sends);
    forall k | 0 <= k < |pending + r|
      ensures (pending + r)[k].action.SendPacket? <==> (pending + r)[k].handle == sendEvent
      ensures (pending + r)[k].action.ChangeDataRate? ==> (pending + r)[k].action.index + 1 < rateCount
    {
      if k >= |pending| {
        assert (pending + r)[k] == r[k - |pending|];
        assert !Picked(Sends, r[k - |pending|].action);
      }
    }
  }

  /** Taking an entry off keeps the invariant; taking the send off leaves none. */
  lemma RemoveKeepsQueue(pending: seq<Event<Action>>, k: nat, sendEvent: nat, running: bool, rateCount: nat)
    requires QueueOk(pending, sendEvent, running, rateCount) && k < |pending|
    ensures QueueOk(pending[..k] + pending[k + 1..], sendEvent, running, rateCount)
    ensures pending[k].action.SendPacket? ==> SendCount(pending[..k] + pending[k + 1..]) == 0
    ensures forall e :: e in pending && e != pending[k] ==> e in pending[..k] + pending[k + 1..]
  {
    var rest := pending[..k] + pending[k + 1..];
    CountRemove(pending, k, Sends);
    forall j | 0 <= j < |rest|
      ensures rest[j] == if j < k then pending[j] else pending[j + 1]
    {
    }
  }

  class MySource {
    /** The simulator's queue, as far as this source's events go. */
    const sim: EventList<Action>

    var hasSocket: bool
    var socketCalls: seq<SocketCall>
    var peer: SocketAddress
    var packetSize: nat
    /** m_sendEvent: the handle of the last send scheduled (0: none yet). */
    var sendEvent: nat
    var running: bool
    var packetsSent: nat
    var sourceId: nat
    var resultDir: string
    /** m_currentDataRate, in bits per second. */
    var currentRate: nat
    /** The rate list, in bits per second. */
    var dataRate: seq<nat>
    /** The change-time list, in seconds after the start. */
    var changeTime: seq<real>
    /** The lines this source appended to `<result_dir>/sent_ms.dat`. */
    var sentLog: seq<LogEntry>

    /** SendPacket executions since the last start. */
    ghost var sends: nat
    /** ChangeDataRate calls with a nonzero new rate since the last start. */
    ghost var resumes: nat

    /** The queue invariant holds, and the counter is the sends plus the nonzero rate changes. */
    ghost predicate Valid()
      reads this, sim
    {
      && sim.Valid()
      && QueueOk(sim.pending, sendEvent, running, |dataRate|)
      && sendEvent < sim.nextHandle
      && packetsSent == sends + resumes
    }

    /** MySource::MySource: not running, nothing sent, nothing scheduled. */
    constructor ()
      ensures Valid() && fresh(sim)
      ensures !running && packetsSent == 0 && sends == 0 && resumes == 0
      ensures !hasSocket && socketCalls == [] && sentLog == [] && sendEvent == 0
      ensures sim.pending == [] && sim.now == 0.0 && sim.nextHandle == 1
      ensures currentRate == 0 && dataRate == [] && changeTime == []
    {
      sim := new EventList();
      hasSocket, socketCalls, sentLog := false, [], [];
      peer := InetSocketAddress(Ipv4Address(0, 0), 0);
      packetSize, sendEvent, sourceId, resultDir := 0, 0, 0, "";
      running, packetsSent := false, 0;
      currentRate, dataRate, changeTime := 0, [], [];
      sends, resumes := 0, 0;
    }

    /**
     * MySource::Setup: stores the configuration and takes the first rate;
     * schedules nothing. Rate changes still pending must find their rate in
     * the new list.
     */
    method Setup(peer: SocketAddress, packetSize: nat, dataRate: seq<nat>, appId: nat,
                 resultDir: string, changeTime: seq<real>)
      requires Valid() && |dataRate| >= 1
      requires QueueOk(sim.pending, sendEvent, running, |dataRate|)
      modifies this`hasSocket, this`peer, this`packetSize, this`sourceId, this`resultDir,
               this`dataRate, this`changeTime, this`currentRate
      ensures Valid()
      ensures hasSocket && this.peer == peer && this.packetSize == packetSize && sourceId == appId
      ensures this.resultDir == resultDir && this.dataRate == dataRate && this.changeTime == changeTime
      ensures currentRate == dataRate[0]
    {
      hasSocket, this.peer, this.packetSize, sourceId, this.resultDir, this.dataRate, this.changeTime, currentRate
        := true, peer, packetSize, appId, resultDir, dataRate, changeTime, dataRate[0];
    }

    /**
     * MySource::ScheduleTx: while running, the next send one packet time
     * from now; otherwise nothing. At a zero rate nothing is scheduled either
     * (see the README's findings).
     */
    method ScheduleTx()
      requires Valid() && SendCount(sim.pending) == 0
      modifies this`sendEvent, sim`pending, sim`nextHandle
      ensures Valid()
      ensures running && currentRate > 0 ==>
        && sendEvent == old(sim.nextHandle) && sim.nextHandle == sendEvent + 1
        && sim.pending == old(sim.pending) + [Event(sendEvent, sim.now + TxInterval(packetSize, currentRate), Action.SendPacket)]
      ensures !(running && currentRate > 0) ==>
        sendEvent == old(sendEvent) && sim.pending == old(sim.pending) && sim.nextHandle == old(sim.nextHandle)
      ensures SendCount(sim.pending) == if running && currentRate > 0 then 1 else 0
    {
      if running && currentRate > 0 {
        var tNext := TxInterval(packetSize, currentRate);
        AddSendKeepsQueue(sim.pending, sendEvent, sim.nextHandle, sim.now + tNext, |dataRate|);
        sendEvent := sim.Schedule(tNext, Action.SendPacket);
      }
    }

    /**
     * MySource::SendPacket: one packet tagged with the source id goes to the
     * socket, one line to the log, the counter goes up by one, and the next
     * send is scheduled if the source is still running.
     */
    method SendPacket()
      requires Valid() && hasSocket && SendCount(sim.pending) == 0
      modifies this`socketCalls, this`sentLog, this`packetsSent, this`sends, this`sendEvent,
               sim`pending, sim`nextHandle
      ensures Valid()
      ensures socketCalls == old(socketCalls) + [Send(sourceId, packetSize)]
      ensures sentLog == old(sentLog) + [LogEntry(Millis(sim.now), sourceId, packetSize)]
      ensures packetsSent == old(packetsSent) + 1 && sends == old(sends) + 1
      ensures running && currentRate > 0 ==>
        && sendEvent == old(sim.nextHandle) && sim.nextHandle == sendEvent + 1
        && sim.pending == old(sim.pending) + [Event(sendEvent, sim.now + TxInterval(packetSize, currentRate), Action.SendPacket)]
      ensures !(running && currentRate > 0) ==>
        sendEvent == old(sendEvent) && sim.pending == old(sim.pending) && sim.nextHandle == old(sim.nextHandle)
      ensures SendCount(sim.pending) == if running && currentRate > 0 then 1 else 0
    {
      socketCalls := socketCalls + [Send(sourceId, packetSize)];
      sentLog := sentLog + [LogEntry(Millis(sim.now), sourceId, packetSize)];
      packetsSent := packetsSent + 1;
      sends := sends + 1;
      ScheduleTx();
    }

    /**
     * MySource::ChangeDataRate(i): switches to rate i + 1 and always drops the
     * pending send. A nonzero rate counts one packet (without sending it)
     * and reschedules; a zero rate leaves nothing pending while the source
     * stays running: a pause, not a stop.
     */
    method ChangeDataRate(i: nat)
      requires Valid() && i + 1 < |dataRate|
      modifies this`currentRate, this`packetsSent, this`resumes, this`sendEvent,
               sim`pending, sim`nextHandle
      ensures Valid()
      ensures currentRate == dataRate[i + 1]
      ensures packetsSent == old(packetsSent) + (if currentRate > 0 then 1 else 0)
      ensures resumes == old(resumes) + (if currentRate > 0 then 1 else 0)
      ensures running && currentRate > 0 ==>
        && sendEvent == old(sim.nextHandle)
        && sim.pending == Unsent(old(sim.pending))
                          + [Event(sendEvent, sim.now + TxInterval(packetSize, currentRate), Action.SendPacket)]
      ensures !(running && currentRate > 0) ==>
        && sim.pending == Unsent(old(sim.pending))
        && sendEvent == old(sendEvent) && sim.nextHandle == old(sim.nextHandle)
      ensures SendCount(sim.pending) == if running && currentRate > 0 then 1 else 0
    {
      currentRate := dataRate[i + 1];
      CancelSend();
      if currentRate > 0 {
        packetsSent := packetsSent + 1;
        resumes := resumes + 1;
        ScheduleTx();
      }
    }

    /** Simulator::Cancel(m_sendEvent): the pending send goes, every rate change and the stop stay. */
    method CancelSend()
      requires Valid()
      modifies sim`pending
      ensures Valid()
      ensures sim.pending == Unsent(old(sim.pending)) && SendCount(sim.pending) == 0
    {
      CancelSendEvent(sim.pending, sendEvent);
      CancelKeepsQueue(sim.pending, sendEvent, running, running, |dataRate|);
      sim.Cancel(sendEvent);
    }

    /**
     * MySource::StartApplication: running with a fresh counter, the socket
     * bound and connected, the first packet sent at once, then one rate change
     * per change time but the last and a stop at the last.
     */
    method StartApplication()
      requires Valid() && hasSocket && !running
      requires 1 <= |changeTime| <= |dataRate|
      modifies this`running, this`packetsSent, this`sends, this`resumes, this`socketCalls,
               this`sentLog, this`sendEvent, sim`pending, sim`nextHandle
      ensures Valid() && running
      ensures packetsSent == 1 && sends == 1 && resumes == 0
      ensures socketCalls == old(socketCalls) + [Bind, Connect(peer), Send(sourceId, packetSize)]
      ensures sentLog == old(sentLog) + [LogEntry(Millis(sim.now), sourceId, packetSize)]
      ensures currentRate > 0 ==>
        sim.pending == old(sim.pending)
                       + [Event(old(sim.nextHandle), sim.now + TxInterval(packetSize, currentRate), Action.SendPacket)]
                       + RateSchedule(changeTime, old(sim.nextHandle) + 1, sim.now)
      ensures currentRate == 0 ==>
        sim.pending == old(sim.pending) + RateSchedule(changeTime, old(sim.nextHandle), sim.now)
      ensures SendCount(sim.pending) == if currentRate > 0 then 1 else 0
    {
      ghost var h := sim.nextHandle;
      running, packetsSent, sends, resumes, socketCalls := true, 0, 0, 0, socketCalls + [Bind, Connect(peer)];
      SendPacket();
      assert currentRate > 0 ==> sendEvent == h && sim.nextHandle == h + 1;
      ScheduleRateChanges();
    }

    /**
     * The scheduling loop of MySource::StartApplication: appends the rate
     * schedule of `changeTime` to the queue, leaving the pending send alone.
     */
    method ScheduleRateChanges()
      requires Valid() && 1 <= |changeTime| <= |dataRate|
      modifies sim`pending, sim`nextHandle
      ensures Valid()
      ensures sim.pending == old(sim.pending) + RateSchedule(changeTime, old(sim.nextHandle), sim.now)
      ensures SendCount(sim.pending) == SendCount(old(sim.pending))
    {
      ghost var before := sim.pending;
      ghost var schedule := RateSchedule(changeTime, sim.nextHandle, sim.now);
      ghost var h0 := sim.nextHandle;
      var i := 0;
      while i < |changeTime| - 1
        invariant 0 <= i <= |changeTime| - 1
        invariant sim.Valid() && sim.nextHandle == h0 + i
        invariant sim.pending == before + schedule[..i]
      {
        assert schedule[i] == Event(h0 + i, sim.now + changeTime[i], Action.ChangeDataRate(i));
        var h := sim.Schedule(changeTime[i], Action.ChangeDataRate(i));
        assert schedule[..i + 1] == schedule[..i] + [schedule[i]];
        i := i + 1;
      }
      assert schedule[i] == Event(h0 + i, sim.now + changeTime[i], Action.StopSendNew);
      var h := sim.Schedule(changeTime[|changeTime| - 1], Action.StopSendNew);
      assert schedule == schedule[..i] + [schedule[i]];
      assert sim.pending == before + schedule;
      AppendScheduleKeepsQueue(before, changeTime, h0, sim.now, sendEvent, running, |dataRate|);
    }

    /** MySource::StopSendNew: no longer running, and the pending send (if any) is cancelled. */
    method StopSendNew()
      requires Valid()
      modifies this`running, sim`pending
      ensures Valid() && !running
      ensures sim.pending == Unsent(old(sim.pending))
      ensures SendCount(sim.pending) == 0
    {
      CancelSendEvent(sim.pending, sendEvent);
      CancelKeepsQueue(sim.pending, sendEvent, running, false, |dataRate|);
      if sim.IsRunning(sendEvent) {
        sim.Cancel(sendEvent);
      } else {
        CancelAbsent(sim.pending, sendEvent);
      }
      running := false;
    }

    /** MySource::StopApplication: closes the socket if there is one; sending state is untouched. */
    method StopApplication()
      requires Valid()
      modifies this`socketCalls
      ensures Valid()
      ensures socketCalls == old(socketCalls) + (if hasSocket then [Close] else [])
    {
      if hasSocket {
        socketCalls := socketCalls + [Close];
      }
    }

    /** MySource::GetPacketsSent: the sends since the start plus the nonzero rate changes. */
    method GetPacketsSent() returns (n: nat)
      requires Valid()
      ensures n == sends + resumes
    {
      n := packetsSent;
    }

    /**
     * The simulator firing this source's next event: the earliest entry
     * (first scheduled among equal times) leaves the queue, the clock moves to
     * it and its callback runs. Valid() survives, a stopped source never
     * starts again, and a stopped source puts nothing more on its socket.
     * A paused source (no send pending) whose rate is still zero afterwards
     * sends nothing and stays paused until a nonzero rate change. Every
     * rate change and stop other than the one fired stays pending.
     */
    method Fire() returns (fired: Event<Action>)
      requires Valid() && hasSocket && |sim.pending| > 0
      modifies this`currentRate, this`packetsSent, this`resumes, this`sends, this`sendEvent,
               this`running, this`socketCalls, this`sentLog, sim
      ensures Valid()
      ensures running ==> old(running)
      ensures !old(running) ==> SendCount(sim.pending) == 0 && socketCalls == old(socketCalls) && sentLog == old(sentLog)
      ensures old(SendCount(sim.pending)) == 0 && currentRate == 0 ==>
        SendCount(sim.pending) == 0 && socketCalls == old(socketCalls) && sentLog == old(sentLog)
      ensures fired in old(sim.pending)
      ensures forall m :: 0 <= m < |old(sim.pending)| ==> fired.time <= old(sim.pending)[m].time
      ensures forall e :: e in old(sim.pending) && e != fired && !e.action.SendPacket? ==> e in sim.pending
    {
      ghost var before := sim.pending;
      var e, k := sim.Next();
      fired := e;
      RemoveKeepsQueue(before, k, sendEvent, running, |dataRate|);
      match e.action
      case SendPacket =>
        SendPacket();
      case ChangeDataRate(i) =>
        ChangeDataRate(i);
      case StopSendNew =>
        StopSendNew();
    }
  }

  /** After cancelling the handle of the only send that can be pending, no send is pending. */
  lemma NoSendAfterCancel(pending: seq<Event<Action>>, h: nat)
    requires forall k :: 0 <= k < |pending| && pending[k].action.SendPacket? ==> pending[k].handle == h
    ensures SendCount(Cancelled(pending, h)) == 0
  {
    var r := Cancelled(pending, h);
    forall k | 0 <= k < |r|
      ensures !Picked(Sends, r[k].action)
    {
      var j :| 0 <= j < |pending| && pending[j] == r[k];
    }
  }

  /**
   * A rate list whose first rate is zero: StartApplication sends the first
   * packet, and the ScheduleTx that follows runs with the source running at
   * rate zero, where the delay the source computes is no time at all. The
   * model's ScheduleTx schedules nothing there, as ChangeDataRate does for a
   * zero rate: the source is paused until the next rate change.
   */
  method ZeroFirstRateStart() returns (app: MySource, delay: Option<real>)
    ensures app.Valid() && app.running && app.currentRate == 0
    ensures delay == TxDelayAsWritten(app.packetSize, app.currentRate) && delay.None?
    ensures app.packetsSent == 1 && SendCount(app.sim.pending) == 0
    ensures app.sim.pending == RateSchedule([1.0, 2.0], 1, 0.0)
  {
    app := new MySource();
    app.Setup(InetSocketAddress(Ipv4Address(1, 1), 8080), 1440, [0, 10000000], 0, "tmp_index", [1.0, 2.0]);
    app.StartApplication();
    delay := TxDelayAsWritten(app.packetSize, app.currentRate);
  }
}
