/** Times of a node: how often it tries to connect, how it goes down when it is
    taken out of service, and what its devices do meanwhile. */
module NodeTiming {
  import opened OrderedMap
  import opened Nodes
  import opened NodeTrace
  import opened Timing

  /** The time of the last iteration, or t. */
  function LastTime(t: nat, events: seq<Event>): nat {
    if events == [] then t
    else
      match events[|events| - 1]
      case Iterate(e) => e.now
      case _ => LastTime(t, events[..|events| - 1])
  }

  /** The clock does not run backwards. */
  predicate ClockForward(t: nat, events: seq<Event>) {
    events == [] ||
    var front, last := events[..|events| - 1], events[|events| - 1];
    ClockForward(t, front) && (last.Iterate? ==> LastTime(t, front) <= last.e.now)
  }

  // -------------------------------------------------------- connect attempts

  ghost predicate RateInv(s: NodeState, t: nat) {
    var a := Attempts(s.log);
    && Spaced(a)
    && (a != [] ==> a[|a| - 1] <= t && (s.phase == Idle ==> a[|a| - 1] + RETRY_MS <= s.timer))
  }

  lemma {:induction false} AttemptsPrefix(log: Log, entry: LogEntry, n: nat)
    requires n <= |log|
    ensures AttemptsUpTo(log + [entry], n) == AttemptsUpTo(log, n)
  {
    if n > 0 { AttemptsPrefix(log, entry, n - 1); }
  }

  lemma AttemptsAppend(log: Log, entry: LogEntry)
    ensures Attempts(log + [entry]) == if entry.Attempt? then Attempts(log) + [entry.at] else Attempts(log)
  {
    AttemptsPrefix(log, entry, |log|);
  }

  lemma PolledAttempts(s: NodeState, d: nat, p: PollInput)
    requires d < |s.devices|
    ensures Attempts(Polled(s, d, p).log) == Attempts(s.log)
  {
    AttemptsAppend(s.log, DDeath(d, Number(s, p.connected)));
    AttemptsAppend(s.log, DBirth(d, Number(s, p.connected)));
  }

  lemma {:induction false} PolledAllAttempts(s: NodeState, e: Input, n: nat)
    requires n <= |s.devices|
    ensures Attempts(PolledAll(s, e, n).log) == Attempts(s.log)
  {
    if n > 0 {
      var t := PolledAll(s, e, n - 1);
      assert PolledAll(s, e, n) == Polled(t, n - 1, PollOf(e, n - 1));
      PolledAllAttempts(s, e, n - 1);
      PolledAttempts(t, n - 1, PollOf(e, n - 1));
    }
  }

  /** Polling devices leaves the node's own phase and timer alone. */
  lemma {:induction false} PolledAllPhase(s: NodeState, e: Input, n: nat)
    requires n <= |s.devices|
    ensures PolledAll(s, e, n).phase == s.phase && PolledAll(s, e, n).timer == s.timer
  {
    if n > 0 { PolledAllPhase(s, e, n - 1); }
  }

  predicate Tries(s: NodeState, ev: Event) {
    ev.Iterate? && s.phase == Idle && s.timer <= ev.e.now && ev.e.inService && ev.e.hostReady
  }

  lemma OnlineAttempts(s: NodeState, e: Input)
    requires s.phase == Online || s.phase == WaitOnConnect
    ensures Attempts(Iterated(s, e).log) == Attempts(s.log)
  {
    var entry := NBirth(Number(s, e.publishConnected));
    var born := Published(s, e.publishConnected, entry).(phase := Online);
    if s.phase == WaitOnConnect {
      AttemptsAppend(s.log, entry);
      PolledAllAttempts(born, e, |s.devices|);
    } else {
      PolledAllAttempts(s, e, |s.devices|);
      var p := PolledAll(s, e, |s.devices|);
      AttemptsAppend(p.log, NDeath(Number(p, e.publishConnected)));
    }
  }

  lemma IdleAttempts(s: NodeState, e: Input)
    requires s.phase == Idle
    ensures Attempts(Iterated(s, e).log) == Attempts(s.log) + if Tries(s, Iterate(e)) then [e.now] else []
  {
    AttemptsAppend(s.log, Attempt(e.now));
    AttemptsAppend(s.log + [Attempt(e.now)], Will(0));
  }

  lemma DeviceAttempts(s: NodeState, ev: Event)
    requires !ev.Iterate?
    ensures Attempts(Stepped(s, ev).log) == Attempts(s.log)
  {
    if ev.StartDevice? {
      AttemptsAppend(s.log, DeviceStarted(ev.device));
    } else {
      var entry := DDeath(ev.device, Number(s, ev.connected));
      AttemptsAppend(s.log, DeviceStopped(ev.device));
      AttemptsAppend(s.log, entry);
      AttemptsAppend(s.log + [entry], DeviceStopped(ev.device));
    }
  }

  /** Exactly an idle node whose timer has run out, in service and with its host,
      makes an attempt. */
  lemma SteppedAttempts(s: NodeState, ev: Event)
    ensures Attempts(Stepped(s, ev).log) == Attempts(s.log) + if Tries(s, ev) then [ev.e.now] else []
  {
    if !ev.Iterate? {
      DeviceAttempts(s, ev);
    } else if s.phase == Idle {
      IdleAttempts(s, ev.e);
    } else if s.phase != WaitOnDisconnect {
      OnlineAttempts(s, ev.e);
    }
  }

  /** How one step moves phase and timer. */
  lemma SteppedPhase(s: NodeState, ev: Event)
    ensures var r := Stepped(s, ev);
            r.phase == Idle ==>
            || (s.phase == Idle && r.timer == s.timer && !Tries(s, ev))
            || (ev.Iterate? && r.timer == ev.e.now + RETRY_MS)
  {
    if ev.Iterate? {
      var e := ev.e;
      PolledAllPhase(s, e, |s.devices|);
      PolledAllPhase(Published(s, e.publishConnected, NBirth(Number(s, e.publishConnected))).(phase := Online), e, |s.devices|);
    }
  }

  lemma SteppedRate(s: NodeState, t: nat, ev: Event)
    requires RateInv(s, t) && (ev.Iterate? ==> t <= ev.e.now)
    ensures RateInv(Stepped(s, ev), if ev.Iterate? then ev.e.now else t)
  {
    SteppedAttempts(s, ev);
    SteppedPhase(s, ev);
  }

  /** In every run on a forward clock consecutive connect attempts are at least ten
      seconds apart, through every failure, timeout and disconnect. */
  lemma {:induction false} AttemptsSpaced(seqNo: u8, devices: seq<DevicePhase>, events: seq<Event>)
    requires ClockForward(0, events)
    ensures RateInv(Run(Launched(seqNo, devices), events), LastTime(0, events))
  {
    if events != [] {
      var front := events[..|events| - 1];
      AttemptsSpaced(seqNo, devices, front);
      SteppedRate(Run(Launched(seqNo, devices), front), LastTime(0, front), events[|events| - 1]);
    }
  }

  // --------------------------------------------------------- bounded shutdown

  /** A waiting node has set its timer at most five seconds ahead. */
  predicate TimerBound(s: NodeState, t: nat) {
    s.phase == WaitOnConnect || s.phase == WaitOnDisconnect ==> s.timer <= t + WAIT_MS
  }

  lemma SteppedTimer(s: NodeState, t: nat, ev: Event)
    requires TimerBound(s, t) && (ev.Iterate? ==> t <= ev.e.now)
    ensures TimerBound(Stepped(s, ev), if ev.Iterate? then ev.e.now else t)
  {
    if ev.Iterate? {
      var e := ev.e;
      PolledAllPhase(s, e, |s.devices|);
      PolledAllPhase(Published(s, e.publishConnected, NBirth(Number(s, e.publishConnected))).(phase := Online), e, |s.devices|);
    }
  }

  /** Every reachable state satisfies the bound. */
  lemma {:induction false} TimerBoundReached(seqNo: u8, devices: seq<DevicePhase>, events: seq<Event>)
    requires ClockForward(0, events)
    ensures TimerBound(Run(Launched(seqNo, devices), events), LastTime(0, events))
  {
    if events != [] {
      var front := events[..|events| - 1];
      TimerBoundReached(seqNo, devices, front);
      SteppedTimer(Run(Launched(seqNo, devices), front), LastTime(0, front), events[|events| - 1]);
    }
  }

  /** A connection that is there at the first look and gone at the second. */
  predicate Drops(e: Input) {
    e.connected && !e.stillConnected
  }

  /** The last iteration, if any, has seen the connection go. */
  predicate JustDropped(events: seq<Event>) {
    events != [] &&
    match events[|events| - 1]
    case Iterate(e) => Drops(e)
    case _ => JustDropped(events[..|events| - 1])
  }

  /** Out of service for good and polled at most g ms apart.  The connection may go
      at any moment; one that an iteration has seen go is not back at the next, for
      the library switches automatic reconnects off and connects from Idle only. */
  predicate GoingDown(t: nat, g: nat, events: seq<Event>) {
    events == [] ||
    var front, last := events[..|events| - 1], events[|events| - 1];
    && GoingDown(t, g, front)
    && (last.Iterate? ==>
          && !last.e.inService && (JustDropped(front) ==> !last.e.connected)
          && LastTime(t, front) <= last.e.now <= LastTime(t, front) + g)
  }

  /** A time by which a node that was in this state at time t will be idle. */
  function Deadline(s: NodeState, t: nat, g: nat, dropped: bool): nat {
    var late := if s.timer > t then s.timer else t;
    match s.phase
    case Idle => t
    case WaitOnDisconnect => late + g
    case Online => t + WAIT_MS + 2 * g
    case WaitOnConnect => if dropped && s.timer <= t then t + g else late + WAIT_MS + 3 * g
  }

  /** The measure: iterations do not move the deadline, until the node is idle. */
  lemma IteratedDeadline(s: NodeState, t: nat, g: nat, dropped: bool, e: Input)
    requires !e.inService && (dropped ==> !e.connected) && t <= e.now <= t + g
    ensures var r := Iterated(s, e);
            if s.phase == Idle then r == s
            else if r.phase == Idle then true
            else Deadline(r, e.now, g, Drops(e)) <= Deadline(s, t, g, dropped)
                 && (g > 0 ==> e.now < Deadline(r, e.now, g, Drops(e)))
  {
    PolledAllPhase(s, e, |s.devices|);
    PolledAllPhase(Published(s, e.publishConnected, NBirth(Number(s, e.publishConnected))).(phase := Online), e, |s.devices|);
  }

  lemma {:induction false} DeadlineKept(s: NodeState, t: nat, g: nat, events: seq<Event>)
    requires GoingDown(t, g, events)
    ensures var r, u := Run(s, events), LastTime(t, events);
            r.phase != Idle ==>
              && Deadline(r, u, g, JustDropped(events)) <= Deadline(s, t, g, false)
              && (u > t ==> g > 0 && u < Deadline(r, u, g, JustDropped(events)))
    ensures s.phase == Idle ==> Run(s, events).phase == Idle
  {
    if events != [] {
      var front, last := events[..|events| - 1], events[|events| - 1];
      DeadlineKept(s, t, g, front);
      if last.Iterate? {
        IteratedDeadline(Run(s, front), LastTime(t, front), g, JustDropped(front), last.e);
      }
    }
  }

  /** From any state that respects the timer bound the node is idle after ten
      seconds and three poll intervals, and stays idle. */
  lemma BoundedShutdown(s: NodeState, t: nat, g: nat, events: seq<Event>)
    requires TimerBound(s, t) && GoingDown(t, g, events)
    ensures LastTime(t, events) >= t + 10_000 + 3 * g ==> Run(s, events).phase == Idle
    ensures s.phase == Idle ==> Run(s, events).phase == Idle
  {
    DeadlineKept(s, t, g, events);
  }

  /** The number of NBIRTH attempts. */
  function Births(log: Log): nat {
    if log == [] then 0 else Births(log[..|log| - 1]) + if log[|log| - 1].NBirth? then 1 else 0
  }

  lemma BirthsAppend(log: Log, entry: LogEntry)
    ensures Births(log + [entry]) == Births(log) + if entry.NBirth? then 1 else 0
  {
    assert (log + [entry])[..|log|] == log;
  }

  lemma {:induction false} PolledAllBirths(s: NodeState, e: Input, n: nat)
    requires n <= |s.devices|
    ensures Births(PolledAll(s, e, n).log) == Births(s.log)
  {
    if n > 0 {
      PolledAllBirths(s, e, n - 1);
      var t := PolledAll(s, e, n - 1);
      var p := PollOf(e, n - 1);
      BirthsAppend(t.log, DDeath(n - 1, Number(t, p.connected)));
      BirthsAppend(t.log, DBirth(n - 1, Number(t, p.connected)));
    }
  }

  /** NBIRTH attempts made, plus the one a waiting node may still make. */
  function BirthBudget(s: NodeState): nat {
    Births(s.log) + if s.phase == WaitOnConnect then 1 else 0
  }

  lemma SteppedBudget(s: NodeState, ev: Event)
    requires ev.Iterate? ==> !ev.e.inService
    ensures BirthBudget(Stepped(s, ev)) <= BirthBudget(s)
  {
    match ev {
      case Iterate(e) =>
        var entry := NBirth(Number(s, e.publishConnected));
        var born := Published(s, e.publishConnected, entry).(phase := Online);
        BirthsAppend(s.log, entry);
        PolledAllBirths(born, e, |s.devices|);
        PolledAllPhase(born, e, |s.devices|);
        PolledAllBirths(s, e, |s.devices|);
        var p := PolledAll(s, e, |s.devices|);
        BirthsAppend(p.log, NDeath(Number(p, e.publishConnected)));
      case StartDevice(d) => BirthsAppend(s.log, DeviceStarted(d));
      case StopDevice(d, connected) =>
        var entry := DDeath(d, Number(s, connected));
        BirthsAppend(s.log, DeviceStopped(d));
        BirthsAppend(s.log, entry);
        BirthsAppend(s.log + [entry], DeviceStopped(d));
    }
  }

  /** On the way down the node attempts at most one more NBIRTH, and none unless it
      was waiting for its connection. */
  lemma {:induction false} AtMostOneMoreBirth(s: NodeState, events: seq<Event>)
    requires forall k :: 0 <= k < |events| && events[k].Iterate? ==> !events[k].e.inService
    ensures Births(Run(s, events).log) <= Births(s.log) + if s.phase == WaitOnConnect then 1 else 0
    ensures BirthBudget(Run(s, events)) <= BirthBudget(s)
  {
    if events != [] {
      AtMostOneMoreBirth(s, events[..|events| - 1]);
      SteppedBudget(Run(s, events[..|events| - 1]), events[|events| - 1]);
    }
  }

  /** One event past the timer, out of service. */
  lemma WaitingStep(s: NodeState, ev: Event)
    requires ev.Iterate? ==> !ev.e.inService
    requires s.phase == WaitOnConnect && ev.Iterate? ==> s.timer <= ev.e.now
    ensures Stepped(s, ev).phase == WaitOnConnect <==> s.phase == WaitOnConnect && (ev.Iterate? ==> Drops(ev.e))
    ensures Stepped(s, ev).phase == WaitOnConnect ==> Stepped(s, ev).timer == s.timer
  {
    if ev.Iterate? {
      var e := ev.e;
      PolledAllPhase(s, e, |s.devices|);
      PolledAllPhase(Published(s, e.publishConnected, NBirth(Number(s, e.publishConnected))).(phase := Online), e, |s.devices|);
    }
  }

  /** Should the connection come back by itself, the bound would not hold: past its
      timer a node that was waiting for its connection goes on waiting exactly as long
      as every iteration sees the connection go. */
  lemma {:induction false} WaitsWhileConnectionDrops(s: NodeState, events: seq<Event>)
    requires s.phase == WaitOnConnect
    requires forall k :: 0 <= k < |events| && events[k].Iterate? ==> !events[k].e.inService && s.timer <= events[k].e.now
    ensures Run(s, events).phase == WaitOnConnect <==>
            forall k :: 0 <= k < |events| && events[k].Iterate? ==> Drops(events[k].e)
    ensures Run(s, events).phase == WaitOnConnect ==> Run(s, events).timer == s.timer
  {
    if events != [] {
      var front, last := events[..|events| - 1], events[|events| - 1];
      assert forall k :: 0 <= k < |front| ==> front[k] == events[k];
      WaitsWhileConnectionDrops(s, front);
      WaitingStep(Run(s, front), last);
    }
  }

  /** A node that is online never looks at its connection: as long as it is wanted it
      stays online and makes no connect attempt, even when the connection is lost. */
  lemma {:induction false} NoReconnect(s: NodeState, events: seq<Event>)
    requires s.phase == Online
    requires forall k :: 0 <= k < |events| && events[k].Iterate? ==> !Leaves(events[k].e)
    ensures Run(s, events).phase == Online && Attempts(Run(s, events).log) == Attempts(s.log)
  {
    if events != [] {
      var front, last := events[..|events| - 1], events[|events| - 1];
      NoReconnect(s, front);
      SteppedAttempts(Run(s, front), last);
      if last.Iterate? { PolledAllPhase(Run(s, front), last.e, |Run(s, front).devices|); }
    }
  }

  lemma LeavingStep(s: NodeState, e: Input)
    requires s.phase == Online
    ensures Iterated(s, e).phase == Online <==> !Leaves(e)
  {
    PolledAllPhase(s, e, |s.devices|);
  }

  /** It is online all along if and only if every iteration finds it wanted. */
  lemma OnlineThroughout(s: NodeState, events: seq<Event>)
    requires s.phase == Online
    ensures (forall k :: 0 <= k <= |events| ==> Run(s, events[..k]).phase == Online) <==>
            (forall k :: 0 <= k < |events| && events[k].Iterate? ==>
               !events[k].e.stop && events[k].e.inService && events[k].e.hostReady)
  {
    if forall k :: 0 <= k < |events| && events[k].Iterate? ==> !Leaves(events[k].e) {
      forall k | 0 <= k <= |events| ensures Run(s, events[..k]).phase == Online {
        NoReconnect(s, events[..k]);
      }
    }
    if forall k :: 0 <= k <= |events| ==> Run(s, events[..k]).phase == Online {
      forall k | 0 <= k < |events| && events[k].Iterate? ensures !Leaves(events[k].e) {
        assert events[..k + 1][..k] == events[..k];
        assert Run(s, events[..k + 1]).phase == Online;
        LeavingStep(Run(s, events[..k]), events[k].e);
      }
    }
  }

  // ------------------------------------------------------------------ devices

  function PhaseAfterPoll(phase: DevicePhase, online: bool, p: PollInput): DevicePhase {
    match phase
    case DeviceOnline => if !p.inService || !online || !p.nodeInService then DeviceOffline else DeviceOnline
    case DeviceOffline => if p.inService || online then DeviceOnline else DeviceOffline
    case DeviceIdle => DeviceOffline
  }

  lemma {:induction false} PolledAllDevice(s: NodeState, e: Input, n: nat, d: nat)
    requires n <= |s.devices| && d < |s.devices|
    ensures PolledAll(s, e, n).devices[d] ==
            if d < n then PhaseAfterPoll(s.devices[d], s.phase == Online, PollOf(e, d)) else s.devices[d]
  {
    if n > 0 {
      PolledAllDevice(s, e, n - 1, d);
      PolledAllPhase(s, e, n - 1);
    }
  }

  /** The iteration in which the node leaves its session does not take every device
      down: one that was online stays so exactly when its poll still sees both itself
      and the node in service, as when only the host is gone; one that was offline
      is born. */
  lemma DevicesAfterLeaving(s: NodeState, e: Input, d: nat)
    requires s.phase == Online && Leaves(e) && d < |s.devices|
    ensures var p := PollOf(e, d);
            Iterated(s, e).devices[d] == DeviceOnline <==>
            s.devices[d] == DeviceOffline || (s.devices[d] == DeviceOnline && p.inService && p.nodeInService)
  {
    PolledAllDevice(s, e, |s.devices|, d);
  }

  predicate IsBirthOf(entry: LogEntry, d: nat) {
    entry.DBirth? && entry.device == d
  }

  /** A DBIRTH attempt for device d at or behind a position of the log. */
  ghost predicate BornSince(log: Log, from: nat, d: nat) {
    exists i :: from <= i < |log| && IsBirthOf(log[i], d)
  }

  lemma BornAppend(log: Log, entry: LogEntry, from: nat, d: nat)
    requires from <= |log|
    ensures BornSince(log + [entry], from, d) <==> BornSince(log, from, d) || IsBirthOf(entry, d)
  {
    var r := log + [entry];
    assert r[|log|] == entry;
    if i :| from <= i < |log| && IsBirthOf(log[i], d) { assert IsBirthOf(r[i], d); }
  }

  lemma PolledBirth(s: NodeState, x: nat, p: PollInput, from: nat, d: nat)
    requires x < |s.devices| && s.phase == Online && from <= |s.log|
    ensures var r := Polled(s, x, p);
            && from <= |r.log|
            && (BornSince(r.log, from, d) <==> BornSince(s.log, from, d) || (x == d && s.devices[d] == DeviceOffline))
  {
    BornAppend(s.log, DDeath(x, Number(s, p.connected)), from, d);
    BornAppend(s.log, DBirth(x, Number(s, p.connected)), from, d);
  }

  lemma {:induction false} PolledAllBirth(s: NodeState, e: Input, n: nat, from: nat, d: nat)
    requires n <= |s.devices| && d < |s.devices| && s.phase == Online && from <= |s.log|
    ensures var r := PolledAll(s, e, n);
            && from <= |r.log|
            && (BornSince(r.log, from, d) <==> BornSince(s.log, from, d) || (d < n && s.devices[d] == DeviceOffline))
  {
    if n > 0 {
      PolledAllBirth(s, e, n - 1, from, d);
      PolledAllPhase(s, e, n - 1);
      PolledAllDevice(s, e, n - 1, d);
      PolledBirth(PolledAll(s, e, n - 1), n - 1, PollOf(e, n - 1), from, d);
    }
  }

  /** The iteration in which a session begins attempts a DBIRTH for exactly the devices
      that were offline: none for a device that had stayed online. */
  lemma BirthsAtSessionStart(s: NodeState, e: Input, d: nat)
    requires s.phase == WaitOnConnect && ConnectStep(s, e).phase == Online && d < |s.devices|
    ensures BornSince(ConnectStep(s, e).log, |s.log|, d) <==> s.devices[d] == DeviceOffline
  {
    var entry := NBirth(Number(s, e.publishConnected));
    var born := Published(s, e.publishConnected, entry).(phase := Online);
    BornAppend(s.log, entry, |s.log|, d);
    PolledAllBirth(born, e, |s.devices|, |s.log|, d);
  }

  /** Polls of one device while the node is online. */
  function PolledOften(s: NodeState, d: nat, polls: seq<PollInput>): (r: NodeState)
    requires d < |s.devices|
    ensures |r.devices| == |s.devices|
  {
    if polls == [] then s else Polled(PolledOften(s, d, polls[..|polls| - 1]), d, polls[|polls| - 1])
  }

  /** The guard for a birth is in service OR node online.  A device that starts online
      in an online node therefore publishes a death or a birth at every poll exactly if
      every second poll, from the first, finds itself or the node out of service: what
      the polls in between find does not matter. */
  lemma {:induction false} OutOfServiceDeviceFlaps(s: NodeState, d: nat, polls: seq<PollInput>)
    requires d < |s.devices| && s.phase == Online && s.devices[d] == DeviceOnline
    ensures var r := PolledOften(s, d, polls);
            var flaps := forall k :: 0 <= k < |polls| && k % 2 == 0 ==> !polls[k].inService || !polls[k].nodeInService;
            && r.phase == Online && r.devices[d] != DeviceIdle && |r.log| <= |s.log| + |polls|
            && (|r.log| == |s.log| + |polls| <==> flaps)
            && (flaps ==> (r.devices[d] == DeviceOnline <==> |polls| % 2 == 0))
  {
    if polls != [] {
      var front := polls[..|polls| - 1];
      assert forall k :: 0 <= k < |front| ==> front[k] == polls[k];
      OutOfServiceDeviceFlaps(s, d, front);
    }
  }
}
