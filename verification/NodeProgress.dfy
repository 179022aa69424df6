/** That a node gets somewhere: what each kind of iteration leads to, in milliseconds,
    and when a run reaches Online. */
module NodeProgress {
  import opened OrderedMap
  import opened Nodes
  import opened NodeTrace
  import opened NodeTiming

  // --------------------------------------------------------------- iterations

  /** An idle node waits for its connection exactly after an iteration past the timer, in
      service, with its host, in which create and connect succeed. */
  lemma IdleIteration(s: NodeState, e: Input)
    requires s.phase == Idle
    ensures var r := Iterated(s, e);
            var due := s.timer <= e.now && e.inService && e.hostReady;
            && r.devices == s.devices && r.seqNo == s.seqNo
            && (r.phase == WaitOnConnect <==> due && e.createOk && e.connectOk)
            && (r.phase != WaitOnConnect ==> r.phase == Idle)
            && r.timer == (if !due then s.timer else if e.createOk && e.connectOk then e.now + 5_000 else e.now + 10_000)
            && r.log == s.log + (if !due then [] else if e.createOk then [Attempt(e.now), Will(0)] else [Attempt(e.now)])
  {
    assert s.log + [] == s.log;
    assert s.log + [Attempt(e.now)] + [Will(0)] == s.log + [Attempt(e.now), Will(0)];
  }

  /** A waiting node is online exactly after an iteration that sees the connection at the
      second look, without having given up at the first; it gives up past its timer. */
  lemma WaitingIteration(s: NodeState, e: Input)
    requires s.phase == WaitOnConnect
    ensures var r := Iterated(s, e);
            var givesUp := s.timer <= e.now && !e.connected;
            && (r.phase == Online <==> !givesUp && e.stillConnected)
            && (r.phase == Idle <==> givesUp) && (givesUp ==> r == s.(phase := Idle, timer := e.now + 10_000))
            && (!givesUp && !e.stillConnected ==> r == s)
            && (r.phase == Online ==>
                  |s.log| < |r.log| && r.log[|s.log|] == NBirth(if e.publishConnected then Some(s.seqNo) else None))
  {
    var entry := NBirth(Number(s, e.publishConnected));
    var born := Published(s, e.publishConnected, entry).(phase := Online);
    PolledAllPhase(born, e, |s.devices|);
    PolledInOrder(born, e, |s.devices|);
    assert born.log[|s.log|] == entry;
  }

  predicate OfDevice(entry: LogEntry, n: nat) {
    (entry.DBirth? || entry.DDeath?) && entry.device < n
  }

  lemma PollAppends(s: NodeState, d: nat, p: PollInput)
    requires d < |s.devices|
    ensures var n, r := |s.log|, Polled(s, d, p);
            || r.log == s.log
            || (|r.log| == n + 1 && r.log[..n] == s.log && OfDevice(r.log[n], d + 1) && r.log[n].device == d)
  {
  }

  /** Devices are polled in the order of their map: what they publish in one round comes in
      that order, at most one message each. */
  lemma {:induction false} PolledInOrder(s: NodeState, e: Input, n: nat)
    requires n <= |s.devices|
    ensures var r := PolledAll(s, e, n);
            && s.log <= r.log
            && (forall i :: |s.log| <= i < |r.log| ==> OfDevice(r.log[i], n))
            && (forall i, j :: |s.log| <= i < j < |r.log| ==> r.log[i].device < r.log[j].device)
  {
    if n > 0 {
      PolledInOrder(s, e, n - 1);
      var before, after := PolledAll(s, e, n - 1).log, PolledAll(s, e, n).log;
      PollAppends(PolledAll(s, e, n - 1), n - 1, PollOf(e, n - 1));
      assert forall i :: |s.log| <= i < |before| ==> after[i] == before[i] && OfDevice(before[i], n - 1);
    }
  }

  /** An iteration that finds an online node stopped, out of service or without its host
      ends with NDEATH and five seconds to wait. */
  lemma LeavingIteration(s: NodeState, e: Input)
    requires s.phase == Online
    ensures var r := Iterated(s, e);
            var leaves := e.stop || !e.inService || !e.hostReady;
            && r.phase == (if leaves then WaitOnDisconnect else Online)
            && r.timer == (if leaves then e.now + 5_000 else s.timer)
            && (leaves ==> r.log != [] && r.log[|r.log| - 1].NDeath?)
  {
    PolledAllPhase(s, e, |s.devices|);
  }

  lemma DisconnectingIteration(s: NodeState, e: Input)
    requires s.phase == WaitOnDisconnect
    ensures Iterated(s, e) == if e.delivered || s.timer <= e.now then s.(phase := Idle, timer := e.now + 10_000) else s
  {
  }

  // ------------------------------------------------------------------ sessions

  predicate Untried(ev: Event) {
    ev.Iterate? ==> !(ev.e.inService && ev.e.hostReady)
  }

  predicate Starts(ev: Event) {
    ev.Iterate? && ev.e.inService && ev.e.hostReady && ev.e.createOk && ev.e.connectOk
  }

  predicate GivesUp(e: Input, timer: nat) {
    timer <= e.now && !e.connected
  }

  /** Neither given up nor connected. */
  predicate Waits(ev: Event, timer: nat) {
    ev.Iterate? ==> !GivesUp(ev.e, timer) && !ev.e.stillConnected
  }

  lemma OneMoreEvent(s: NodeState, events: seq<Event>, k: nat)
    requires k < |events|
    ensures Run(s, events[..k + 1]) == Stepped(Run(s, events[..k]), events[k])
  {
    assert events[..k + 1][..k] == events[..k];
  }

  lemma {:induction false} StillUntried(seqNo: u8, devices: seq<DevicePhase>, events: seq<Event>, k: nat)
    requires k <= |events| && forall j :: 0 <= j < k ==> Untried(events[j])
    ensures var r := Run(Launched(seqNo, devices), events[..k]); r.phase == Idle && r.timer == 0
  {
    if k > 0 {
      StillUntried(seqNo, devices, events, k - 1);
      OneMoreEvent(Launched(seqNo, devices), events, k - 1);
    }
  }

  lemma WaitingOn(s: NodeState, ev: Event)
    requires s.phase == WaitOnConnect && Waits(ev, s.timer)
    ensures Stepped(s, ev).phase == WaitOnConnect && Stepped(s, ev).timer == s.timer
  {
    if ev.Iterate? { WaitingIteration(s, ev.e); }
  }

  lemma {:induction false} StillWaiting(seqNo: u8, devices: seq<DevicePhase>, events: seq<Event>, i: nat, k: nat)
    requires i < k <= |events| && Starts(events[i])
    requires forall j :: 0 <= j < i ==> Untried(events[j])
    requires forall j :: i < j < k ==> Waits(events[j], events[i].e.now + 5_000)
    ensures var r := Run(Launched(seqNo, devices), events[..k]);
            r.phase == WaitOnConnect && r.timer == events[i].e.now + 5_000
  {
    var s := Launched(seqNo, devices);
    if k == i + 1 {
      StillUntried(seqNo, devices, events, i);
      IdleIteration(Run(s, events[..i]), events[i].e);
    } else {
      StillWaiting(seqNo, devices, events, i, k - 1);
      WaitingOn(Run(s, events[..k - 1]), events[k - 1]);
    }
    OneMoreEvent(s, events, k - 1);
  }

  /** From the start of its loop: when the first iteration that is wanted starts a
      connect, and those up to number j neither give up nor see the connection, then
      iteration j brings the node online exactly if it sees the connection in time. */
  lemma ReachesOnline(seqNo: u8, devices: seq<DevicePhase>, events: seq<Event>, i: nat, j: nat)
    requires i < j < |events| && Starts(events[i]) && events[j].Iterate?
    requires forall k :: 0 <= k < i ==> Untried(events[k])
    requires forall k :: i < k < j ==> Waits(events[k], events[i].e.now + 5_000)
    ensures var r := Run(Launched(seqNo, devices), events[..j + 1]);
            r.phase == Online <==> events[j].e.stillConnected && !GivesUp(events[j].e, events[i].e.now + 5_000)
  {
    StillWaiting(seqNo, devices, events, i, j);
    OneMoreEvent(Launched(seqNo, devices), events, j);
    WaitingIteration(Run(Launched(seqNo, devices), events[..j]), events[j].e);
  }

  /** And no run gets there without: some iteration has started a connect and a later
      one has seen the connection. */
  ghost predicate Connected(events: seq<Event>) {
    exists i, j :: 0 <= i < j < |events| && Starts(events[i]) && events[j].Iterate? && events[j].e.stillConnected
  }

  ghost predicate Started(events: seq<Event>) {
    exists i :: 0 <= i < |events| && Starts(events[i])
  }

  lemma {:induction false} OnlineNeedsConnection(seqNo: u8, devices: seq<DevicePhase>, events: seq<Event>)
    ensures var p := Run(Launched(seqNo, devices), events).phase;
            (p != Idle ==> Started(events)) && (p == Online || p == WaitOnDisconnect ==> Connected(events))
  {
    if events != [] {
      var n := |events| - 1;
      var front, last := events[..n], events[n];
      OnlineNeedsConnection(seqNo, devices, front);
      var s := Run(Launched(seqNo, devices), front);
      if Started(front) {
        var i :| 0 <= i < n && Starts(front[i]);
        assert Starts(events[i]);
      }
      if Connected(front) {
        var i, j :| 0 <= i < j < n && Starts(front[i]) && front[j].Iterate? && front[j].e.stillConnected;
        assert Starts(events[i]) && events[j].Iterate? && events[j].e.stillConnected;
      }
      if last.Iterate? {
        match s.phase {
          case Idle => IdleIteration(s, last.e);
          case WaitOnConnect =>
            WaitingIteration(s, last.e);
            var i :| 0 <= i < n && Starts(front[i]);
            assert Starts(events[i]);
          case Online => LeavingIteration(s, last.e);
          case WaitOnDisconnect => DisconnectingIteration(s, last.e);
        }
      }
    }
  }

  // ------------------------------------------------------------------ devices

  /** A device that was started is born at its second poll in an online node. */
  lemma BornAtSecondPoll(s: NodeState, d: nat, p: PollInput, q: PollInput)
    requires s.phase == Online && d < |s.devices|
    ensures var started := Stepped(s, StartDevice(d));
            var r := Polled(Polled(started, d, p), d, q);
            && r.devices[d] == DeviceOnline
            && r.log == s.log + [DeviceStarted(d), DBirth(d, if q.connected then Some(s.seqNo) else None)]
  {
  }

  /** A device that is stopped while it and its node are online publishes a DDEATH, and
      goes on as an online device: in service, its next poll publishes nothing. */
  lemma StoppedStaysOnline(s: NodeState, d: nat, connected: bool, p: PollInput)
    requires d < |s.devices| && s.phase == Online && s.devices[d] == DeviceOnline
    requires p.inService && p.nodeInService
    ensures var r := Stepped(s, StopDevice(d, connected));
            && r.log == s.log + [DDeath(d, if connected then Some(s.seqNo) else None), DeviceStopped(d)]
            && r.devices == s.devices && Polled(r, d, p) == r
  {
  }

  /** Any other device publishes nothing when it is stopped. */
  lemma StoppedQuietly(s: NodeState, d: nat, connected: bool)
    requires d < |s.devices| && (s.phase != Online || s.devices[d] != DeviceOnline)
    ensures Stepped(s, StopDevice(d, connected)) == s.(log := s.log + [DeviceStopped(d)])
  {
  }
}
