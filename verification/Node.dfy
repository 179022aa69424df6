/** A Sparkplug node with its devices: one iteration of the worker loop is one
    step, driven by what it reads from its surroundings, and every publication
    attempt, connect attempt and device command is logged. */
module Nodes {
  import opened OrderedMap
  import opened Timing

  type u8 = n: int | 0 <= n < 256

  datatype Phase = Idle | WaitOnConnect | Online | WaitOnDisconnect

  datatype DevicePhase = DeviceIdle | DeviceOffline | DeviceOnline

  /** `sent` is the sequence number of the message, or None when the client was not
      connected and nothing was handed to `DoPublish`. */
  datatype LogEntry =
    | Attempt(at: nat)
    | Will(seqNo: nat)
    | NBirth(sent: Option<nat>)
    | NDeath(sent: Option<nat>)
    | DBirth(device: nat, sent: Option<nat>)
    | DDeath(device: nat, sent: Option<nat>)
    | DeviceStarted(device: nat)
    | DeviceStopped(device: nat)

  /** What `SparkplugDevice::Poll` reads. */
  datatype PollInput = PollInput(inService: bool, nodeInService: bool, connected: bool)

  /** What one iteration of `NodeTask` reads.  The connection is looked at more
      than once and may change in between. */
  datatype Input = Input(
    now: nat,
    stop: bool,
    inService: bool,
    hostReady: bool,          // not waiting for a host, or a host is online
    createOk: bool,
    connectOk: bool,
    connected: bool,          // the look that goes with the timeout
    stillConnected: bool,     // the look behind it
    publishConnected: bool,   // the look in PublishNodeBirth / PublishNodeDeath
    delivered: bool,
    polls: seq<PollInput>)

  function PollOf(e: Input, d: nat): PollInput {
    if d < |e.polls| then e.polls[d] else PollInput(false, false, false)
  }

  datatype NodeState = NodeState(phase: Phase, timer: nat, seqNo: u8, devices: seq<DevicePhase>, log: seq<LogEntry>)

  datatype Event =
    | Iterate(e: Input)
    | StartDevice(device: nat)
    | StopDevice(device: nat, connected: bool)

  // --------------------------------------------------------- specified steps

  function Logged(s: NodeState, entry: LogEntry): NodeState {
    s.(log := s.log + [entry])
  }

  function Number(s: NodeState, connected: bool): Option<nat> {
    if connected then Some(s.seqNo) else None
  }

  /** A publication attempt: a message that is handed over uses up a number. */
  function Published(s: NodeState, connected: bool, entry: LogEntry): NodeState {
    s.(log := s.log + [entry], seqNo := if connected then (s.seqNo + 1) % 256 else s.seqNo)
  }

  function Polled(s: NodeState, d: nat, p: PollInput): NodeState
    requires d < |s.devices|
  {
    match s.devices[d]
    case DeviceOnline =>
      if !p.inService || s.phase != Online || !p.nodeInService then
        Published(s, p.connected, DDeath(d, Number(s, p.connected))).(devices := s.devices[d := DeviceOffline])
      else s
    case DeviceOffline =>
      if p.inService || s.phase == Online then
        Published(s, p.connected, DBirth(d, Number(s, p.connected))).(devices := s.devices[d := DeviceOnline])
      else s
    case DeviceIdle => s.(devices := s.devices[d := DeviceOffline])
  }

  /** The first n devices polled. */
  function PolledAll(s: NodeState, e: Input, n: nat): (r: NodeState)
    requires n <= |s.devices|
    ensures |r.devices| == |s.devices|
  {
    if n == 0 then s else Polled(PolledAll(s, e, n - 1), n - 1, PollOf(e, n - 1))
  }

  function IdleStep(s: NodeState, e: Input): NodeState {
    if e.now < s.timer || !e.inService || !e.hostReady then s
    else
      var tried := Logged(s, Attempt(e.now));
      if !e.createOk then tried.(timer := e.now + RETRY_MS)
      else
        var willed := Logged(tried, Will(0));
        if !e.connectOk then willed.(timer := e.now + RETRY_MS)
        else willed.(timer := e.now + WAIT_MS, phase := WaitOnConnect)
  }

  function ConnectStep(s: NodeState, e: Input): NodeState {
    if e.now >= s.timer && !e.connected then s.(timer := e.now + RETRY_MS, phase := Idle)
    else if !e.stillConnected then s
    else
      var born := Published(s, e.publishConnected, NBirth(Number(s, e.publishConnected))).(phase := Online);
      PolledAll(born, e, |s.devices|)
  }

  predicate Leaves(e: Input) {
    e.stop || !e.inService || !e.hostReady
  }

  function OnlineStep(s: NodeState, e: Input): NodeState {
    var p := PolledAll(s, e, |s.devices|);
    if Leaves(e) then
      Published(p, e.publishConnected, NDeath(Number(p, e.publishConnected))).(timer := e.now + WAIT_MS, phase := WaitOnDisconnect)
    else p
  }

  function DisconnectStep(s: NodeState, e: Input): NodeState {
    if e.now >= s.timer || e.delivered then s.(timer := e.now + RETRY_MS, phase := Idle) else s
  }

  function Iterated(s: NodeState, e: Input): NodeState {
    match s.phase
    case Idle => IdleStep(s, e)
    case WaitOnConnect => ConnectStep(s, e)
    case Online => OnlineStep(s, e)
    case WaitOnDisconnect => DisconnectStep(s, e)
  }

  function Stepped(s: NodeState, ev: Event): NodeState {
    match ev
    case Iterate(e) => Iterated(s, e)
    case StartDevice(d) =>
      if d >= |s.devices| then s
      else Logged(s.(devices := s.devices[d := DeviceIdle]), DeviceStarted(d))
    case StopDevice(d, connected) =>
      if d >= |s.devices| then s
      else if s.devices[d] == DeviceOnline && s.phase == Online then
        Logged(Published(s, connected, DDeath(d, Number(s, connected))), DeviceStopped(d))
      else Logged(s, DeviceStopped(d))
  }

  function Run(s: NodeState, events: seq<Event>): NodeState {
    if events == [] then s else Stepped(Run(s, events[..|events| - 1]), events[|events| - 1])
  }

  /** The state in which `NodeTask` enters its loop. */
  function Launched(seqNo: u8, devices: seq<DevicePhase>): NodeState {
    NodeState(Idle, 0, seqNo, devices, [])
  }

  // ------------------------------------------------------------- the objects

  class SparkplugDevice {
    var phase: DevicePhase

    constructor ()
      ensures phase == DeviceIdle
    {
      phase := DeviceIdle;
    }

    /** `SparkplugDevice::Poll` of device number d. */
    method Poll(node: SparkplugNode, d: nat, p: PollInput)
      requires node.Valid() && d < |node.devices| && node.devices[d] == this
      modifies `phase, node`seqNo, node`log
      ensures node.State() == Polled(old(node.State()), d, p)
    {
      ghost var was := node.Phases();
      match phase {
        case DeviceOnline =>
          if !p.inService || node.phase != Online || !p.nodeInService {
            var sent := node.DoPublish(p.connected);
            node.log := node.log + [DDeath(d, sent)];
            phase := DeviceOffline;
          }
        case DeviceOffline =>
          if p.inService || node.phase == Online {
            var sent := node.DoPublish(p.connected);
            node.log := node.log + [DBirth(d, sent)];
            phase := DeviceOnline;
          }
        case DeviceIdle =>
          phase := DeviceOffline;
      }
      assert node.Phases() == was[d := phase];
    }

    method Start(node: SparkplugNode, d: nat)
      requires node.Valid() && d < |node.devices| && node.devices[d] == this
      modifies `phase, node`log
      ensures node.State() == Stepped(old(node.State()), StartDevice(d))
    {
      ghost var was := node.Phases();
      phase := DeviceIdle;
      node.log := node.log + [DeviceStarted(d)];
      assert node.Phases() == was[d := DeviceIdle];
    }

    /** The device is told to stop but keeps its phase. */
    method Stop(node: SparkplugNode, d: nat, connected: bool)
      requires node.Valid() && d < |node.devices| && node.devices[d] == this
      modifies node`seqNo, node`log
      ensures node.State() == Stepped(old(node.State()), StopDevice(d, connected))
    {
      if phase == DeviceOnline && node.phase == Online {
        var sent := node.DoPublish(connected);
        node.log := node.log + [DDeath(d, sent)];
      }
      node.log := node.log + [DeviceStopped(d)];
    }
  }

  class SparkplugNode {
    var phase: Phase
    var timer: nat
    var seqNo: u8
    const devices: seq<SparkplugDevice>
    ghost var log: seq<LogEntry>

    ghost predicate Valid() {
      forall i, j :: 0 <= i < j < |devices| ==> devices[i] != devices[j]
    }

    ghost function Phases(): seq<DevicePhase>
      reads devices
    {
      seq(|devices|, i requires 0 <= i < |devices| reads devices => devices[i].phase)
    }

    ghost function State(): NodeState
      reads this, devices
    {
      NodeState(phase, timer, seqNo, Phases(), log)
    }

    constructor (devices: seq<SparkplugDevice>)
      requires forall i, j :: 0 <= i < j < |devices| ==> devices[i] != devices[j]
      ensures Valid() && this.devices == devices && State() == Launched(0, Phases())
    {
      this.devices := devices;
      phase, timer, seqNo, log := Idle, 0, 0, [];
    }

    /** The eight-bit counter wraps around. */
    method NextSequenceNumber() returns (n: u8)
      modifies `seqNo
      ensures n == old(seqNo) && seqNo == (old(seqNo) + 1) % 256
    {
      n := seqNo;
      seqNo := if seqNo == 255 then 0 else seqNo + 1;
    }

    /** The message goes out under the next number, if there is a connection. */
    method DoPublish(connected: bool) returns (sent: Option<nat>)
      modifies `seqNo
      ensures sent == if connected then Some(old(seqNo) as nat) else None
      ensures seqNo == if connected then (old(seqNo) + 1) % 256 else old(seqNo)
    {
      sent := None;
      if connected {
        var n := NextSequenceNumber();
        sent := Some(n);
      }
    }

    method PollDevices(e: Input)
      requires Valid()
      modifies `seqNo, `log, devices
      ensures State() == PolledAll(old(State()), e, |devices|)
    {
      for d := 0 to |devices|
        invariant State() == PolledAll(old(State()), e, d)
      {
        devices[d].Poll(this, d, PollOf(e, d));
      }
    }

    method PublishNodeBirth(connected: bool)
      modifies `seqNo, `log
      ensures State() == Published(old(State()), connected, NBirth(Number(old(State()), connected)))
    {
      var sent := DoPublish(connected);
      log := log + [NBirth(sent)];
    }

    method PublishNodeDeath(connected: bool)
      modifies `seqNo, `log
      ensures State() == Published(old(State()), connected, NDeath(Number(old(State()), connected)))
    {
      var sent := DoPublish(connected);
      log := log + [NDeath(sent)];
    }

    method DoIdle(e: Input)
      modifies `phase, `timer, `log
      ensures State() == IdleStep(old(State()), e)
    {
      var timeout := e.now >= timer;
      if !timeout {
        return;
      }
      if !e.inService {
        return;
      }
      if !e.hostReady {
        return;
      }
      log := log + [Attempt(e.now)];
      if !e.createOk {
        timer := e.now + RETRY_MS;
        return;
      }
      log := log + [Will(0)];
      if !e.connectOk {
        timer := e.now + RETRY_MS;
        return;
      }
      timer := e.now + WAIT_MS;
      phase := WaitOnConnect;
    }

    method DoWaitOnConnect(e: Input)
      requires Valid()
      modifies `phase, `timer, `seqNo, `log, devices
      ensures State() == ConnectStep(old(State()), e)
    {
      var timeout := e.now >= timer;
      if timeout && !e.connected {
        timer := e.now + RETRY_MS;
        phase := Idle;
        return;
      }
      if !e.stillConnected {
        return;
      }
      PublishNodeBirth(e.publishConnected);
      phase := Online;
      PollDevices(e);
    }

    method DoOnline(e: Input)
      requires Valid()
      modifies `phase, `timer, `seqNo, `log, devices
      ensures State() == OnlineStep(old(State()), e)
    {
      if e.stop || !e.inService || !e.hostReady {
        PollDevices(e);
        PublishNodeDeath(e.publishConnected);
        timer := e.now + WAIT_MS;
        phase := WaitOnDisconnect;
      } else {
        PollDevices(e);
      }
    }

    method DoWaitOnDisconnect(e: Input)
      modifies `phase, `timer
      ensures State() == DisconnectStep(old(State()), e)
    {
      var timeout := e.now >= timer;
      if timeout || e.delivered {
        timer := e.now + RETRY_MS;
        phase := Idle;
      }
    }

    /** The worker loop over a run: iterations, with device commands in between. */
    method NodeTask(events: seq<Event>)
      requires Valid()
      modifies this, devices
      ensures State() == Run(Launched(old(seqNo), old(Phases())), events)
    {
      timer := 0;
      phase := Idle;
      log := [];
      for k := 0 to |events|
        invariant State() == Run(Launched(old(seqNo), old(Phases())), events[..k])
      {
        assert events[..k + 1][..k] == events[..k];
        HandleEvent(events[k]);
      }
      assert events[..|events|] == events;
    }

    method HandleEvent(ev: Event)
      requires Valid()
      modifies this, devices
      ensures State() == Stepped(old(State()), ev)
    {
      match ev {
        case Iterate(e) =>
          match phase {
            case Idle => DoIdle(e);
            case WaitOnConnect => DoWaitOnConnect(e);
            case Online => DoOnline(e);
            case WaitOnDisconnect => DoWaitOnDisconnect(e);
          }
        case StartDevice(d) =>
          if d < |devices| { devices[d].Start(this, d); }
        case StopDevice(d, connected) =>
          if d < |devices| { devices[d].Stop(this, d, connected); }
      }
    }
  }
}
