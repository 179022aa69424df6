/** The plain MQTT client: the same kind of worker loop as a node, with a timer that
    is put back to zero while the client is out of service. */
module MqttClients {
  import opened Timing

  datatype Phase = Idle | WaitOnConnect | Online | WaitOnDisconnect

  datatype LogEntry = Attempt(at: nat) | TimerCleared | TopicsPublished

  datatype Input = Input(
    now: nat, stop: bool, inService: bool, createOk: bool, connectOk: bool, connected: bool, delivered: bool)

  datatype ClientState = ClientState(phase: Phase, timer: nat, log: seq<LogEntry>)

  // --------------------------------------------------------- specified steps

  function IdleStep(s: ClientState, e: Input): ClientState {
    if !e.inService then s.(timer := 0, log := s.log + [TimerCleared])
    else if e.now < s.timer then s
    else
      var tried := s.(log := s.log + [Attempt(e.now)]);
      if !e.createOk || !e.connectOk then tried.(timer := e.now + RETRY_MS)
      else tried.(timer := e.now + WAIT_MS, phase := WaitOnConnect)
  }

  function ConnectStep(s: ClientState, e: Input): ClientState {
    if e.now >= s.timer then s.(timer := e.now + RETRY_MS, phase := Idle)
    else if !e.connected || !e.delivered then s
    else s.(phase := Online)
  }

  function OnlineStep(s: ClientState, e: Input): ClientState {
    if e.stop || !e.inService then s.(timer := e.now + WAIT_MS, phase := WaitOnDisconnect)
    else s.(log := s.log + [TopicsPublished])
  }

  function DisconnectStep(s: ClientState, e: Input): ClientState {
    if e.now >= s.timer || e.delivered then s.(timer := e.now + RETRY_MS, phase := Idle) else s
  }

  function Stepped(s: ClientState, e: Input): ClientState {
    match s.phase
    case Idle => IdleStep(s, e)
    case WaitOnConnect => ConnectStep(s, e)
    case Online => OnlineStep(s, e)
    case WaitOnDisconnect => DisconnectStep(s, e)
  }

  function Run(s: ClientState, inputs: seq<Input>): ClientState {
    if inputs == [] then s else Stepped(Run(s, inputs[..|inputs| - 1]), inputs[|inputs| - 1])
  }

  const LAUNCHED := ClientState(Idle, 0, [])

  // --------------------------------------------------------------- the object

  class MqttClient {
    var phase: Phase
    var timer: nat
    ghost var log: seq<LogEntry>

    ghost function State(): ClientState
      reads this
    {
      ClientState(phase, timer, log)
    }

    constructor ()
      ensures State() == LAUNCHED
    {
      phase, timer, log := Idle, 0, [];
    }

    method DoIdle(e: Input)
      modifies this
      ensures State() == IdleStep(old(State()), e)
    {
      var timeout := e.now >= timer;
      if !e.inService {
        timer := 0;
        log := log + [TimerCleared];
        return;
      }
      if !timeout {
        return;
      }
      log := log + [Attempt(e.now)];
      if !e.createOk {
        timer := e.now + RETRY_MS;
        return;
      }
      if !e.connectOk {
        timer := e.now + RETRY_MS;
        return;
      }
      timer := e.now + WAIT_MS;
      phase := WaitOnConnect;
    }

    method DoWaitOnConnect(e: Input)
      modifies this
      ensures State() == ConnectStep(old(State()), e)
    {
      var timeout := e.now >= timer;
      if timeout {
        timer := e.now + RETRY_MS;
        phase := Idle;
        return;
      }
      if !e.connected || !e.delivered {
        return;
      }
      phase := Online;
    }

    method DoOnline(e: Input)
      modifies this
      ensures State() == OnlineStep(old(State()), e)
    {
      if e.stop || !e.inService {
        timer := e.now + WAIT_MS;
        phase := WaitOnDisconnect;
      } else {
        log := log + [TopicsPublished];
      }
    }

    method DoWaitOnDisconnect(e: Input)
      modifies this
      ensures State() == DisconnectStep(old(State()), e)
    {
      var timeout := e.now >= timer;
      if timeout || e.delivered {
        timer := e.now + RETRY_MS;
        phase := Idle;
      }
    }

    method ClientTask(inputs: seq<Input>)
      modifies this
      ensures State() == Run(LAUNCHED, inputs)
    {
      timer := 0;
      phase := Idle;
      log := [];
      for k := 0 to |inputs|
        invariant State() == Run(LAUNCHED, inputs[..k])
      {
        assert inputs[..k + 1][..k] == inputs[..k];
        match phase {
          case Idle => DoIdle(inputs[k]);
          case WaitOnConnect => DoWaitOnConnect(inputs[k]);
          case Online => DoOnline(inputs[k]);
          case WaitOnDisconnect => DoWaitOnDisconnect(inputs[k]);
        }
      }
      assert inputs[..|inputs|] == inputs;
    }
  }

  // --------------------------------------------------------- bounded shutdown

  function LastTime(t: nat, inputs: seq<Input>): nat {
    if inputs == [] then t else inputs[|inputs| - 1].now
  }

  predicate ClockForward(t: nat, inputs: seq<Input>) {
    inputs == [] ||
    (ClockForward(t, inputs[..|inputs| - 1]) && LastTime(t, inputs[..|inputs| - 1]) <= inputs[|inputs| - 1].now)
  }

  predicate TimerBound(s: ClientState, t: nat) {
    s.phase == WaitOnConnect || s.phase == WaitOnDisconnect ==> s.timer <= t + WAIT_MS
  }

  /** Every reachable state satisfies the bound. */
  lemma {:induction false} TimerBoundReached(inputs: seq<Input>)
    requires ClockForward(0, inputs)
    ensures TimerBound(Run(LAUNCHED, inputs), LastTime(0, inputs))
  {
    if inputs != [] { TimerBoundReached(inputs[..|inputs| - 1]); }
  }

  /** Out of service for good and polled at most g ms apart. */
  predicate GoingDown(t: nat, g: nat, inputs: seq<Input>) {
    inputs == [] ||
    var front, e := inputs[..|inputs| - 1], inputs[|inputs| - 1];
    GoingDown(t, g, front) && !e.inService && LastTime(t, front) <= e.now <= LastTime(t, front) + g
  }

  /** A time by which a client that was in this state at time t will be idle. */
  function Deadline(s: ClientState, t: nat, g: nat): nat {
    var late := if s.timer > t then s.timer else t;
    match s.phase
    case Idle => t
    case WaitOnDisconnect => late + g
    case Online => t + WAIT_MS + 2 * g
    case WaitOnConnect => late + WAIT_MS + 2 * g
  }

  lemma SteppedDeadline(s: ClientState, t: nat, g: nat, e: Input)
    requires !e.inService && t <= e.now <= t + g
    ensures var r := Stepped(s, e);
            r.phase != Idle ==> Deadline(r, e.now, g) <= Deadline(s, t, g) && e.now < Deadline(r, e.now, g)
    ensures s.phase == Idle ==> Stepped(s, e).phase == Idle
  {
  }

  lemma {:induction false} DeadlineKept(s: ClientState, t: nat, g: nat, inputs: seq<Input>)
    requires GoingDown(t, g, inputs)
    ensures var r, u := Run(s, inputs), LastTime(t, inputs);
            r.phase != Idle ==> Deadline(r, u, g) <= Deadline(s, t, g) && (u > t ==> u < Deadline(r, u, g))
    ensures s.phase == Idle ==> Run(s, inputs).phase == Idle
  {
    if inputs != [] {
      var front := inputs[..|inputs| - 1];
      DeadlineKept(s, t, g, front);
      SteppedDeadline(Run(s, front), LastTime(t, front), g, inputs[|inputs| - 1]);
    }
  }

  /** Here the connect timeout does not depend on the connection, so two poll
      intervals suffice; three are what a node needs. */
  lemma BoundedShutdown(s: ClientState, t: nat, g: nat, inputs: seq<Input>)
    requires TimerBound(s, t) && GoingDown(t, g, inputs)
    ensures LastTime(t, inputs) >= t + 10_000 + 2 * g ==> Run(s, inputs).phase == Idle
    ensures s.phase == Idle ==> Run(s, inputs).phase == Idle
  {
    DeadlineKept(s, t, g, inputs);
  }

  // --------------------------------------------------------- connect attempts

  ghost predicate ClearedBetween(log: seq<LogEntry>, i: nat, j: nat)
    requires j <= |log|
  {
    exists k :: i < k < j && log[k] == TimerCleared
  }

  /** Any two attempts are ten seconds apart, or the timer was cleared in between. */
  ghost predicate SpacedUnlessCleared(log: seq<LogEntry>) {
    forall i, j :: 0 <= i < j < |log| && log[i].Attempt? && log[j].Attempt? ==>
      log[i].at + 10_000 <= log[j].at || ClearedBetween(log, i, j)
  }

  /** How the attempts so far bind the next one. */
  ghost predicate RateInv(s: ClientState, t: nat) {
    && SpacedUnlessCleared(s.log)
    && forall i :: 0 <= i < |s.log| && s.log[i].Attempt? ==>
         || ClearedBetween(s.log, i, |s.log|)
         || (s.log[i].at <= t && (s.phase == Idle ==> s.log[i].at + RETRY_MS <= s.timer))
  }

  lemma ClearedAppend(log: seq<LogEntry>, entry: LogEntry, i: nat, j: nat)
    requires i < j <= |log|
    ensures ClearedBetween(log + [entry], i, j) == ClearedBetween(log, i, j)
    ensures ClearedBetween(log + [entry], i, |log| + 1) <==> ClearedBetween(log, i, |log|) || entry == TimerCleared
  {
    var r := log + [entry];
    assert forall k :: 0 <= k < |log| ==> r[k] == log[k];
    if entry == TimerCleared { assert r[|log|] == TimerCleared; }
    if k :| i < k < |log| && log[k] == TimerCleared { assert r[k] == TimerCleared; }
  }

  /** One more log entry, with the state it is logged in. */
  lemma RateAppend(s: ClientState, t: nat, r: ClientState, now: nat, entry: LogEntry)
    requires RateInv(s, t) && t <= now && r.log == s.log + [entry]
    requires entry.Attempt? ==> entry.at == now && s.phase == Idle && s.timer <= now
    requires entry.Attempt? && r.phase == Idle ==> now + RETRY_MS <= r.timer
    requires entry == TopicsPublished && r.phase == Idle ==> s.phase == Idle && r.timer == s.timer
    ensures RateInv(r, now)
  {
    forall i, j | 0 <= i < j < |r.log| && r.log[i].Attempt? && r.log[j].Attempt?
      ensures r.log[i].at + RETRY_MS <= r.log[j].at || ClearedBetween(r.log, i, j)
    {
      ClearedAppend(s.log, entry, i, j);
    }
    forall i | 0 <= i < |r.log| && r.log[i].Attempt?
      ensures || ClearedBetween(r.log, i, |r.log|)
              || (r.log[i].at <= now && (r.phase == Idle ==> r.log[i].at + RETRY_MS <= r.timer))
    {
      if i < |s.log| { ClearedAppend(s.log, entry, i, |s.log|); }
    }
  }

  lemma SteppedRate(s: ClientState, t: nat, e: Input)
    requires RateInv(s, t) && t <= e.now
    ensures RateInv(Stepped(s, e), e.now)
  {
    var r := Stepped(s, e);
    if r.log != s.log {
      RateAppend(s, t, r, e.now, r.log[|s.log|]);
    }
  }

  /** In every run on a forward clock any two attempts are ten seconds apart, unless
      the client was found idle and out of service between them. */
  lemma {:induction false} AttemptsSpaced(inputs: seq<Input>)
    requires ClockForward(0, inputs)
    ensures SpacedUnlessCleared(Run(LAUNCHED, inputs).log)
    ensures RateInv(Run(LAUNCHED, inputs), LastTime(0, inputs))
  {
    if inputs != [] {
      var front := inputs[..|inputs| - 1];
      AttemptsSpaced(front);
      SteppedRate(Run(LAUNCHED, front), LastTime(0, front), inputs[|inputs| - 1]);
    }
  }

  /** After any time idle and out of service, however short, the next iteration in
      service makes an attempt, however recent the last one is. */
  lemma {:induction false} ClearedTimerAllowsEarlyAttempt(s: ClientState, idle: seq<Input>, e: Input)
    requires s.phase == Idle && idle != [] && e.inService
    requires forall k :: 0 <= k < |idle| ==> !idle[k].inService
    ensures Run(s, idle).phase == Idle && Run(s, idle).timer == 0
    ensures Run(s, idle + [e]).log == Run(s, idle).log + [Attempt(e.now)]
  {
    assert (idle + [e])[..|idle|] == idle;
    if |idle| > 1 { ClearedTimerAllowsEarlyAttempt(s, idle[..|idle| - 1], e); }
  }

  /** A client that is online never looks at its connection: as long as it is wanted
      it publishes, and makes no connect attempt. */
  lemma {:induction false} NoReconnect(s: ClientState, inputs: seq<Input>)
    requires s.phase == Online
    requires forall k :: 0 <= k < |inputs| ==> !inputs[k].stop && inputs[k].inService
    ensures var r := Run(s, inputs);
            && r.phase == Online && |r.log| == |s.log| + |inputs|
            && r.log[..|s.log|] == s.log
            && forall k :: |s.log| <= k < |r.log| ==> r.log[k] == TopicsPublished
  {
    if inputs != [] { NoReconnect(s, inputs[..|inputs| - 1]); }
  }

  // ----------------------------------------------------------------- progress

  /** An idle client waits for its connection exactly after an iteration in service past
      its timer in which create and connect succeed. */
  lemma IdleIteration(s: ClientState, e: Input)
    requires s.phase == Idle
    ensures var r := Stepped(s, e);
            var due := e.inService && s.timer <= e.now;
            && r.phase == (if due && e.createOk && e.connectOk then WaitOnConnect else Idle)
            && r.timer == (if !e.inService then 0 else if !due then s.timer
                           else if e.createOk && e.connectOk then e.now + 5_000 else e.now + 10_000)
            && r.log == s.log + (if !e.inService then [TimerCleared] else if due then [Attempt(e.now)] else [])
  {
    assert s.log + [] == s.log;
  }

  /** A waiting client gives up at its timer; before, it is online as soon as it is
      connected and the connect delivered. */
  lemma WaitingIteration(s: ClientState, e: Input)
    requires s.phase == WaitOnConnect
    ensures var r := Stepped(s, e);
            && (r.phase == Online <==> e.now < s.timer && e.connected && e.delivered)
            && (s.timer <= e.now ==> r == s.(phase := Idle, timer := e.now + 10_000))
            && (e.now < s.timer ==> r.timer == s.timer && r.log == s.log && r.phase != Idle)
  {
  }

  /** An online client publishes, or disconnects with five seconds to wait. */
  lemma OnlineIteration(s: ClientState, e: Input)
    requires s.phase == Online
    ensures Stepped(s, e) ==
            if e.stop || !e.inService then s.(phase := WaitOnDisconnect, timer := e.now + 5_000)
            else s.(log := s.log + [TopicsPublished])
  {
  }

  lemma DisconnectingIteration(s: ClientState, e: Input)
    requires s.phase == WaitOnDisconnect
    ensures Stepped(s, e) == if e.delivered || s.timer <= e.now then s.(phase := Idle, timer := e.now + 10_000) else s
  {
  }

  lemma OneMoreInput(s: ClientState, inputs: seq<Input>, k: nat)
    requires k < |inputs|
    ensures Run(s, inputs[..k + 1]) == Stepped(Run(s, inputs[..k]), inputs[k])
  {
    assert inputs[..k + 1][..k] == inputs[..k];
  }

  lemma {:induction false} StillUntried(inputs: seq<Input>, k: nat)
    requires k <= |inputs| && forall j :: 0 <= j < k ==> !inputs[j].inService
    ensures Run(LAUNCHED, inputs[..k]).phase == Idle && Run(LAUNCHED, inputs[..k]).timer == 0
  {
    if k > 0 {
      StillUntried(inputs, k - 1);
      OneMoreInput(LAUNCHED, inputs, k - 1);
    }
  }

  predicate Starts(e: Input) {
    e.inService && e.createOk && e.connectOk
  }

  predicate Arrives(e: Input, timer: nat) {
    e.now < timer && e.connected && e.delivered
  }

  lemma {:induction false} StillWaiting(inputs: seq<Input>, i: nat, k: nat)
    requires i < k <= |inputs| && Starts(inputs[i]) && forall j :: 0 <= j < i ==> !inputs[j].inService
    requires forall j :: i < j < k ==> inputs[j].now < inputs[i].now + 5_000 && !(inputs[j].connected && inputs[j].delivered)
    ensures var r := Run(LAUNCHED, inputs[..k]); r.phase == WaitOnConnect && r.timer == inputs[i].now + 5_000
  {
    OneMoreInput(LAUNCHED, inputs, k - 1);
    if k == i + 1 {
      StillUntried(inputs, i);
      IdleIteration(Run(LAUNCHED, inputs[..i]), inputs[i]);
    } else {
      StillWaiting(inputs, i, k - 1);
      WaitingIteration(Run(LAUNCHED, inputs[..k - 1]), inputs[k - 1]);
    }
  }

  /** From the start of its loop: when the first iteration in service starts a connect and
      those up to number j are in time but not connected, iteration j brings the client
      online exactly if it is in time and connected. */
  lemma ReachesOnline(inputs: seq<Input>, i: nat, j: nat)
    requires i < j < |inputs| && Starts(inputs[i]) && forall k :: 0 <= k < i ==> !inputs[k].inService
    requires forall k :: i < k < j ==> inputs[k].now < inputs[i].now + 5_000 && !(inputs[k].connected && inputs[k].delivered)
    ensures Run(LAUNCHED, inputs[..j + 1]).phase == Online <==> Arrives(inputs[j], inputs[i].now + 5_000)
  {
    StillWaiting(inputs, i, j);
    OneMoreInput(LAUNCHED, inputs, j);
    WaitingIteration(Run(LAUNCHED, inputs[..j]), inputs[j]);
  }
}
