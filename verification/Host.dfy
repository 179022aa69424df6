/** The Sparkplug host: its worker loop, the STATE payload it keeps, the STATE
    messages it publishes and the will it registers. */
module Hosts {
  import opened Timing

  datatype Phase = Idle | WaitOnConnect | Online | Offline | WaitOnDisconnect

  datatype LogEntry = Attempt(at: nat) | Will(online: bool) | StateMessage(online: bool)

  datatype Input = Input(now: nat, stop: bool, inService: bool, connectOk: bool, connected: bool, delivered: bool)

  /** `online` is the metric of that name in the STATE payload. */
  datatype HostState = HostState(phase: Phase, timer: nat, online: bool, log: seq<LogEntry>)

  // --------------------------------------------------------- specified steps

  function Announced(s: HostState, online: bool): HostState {
    s.(online := online, log := s.log + [StateMessage(online)])
  }

  function IdleStep(s: HostState, e: Input): HostState {
    if e.now < s.timer then s
    else s.(timer := e.now + RETRY_MS, online := false, log := s.log + [Attempt(e.now), Will(false)],
            phase := if e.connectOk then WaitOnConnect else Idle)
  }

  function ConnectStep(s: HostState, e: Input): HostState {
    if e.now >= s.timer then s.(phase := Idle, timer := e.now + RETRY_MS)
    else if !e.connected || !e.delivered then s
    else Announced(s, e.inService).(phase := if e.inService then Online else Offline)
  }

  function OnlineStep(s: HostState, e: Input): HostState {
    if e.stop then Announced(s, false).(timer := e.now + WAIT_MS, phase := WaitOnDisconnect)
    else if !e.inService then Announced(s, false).(phase := Offline)
    else s
  }

  function OfflineStep(s: HostState, e: Input): HostState {
    if e.stop then s.(timer := e.now + WAIT_MS, phase := WaitOnDisconnect)
    else if e.inService then Announced(s, true).(phase := Online)
    else s
  }

  function DisconnectStep(s: HostState, e: Input): HostState {
    if e.now >= s.timer || e.delivered then s.(timer := e.now + RETRY_MS, phase := Idle) else s
  }

  function Stepped(s: HostState, e: Input): HostState {
    match s.phase
    case Idle => IdleStep(s, e)
    case WaitOnConnect => ConnectStep(s, e)
    case Online => OnlineStep(s, e)
    case Offline => OfflineStep(s, e)
    case WaitOnDisconnect => DisconnectStep(s, e)
  }

  function Run(s: HostState, inputs: seq<Input>): HostState {
    if inputs == [] then s else Stepped(Run(s, inputs[..|inputs| - 1]), inputs[|inputs| - 1])
  }

  /** The state in which `HostTask` enters its loop: the payload is what it was. */
  function Launched(now: nat, online: bool): HostState {
    HostState(Idle, now, online, [])
  }

  // --------------------------------------------------------------- the object

  class SparkplugHost {
    var phase: Phase
    var timer: nat
    var online: bool
    ghost var log: seq<LogEntry>

    ghost function State(): HostState
      reads this
    {
      HostState(phase, timer, online, log)
    }

    constructor ()
      ensures State() == Launched(0, false)
    {
      phase, timer, online, log := Idle, 0, false, [];
    }

    /** The will is generated from the payload, after it was set to offline. */
    method SendConnect(e: Input) returns (ok: bool)
      modifies `online, `log
      ensures ok == e.connectOk && !online && log == old(log) + [Will(false)]
    {
      online := false;
      log := log + [Will(online)];
      ok := e.connectOk;
    }

    method PublishState(value: bool)
      modifies `online, `log
      ensures State() == Announced(old(State()), value)
    {
      online := value;
      log := log + [StateMessage(online)];
    }

    method DoIdle(e: Input)
      modifies this
      ensures State() == IdleStep(old(State()), e)
    {
      var timeout := e.now >= timer;
      if !timeout {
        return;
      }
      timer := e.now + RETRY_MS;
      phase := WaitOnConnect;
      log := log + [Attempt(e.now)];
      var connect := SendConnect(e);
      assert log == old(log) + [Attempt(e.now), Will(false)];
      if !connect {
        phase := Idle;
      }
    }

    method DoWaitOnConnect(e: Input)
      modifies this
      ensures State() == ConnectStep(old(State()), e)
    {
      var timeout := e.now >= timer;
      if timeout {
        phase := Idle;
        timer := e.now + RETRY_MS;
        return;
      }
      if !e.connected || !e.delivered {
        return;
      }
      if e.inService {
        PublishState(true);
        phase := Online;
      } else {
        PublishState(false);
        phase := Offline;
      }
    }

    method DoOnline(e: Input)
      modifies this
      ensures State() == OnlineStep(old(State()), e)
    {
      if e.stop {
        PublishState(false);
        timer := e.now + WAIT_MS;
        phase := WaitOnDisconnect;
      } else if !e.inService {
        PublishState(false);
        phase := Offline;
      }
    }

    method DoOffline(e: Input)
      modifies this
      ensures State() == OfflineStep(old(State()), e)
    {
      if e.stop {
        timer := e.now + WAIT_MS;
        phase := WaitOnDisconnect;
      } else if e.inService {
        PublishState(true);
        phase := Online;
      }
    }

    method DoWaitOnDisconnect(e: Input)
      modifies this
      ensures State() == DisconnectStep(old(State()), e)
    {
      var timeout := e.now >= timer;
      if timeout || e.delivered {
        timer := e.now + RETRY_MS;
        phase := Idle;
      }
    }

    method HostTask(now: nat, inputs: seq<Input>)
      modifies this
      ensures State() == Run(Launched(now, old(online)), inputs)
    {
      timer := now;
      phase := Idle;
      log := [];
      for k := 0 to |inputs|
        invariant State() == Run(Launched(now, old(online)), inputs[..k])
      {
        assert inputs[..k + 1][..k] == inputs[..k];
        match phase {
          case Idle => DoIdle(inputs[k]);
          case WaitOnConnect => DoWaitOnConnect(inputs[k]);
          case Online => DoOnline(inputs[k]);
          case Offline => DoOffline(inputs[k]);
          case WaitOnDisconnect => DoWaitOnDisconnect(inputs[k]);
        }
      }
      assert inputs[..|inputs|] == inputs;
    }
  }

  // ------------------------------------------------------------- announcement

  /** The last STATE value published in the run. */
  function LastAnnounced(log: seq<LogEntry>): bool {
    if log == [] then false
    else if log[|log| - 1].StateMessage? then log[|log| - 1].online
    else LastAnnounced(log[..|log| - 1])
  }

  function Attempts(log: seq<LogEntry>): seq<nat> {
    if log == [] then []
    else Attempts(log[..|log| - 1]) + if log[|log| - 1].Attempt? then [log[|log| - 1].at] else []
  }

  lemma Appended(log: seq<LogEntry>, entry: LogEntry)
    ensures LastAnnounced(log + [entry]) == if entry.StateMessage? then entry.online else LastAnnounced(log)
    ensures Attempts(log + [entry]) == Attempts(log) + if entry.Attempt? then [entry.at] else []
  {
    assert (log + [entry])[..|log|] == log;
  }

  lemma AppendedAttempt(log: seq<LogEntry>, at: nat)
    ensures var r := log + [Attempt(at), Will(false)];
            LastAnnounced(r) == LastAnnounced(log) && Attempts(r) == Attempts(log) + [at]
  {
    Appended(log, Attempt(at));
    Appended(log + [Attempt(at)], Will(false));
    assert log + [Attempt(at), Will(false)] == log + [Attempt(at)] + [Will(false)];
  }

  ghost predicate AnnouncementInv(s: HostState, stale: bool) {
    && (LastAnnounced(s.log) <==> s.phase == Online)
    && (forall i :: 0 <= i < |s.log| && s.log[i].Will? ==> !s.log[i].online)
    && (s.online <==> s.phase == Online || (stale && Attempts(s.log) == []))
    && (Attempts(s.log) == [] ==> s.phase == Idle)
  }

  lemma SteppedAnnouncement(s: HostState, e: Input, stale: bool)
    requires AnnouncementInv(s, stale)
    ensures AnnouncementInv(Stepped(s, e), stale)
  {
    AppendedAttempt(s.log, e.now);
    Appended(s.log, StateMessage(true));
    Appended(s.log, StateMessage(false));
  }

  /** At every boundary of the loop in every run: the last published STATE value is
      true exactly in Online, every will says offline, and the payload's online
      metric equals Online unless the run was entered with it still set and no
      connect attempt has been made yet. */
  lemma {:induction false} AnnouncementAgrees(now: nat, online: bool, inputs: seq<Input>)
    ensures var s := Run(Launched(now, online), inputs);
            && (LastAnnounced(s.log) <==> s.phase == Online)
            && (forall i :: 0 <= i < |s.log| && s.log[i].Will? ==> !s.log[i].online)
            && ((s.online <==> s.phase == Online) <==> !online || Attempts(s.log) != [])
    ensures AnnouncementInv(Run(Launched(now, online), inputs), online)
  {
    if inputs != [] {
      AnnouncementAgrees(now, online, inputs[..|inputs| - 1]);
      SteppedAnnouncement(Run(Launched(now, online), inputs[..|inputs| - 1]), inputs[|inputs| - 1], online);
    }
  }

  // --------------------------------------------------------- connect attempts

  predicate ClockForward(t: nat, inputs: seq<Input>) {
    inputs == [] ||
    (ClockForward(t, inputs[..|inputs| - 1]) && LastTime(t, inputs[..|inputs| - 1]) <= inputs[|inputs| - 1].now)
  }

  function LastTime(t: nat, inputs: seq<Input>): nat {
    if inputs == [] then t else inputs[|inputs| - 1].now
  }

  ghost predicate RateInv(s: HostState, t: nat) {
    var a := Attempts(s.log);
    && Spaced(a)
    && (a != [] ==> a[|a| - 1] <= t && (s.phase == Idle || s.phase == WaitOnConnect ==> a[|a| - 1] + RETRY_MS <= s.timer))
  }

  lemma SteppedAttempts(s: HostState, e: Input)
    ensures var tries := s.phase == Idle && s.timer <= e.now;
            Attempts(Stepped(s, e).log) == Attempts(s.log) + if tries then [e.now] else []
  {
    AppendedAttempt(s.log, e.now);
    Appended(s.log, StateMessage(true));
    Appended(s.log, StateMessage(false));
  }

  lemma SteppedRate(s: HostState, t: nat, e: Input)
    requires RateInv(s, t) && t <= e.now
    ensures RateInv(Stepped(s, e), e.now)
  {
    SteppedAttempts(s, e);
  }

  /** Consecutive connect attempts are at least ten seconds apart. */
  lemma {:induction false} AttemptsSpaced(now: nat, online: bool, inputs: seq<Input>)
    requires ClockForward(now, inputs)
    ensures RateInv(Run(Launched(now, online), inputs), LastTime(now, inputs))
  {
    if inputs != [] {
      var front := inputs[..|inputs| - 1];
      AttemptsSpaced(now, online, front);
      SteppedRate(Run(Launched(now, online), front), LastTime(now, front), inputs[|inputs| - 1]);
    }
  }

  /** A host that has once been connected never looks at its connection again: until
      it is stopped it alternates between Online and Offline as it is told, and makes
      no further connect attempt, even when the connection is lost. */
  lemma {:induction false} NoReconnect(s: HostState, inputs: seq<Input>)
    requires s.phase == Online || s.phase == Offline
    requires forall k :: 0 <= k < |inputs| ==> !inputs[k].stop
    ensures var r := Run(s, inputs);
            && r.phase == (if inputs == [] then s.phase else if inputs[|inputs| - 1].inService then Online else Offline)
            && Attempts(r.log) == Attempts(s.log)
  {
    if inputs != [] {
      var front := inputs[..|inputs| - 1];
      NoReconnect(s, front);
      Appended(Run(s, front).log, StateMessage(true));
      Appended(Run(s, front).log, StateMessage(false));
    }
  }

  // ----------------------------------------------------------------- progress

  /** Past its timer an idle host registers its will and connects; it waits for the
      connection exactly if that succeeds, and has ten seconds in either case. */
  lemma IdleIteration(s: HostState, e: Input)
    requires s.phase == Idle
    ensures var r := Stepped(s, e);
            if e.now < s.timer then r == s
            else
              && r.phase == (if e.connectOk then WaitOnConnect else Idle) && r.timer == e.now + 10_000
              && !r.online && r.log == s.log + [Attempt(e.now), Will(false)]
  {
  }

  /** A waiting host gives up at its timer; before, it announces what it becomes as soon
      as it is connected and the connect delivered. */
  lemma WaitingIteration(s: HostState, e: Input)
    requires s.phase == WaitOnConnect
    ensures var r := Stepped(s, e);
            var there := e.now < s.timer && e.connected && e.delivered;
            && (r.phase == Online <==> there && e.inService) && (r.phase == Offline <==> there && !e.inService)
            && (there ==> r.log == s.log + [StateMessage(e.inService)])
            && (s.timer <= e.now ==> r == s.(phase := Idle, timer := e.now + 10_000))
            && (e.now < s.timer && !there ==> r == s)
  {
  }

  /** A connected host announces that it goes offline or online, and nothing if it is
      offline already; a stop has five seconds to be delivered. */
  lemma ConnectedIteration(s: HostState, e: Input)
    requires s.phase == Online || s.phase == Offline
    ensures var r := Stepped(s, e);
            && r.phase == (if e.stop then WaitOnDisconnect else if e.inService then Online else Offline)
            && r.timer == (if e.stop then e.now + 5_000 else s.timer)
            && r.log == s.log + (if s.phase == Online && (e.stop || !e.inService) then [StateMessage(false)]
                                 else if s.phase == Offline && !e.stop && e.inService then [StateMessage(true)] else [])
  {
    assert s.log + [] == s.log;
  }

  lemma DisconnectingIteration(s: HostState, e: Input)
    requires s.phase == WaitOnDisconnect
    ensures Stepped(s, e) == if e.delivered || s.timer <= e.now then s.(phase := Idle, timer := e.now + 10_000) else s
  {
  }

  lemma OneMoreInput(s: HostState, inputs: seq<Input>, k: nat)
    requires k < |inputs|
    ensures Run(s, inputs[..k + 1]) == Stepped(Run(s, inputs[..k]), inputs[k])
  {
    assert inputs[..k + 1][..k] == inputs[..k];
  }

  lemma {:induction false} StillWaiting(now: nat, online: bool, inputs: seq<Input>, k: nat)
    requires 0 < k <= |inputs| && now <= inputs[0].now && inputs[0].connectOk
    requires forall j :: 0 < j < k ==> inputs[j].now < inputs[0].now + 10_000 && !(inputs[j].connected && inputs[j].delivered)
    ensures var r := Run(Launched(now, online), inputs[..k]);
            r.phase == WaitOnConnect && r.timer == inputs[0].now + 10_000
  {
    var s := Launched(now, online);
    OneMoreInput(s, inputs, k - 1);
    var before := Run(s, inputs[..k - 1]);
    if k == 1 {
      assert before == s;
      IdleIteration(s, inputs[0]);
    } else {
      StillWaiting(now, online, inputs, k - 1);
      WaitingIteration(before, inputs[k - 1]);
    }
  }

  /** From the start of its loop: when the first connect succeeds and the iterations up to
      number j are in time but not connected, iteration j brings the host online exactly
      if it is in time, connected and in service. */
  lemma ReachesOnline(now: nat, online: bool, inputs: seq<Input>, j: nat)
    requires 0 < j < |inputs| && now <= inputs[0].now && inputs[0].connectOk
    requires forall k :: 0 < k < j ==> inputs[k].now < inputs[0].now + 10_000 && !(inputs[k].connected && inputs[k].delivered)
    ensures Run(Launched(now, online), inputs[..j + 1]).phase == Online <==>
            inputs[j].now < inputs[0].now + 10_000 && inputs[j].connected && inputs[j].delivered && inputs[j].inService
  {
    StillWaiting(now, online, inputs, j);
    OneMoreInput(Launched(now, online), inputs, j);
    WaitingIteration(Run(Launched(now, online), inputs[..j]), inputs[j]);
  }
}
