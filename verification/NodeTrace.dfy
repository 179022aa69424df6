/** What holds of every log of a node: the grammar of births and deaths, the
    sequence numbers, the distance of connect attempts, and the way down. */
module NodeTrace {
  import opened OrderedMap
  import opened Nodes

  type Log = seq<LogEntry>

  // ------------------------------------------------------------ views of a log

  /** NBIRTH as true and NDEATH as false, in order, among the first n entries. */
  function NodeEventsUpTo(log: Log, n: nat): seq<bool>
    requires n <= |log|
  {
    if n == 0 then []
    else
      match log[n - 1]
      case NBirth(_) => NodeEventsUpTo(log, n - 1) + [true]
      case NDeath(_) => NodeEventsUpTo(log, n - 1) + [false]
      case _ => NodeEventsUpTo(log, n - 1)
  }

  function NodeEvents(log: Log): seq<bool> {
    NodeEventsUpTo(log, |log|)
  }

  function LastOfUpTo(log: Log, n: nat, d: nat): Option<bool>
    requires n <= |log|
  {
    if n == 0 then None
    else
      match log[n - 1]
      case DBirth(x, _) => if x == d then Some(true) else LastOfUpTo(log, n - 1, d)
      case DDeath(x, _) => if x == d then Some(false) else LastOfUpTo(log, n - 1, d)
      case DeviceStarted(x) => if x == d then Some(false) else LastOfUpTo(log, n - 1, d)
      case DeviceStopped(x) => if x == d then None else LastOfUpTo(log, n - 1, d)
      case _ => LastOfUpTo(log, n - 1, d)
  }

  /** The last DBIRTH (true) or DDEATH (false) of a device since it was last
      started or stopped; a device that was started has yet to be born, so a start
      counts as false. */
  function LastOf(log: Log, d: nat): Option<bool> {
    LastOfUpTo(log, |log|, d)
  }

  /** The number a logged message was handed over with, if it was. */
  function NumberIn(entry: LogEntry): Option<nat> {
    match entry
    case NBirth(n) => n
    case NDeath(n) => n
    case DBirth(_, n) => n
    case DDeath(_, n) => n
    case _ => None
  }

  function SentUpTo(log: Log, n: nat): seq<nat>
    requires n <= |log|
  {
    if n == 0 then []
    else
      var before, last := SentUpTo(log, n - 1), NumberIn(log[n - 1]);
      if last.Some? then before + [last.value] else before
  }

  /** The numbers of the messages that were handed over, in order. */
  function Sent(log: Log): seq<nat> {
    SentUpTo(log, |log|)
  }

  function AttemptsUpTo(log: Log, n: nat): seq<nat>
    requires n <= |log|
  {
    if n == 0 then []
    else if log[n - 1].Attempt? then AttemptsUpTo(log, n - 1) + [log[n - 1].at]
    else AttemptsUpTo(log, n - 1)
  }

  /** The times of the connect attempts, in order. */
  function Attempts(log: Log): seq<nat> {
    AttemptsUpTo(log, |log|)
  }

  /** Between an NBIRTH and the next NDEATH, after the first n entries. */
  predicate InSessionAt(log: Log, n: nat)
    requires n <= |log|
  {
    |NodeEventsUpTo(log, n)| % 2 == 1
  }

  predicate InSession(log: Log) {
    InSessionAt(log, |log|)
  }

  // ------------------------------------------------------------------- grammar

  /** What an entry may follow. */
  predicate AllowedAfter(log: Log, n: nat, entry: LogEntry)
    requires n <= |log|
  {
    match entry
    case NBirth(_) => !InSessionAt(log, n)
    case NDeath(_) => InSessionAt(log, n)
    case DBirth(d, _) => InSessionAt(log, n) && LastOfUpTo(log, n, d) != Some(true)
    case DDeath(d, _) => InSessionAt(log, n) && LastOfUpTo(log, n, d) != Some(false)
    case Will(number) => number == 0 && !InSessionAt(log, n)
    case Attempt(_) => !InSessionAt(log, n)
    case _ => true
  }

  predicate Allowed(log: Log, entry: LogEntry) {
    AllowedAfter(log, |log|, entry)
  }

  ghost predicate Grammatical(log: Log) {
    forall i :: 0 <= i < |log| ==> AllowedAfter(log, i, log[i])
  }

  /** A device that was started, born or gone is online after a DBIRTH only. */
  predicate DeviceMatches(s: NodeState, d: nat)
    requires d < |s.devices|
  {
    LastOf(s.log, d).Some? ==> (s.devices[d] == DeviceOnline <==> LastOf(s.log, d).value)
  }

  ghost predicate GrammarInv(s: NodeState) {
    && Grammatical(s.log)
    && (s.phase == Online <==> InSession(s.log))
    && forall d :: 0 <= d < |s.devices| ==> DeviceMatches(s, d)
  }

  /** What stands behind the first n entries does not show in their views. */
  lemma {:induction false} PrefixViews(log: Log, entry: LogEntry, n: nat, d: nat)
    requires n <= |log|
    ensures NodeEventsUpTo(log + [entry], n) == NodeEventsUpTo(log, n)
    ensures LastOfUpTo(log + [entry], n, d) == LastOfUpTo(log, n, d)
  {
    if n > 0 { PrefixViews(log, entry, n - 1, d); }
  }

  lemma EventsAppend(log: Log, entry: LogEntry)
    ensures NodeEvents(log + [entry]) ==
            if entry.NBirth? then NodeEvents(log) + [true]
            else if entry.NDeath? then NodeEvents(log) + [false] else NodeEvents(log)
  {
    PrefixViews(log, entry, |log|, 0);
  }

  lemma LastOfAppend(log: Log, entry: LogEntry, d: nat)
    ensures LastOf(log + [entry], d) ==
            match entry
            case DBirth(x, _) => if x == d then Some(true) else LastOf(log, d)
            case DDeath(x, _) => if x == d then Some(false) else LastOf(log, d)
            case DeviceStarted(x) => if x == d then Some(false) else LastOf(log, d)
            case DeviceStopped(x) => if x == d then None else LastOf(log, d)
            case _ => LastOf(log, d)
  {
    PrefixViews(log, entry, |log|, d);
  }

  function DeviceOf(entry: LogEntry): nat {
    match entry
    case DBirth(d, _) => d
    case DDeath(d, _) => d
    case _ => 0
  }

  lemma AllowedPrefix(log: Log, entry: LogEntry, n: nat, other: LogEntry)
    requires n <= |log|
    ensures AllowedAfter(log + [entry], n, other) == AllowedAfter(log, n, other)
  {
    PrefixViews(log, entry, n, DeviceOf(other));
  }

  lemma GrammarAppend(log: Log, entry: LogEntry)
    requires Grammatical(log) && Allowed(log, entry)
    ensures Grammatical(log + [entry])
  {
    var r := log + [entry];
    forall i | 0 <= i < |r| ensures AllowedAfter(r, i, r[i]) {
      AllowedPrefix(log, entry, i, r[i]);
      assert i < |log| ==> AllowedAfter(log, i, log[i]);
    }
  }

  /** One more entry about device d. */
  lemma DeviceLogged(s: NodeState, t: NodeState, d: nat, entry: LogEntry)
    requires GrammarInv(s) && Allowed(s.log, entry) && t.log == s.log + [entry]
    requires d < |s.devices| == |t.devices| && (forall x :: 0 <= x < |s.devices| && x != d ==> t.devices[x] == s.devices[x])
    requires t.phase == s.phase && !entry.NBirth? && !entry.NDeath?
    requires match entry
             case DBirth(x, _) => x == d && t.devices[d] == DeviceOnline
             case DDeath(x, _) => x == d && t.devices[d] != DeviceOnline
             case DeviceStarted(x) => x == d && t.devices[d] != DeviceOnline
             case DeviceStopped(x) => x == d
             case _ => false
    ensures GrammarInv(t)
  {
    GrammarAppend(s.log, entry);
    EventsAppend(s.log, entry);
    forall x | 0 <= x < |t.devices| ensures DeviceMatches(t, x) {
      assert DeviceMatches(s, x);
      LastOfAppend(s.log, entry, x);
    }
  }

  lemma PolledGrammar(s: NodeState, d: nat, p: PollInput)
    requires GrammarInv(s) && s.phase == Online && d < |s.devices|
    ensures GrammarInv(Polled(s, d, p)) && Polled(s, d, p).phase == Online
  {
    assert DeviceMatches(s, d);
    var t := Polled(s, d, p);
    if t.log != s.log {
      DeviceLogged(s, t, d, t.log[|s.log|]);
    } else {
      forall x | 0 <= x < |t.devices| ensures DeviceMatches(t, x) {
        assert DeviceMatches(s, x);
      }
    }
  }

  lemma {:induction false} PolledAllGrammar(s: NodeState, e: Input, n: nat)
    requires GrammarInv(s) && s.phase == Online && n <= |s.devices|
    ensures var r := PolledAll(s, e, n); GrammarInv(r) && r.phase == Online
  {
    if n > 0 {
      PolledAllGrammar(s, e, n - 1);
      var t := PolledAll(s, e, n - 1);
      assert PolledAll(s, e, n) == Polled(t, n - 1, PollOf(e, n - 1));
      PolledGrammar(t, n - 1, PollOf(e, n - 1));
    }
  }

  /** Timer and waiting phases are not part of the grammar. */
  lemma GrammarFrame(s: NodeState, t: NodeState)
    requires GrammarInv(s) && t.log == s.log && t.devices == s.devices
    requires t.phase == Online <==> s.phase == Online
    ensures GrammarInv(t)
  {
    forall d | 0 <= d < |t.devices| ensures DeviceMatches(t, d) {
      assert DeviceMatches(s, d);
    }
  }

  /** Entries that are about no device keep what is known about devices. */
  lemma LoggedGrammar(s: NodeState, t: NodeState, entry: LogEntry)
    requires GrammarInv(s) && Allowed(s.log, entry)
    requires t.log == s.log + [entry] && t.devices == s.devices
    requires entry.NBirth? || entry.NDeath? || entry.Attempt? || entry.Will?
    requires t.phase == Online <==> if entry.NBirth? || entry.NDeath? then entry.NBirth? else s.phase == Online
    ensures GrammarInv(t)
  {
    GrammarAppend(s.log, entry);
    EventsAppend(s.log, entry);
    forall d | 0 <= d < |t.devices| ensures DeviceMatches(t, d) {
      assert DeviceMatches(s, d);
      LastOfAppend(s.log, entry, d);
    }
  }

  lemma IdleGrammar(s: NodeState, e: Input)
    requires GrammarInv(s) && s.phase == Idle
    ensures GrammarInv(IdleStep(s, e))
  {
    var tried := Logged(s, Attempt(e.now));
    LoggedGrammar(s, tried, Attempt(e.now));
    LoggedGrammar(tried, Logged(tried, Will(0)), Will(0));
    var r := IdleStep(s, e);
    if r.log == s.log { GrammarFrame(s, r); }
    else if !e.createOk { GrammarFrame(tried, r); }
    else { GrammarFrame(Logged(tried, Will(0)), r); }
  }

  lemma ConnectGrammar(s: NodeState, e: Input)
    requires GrammarInv(s) && s.phase == WaitOnConnect
    ensures GrammarInv(ConnectStep(s, e))
  {
    var entry := NBirth(Number(s, e.publishConnected));
    var born := Published(s, e.publishConnected, entry).(phase := Online);
    LoggedGrammar(s, born, entry);
    PolledAllGrammar(born, e, |s.devices|);
    if ConnectStep(s, e).phase != Online { GrammarFrame(s, ConnectStep(s, e)); }
  }

  lemma OnlineGrammar(s: NodeState, e: Input)
    requires GrammarInv(s) && s.phase == Online
    ensures GrammarInv(OnlineStep(s, e))
  {
    PolledAllGrammar(s, e, |s.devices|);
    var p := PolledAll(s, e, |s.devices|);
    if Leaves(e) {
      LoggedGrammar(p, OnlineStep(s, e), NDeath(Number(p, e.publishConnected)));
    }
  }

  /** A device command: the marker starts a new stretch for its device only. */
  lemma MarkedGrammar(s: NodeState, d: nat, entry: LogEntry, phase: DevicePhase)
    requires GrammarInv(s) && d < |s.devices|
    requires entry == DeviceStopped(d) || (entry == DeviceStarted(d) && phase == DeviceIdle)
    ensures GrammarInv(Logged(s.(devices := s.devices[d := phase]), entry))
  {
    DeviceLogged(s, Logged(s.(devices := s.devices[d := phase]), entry), d, entry);
  }

  lemma StopGrammar(s: NodeState, d: nat, connected: bool)
    requires GrammarInv(s) && d < |s.devices|
    ensures GrammarInv(Stepped(s, StopDevice(d, connected)))
  {
    if s.devices[d] == DeviceOnline && s.phase == Online {
      var out := PollInput(false, false, connected);
      PolledGrammar(s, d, out);
      MarkedGrammar(Polled(s, d, out), d, DeviceStopped(d), DeviceOnline);
      assert s.devices[d := DeviceOffline][d := DeviceOnline] == s.devices;
    } else {
      MarkedGrammar(s, d, DeviceStopped(d), s.devices[d]);
      assert s.devices[d := s.devices[d]] == s.devices;
    }
  }

  lemma SteppedGrammar(s: NodeState, ev: Event)
    requires GrammarInv(s)
    ensures GrammarInv(Stepped(s, ev))
  {
    match ev {
      case Iterate(e) =>
        match s.phase {
          case Idle => IdleGrammar(s, e);
          case WaitOnConnect => ConnectGrammar(s, e);
          case Online => OnlineGrammar(s, e);
          case WaitOnDisconnect => GrammarFrame(s, DisconnectStep(s, e));
        }
      case StartDevice(d) =>
        if d < |s.devices| { MarkedGrammar(s, d, DeviceStarted(d), DeviceIdle); }
      case StopDevice(d, connected) =>
        if d < |s.devices| { StopGrammar(s, d, connected); }
    }
  }

  /** Every run of `NodeTask`, whatever the environment and the device commands do. */
  lemma {:induction false} LogGrammar(seqNo: u8, devices: seq<DevicePhase>, events: seq<Event>)
    ensures GrammarInv(Run(Launched(seqNo, devices), events))
  {
    if events != [] {
      LogGrammar(seqNo, devices, events[..|events| - 1]);
      SteppedGrammar(Run(Launched(seqNo, devices), events[..|events| - 1]), events[|events| - 1]);
    }
  }

  lemma {:induction false} EventsAlternateUpTo(log: Log, n: nat, k: nat)
    requires Grammatical(log) && n <= |log| && k < |NodeEventsUpTo(log, n)|
    ensures NodeEventsUpTo(log, n)[k] <==> k % 2 == 0
  {
    assert AllowedAfter(log, n - 1, log[n - 1]);
    if k < |NodeEventsUpTo(log, n - 1)| { EventsAlternateUpTo(log, n - 1, k); }
  }

  /** In a grammatical log births and deaths of the node strictly alternate,
      beginning with a birth. */
  lemma NodeEventsAlternate(log: Log, k: nat)
    requires Grammatical(log) && k < |NodeEvents(log)|
    ensures NodeEvents(log)[k] <==> k % 2 == 0
  {
    EventsAlternateUpTo(log, |log|, k);
  }

  // ---------------------------------------------------------- sequence numbers

  ghost predicate CountsModulo(sent: seq<nat>, first: u8) {
    forall k :: 0 <= k < |sent| ==> sent[k] == (first + k) % 256
  }

  ghost predicate NumberInv(s: NodeState, first: u8) {
    s.seqNo == (first + |Sent(s.log)|) % 256 && CountsModulo(Sent(s.log), first)
  }

  lemma CountsModuloOn(sent: seq<nat>, first: u8)
    requires CountsModulo(sent, first)
    ensures CountsModulo(sent + [(first + |sent|) % 256], first)
  {
  }

  lemma {:induction false} SentPrefix(log: Log, entry: LogEntry, n: nat)
    requires n <= |log|
    ensures SentUpTo(log + [entry], n) == SentUpTo(log, n)
  {
    if n > 0 { SentPrefix(log, entry, n - 1); }
  }

  lemma SentAppend(log: Log, entry: LogEntry)
    ensures Sent(log + [entry]) == if NumberIn(entry).Some? then Sent(log) + [NumberIn(entry).value] else Sent(log)
  {
    SentPrefix(log, entry, |log|);
  }

  lemma NextModulo(a: nat)
    ensures (a + 1) % 256 == (a % 256 + 1) % 256
  {
    var q, r := a / 256, a % 256;
    assert a == 256 * q + r;
    if r == 255 {
      assert a + 1 == 256 * (q + 1);
    } else {
      assert a + 1 == 256 * q + (r + 1);
    }
  }

  lemma PublishedNumber(s: NodeState, first: u8, connected: bool, entry: LogEntry)
    requires NumberInv(s, first) && NumberIn(entry) == Number(s, connected)
    ensures NumberInv(Published(s, connected, entry), first)
  {
    SentAppend(s.log, entry);
    if connected {
      CountsModuloOn(Sent(s.log), first);
      NextModulo(first + |Sent(s.log)|);
    }
  }

  lemma {:induction false} PolledAllNumber(s: NodeState, first: u8, e: Input, n: nat)
    requires NumberInv(s, first) && n <= |s.devices|
    ensures NumberInv(PolledAll(s, e, n), first)
  {
    if n > 0 {
      PolledAllNumber(s, first, e, n - 1);
      var t, p := PolledAll(s, e, n - 1), PollOf(e, n - 1);
      assert PolledAll(s, e, n) == Polled(t, n - 1, p);
      PolledNumber(t, first, n - 1, p);
    }
  }

  lemma PolledNumber(s: NodeState, first: u8, d: nat, p: PollInput)
    requires NumberInv(s, first) && d < |s.devices|
    ensures NumberInv(Polled(s, d, p), first)
  {
    PublishedNumber(s, first, p.connected, DDeath(d, Number(s, p.connected)));
    PublishedNumber(s, first, p.connected, DBirth(d, Number(s, p.connected)));
  }

  lemma IdleNumber(s: NodeState, first: u8, e: Input)
    requires NumberInv(s, first)
    ensures NumberInv(IdleStep(s, e), first)
  {
    SentAppend(s.log, Attempt(e.now));
    SentAppend(s.log + [Attempt(e.now)], Will(0));
  }

  lemma IteratedNumber(s: NodeState, first: u8, e: Input)
    requires NumberInv(s, first)
    ensures NumberInv(Iterated(s, e), first)
  {
    match s.phase {
      case Idle => IdleNumber(s, first, e);
      case WaitOnConnect =>
        var entry := NBirth(Number(s, e.publishConnected));
        PublishedNumber(s, first, e.publishConnected, entry);
        PolledAllNumber(Published(s, e.publishConnected, entry).(phase := Online), first, e, |s.devices|);
      case Online =>
        PolledAllNumber(s, first, e, |s.devices|);
        var p := PolledAll(s, e, |s.devices|);
        PublishedNumber(p, first, e.publishConnected, NDeath(Number(p, e.publishConnected)));
      case WaitOnDisconnect =>
    }
  }

  lemma SteppedNumber(s: NodeState, first: u8, ev: Event)
    requires NumberInv(s, first)
    ensures NumberInv(Stepped(s, ev), first)
  {
    match ev {
      case Iterate(e) => IteratedNumber(s, first, e);
      case StartDevice(d) => PublishedNumber(s, first, false, DeviceStarted(d));
      case StopDevice(d, connected) =>
        var entry := DDeath(d, Number(s, connected));
        PublishedNumber(s, first, false, DeviceStopped(d));
        PublishedNumber(s, first, connected, entry);
        PublishedNumber(Published(s, connected, entry), first, false, DeviceStopped(d));
    }
  }

  /** The k-th message handed over in a run carries the k-th number behind the
      counter, modulo 256; everything else that is logged, the will included,
      takes none. */
  lemma {:induction false} SequenceNumbers(seqNo: u8, devices: seq<DevicePhase>, events: seq<Event>)
    ensures NumberInv(Run(Launched(seqNo, devices), events), seqNo)
  {
    if events != [] {
      SequenceNumbers(seqNo, devices, events[..|events| - 1]);
      SteppedNumber(Run(Launched(seqNo, devices), events[..|events| - 1]), seqNo, events[|events| - 1]);
    }
  }

  /** Neighbours differ by one; within 256 consecutive messages no number repeats. */
  lemma NumbersApart(seqNo: u8, devices: seq<DevicePhase>, events: seq<Event>, i: nat, j: nat)
    requires i < j < |Sent(Run(Launched(seqNo, devices), events).log)|
    ensures var sent := Sent(Run(Launched(seqNo, devices), events).log);
            && sent[i + 1] == (sent[i] + 1) % 256
            && (sent[i] == sent[j] <==> (j - i) % 256 == 0)
  {
    SequenceNumbers(seqNo, devices, events);
    CountsApart(Sent(Run(Launched(seqNo, devices), events).log), seqNo, i, j);
  }

  lemma CountsApart(sent: seq<nat>, first: u8, i: nat, j: nat)
    requires CountsModulo(sent, first) && i < j < |sent|
    ensures sent[i + 1] == (sent[i] + 1) % 256
    ensures sent[i] == sent[j] <==> (j - i) % 256 == 0
  {
    assert sent[i] == (first + i) % 256 && sent[i + 1] == (first + (i + 1)) % 256;
    assert (first + j) - (first + i) == j - i;
    NextModulo(first + i);
    ModuloApart(first + i, first + j);
  }

  lemma ModuloApart(a: nat, b: nat)
    requires a <= b
    ensures a % 256 == b % 256 <==> (b - a) % 256 == 0
  {
    var p, q := a / 256, b / 256;
    assert a == 256 * p + a % 256 && b == 256 * q + b % 256;
    var d, r := (b - a) / 256, (b - a) % 256;
    assert b - a == 256 * d + r;
    assert b % 256 - a % 256 - r == 256 * (d + p - q);
  }
}
