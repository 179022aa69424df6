/** Metric replication over whole runs: a full message, then local writes, delta
    messages and in-order deliveries in any order. */
module Replica {
  import opened Text
  import opened OrderedMap
  import opened Wire
  import opened Property
  import opened Metrics
  import opened Payloads
  import opened PayloadHelpers
  import opened RoundTrip

  /** A payload: sorted by name, and no alias given twice.  A metric may be without. */
  ghost predicate Publishable(ms: MetricMap) {
    && Sorted(ms)
    && (forall i :: 0 <= i < |ms| ==> ms[i].key == ms[i].value.name != "" && !Same(ms[i].key, TIMESTAMP))
    && (forall i, j :: 0 <= i < j < |ms| && ms[i].value.alias != 0 ==> ms[i].value.alias != ms[j].value.alias)
  }

  /** Same metrics in the same order: key, name, alias and type. */
  ghost predicate Mirror(a: MetricMap, b: MetricMap) {
    && |a| == |b|
    && forall i :: 0 <= i < |a| ==>
         && a[i].key == b[i].key && a[i].value.name == b[i].value.name
         && a[i].value.alias == b[i].value.alias && a[i].value.mtype == b[i].value.mtype
  }

  ghost predicate AgreeAt(a: MetricMap, b: MetricMap, i: nat)
    requires i < |a| && i < |b|
  {
    Agree(a[i].value, b[i].value)
  }

  // ------------------------------------------------------------------ lookups

  lemma MirrorFinds(a: MetricMap, b: MetricMap, i: nat)
    requires Publishable(a) && Mirror(a, b) && i < |a|
    ensures a[i].value.alias != 0 ==> AliasIndex(b, a[i].value.alias) == i
    ensures IndexOf(b, a[i].key) == i && IndexOf(b, TIMESTAMP) < 0
  {
    assert b[i].value.alias == a[i].value.alias;
    if a[i].value.alias != 0 {
      assert forall r :: 0 <= r < i ==> b[r].value.alias == a[r].value.alias != a[i].value.alias;
    }
    assert Sorted(b);
    IndexOfOwnKey(b, i, a[i].key);
    IndexOfFirst(b, TIMESTAMP);
  }

  /** One receiver metric replaced by one that matches the sender's. */
  lemma PutMirror(ms: MetricMap, p: PayloadState, k: nat, r: MetricState)
    requires Mirror(ms, p.metrics) && k < |ms|
    requires r.name == ms[k].value.name && r.alias == ms[k].value.alias && r.mtype == ms[k].value.mtype
    requires Agree(ms[k].value, r)
    ensures var q := Put(p, k, r);
            && Mirror(ms, q.metrics) && AgreeAt(ms, q.metrics, k)
            && forall i :: 0 <= i < |ms| && i != k ==> q.metrics[i] == p.metrics[i]
  {
  }

  lemma NoStamp(a: MetricMap, p: PayloadState, ms: nat)
    requires Publishable(a) && Mirror(a, p.metrics)
    ensures Stamped(p, ms).metrics == p.metrics
  {
    IndexOfFirst(p.metrics, TIMESTAMP);
  }

  // -------------------------------------------------------------------- birth

  lemma PrefixPublishable(ms: MetricMap, k: nat)
    requires Publishable(ms) && k <= |ms|
    ensures Publishable(ms[..k])
  {
  }

  /** The place a new metric gets when its name comes after all others. */
  lemma NewPlace(w: MetricEntry, p: PayloadState, name: string)
    requires w.name == Some(name) && name != ""
    requires forall i :: 0 <= i < |p.metrics| ==> Less(p.metrics[i].key, name)
    ensures var a := Admitted(w, p);
            && Creates(p.metrics, w, true)
            && a == p.(metrics := p.metrics + [Entry(name, Announced(w, BlankMetric(name)))])
            && Resolve(a.metrics, w) == |p.metrics|
  {
    var blank := BlankMetric(name);
    InsertLast(p.metrics, name, blank);
    AppendedIndex(p.metrics, name, blank);
    AppendedIndex(p.metrics, name, Announced(w, blank));
    var c := p.metrics + [Entry(name, blank)];
    assert Created(p, name) == p.(metrics := c);
    assert c[|p.metrics| := Entry(name, Announced(w, blank))] == p.metrics + [Entry(name, Announced(w, blank))];
  }

  /** In a full message that is every metric. */
  lemma BirthPlace(ms: MetricMap, p: PayloadState)
    requires Publishable(ms) && ms != [] && Mirror(ms[..|ms| - 1], p.metrics)
    ensures var m := ms[|ms| - 1].value;
            var w := WrittenMetric(m, true);
            var a := Admitted(w, p);
            && Creates(p.metrics, w, true)
            && a == p.(metrics := p.metrics + [Entry(m.name, Announced(w, BlankMetric(m.name)))])
            && Resolve(a.metrics, w) == |p.metrics|
  {
    var k := |ms| - 1;
    var m := ms[k].value;
    var w := WrittenMetric(m, true);
    assert ms[k].key == m.name;
    assert forall i :: 0 <= i < k ==> p.metrics[i].key == ms[..k][i].key == ms[i].key;
    NewPlace(w, p, m.name);
  }

  lemma AppendedIndex<V>(m: seq<Entry<V>>, key: string, v: V)
    requires IndexOf(m, key) < 0
    ensures IndexOf(m + [Entry(key, v)], key) == |m|
  {
    IndexOfConcat(m, [Entry(key, v)], key);
  }

  lemma AppendMirror(ms: MetricMap, front: MetricMap, e: Entry<MetricState>)
    requires ms != [] && Mirror(ms[..|ms| - 1], front)
    requires var l := ms[|ms| - 1];
             l.key == e.key && l.value.name == e.value.name && l.value.alias == e.value.alias && l.value.mtype == e.value.mtype
    ensures Mirror(ms, front + [e])
  {
  }

  /** One full entry, read by a payload that has the metrics before it. */
  lemma BirthEntry(ms: MetricMap, p: PayloadState)
    requires Publishable(ms) && ms != [] && Mirror(ms[..|ms| - 1], p.metrics)
    ensures var q := ParsedEntry(WrittenMetric(ms[|ms| - 1].value, true), p, true);
            && Mirror(ms, q.metrics) && AgreeAt(ms, q.metrics, |ms| - 1)
            && forall i :: 0 <= i < |ms| - 1 ==> q.metrics[i] == p.metrics[i]
  {
    var k := |ms| - 1;
    var m := ms[k].value;
    var w := WrittenMetric(m, true);
    var n := Announced(w, BlankMetric(m.name));
    BirthPlace(ms, p);
    assert n.name == m.name && n.alias == m.alias && n.mtype == m.mtype;
    AppendMirror(ms, p.metrics, Entry(m.name, n));
    var a := Admitted(w, p);
    IdentityKept(w, n, true, TimestampOf(a));
    if !IsFloat(MetricKind(m.mtype)) { ValueCarried(m, n, true, true, TimestampOf(a)); }
    PutMirror(ms, a, k, ParsedMetric(w, n, true, TimestampOf(a)));
  }

  ghost predicate Copies(ms: MetricMap, r: MetricMap) {
    Mirror(ms, r) && forall i :: 0 <= i < |ms| ==> AgreeAt(ms, r, i)
  }

  lemma CopiesOneMore(ms: MetricMap, p: MetricMap, q: MetricMap)
    requires ms != [] && Copies(ms[..|ms| - 1], p)
    requires Mirror(ms, q) && AgreeAt(ms, q, |ms| - 1)
    requires forall i :: 0 <= i < |ms| - 1 ==> q[i] == p[i]
    ensures Copies(ms, q)
  {
    var front := ms[..|ms| - 1];
    forall i | 0 <= i < |front| ensures AgreeAt(ms, q, i) {
      assert AgreeAt(front, p, i) && front[i] == ms[i];
    }
  }

  lemma BirthStep(ms: MetricMap, p: PayloadState)
    requires Publishable(ms) && ms != [] && Copies(ms[..|ms| - 1], p.metrics)
    ensures Copies(ms, ParsedEntry(WrittenMetric(ms[|ms| - 1].value, true), p, true).metrics)
  {
    BirthEntry(ms, p);
    CopiesOneMore(ms, p.metrics, ParsedEntry(WrittenMetric(ms[|ms| - 1].value, true), p, true).metrics);
  }

  lemma {:induction false} BirthEntries(ms: MetricMap, p: PayloadState)
    requires Publishable(ms) && p.metrics == []
    ensures Copies(ms, ParsedEntries(WrittenEntries(ms, true), p, true).metrics)
  {
    if ms != [] {
      var front := ms[..|ms| - 1];
      PrefixPublishable(ms, |ms| - 1);
      BirthEntries(front, p);
      var ws, ws0 := WrittenEntries(ms, true), WrittenEntries(front, true);
      assert ws == ws0 + [WrittenMetric(ms[|ms| - 1].value, true)];
      assert ws[..|ws| - 1] == ws0;
      BirthStep(ms, ParsedEntries(ws0, p, true));
    }
  }

  /** A full message read by an empty receiver that creates metrics. */
  lemma BirthAgrees(s: PayloadState, now: nat)
    requires Publishable(s.metrics)
    ensures var r := Parsed(WrittenMessage(s, true), EMPTY_PAYLOAD, true, now);
            Copies(s.metrics, r.metrics)
  {
    BirthEntries(s.metrics, Headed(WrittenMessage(s, true), EMPTY_PAYLOAD, now));
  }

  // -------------------------------------------------------------------- delta

  lemma DeltaEntry(ms: MetricMap, k: nat, p: PayloadState)
    requires Publishable(ms) && k < |ms| && Mirror(ms, p.metrics)
    ensures var q := ParsedEntry(WrittenMetric(ms[k].value, false), p, false);
            && Mirror(ms, q.metrics) && AgreeAt(ms, q.metrics, k)
            && forall i :: 0 <= i < |ms| && i != k ==> q.metrics[i] == p.metrics[i]
  {
    var n, w := p.metrics[k].value, WrittenMetric(ms[k].value, false);
    MirrorFinds(ms, p.metrics, k);
    assert n.alias == ms[k].value.alias && Resolve(p.metrics, w) == k;
    IdentityKept(w, n, false, TimestampOf(p));
    if !IsFloat(MetricKind(n.mtype)) { ValueCarried(ms[k].value, n, false, false, TimestampOf(p)); }
    PutMirror(ms, p, k, ParsedMetric(w, n, false, TimestampOf(p)));
  }

  /** After the first k metrics of a delta: what was written agrees, the rest of
      the receiver is as it was. */
  ghost predicate Reached(ms: MetricMap, k: nat, p: MetricMap, q: MetricMap) {
    && Mirror(ms, q) && |p| == |ms|
    && forall i :: 0 <= i < |ms| ==>
         if i < k && Included(ms[i], false) then AgreeAt(ms, q, i) else q[i] == p[i]
  }

  lemma DeltaStep(ms: MetricMap, k: nat, p: MetricMap, q: PayloadState)
    requires Publishable(ms) && k < |ms| && Reached(ms, k, p, q.metrics) && Included(ms[k], false)
    ensures Reached(ms, k + 1, p, ParsedEntry(WrittenMetric(ms[k].value, false), q, false).metrics)
  {
    DeltaEntry(ms, k, q);
  }

  lemma DeltaSkip(ms: MetricMap, k: nat, p: MetricMap, q: MetricMap)
    requires k < |ms| && Reached(ms, k, p, q) && !Included(ms[k], false)
    ensures Reached(ms, k + 1, p, q)
  {
  }

  lemma ParsedLast(ws: seq<MetricEntry>, w: MetricEntry, p: PayloadState, create: bool)
    ensures ParsedEntries(ws + [w], p, create) == ParsedEntry(w, ParsedEntries(ws, p, create), create)
  {
    assert (ws + [w])[..|ws|] == ws;
  }

  lemma DeltaOneMore(ms: MetricMap, k: nat, p: PayloadState)
    requires Publishable(ms) && k < |ms|
    requires Reached(ms, k, p.metrics, ParsedEntries(WrittenEntries(ms[..k], false), p, false).metrics)
    ensures Reached(ms, k + 1, p.metrics, ParsedEntries(WrittenEntries(ms[..k + 1], false), p, false).metrics)
  {
    var ws := WrittenEntries(ms[..k], false);
    WrittenNext(ms, k, false);
    if Included(ms[k], false) {
      ParsedLast(ws, WrittenMetric(ms[k].value, false), p, false);
      DeltaStep(ms, k, p.metrics, ParsedEntries(ws, p, false));
    } else {
      assert WrittenEntries(ms[..k + 1], false) == ws;
      DeltaSkip(ms, k, p.metrics, ParsedEntries(ws, p, false).metrics);
    }
  }

  lemma {:induction false} DeltaEntries(ms: MetricMap, k: nat, p: PayloadState)
    requires Publishable(ms) && k <= |ms| && Mirror(ms, p.metrics)
    ensures Reached(ms, k, p.metrics, ParsedEntries(WrittenEntries(ms[..k], false), p, false).metrics)
  {
    if k > 0 {
      DeltaEntries(ms, k - 1, p);
      DeltaOneMore(ms, k - 1, p);
    }
  }

  lemma DeltaAgrees(s: PayloadState, r: PayloadState, now: nat)
    requires Publishable(s.metrics) && Mirror(s.metrics, r.metrics)
    ensures var q := Parsed(WrittenMessage(s, false), r, false, now);
            && Mirror(s.metrics, q.metrics)
            && forall i :: 0 <= i < |s.metrics| ==>
                 if s.metrics[i].value.updated then AgreeAt(s.metrics, q.metrics, i) else q.metrics[i] == r.metrics[i]
  {
    var msg := WrittenMessage(s, false);
    NoStamp(s.metrics, r, msg.timestamp.value);
    DeltaEntries(s.metrics, |s.metrics|, Headed(msg, r, now));
    assert s.metrics[..|s.metrics|] == s.metrics;
  }

  // --------------------------------------------------------------------- runs

  datatype System = System(sender: PayloadState, receiver: PayloadState, inFlight: seq<Message>)

  datatype Event =
    | LocalWrite(i: nat, w: Write)   // one of the sender's metrics is set
    | Publish(ms: nat)               // the sender stamps its payload and writes a delta
    | Deliver(now: nat)              // the oldest message arrives as data

  function Step(s: System, e: Event): System {
    match e
    case LocalWrite(i, w) =>
      if i >= |s.sender.metrics| then s
      else s.(sender := Put(s.sender, i, Metrics.Written(s.sender.metrics[i].value, w)))
    case Publish(ms) =>
      var p := Stamped(s.sender, ms);
      s.(sender := p.(metrics := Cleared(p.metrics, false)), inFlight := s.inFlight + [WrittenMessage(p, false)])
    case Deliver(now) =>
      if s.inFlight == [] then s
      else s.(receiver := Parsed(s.inFlight[0], s.receiver, false, now), inFlight := s.inFlight[1..])
  }

  function Run(s: System, events: seq<Event>): System {
    if events == [] then s else Step(Run(s, events[..|events| - 1]), events[|events| - 1])
  }

  /** The receiver once everything in flight has arrived. */
  function CaughtUp(r: PayloadState, msgs: seq<Message>): PayloadState
    decreases |msgs|
  {
    if msgs == [] then r else CaughtUp(Parsed(msgs[0], r, false, 0), msgs[1..])
  }

  lemma {:induction false} CaughtUpLast(r: PayloadState, msgs: seq<Message>, m: Message)
    ensures CaughtUp(r, msgs + [m]) == Parsed(m, CaughtUp(r, msgs), false, 0)
    decreases |msgs|
  {
    if msgs == [] {
      assert CaughtUp(Parsed(m, r, false, 0), []) == Parsed(m, r, false, 0);
    } else {
      assert (msgs + [m])[1..] == msgs[1..] + [m];
      CaughtUpLast(Parsed(msgs[0], r, false, 0), msgs[1..], m);
    }
  }

  /** The state after birth: both sides, nothing in flight. */
  function Born(s: PayloadState, now: nat): System {
    System(s.(metrics := Cleared(s.metrics, true)), Parsed(WrittenMessage(s, true), EMPTY_PAYLOAD, true, now), [])
  }

  ghost predicate Consistent(s: System) {
    var r := CaughtUp(s.receiver, s.inFlight);
    && Publishable(s.sender.metrics) && Mirror(s.sender.metrics, r.metrics)
    && (forall k :: 0 <= k < |s.inFlight| ==> s.inFlight[k].timestamp.Some?)
    && forall i :: 0 <= i < |s.sender.metrics| && !s.sender.metrics[i].value.updated ==> AgreeAt(s.sender.metrics, r.metrics, i)
  }

  /** Taking flags down changes nothing else. */
  lemma ClearedLooksSame(ms: MetricMap, all: bool)
    requires Publishable(ms)
    ensures var c := Cleared(ms, all);
            && Publishable(c) && Mirror(ms, c)
            && forall i :: 0 <= i < |ms| ==>
                 && Reading(c[i].value) == Reading(ms[i].value)
                 && (c[i].value.updated <==> ms[i].value.updated && !all && !Included(ms[i], all))
  {
    var c := Cleared(ms, all);
    forall i | 0 <= i < |ms|
      ensures c[i] == ms[i] || c[i] == Entry(ms[i].key, ms[i].value.(updated := false))
    {
    }
  }

  lemma ConsistentAtRest(p: PayloadState, r: PayloadState)
    requires Publishable(p.metrics) && Copies(p.metrics, r.metrics)
    ensures Consistent(System(p, r, []))
  {
  }

  lemma BornConsistent(s: PayloadState, now: nat)
    requires Publishable(s.metrics)
    ensures Consistent(Born(s, now))
  {
    BirthAgrees(s, now);
    ClearedLooksSame(s.metrics, true);
    var b := Born(s, now);
    forall i | 0 <= i < |s.metrics| ensures AgreeAt(b.sender.metrics, b.receiver.metrics, i) {
      assert AgreeAt(s.metrics, b.receiver.metrics, i);
    }
    ConsistentAtRest(b.sender, b.receiver);
  }

  lemma WriteLooksSame(ms: MetricMap, i: nat, w: Write)
    requires Publishable(ms) && i < |ms|
    ensures var r := ms[i := Entry(ms[i].key, Metrics.Written(ms[i].value, w))];
            && Publishable(r) && Mirror(r, ms)
            && (!r[i].value.updated ==> !ms[i].value.updated && Reading(r[i].value) == Reading(ms[i].value))
  {
    WrittenKeepsIdentity(ms[i].value, w);
  }

  lemma MirrorTransitive(a: MetricMap, b: MetricMap, c: MetricMap)
    requires Mirror(a, b) && Mirror(b, c)
    ensures Mirror(a, c)
  {
  }

  lemma WriteKeepsConsistent(s: System, i: nat, w: Write)
    requires Consistent(s)
    ensures Consistent(Step(s, LocalWrite(i, w)))
  {
    if i < |s.sender.metrics| {
      var t := Step(s, LocalWrite(i, w));
      WriteLooksSame(s.sender.metrics, i, w);
      MirrorTransitive(t.sender.metrics, s.sender.metrics, CaughtUp(s.receiver, s.inFlight).metrics);
    }
  }

  /** What a delivered delta, then the flags taken down, leave of agreement. */
  lemma DeltaSettles(ms: MetricMap, r: MetricMap, q: MetricMap)
    requires Publishable(ms) && |r| == |ms| && Mirror(ms, q)
    requires forall i :: 0 <= i < |ms| ==> if ms[i].value.updated then AgreeAt(ms, q, i) else q[i] == r[i]
    requires forall i :: 0 <= i < |ms| && !ms[i].value.updated ==> AgreeAt(ms, r, i)
    ensures var c := Cleared(ms, false); Publishable(c) && Mirror(c, q) && forall i :: 0 <= i < |c| ==> AgreeAt(c, q, i)
  {
    var c := Cleared(ms, false);
    ClearedLooksSame(ms, false);
    forall i | 0 <= i < |c| ensures AgreeAt(c, q, i) {
      assert c[i].value.mtype == ms[i].value.mtype;
      assert !ms[i].value.updated ==> AgreeAt(ms, r, i);
    }
  }

  lemma PublishKeepsConsistent(s: System, ms: nat)
    requires Consistent(s)
    ensures Consistent(Step(s, Publish(ms)))
  {
    var p := Stamped(s.sender, ms);
    NoStamp(s.sender.metrics, s.sender, ms);
    var r := CaughtUp(s.receiver, s.inFlight);
    CaughtUpLast(s.receiver, s.inFlight, WrittenMessage(p, false));
    DeltaAgrees(p, r, 0);
    DeltaSettles(p.metrics, r.metrics, Parsed(WrittenMessage(p, false), r, false, 0).metrics);
  }

  lemma {:induction false} RunConsistent(s: System, events: seq<Event>)
    requires Consistent(s)
    ensures Consistent(Run(s, events))
  {
    if events != [] {
      RunConsistent(s, events[..|events| - 1]);
      var t := Run(s, events[..|events| - 1]);
      match events[|events| - 1] {
        case LocalWrite(i, w) => WriteKeepsConsistent(t, i, w);
        case Publish(ms) => PublishKeepsConsistent(t, ms);
        case Deliver(now) =>
      }
    }
  }

  /** Replica agreement: at every moment of every run, applying what is in flight
      gives the sender's typed value for each metric whose flag is down; at rest,
      with all flags down, both sides are equal. */
  lemma ReplicaAgreement(birth: PayloadState, now: nat, events: seq<Event>)
    requires Publishable(birth.metrics)
    ensures var s := Run(Born(birth, now), events);
            var ahead := CaughtUp(s.receiver, s.inFlight);
            && Mirror(s.sender.metrics, ahead.metrics)
            && (forall i :: 0 <= i < |s.sender.metrics| && !s.sender.metrics[i].value.updated ==>
                  AgreeAt(s.sender.metrics, ahead.metrics, i))
            && (s.inFlight == [] && (forall i :: 0 <= i < |s.sender.metrics| ==> !s.sender.metrics[i].value.updated) ==>
                  Mirror(s.sender.metrics, s.receiver.metrics) &&
                  forall i :: 0 <= i < |s.sender.metrics| ==> AgreeAt(s.sender.metrics, s.receiver.metrics, i))
  {
    BornConsistent(birth, now);
    RunConsistent(Born(birth, now), events);
  }
}
