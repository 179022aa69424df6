/** What a client knows about a remote node: the metrics of its NBIRTH topic and
    which of them are stale. */
module Staleness {
  import opened Text
  import opened OrderedMap
  import opened Wire
  import opened Property
  import opened Metrics
  import opened Payloads
  import opened PayloadHelpers

  /** A message for a remote node.  An empty MQTT payload is not parsed. */
  datatype RemoteEvent =
    | NodeBirth(body: Option<Message>, now: nat)
    | NodeData(body: Option<Message>, now: nat)
    | NodeDeath

  function Invalid(ms: MetricMap): MetricMap {
    seq(|ms|, i requires 0 <= i < |ms| => Entry(ms[i].key, ms[i].value.(valid := false)))
  }

  function Received(body: Option<Message>, p: PayloadState, create: bool, now: nat): PayloadState {
    if body.None? then p else Parsed(body.value, p, create, now)
  }

  /** The NBIRTH payload of a node, or None while the node is unknown. */
  function RemoteStep(r: Option<PayloadState>, e: RemoteEvent): Option<PayloadState> {
    match e
    case NodeBirth(body, now) => Some(Received(body, r.GetOr(EMPTY_PAYLOAD), true, now))
    case NodeData(body, now) => if r.None? then r else Some(Received(body, r.value, false, now))
    case NodeDeath => if r.None? then r else Some(r.value.(metrics := Invalid(r.value.metrics)))
  }

  function RemoteRun(events: seq<RemoteEvent>): Option<PayloadState> {
    if events == [] then None else RemoteStep(RemoteRun(events[..|events| - 1]), events[|events| - 1])
  }

  // ------------------------------------------------------------- the handlers

  /** `ITopic::SetAllMetricsInvalid` */
  method SetAllMetricsInvalid(payload: Payload)
    requires payload.Valid()
    modifies payload.Owned()
    ensures payload.State() == old(payload.State()).(metrics := Invalid(old(payload.State()).metrics))
  {
    ghost var was := StatesOf(payload.metrics);
    for i := 0 to |payload.metrics|
      invariant forall j :: 0 <= j < |was| ==>
        payload.metrics[j].value.State() == if j < i then was[j].value.(valid := false) else was[j].value
    {
      assert payload.metrics[i] in payload.metrics;
      payload.metrics[i].value.valid := false;
    }
    assert StatesOf(payload.metrics) == Invalid(was);
  }

  class RemoteNode {
    var birth: Payload?

    ghost predicate Valid()
      reads this, birth
    {
      birth != null ==> birth.Valid()
    }

    ghost function State(): Option<PayloadState>
      reads this, birth, if birth == null then {} else birth.Owned()
    {
      if birth == null then None else Some(birth.State())
    }

    constructor ()
      ensures Valid() && State() == RemoteRun([])
    {
      birth := null;
    }

    /** The parsing part that the handlers share. */
    method Receive(body: Option<Message>, create: bool, now: nat)
      requires Valid() && birth != null
      modifies birth, birth.Owned()
      ensures Valid() && fresh(birth.Owned() - old(birth.Owned()))
      ensures birth.State() == Received(body, old(birth.State()), create, now)
    {
      if body.Some? {
        ParseSparkplugProtobuf(birth, body.value, create, now);
      }
    }

    /** `HandleNodeBirthMessage` */
    method HandleBirth(body: Option<Message>, now: nat)
      requires Valid()
      modifies this, birth, if birth == null then {} else birth.Owned()
      ensures Valid() && State() == RemoteStep(old(State()), NodeBirth(body, now))
    {
      if birth == null {
        birth := new Payload();
      }
      Receive(body, true, now);
    }

    /** `HandleNodeDataMessage` */
    method HandleData(body: Option<Message>, now: nat)
      requires Valid()
      modifies birth, if birth == null then {} else birth.Owned()
      ensures Valid() && State() == RemoteStep(old(State()), NodeData(body, now))
    {
      if birth != null {
        Receive(body, false, now);
      }
    }

    /** `HandleNodeDeathMessage`: the payload of the message plays no part. */
    method HandleDeath()
      requires Valid()
      modifies if birth == null then {} else birth.Owned()
      ensures Valid() && State() == RemoteStep(old(State()), NodeDeath)
    {
      if birth != null {
        SetAllMetricsInvalid(birth);
      }
    }
  }

  // ---------------------------------------------------------- who gets a value

  predicate ValidAt(ms: MetricMap, key: string) {
    var m := Lookup(ms, key);
    m.Some? && m.value.valid
  }

  /** The entry carries a value for the metric with this key. */
  predicate WritesTo(w: MetricEntry, ms: MetricMap, create: bool, key: string) {
    var i := Resolve(ms, w);
    && w.value != Absent
    && if i >= 0 then Same(ms[i].key, key) else Creates(ms, w, create) && Same(w.name.value, key)
  }

  /** Entry k of the message carries a value for the metric with this key. */
  predicate TouchesAt(ws: seq<MetricEntry>, p: PayloadState, create: bool, key: string, k: nat)
    requires k < |ws|
  {
    WritesTo(ws[k], ParsedEntries(ws[..k], p, create).metrics, create, key)
  }

  ghost predicate Touches(ws: seq<MetricEntry>, p: PayloadState, create: bool, key: string) {
    exists k :: 0 <= k < |ws| && TouchesAt(ws, p, create, key, k)
  }

  ghost predicate ParsesValue(r: Option<PayloadState>, e: RemoteEvent, key: string) {
    match e
    case NodeBirth(body, now) =>
      body.Some? && Touches(body.value.metrics, Headed(body.value, r.GetOr(EMPTY_PAYLOAD), now), true, key)
    case NodeData(body, now) =>
      body.Some? && r.Some? && Touches(body.value.metrics, Headed(body.value, r.value, now), false, key)
    case NodeDeath => false
  }

  // ----------------------------------------------------------------- one entry

  lemma ParsedValid(w: MetricEntry, m: MetricState, create: bool, now: nat)
    ensures ParsedMetric(w, m, create, now).valid <==> m.valid || w.value != Absent
  {
    var f := Flagged(w, Identified(w, m, create), now);
    assert f.valid == m.valid;
    assert StoredScalar(f, w.value).valid <==> f.valid || w.value != Absent;
  }

  lemma PutAt(p: PayloadState, i: nat, m: MetricState, key: string)
    requires Sorted(p.metrics) && i < |p.metrics|
    ensures Sorted(Put(p, i, m).metrics)
    ensures ValidAt(Put(p, i, m).metrics, key) ==
            if Same(p.metrics[i].key, key) then m.valid else ValidAt(p.metrics, key)
    ensures Same(p.metrics[i].key, key) ==> ValidAt(p.metrics, key) == p.metrics[i].value.valid
  {
    IndexOfOwnKey(p.metrics, i, p.metrics[i].key);
    LookupUpdate(p.metrics, i, m, key);
    if Same(p.metrics[i].key, key) { IndexOfOwnKey(p.metrics, i, key); }
  }

  /** A new metric is stale until its entry's value is stored. */
  lemma AdmittedStale(w: MetricEntry, p: PayloadState, create: bool, key: string)
    requires Sorted(p.metrics) && Creates(p.metrics, w, create)
    ensures var a := Admitted(w, p);
            && Sorted(a.metrics) && ValidAt(a.metrics, key) == ValidAt(p.metrics, key)
            && Resolve(a.metrics, w) >= 0 && Same(a.metrics[Resolve(a.metrics, w)].key, w.name.value)
  {
    var name := w.name.value;
    var c := Created(p, name);
    InsertSorted(p.metrics, name, BlankMetric(name));
    LookupInsert(p.metrics, name, BlankMetric(name), key);
    LookupInsert(p.metrics, name, BlankMetric(name), name);
    if Same(name, key) { AbsentForSame(p.metrics, name, key); }
    var i := IndexOf(c.metrics, name);
    IndexOfFirst(c.metrics, name);
    PutAt(c, i, Announced(w, c.metrics[i].value), key);
    assert Admitted(w, p).metrics[i].key == c.metrics[i].key;
    IndexOfOwnKey(Admitted(w, p).metrics, i, name);
  }

  lemma EntryValidity(w: MetricEntry, p: PayloadState, create: bool, key: string)
    requires Sorted(p.metrics)
    ensures var q := ParsedEntry(w, p, create);
            && Sorted(q.metrics)
            && (ValidAt(q.metrics, key) <==> ValidAt(p.metrics, key) || WritesTo(w, p.metrics, create, key))
  {
    var a := if Creates(p.metrics, w, create) then Admitted(w, p) else p;
    if Creates(p.metrics, w, create) { AdmittedStale(w, p, create, key); }
    var i := Resolve(a.metrics, w);
    if i >= 0 {
      ParsedValid(w, a.metrics[i].value, create, TimestampOf(a));
      PutAt(a, i, ParsedMetric(w, a.metrics[i].value, create, TimestampOf(a)), key);
      assert Creates(p.metrics, w, create) ==> (Same(a.metrics[i].key, key) <==> Same(w.name.value, key));
    }
  }

  // --------------------------------------------------------------- one message

  lemma {:induction false} EntriesValidity(ws: seq<MetricEntry>, p: PayloadState, create: bool, key: string)
    requires Sorted(p.metrics)
    ensures var q := ParsedEntries(ws, p, create);
            && Sorted(q.metrics)
            && (ValidAt(q.metrics, key) <==> ValidAt(p.metrics, key) || Touches(ws, p, create, key))
  {
    if ws != [] {
      var n := |ws| - 1;
      EntriesValidity(ws[..n], p, create, key);
      EntryValidity(ws[n], ParsedEntries(ws[..n], p, create), create, key);
      TouchesLast(ws, p, create, key);
    }
  }

  lemma TouchesEarlier(ws: seq<MetricEntry>, p: PayloadState, create: bool, key: string, k: nat)
    requires k < |ws| - 1
    ensures TouchesAt(ws[..|ws| - 1], p, create, key, k) == TouchesAt(ws, p, create, key, k)
  {
    assert ws[..|ws| - 1][k] == ws[k] && ws[..|ws| - 1][..k] == ws[..k];
  }

  lemma TouchesLast(ws: seq<MetricEntry>, p: PayloadState, create: bool, key: string)
    requires ws != []
    ensures var n := |ws| - 1;
            Touches(ws, p, create, key) <==> Touches(ws[..n], p, create, key) || TouchesAt(ws, p, create, key, n)
  {
    var n := |ws| - 1;
    var front := ws[..n];
    if k :| 0 <= k < |front| && TouchesAt(front, p, create, key, k) {
      TouchesEarlier(ws, p, create, key, k);
    }
    if k :| 0 <= k < n && TouchesAt(ws, p, create, key, k) {
      TouchesEarlier(ws, p, create, key, k);
      assert TouchesAt(front, p, create, key, k);
    }
  }

  lemma HeadedValidity(msg: Message, p: PayloadState, now: nat, key: string)
    requires Sorted(p.metrics) && !Same(key, TIMESTAMP)
    ensures Sorted(Headed(msg, p, now).metrics)
    ensures ValidAt(Headed(msg, p, now).metrics, key) == ValidAt(p.metrics, key)
  {
    var ms := msg.timestamp.GetOr(now);
    var i := IndexOf(p.metrics, TIMESTAMP);
    IndexOfFirst(p.metrics, TIMESTAMP);
    if i >= 0 {
      PutAt(p, i, Metrics.Written(p.metrics[i].value, WriteInt(ms)), key);
    }
  }

  // ------------------------------------------------------------------ all runs

  /** The position behind the most recent NDEATH. */
  function SinceDeath(events: seq<RemoteEvent>): (n: nat)
    ensures n <= |events|
  {
    if events == [] then 0
    else if events[|events| - 1] == NodeDeath then |events|
    else SinceDeath(events[..|events| - 1])
  }

  ghost predicate ValueSinceDeath(events: seq<RemoteEvent>, key: string) {
    exists j :: SinceDeath(events) <= j < |events| && ParsesValue(RemoteRun(events[..j]), events[j], key)
  }

  ghost predicate Known(r: Option<PayloadState>, key: string) {
    ValidAt(r.GetOr(EMPTY_PAYLOAD).metrics, key)
  }

  lemma StepValidity(r: Option<PayloadState>, e: RemoteEvent, key: string)
    requires Sorted(r.GetOr(EMPTY_PAYLOAD).metrics) && !Same(key, TIMESTAMP)
    ensures Sorted(RemoteStep(r, e).GetOr(EMPTY_PAYLOAD).metrics)
    ensures Known(RemoteStep(r, e), key) <==> e != NodeDeath && (Known(r, key) || ParsesValue(r, e, key))
  {
    var p := r.GetOr(EMPTY_PAYLOAD);
    match e {
      case NodeBirth(body, now) =>
        if body.Some? {
          HeadedValidity(body.value, p, now, key);
          EntriesValidity(body.value.metrics, Headed(body.value, p, now), true, key);
        }
      case NodeData(body, now) =>
        if body.Some? && r.Some? {
          HeadedValidity(body.value, p, now, key);
          EntriesValidity(body.value.metrics, Headed(body.value, p, now), false, key);
        }
      case NodeDeath =>
        var q := Invalid(p.metrics);
        assert forall i :: 0 <= i < |q| ==> q[i].key == p.metrics[i].key && !q[i].value.valid;
    }
  }

  lemma ValueSinceDeathLast(events: seq<RemoteEvent>, key: string)
    requires events != []
    ensures var n := |events| - 1;
            ValueSinceDeath(events, key) <==>
            events[n] != NodeDeath && (ValueSinceDeath(events[..n], key) || ParsesValue(RemoteRun(events[..n]), events[n], key))
  {
    var n := |events| - 1;
    var d := SinceDeath(events);
    forall j | 0 <= j < n ensures events[..n][j] == events[j] && events[..n][..j] == events[..j] {
    }
    if events[n] != NodeDeath && ValueSinceDeath(events[..n], key) {
      var j :| d <= j < n && ParsesValue(RemoteRun(events[..n][..j]), events[..n][j], key);
      assert ParsesValue(RemoteRun(events[..j]), events[j], key);
    }
  }

  /** After any sequence of messages a metric of the node is valid exactly when a
      value for it was parsed after the most recent NDEATH. */
  lemma {:induction false} ValidIffValueSinceDeath(events: seq<RemoteEvent>, key: string)
    requires !Same(key, TIMESTAMP)
    ensures Sorted(RemoteRun(events).GetOr(EMPTY_PAYLOAD).metrics)
    ensures Known(RemoteRun(events), key) <==> ValueSinceDeath(events, key)
  {
    if events != [] {
      var n := |events| - 1;
      ValidIffValueSinceDeath(events[..n], key);
      StepValidity(RemoteRun(events[..n]), events[n], key);
      ValueSinceDeathLast(events, key);
    }
  }

  // --------------------------------------------------------- what is not lost

  /** A death makes every metric stale and touches nothing else of it, nor of the node. */
  lemma DeathOnlyInvalidates(r: Option<PayloadState>, i: nat)
    requires r.Some? && i < |r.value.metrics|
    ensures var q := RemoteStep(r, NodeDeath);
            && q.Some? && q.value.timestamp == r.value.timestamp && |q.value.metrics| == |r.value.metrics|
            && q.value.metrics[i] == Entry(r.value.metrics[i].key, r.value.metrics[i].value.(valid := false))
  {
  }

  /** A node is known exactly from its first NBIRTH on. */
  lemma {:induction false} KnownSinceBirth(events: seq<RemoteEvent>)
    ensures RemoteRun(events).Some? <==> exists k :: 0 <= k < |events| && events[k].NodeBirth?
  {
    if events != [] {
      var n := |events| - 1;
      KnownSinceBirth(events[..n]);
      if k :| 0 <= k < n && events[..n][k].NodeBirth? { assert events[k].NodeBirth?; }
      if k :| 0 <= k < n && events[k].NodeBirth? { assert events[..n][k].NodeBirth?; }
    }
  }

  /** Parsing forgets no metric. */
  lemma EntryRemembers(w: MetricEntry, p: PayloadState, create: bool, key: string)
    requires Sorted(p.metrics)
    ensures Sorted(ParsedEntry(w, p, create).metrics)
    ensures Lookup(p.metrics, key).Some? ==> Lookup(ParsedEntry(w, p, create).metrics, key).Some?
  {
    EntryValidity(w, p, create, key);
    var a := p;
    if Creates(p.metrics, w, create) {
      var name := w.name.value;
      var c := Created(p, name);
      InsertSorted(p.metrics, name, BlankMetric(name));
      LookupInsert(p.metrics, name, BlankMetric(name), key);
      var i := IndexOf(c.metrics, name);
      if i >= 0 { PutRemembers(c, i, Announced(w, c.metrics[i].value), key); }
      a := Admitted(w, p);
    }
    var i := Resolve(a.metrics, w);
    if i >= 0 { PutRemembers(a, i, ParsedMetric(w, a.metrics[i].value, create, TimestampOf(a)), key); }
  }

  lemma PutRemembers(p: PayloadState, i: nat, m: MetricState, key: string)
    requires i < |p.metrics|
    ensures Lookup(p.metrics, key).Some? ==> Lookup(Put(p, i, m).metrics, key).Some?
  {
    IndexOfFirst(p.metrics, key);
    IndexOfFirst(Put(p, i, m).metrics, key);
    var k := IndexOf(p.metrics, key);
    if k >= 0 { assert Same(Put(p, i, m).metrics[k].key, key); }
  }

  lemma {:induction false} EntriesRemember(ws: seq<MetricEntry>, p: PayloadState, create: bool, key: string)
    requires Sorted(p.metrics)
    ensures Sorted(ParsedEntries(ws, p, create).metrics)
    ensures Lookup(p.metrics, key).Some? ==> Lookup(ParsedEntries(ws, p, create).metrics, key).Some?
  {
    if ws != [] {
      var n := |ws| - 1;
      EntriesRemember(ws[..n], p, create, key);
      EntryRemembers(ws[n], ParsedEntries(ws[..n], p, create), create, key);
    }
  }

  lemma ReceivedRemembers(body: Option<Message>, p: PayloadState, create: bool, now: nat, key: string)
    requires Sorted(p.metrics)
    ensures Lookup(p.metrics, key).Some? ==> Lookup(Received(body, p, create, now).metrics, key).Some?
  {
    if body.Some? {
      var ms := body.value.timestamp.GetOr(now);
      var i := IndexOf(p.metrics, TIMESTAMP);
      if i >= 0 {
        PutRemembers(p.(timestamp := ms), i, Metrics.Written(p.metrics[i].value, WriteInt(ms)), key);
      }
      var h := Headed(body.value, p, now);
      assert Sorted(h.metrics);
      EntriesRemember(body.value.metrics, h, create, key);
    }
  }

  ghost predicate Remembered(r: Option<PayloadState>, key: string) {
    Lookup(r.GetOr(EMPTY_PAYLOAD).metrics, key).Some?
  }

  /** No message makes the client forget a metric of the node, a death included. */
  lemma NeverForgotten(events: seq<RemoteEvent>, e: RemoteEvent, key: string)
    requires Remembered(RemoteRun(events), key)
    ensures Remembered(RemoteRun(events + [e]), key)
  {
    assert |Fold("")| == 0 && |Fold(TIMESTAMP)| == |TIMESTAMP|;
    ValidIffValueSinceDeath(events, "");
    assert (events + [e])[..|events|] == events;
    var p := RemoteRun(events).GetOr(EMPTY_PAYLOAD);
    match e {
      case NodeBirth(body, now) => ReceivedRemembers(body, p, true, now, key);
      case NodeData(body, now) => ReceivedRemembers(body, p, false, now, key);
      case NodeDeath =>
        IndexOfFirst(p.metrics, key);
        IndexOfFirst(Invalid(p.metrics), key);
        var k := IndexOf(p.metrics, key);
        assert Same(Invalid(p.metrics)[k].key, key);
    }
  }
}
