/** `PayloadHelper`: payloads to protobuf messages and back.  The functions say
    what a message or a payload becomes; the class does it on the objects. */
module PayloadHelpers {
  import opened Text
  import opened OrderedMap
  import opened Wire
  import opened Property
  import opened Metrics
  import opened Payloads

  // ------------------------------------------------------------------ writing

  /** `WriteMetric`: name and type only go into a full message, except that a
      metric without alias keeps its name. */
  function WrittenMetric(m: MetricState, all: bool): MetricEntry {
    var propertySet := WrittenSet(m.properties, all);
    MetricEntry(
      if all || m.alias == 0 then Some(m.name) else None,
      Some(m.alias), Some(m.timestamp),
      if all then Some(m.mtype as nat) else None,
      Some(m.historical), Some(m.transient), Some(m.isNull),
      Encode(MetricKind(m.mtype), m.text),
      if propertySet.keys != [] then Some(propertySet) else None)
  }

  predicate Included(e: Entry<MetricState>, all: bool) {
    e.key != "" && (all || e.value.updated)
  }

  function WrittenEntries(ms: MetricMap, all: bool): seq<MetricEntry> {
    if ms == [] then []
    else
      var last := ms[|ms| - 1];
      WrittenEntries(ms[..|ms| - 1], all) + (if Included(last, all) then [WrittenMetric(last.value, all)] else [])
  }

  /** What writing leaves behind: the flags of the metrics that went out are down. */
  function ClearedEntry(e: Entry<MetricState>, all: bool): Entry<MetricState> {
    if Included(e, all) then Entry(e.key, e.value.(updated := false)) else e
  }

  function Cleared(ms: MetricMap, all: bool): MetricMap {
    seq(|ms|, i requires 0 <= i < |ms| => ClearedEntry(ms[i], all))
  }

  /** The same after the first n entries. */
  function ClearedUpTo(ms: MetricMap, all: bool, n: nat): MetricMap {
    seq(|ms|, i requires 0 <= i < |ms| => if i < n then ClearedEntry(ms[i], all) else ms[i])
  }

  function WrittenMessage(p: PayloadState, all: bool): Message {
    Message(Some(TimestampOf(p)), Some(p.seqNo), if p.uuid == "" then None else Some(p.uuid),
            WrittenEntries(p.metrics, all))
  }

  // ------------------------------------------------------------------ parsing

  /** The value part of `ParseMetric`. */
  function StoredScalar(m: MetricState, v: Scalar): MetricState {
    match v
    case Absent => m
    case StringValue(s) => StoredText(m, s)
    case BytesValue(s) => StoredText(m, s)
    case _ => Stored(m, Decode(MetricSigned(m.mtype), v))
  }

  /** Name, alias and type are filled only while blank and only with `create`. */
  function Identified(w: MetricEntry, m: MetricState, create: bool): MetricState {
    m.(name := if m.name == "" && w.name.Some? && create then w.name.value else m.name,
       alias := if m.alias == 0 && w.alias.Some? && create then w.alias.value else m.alias,
       mtype := if m.mtype == UNKNOWN && w.datatypeCode.Some? && create
                then TypeOfCode(w.datatypeCode.value) else m.mtype)
  }

  /** The transient flag is looked at only when the historical flag is present. */
  function Flagged(w: MetricEntry, m: MetricState, now: nat): MetricState {
    m.(timestamp := w.timestamp.GetOr(now),
       historical := w.historical.GetOr(false),
       transient := w.historical.Some? && w.transient.GetOr(false),
       isNull := w.isNull.GetOr(false))
  }

  function MergedInto(w: MetricEntry, m: MetricState, create: bool): MetricState {
    if w.properties.None? then m
    else m.(properties := Merged(w.properties.value, |w.properties.value.keys|, m.properties, create))
  }

  /** `ParseMetric` */
  function ParsedMetric(w: MetricEntry, m: MetricState, create: bool, now: nat): MetricState {
    MergedInto(w, StoredScalar(Flagged(w, Identified(w, m, create), now), w.value), create)
  }

  /** By name if the entry has one, else by alias. */
  function Resolve(ms: MetricMap, w: MetricEntry): (r: int)
    ensures -1 <= r < |ms|
  {
    if w.name.Some? then IndexOf(ms, w.name.value)
    else if w.alias.Some? then AliasIndex(ms, w.alias.value)
    else -1
  }

  /** A metric the message creates starts with its alias and type. */
  function Announced(w: MetricEntry, m: MetricState): MetricState {
    m.(alias := w.alias.GetOr(m.alias),
       mtype := if w.datatypeCode.Some? then TypeOfCode(w.datatypeCode.value) else m.mtype)
  }

  predicate Creates(ms: MetricMap, w: MetricEntry, create: bool) {
    Resolve(ms, w) < 0 && create && w.name.GetOr("") != ""
  }

  /** A new metric under the name of the entry. */
  function Admitted(w: MetricEntry, p: PayloadState): PayloadState {
    var q := Created(p, w.name.GetOr(""));
    var i := IndexOf(q.metrics, w.name.GetOr(""));
    if i < 0 then q else Put(q, i, Announced(w, q.metrics[i].value))
  }

  /** One entry of the loop in `ParseProtobuf`. */
  function ParsedEntry(w: MetricEntry, p: PayloadState, create: bool): PayloadState {
    var q := if Creates(p.metrics, w, create) then Admitted(w, p) else p;
    var i := Resolve(q.metrics, w);
    if i < 0 then q else ParsedAt(w, q, i, create)
  }

  function ParsedAt(w: MetricEntry, p: PayloadState, i: nat, create: bool): PayloadState
    requires i < |p.metrics|
  {
    Put(p, i, ParsedMetric(w, p.metrics[i].value, create, TimestampOf(p)))
  }

  function ParsedEntries(ws: seq<MetricEntry>, p: PayloadState, create: bool): PayloadState {
    if ws == [] then p
    else ParsedEntry(ws[|ws| - 1], ParsedEntries(ws[..|ws| - 1], p, create), create)
  }

  function Headed(msg: Message, p: PayloadState, now: nat): PayloadState {
    var q := Stamped(p, msg.timestamp.GetOr(now));
    q.(seqNo := msg.seqNo.GetOr(q.seqNo), uuid := msg.uuid.GetOr(q.uuid))
  }

  /** `ParseProtobuf`, at wall-clock time `now`. */
  function Parsed(msg: Message, p: PayloadState, create: bool, now: nat): PayloadState {
    ParsedEntries(msg.metrics, Headed(msg, p, now), create)
  }

  // ---------------------------------------------------------------- the class

  class PayloadHelper {
    const source: Payload
    var writeAll: bool
    var createMetrics: bool

    constructor (source: Payload)
      ensures this.source == source && !writeAll && !createMetrics
    {
      this.source, writeAll, createMetrics := source, false, false;
    }

    /** The accessor and wire field are chosen by the type. */
    method WriteValue(metric: Metric) returns (value: Scalar)
      ensures value == Encode(MetricKind(metric.mtype), metric.text)
    {
      match MetricKind(metric.mtype) {
        case S32 => value := IntValue(ToU32(ReadSigned(TWO_31, metric.text)));
        case S64 => value := LongValue(ToU64(ReadSigned(TWO_63, metric.text)));
        case U32 => value := IntValue(ReadUnsigned(TWO_32, metric.text));
        case U64 => value := LongValue(ReadUnsigned(TWO_64, metric.text));
        case F32 => value := FloatValue(metric.text);
        case F64 => value := DoubleValue(metric.text);
        case Flag => value := BoolValue(ReadBool(metric.text));
        case Chars => value := StringValue(metric.text);
      }
    }

    method WriteMetric(metric: Metric) returns (w: MetricEntry)
      ensures w == WrittenMetric(metric.State(), writeAll)
    {
      var value := WriteValue(metric);
      var properties: Option<PropertySet> := None;
      var changed, propertySet := WritePropertySet(metric.properties, writeAll);
      KeysWritten(metric.properties);
      if changed {
        properties := Some(propertySet);
      }
      w := MetricEntry(
        if writeAll || metric.alias == 0 then Some(metric.name) else None,
        Some(metric.alias), Some(metric.timestamp),
        if writeAll then Some(metric.mtype as nat) else None,
        Some(metric.historical), Some(metric.transient), Some(metric.isNull), value, properties);
    }

    /** One round of the writer's loop. */
    method WriteEntry(i: nat) returns (entries: seq<MetricEntry>)
      requires source.Valid() && i < |source.metrics|
      modifies source.metrics[i].value
      ensures var ms := old(StatesOf(source.metrics));
              && StatesOf(source.metrics) == ms[i := ClearedEntry(ms[i], writeAll)]
              && entries == if Included(ms[i], writeAll) then [WrittenMetric(ms[i].value, writeAll)] else []
    {
      ghost var was := StatesOf(source.metrics);
      var metric := source.metrics[i].value;
      entries := [];
      if source.metrics[i].key != "" && (writeAll || metric.updated) {
        var w := WriteMetric(metric);
        entries := [w];
        metric.updated := false;
      }
      OneChanged(source.metrics, i, was);
    }

    method WriteEntries() returns (entries: seq<MetricEntry>)
      requires source.Valid()
      modifies source.Owned()
      ensures entries == WrittenEntries(old(StatesOf(source.metrics)), writeAll)
      ensures StatesOf(source.metrics) == Cleared(old(StatesOf(source.metrics)), writeAll)
    {
      ghost var was := StatesOf(source.metrics);
      ClearedSteps(was, writeAll);
      entries := [];
      for i := 0 to |source.metrics|
        invariant StatesOf(source.metrics) == ClearedUpTo(was, writeAll, i)
        invariant entries == WrittenEntries(was[..i], writeAll)
      {
        WrittenNext(was, i, writeAll);
        assert source.metrics[i] in source.metrics;
        var more := WriteEntry(i);
        entries := entries + more;
      }
      assert was[..|was|] == was;
    }

    /** Writes the message into the body and takes the flags of its metrics down. */
    method WriteProtobuf()
      requires source.Valid()
      modifies source`body, source.Owned()
      ensures source.body == Some(WrittenMessage(old(source.State()), writeAll))
      ensures source.State() == old(source.State()).(metrics := Cleared(old(source.State()).metrics, writeAll))
    {
      var timestamp := source.GetTimestamp();
      var entries := WriteEntries();
      source.body := Some(Message(Some(timestamp), Some(source.seqNo),
                                  if source.uuid == "" then None else Some(source.uuid), entries));
    }

    method ParseMetric(w: MetricEntry, metric: Metric)
      requires source.Valid()
      modifies metric
      ensures metric.State() == ParsedMetric(w, old(metric.State()), createMetrics, old(TimestampOf(source.State())))
    {
      ghost var m, p := metric.State(), source.State();
      var now := source.GetTimestamp();
      Identify(w, metric);
      SetFlags(w, metric, now);
      StoreScalar(w.value, metric);
      ghost var n := StoredScalar(Flagged(w, Identified(w, m, createMetrics), TimestampOf(p)), w.value);
      assert metric.State() == n;
      if w.properties.Some? {
        MergeProperties(w.properties.value, metric);
      }
      assert metric.State() == MergedInto(w, n, createMetrics);
    }

    method SetFlags(w: MetricEntry, metric: Metric, now: nat)
      modifies metric`timestamp, metric`historical, metric`transient, metric`isNull
      ensures metric.State() == Flagged(w, old(metric.State()), now)
    {
      metric.timestamp := if w.timestamp.Some? then w.timestamp.value else now;
      metric.historical := if w.historical.Some? then w.historical.value else false;
      metric.transient := if w.historical.Some? then w.transient.GetOr(false) else false;
      metric.isNull := if w.isNull.Some? then w.isNull.value else false;
    }

    method Identify(w: MetricEntry, metric: Metric)
      modifies metric`name, metric`alias, metric`mtype
      ensures metric.State() == Identified(w, old(metric.State()), createMetrics)
    {
      if metric.name == "" && w.name.Some? && createMetrics {
        metric.name := w.name.value;
      }
      if metric.alias == 0 && w.alias.Some? && createMetrics {
        metric.alias := w.alias.value;
      }
      if metric.mtype == UNKNOWN && w.datatypeCode.Some? && createMetrics {
        metric.mtype := TypeOfCode(w.datatypeCode.value);
      }
    }

    method StoreScalar(v: Scalar, metric: Metric)
      modifies metric
      ensures metric.State() == StoredScalar(old(metric.State()), v)
    {
      match v {
        case Absent =>
        case IntValue(i) => metric.SetInt(if MetricSigned(metric.mtype) then FromU32(i) else i);
        case LongValue(l) => metric.SetInt(if MetricSigned(metric.mtype) then FromU64(l) else l);
        case FloatValue(f) => metric.SetView(f);
        case DoubleValue(d) => metric.SetView(d);
        case BoolValue(b) => metric.SetBool(b);
        case StringValue(s) => metric.SetString(s);
        case BytesValue(s) => metric.SetString(s);
      }
    }

    method MergeProperties(w: PropertySet, metric: Metric)
      modifies metric`properties
      ensures metric.properties == Merged(w, |w.keys|, old(metric.properties), createMetrics)
    {
      for n := 0 to |w.keys|
        invariant metric.properties == Merged(w, n, old(metric.properties), createMetrics)
      {
        var key := w.keys[n];
        if key == "" || n >= |w.values| {
          continue;
        }
        var v := w.values[n];
        var i := IndexOf(metric.properties, key);
        if i < 0 {
          if !createMetrics {
            continue;
          }
          var created := ParsePropertyValue(v, TypedBlank(key, v), createMetrics);
          metric.properties := Insert(metric.properties, key, created);
        } else {
          var changed := ParsePropertyValue(v, metric.properties[i].value, createMetrics);
          metric.properties := metric.properties[i := Entry(metric.properties[i].key, changed)];
        }
      }
    }

    /** The metric an unknown name brings into being. */
    method CreateAnnounced(w: MetricEntry) returns (i: nat)
      requires source.Valid() && w.name.Some?
      modifies source, source.Owned()
      ensures source.Valid() && fresh(source.Owned() - old(source.Owned()))
      ensures source.State() == Admitted(w, old(source.State()))
      ensures i < |source.metrics| && i == IndexOf(source.State().metrics, w.name.value)
    {
      i := source.CreateMetric(w.name.value);
      SameKeys(source.metrics, w.name.value);
      ghost var created := StatesOf(source.metrics);
      Announce(w, source.metrics[i].value);
      OneChanged(source.metrics, i, created);
      SameKeys(source.metrics, w.name.value);
    }

    method Announce(w: MetricEntry, metric: Metric)
      modifies metric`alias, metric`mtype
      ensures metric.State() == Announced(w, old(metric.State()))
    {
      if w.alias.Some? {
        metric.alias := w.alias.value;
      }
      if w.datatypeCode.Some? {
        metric.mtype := TypeOfCode(w.datatypeCode.value);
      }
    }

    method ParseInto(i: nat, w: MetricEntry)
      requires source.Valid() && i < |source.metrics|
      modifies source.metrics[i].value
      ensures source.State() == ParsedAt(w, old(source.State()), i, createMetrics)
    {
      ghost var before := StatesOf(source.metrics);
      ParseMetric(w, source.metrics[i].value);
      OneChanged(source.metrics, i, before);
    }

    method FindMetric(w: MetricEntry) returns (i: int)
      ensures i == Resolve(source.State().metrics, w)
    {
      i := -1;
      if w.name.Some? {
        i := source.GetMetric(w.name.value);
      } else if w.alias.Some? {
        i := source.GetMetricByAlias(w.alias.value);
      }
    }

    method FindOrCreate(w: MetricEntry) returns (i: int)
      requires source.Valid()
      modifies source, source.Owned()
      ensures source.Valid() && fresh(source.Owned() - old(source.Owned()))
      ensures var p := old(source.State());
              source.State() == if Creates(p.metrics, w, createMetrics) then Admitted(w, p) else p
      ensures i == Resolve(source.State().metrics, w) && i < |source.metrics|
    {
      i := FindMetric(w);
      if i < 0 && w.name.GetOr("") != "" && createMetrics {
        i := CreateAnnounced(w);
      }
    }

    /** One round of the loop in `ParseProtobuf`. */
    method ParseEntry(w: MetricEntry)
      requires source.Valid()
      modifies source, source.Owned()
      ensures source.Valid() && fresh(source.Owned() - old(source.Owned()))
      ensures source.State() == ParsedEntry(w, old(source.State()), createMetrics)
    {
      var i := FindOrCreate(w);
      if i < 0 {
        return;
      }
      ParseInto(i, w);
    }

    method ParseEntries(ws: seq<MetricEntry>)
      requires source.Valid()
      modifies source, source.Owned()
      ensures source.Valid() && fresh(source.Owned() - old(source.Owned()))
      ensures source.State() == ParsedEntries(ws, old(source.State()), createMetrics)
    {
      ghost var was := source.State();
      for n := 0 to |ws|
        invariant source.Valid() && fresh(source.Owned() - old(source.Owned()))
        invariant source.State() == ParsedEntries(ws[..n], was, createMetrics)
      {
        assert ws[..n + 1][..n] == ws[..n];
        ParseEntry(ws[n]);
      }
      assert ws[..|ws|] == ws;
    }

    method ParseHead(msg: Message, now: nat)
      requires source.Valid()
      modifies source, source.Owned()
      ensures source.Valid() && source.metrics == old(source.metrics)
      ensures source.State() == Headed(msg, old(source.State()), now)
    {
      source.SetTimestamp(if msg.timestamp.Some? then msg.timestamp.value else now);
      if msg.seqNo.Some? {
        source.seqNo := msg.seqNo.value;
      }
      if msg.uuid.Some? {
        source.uuid := msg.uuid.value;
      }
    }

    method ParseProtobuf(msg: Message, now: nat)
      requires source.Valid()
      modifies source, source.Owned()
      ensures source.Valid() && fresh(source.Owned() - old(source.Owned()))
      ensures source.State() == Parsed(msg, old(source.State()), createMetrics, now)
    {
      ParseHead(msg, now);
      ParseEntries(msg.metrics);
    }
  }

  /** `Payload::GenerateProtobuf`: the full-message flag stays off. */
  method GenerateProtobuf(payload: Payload)
    requires payload.Valid()
    modifies payload`body, payload.Owned()
    ensures payload.body == Some(WrittenMessage(old(payload.State()), false))
    ensures payload.State() == old(payload.State()).(metrics := Cleared(old(payload.State()).metrics, false))
  {
    var helper := new PayloadHelper(payload);
    helper.WriteProtobuf();
  }

  /** `Payload::ParseSparkplugProtobuf` */
  method ParseSparkplugProtobuf(payload: Payload, msg: Message, create: bool, now: nat)
    requires payload.Valid()
    modifies payload, payload.Owned()
    ensures payload.Valid() && fresh(payload.Owned() - old(payload.Owned()))
    ensures payload.State() == Parsed(msg, old(payload.State()), create, now)
  {
    var helper := new PayloadHelper(payload);
    helper.createMetrics := create;
    helper.ParseProtobuf(msg, now);
  }

  lemma WrittenNext(ms: MetricMap, i: nat, all: bool)
    requires i < |ms|
    ensures WrittenEntries(ms[..i + 1], all) ==
            WrittenEntries(ms[..i], all) + if Included(ms[i], all) then [WrittenMetric(ms[i].value, all)] else []
  {
    assert ms[..i + 1][..i] == ms[..i];
  }

  lemma ClearedSteps(ms: MetricMap, all: bool)
    ensures ClearedUpTo(ms, all, 0) == ms
    ensures ClearedUpTo(ms, all, |ms|) == Cleared(ms, all)
    ensures forall n :: 0 <= n < |ms| ==>
      ClearedUpTo(ms, all, n + 1) == ClearedUpTo(ms, all, n)[n := ClearedEntry(ms[n], all)]
  {
  }

  lemma {:induction false} KeysWritten(list: PropertyList)
    ensures WrittenKeys(list) != [] <==> exists i :: 0 <= i < |list| && list[i].key != ""
  {
    if list != [] {
      KeysWritten(list[..|list| - 1]);
      assert forall i :: 0 <= i < |list| - 1 ==> list[..|list| - 1][i] == list[i];
    }
  }
}
