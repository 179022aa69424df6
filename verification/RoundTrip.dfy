/** One metric, written in full and read into a blank metric, and the head of a message. */
module RoundTrip {
  import opened Text
  import opened OrderedMap
  import opened Wire
  import opened Property
  import opened Metrics
  import opened Payloads
  import opened PayloadHelpers

  /** The same typed value; nothing is said about the two floating-point types. */
  predicate Agree(m: MetricState, n: MetricState) {
    IsFloat(MetricKind(m.mtype)) || Reading(m) == Reading(n)
  }

  /** A value written for a metric of this type is stored as its text. */
  lemma ScalarStored(f: MetricState, text: string)
    ensures var v := Encode(MetricKind(f.mtype), text);
            StoredScalar(f, v) == Stored(f, Decode(MetricSigned(f.mtype), v))
  {
    var v := Encode(MetricKind(f.mtype), text);
    if v.StringValue? {
      assert !IsNumeric(f.mtype) && StoredText(f, v.s) == Stored(f, v.s);
    }
  }

  /** Whatever is written is read back by a metric of the same type as the same
      typed value, in full messages and in deltas. */
  lemma ValueCarried(m: MetricState, n: MetricState, all: bool, create: bool, now: nat)
    requires n.mtype == m.mtype && !IsFloat(MetricKind(m.mtype))
    ensures var r := ParsedMetric(WrittenMetric(m, all), n, create, now);
            r.mtype == m.mtype && Reading(r) == Reading(m) && r.valid
  {
    ValueRoundTrip(MetricKind(m.mtype), MetricSigned(m.mtype), m.text);
    var w := WrittenMetric(m, all);
    var f := Flagged(w, Identified(w, n, create), now);
    ScalarStored(f, m.text);
    MergeLeavesValue(w, StoredScalar(f, w.value), create);
  }

  lemma MergeLeavesValue(w: MetricEntry, m: MetricState, create: bool)
    ensures MergedInto(w, m, create) == m.(properties := MergedInto(w, m, create).properties)
  {
  }

  lemma ScalarKeepsIdentity(m: MetricState, v: Scalar)
    ensures var r := StoredScalar(m, v);
            r.name == m.name && r.alias == m.alias && r.mtype == m.mtype
  {
    match v {
      case StringValue(s) => WrittenKeepsIdentity(m, WriteString(s));
      case BytesValue(s) => WrittenKeepsIdentity(m, WriteString(s));
      case _ =>
    }
  }

  /** Name, alias and type each stay exactly if there is one already, or creation is
      off, or the entry has none to give. */
  lemma IdentityKept(w: MetricEntry, n: MetricState, create: bool, now: nat)
    ensures var r := ParsedMetric(w, n, create, now);
            && (r.name == n.name <==> n.name != "" || !create || w.name.GetOr("") == "")
            && (r.alias == n.alias <==> n.alias != 0 || !create || w.alias.GetOr(0) == 0)
            && (r.mtype == n.mtype <==>
                n.mtype != UNKNOWN || !create || w.datatypeCode.None? || TypeOfCode(w.datatypeCode.value) == UNKNOWN)
  {
    var i := Identified(w, n, create);
    var f := Flagged(w, i, now);
    assert f.name == i.name && f.alias == i.alias && f.mtype == i.mtype;
    ScalarKeepsIdentity(f, w.value);
  }

  lemma PropertiesCarried(m: MetricState, blank: MetricState)
    requires blank.properties == []
    ensures MergedInto(WrittenMetric(m, true), blank, true) == blank.(properties := ReadBack(m.properties))
  {
    if WrittenKeys(m.properties) == [] {
      assert ReadBack(m.properties) == [];
    }
  }

  /** What a blank metric is once a full entry has been read into it. */
  lemma FullMetric(m: MetricState, now: nat)
    ensures var v := Encode(MetricKind(m.mtype), m.text);
            ParsedMetric(WrittenMetric(m, true), BlankMetric(""), true, now) ==
            MetricState(m.name, m.alias, m.timestamp, m.mtype, m.historical, m.transient, m.isNull, true,
                        ReadBack(m.properties), Decode(MetricSigned(m.mtype), v), Decode(MetricSigned(m.mtype), v) != "")
  {
    var w := WrittenMetric(m, true);
    FullIdentity(m, now);
    var f := Flagged(w, Identified(w, BlankMetric(""), true), now);
    ScalarStored(f, m.text);
    PropertiesCarried(m, Stored(f, Decode(MetricSigned(m.mtype), w.value)));
  }

  lemma FullIdentity(m: MetricState, now: nat)
    ensures var w := WrittenMetric(m, true);
            Flagged(w, Identified(w, BlankMetric(""), true), now) ==
            MetricState(m.name, m.alias, m.timestamp, m.mtype, m.historical, m.transient, m.isNull, false, [], "", false)
  {
  }

  /** Identity, timestamp, flags, typed value and the whole property map come
      through.  A key that is the empty text is never written.  Of the floating-point
      types only the typed value is left open. */
  lemma MetricRoundTrip(m: MetricState, now: nat, key: string)
    requires Sorted(m.properties)
    ensures var r := ParsedMetric(WrittenMetric(m, true), BlankMetric(""), true, now);
            && r.name == m.name && r.alias == m.alias && r.timestamp == m.timestamp && r.mtype == m.mtype
            && r.historical == m.historical && r.transient == m.transient && r.isNull == m.isNull
            && Agree(m, r) && r.valid
            && AlikeAt(Lookup(r.properties, key), if key == "" then None else Lookup(m.properties, key))
  {
    FullMetric(m, now);
    if !IsFloat(MetricKind(m.mtype)) { ValueRoundTrip(MetricKind(m.mtype), MetricSigned(m.mtype), m.text); }
    SetRoundTrip(m.properties, key);
  }

  // ------------------------------------------------------------ whole payload

  /** A payload that has been stamped tells that time, whether or not it has a metric
      called timestamp to tell it; every other metric is left as it was. */
  lemma StampRoundTrip(p: PayloadState, ms: u64, i: nat)
    requires Sorted(p.metrics) && i < |p.metrics|
    ensures TimestampOf(Stamped(p, ms)) == ms
    ensures Stamped(p, ms).seqNo == p.seqNo && Stamped(p, ms).uuid == p.uuid
    ensures i < |Stamped(p, ms).metrics|
    ensures !Same(p.metrics[i].key, "timestamp") ==> Stamped(p, ms).metrics[i] == p.metrics[i]
  {
    var k := IndexOf(p.metrics, "timestamp");
    IndexOfFirst(p.metrics, "timestamp");
    if k >= 0 {
      ScanPrint(ms);
      var q := Stamped(p, ms);
      assert Sorted(q.metrics) && Same(q.metrics[k].key, "timestamp");
      IndexOfOwnKey(q.metrics, k, "timestamp");
    }
  }

  /** Parsing metrics leaves the head of a payload alone. */
  lemma {:induction false} EntriesKeepHead(ws: seq<MetricEntry>, p: PayloadState, create: bool)
    ensures var q := ParsedEntries(ws, p, create);
            q.timestamp == p.timestamp && q.seqNo == p.seqNo && q.uuid == p.uuid
  {
    if ws != [] { EntriesKeepHead(ws[..|ws| - 1], p, create); }
  }

  /** The head of a message holds timestamp, sequence number and uuid of the sender,
      each in its field, and the receiver takes them over; an empty uuid is not sent. */
  lemma HeadCarried(s: PayloadState, r: PayloadState, all: bool, create: bool, now: nat)
    requires IndexOf(s.metrics, "timestamp") < 0
    ensures var w := WrittenMessage(s, all);
            && w.timestamp == Some(s.timestamp) && w.seqNo == Some(s.seqNo)
            && (if s.uuid == "" then w.uuid == None else w.uuid == Some(s.uuid))
    ensures var q := Parsed(WrittenMessage(s, all), r, create, now);
            && q.timestamp == s.timestamp && q.seqNo == s.seqNo
            && q.uuid == if s.uuid == "" then r.uuid else s.uuid
  {
    EntriesKeepHead(WrittenMessage(s, all).metrics, Headed(WrittenMessage(s, all), r, now), create);
  }

  /** A head with nothing in it leaves the wall-clock time, and the rest as it was. */
  lemma EmptyHead(ws: seq<MetricEntry>, r: PayloadState, create: bool, now: nat)
    ensures var q := Parsed(Message(None, None, None, ws), r, create, now);
            q.timestamp == now && q.seqNo == r.seqNo && q.uuid == r.uuid
  {
    EntriesKeepHead(ws, Headed(Message(None, None, None, ws), r, now), create);
  }
}
