/** A birth made by `GenerateProtobuf`, which leaves the full-message flag off: what an
    empty receiver gets from it. */
module PlainBirth {
  import opened Text
  import opened OrderedMap
  import opened Wire
  import opened Property
  import opened Metrics
  import opened Payloads
  import opened PayloadHelpers
  import opened RoundTrip
  import opened Replica

  /** `GenerateProtobuf` never asks for full messages: only a flagged metric without
      an alias goes out under its name. */
  predicate Announces(e: Entry<MetricState>) {
    Included(e, false) && e.value.alias == 0
  }

  function Announcing(ms: MetricMap): MetricMap {
    if ms == [] then []
    else
      var front, last := Announcing(ms[..|ms| - 1]), ms[|ms| - 1];
      if Announces(last) then front + [last] else front
  }

  /** The receiver has these metrics, in this order, but neither alias nor type. */
  ghost predicate Heard(a: MetricMap, b: MetricMap) {
    |b| == |a| && forall i :: 0 <= i < |a| ==> HeardAs(a[i], b[i])
  }

  predicate HeardAs(e: Entry<MetricState>, f: Entry<MetricState>) {
    && f.key == e.key && f.value.name == e.value.name && f.value.alias == 0 && f.value.mtype == UNKNOWN
    && (e.value.mtype == UNKNOWN ==> Reading(f.value) == Reading(e.value))
  }

  ghost predicate Named(ms: MetricMap) {
    Sorted(ms) && forall i :: 0 <= i < |ms| ==> ms[i].key == ms[i].value.name
  }

  lemma {:induction false} AnnouncingFrom(ms: MetricMap, i: nat)
    requires i < |Announcing(ms)|
    ensures exists j :: 0 <= j < |ms| && ms[j] == Announcing(ms)[i] && Announces(ms[j])
  {
    var n := |ms| - 1;
    if i < |Announcing(ms[..n])| {
      AnnouncingFrom(ms[..n], i);
      var j :| 0 <= j < n && ms[..n][j] == Announcing(ms[..n])[i] && Announces(ms[..n][j]);
      assert ms[j] == ms[..n][j];
    }
  }

  lemma {:induction false} AnnouncingIn(ms: MetricMap, j: nat)
    requires j < |ms| && Announces(ms[j])
    ensures exists i :: 0 <= i < |Announcing(ms)| && Announcing(ms)[i] == ms[j]
  {
    var n := |ms| - 1;
    if j == n {
      assert Announcing(ms)[|Announcing(ms)| - 1] == ms[j];
    } else {
      AnnouncingIn(ms[..n], j);
      var i :| 0 <= i < |Announcing(ms[..n])| && Announcing(ms[..n])[i] == ms[j];
      assert Announcing(ms)[i] == ms[j];
    }
  }

  /** One entry of a delta, read by a receiver that has heard what came before it. */
  lemma HeardOneMore(e: Entry<MetricState>, front: MetricMap, p: PayloadState)
    requires Included(e, false) && e.key == e.value.name && Heard(front, p.metrics)
    requires forall i :: 0 <= i < |front| ==> Less(front[i].key, e.key)
    ensures var q := ParsedEntry(WrittenMetric(e.value, false), p, true);
            if Announces(e) then Heard(front + [e], q.metrics) else q == p
  {
    var m, w := e.value, WrittenMetric(e.value, false);
    if m.alias == 0 {
      forall i | 0 <= i < |p.metrics| ensures Less(p.metrics[i].key, m.name) {
        assert HeardAs(front[i], p.metrics[i]);
      }
      NewPlace(w, p, m.name);
      var a := Admitted(w, p);
      var n := Announced(w, BlankMetric(m.name));
      HeardMetric(m, n, TimestampOf(a));
      var r := ParsedMetric(w, n, true, TimestampOf(a));
      assert ParsedEntry(w, p, true).metrics == p.metrics + [Entry(m.name, r)];
    } else {
      forall i | 0 <= i < |p.metrics| ensures p.metrics[i].value.alias == 0 {
        assert HeardAs(front[i], p.metrics[i]);
      }
    }
  }

  lemma HeardMetric(m: MetricState, n: MetricState, now: nat)
    requires m.alias == 0 && n == BlankMetric(m.name) && m.name != ""
    ensures HeardAs(Entry(m.name, m), Entry(m.name, ParsedMetric(WrittenMetric(m, false), n, true, now)))
  {
    var w := WrittenMetric(m, false);
    var f := Flagged(w, Identified(w, n, true), now);
    assert f.name == m.name && f.alias == 0 && f.mtype == UNKNOWN;
    ScalarKeepsIdentity(f, w.value);
    if m.mtype == UNKNOWN { ValueCarried(m, n, false, true, now); }
  }

  lemma {:induction false} HeardEntries(ms: MetricMap, p: PayloadState)
    requires Named(ms) && p.metrics == []
    ensures Heard(Announcing(ms), ParsedEntries(WrittenEntries(ms, false), p, true).metrics)
  {
    if ms != [] {
      var n := |ms| - 1;
      var front, last := ms[..n], ms[n];
      HeardEntries(front, p);
      var q := ParsedEntries(WrittenEntries(front, false), p, true);
      if Included(last, false) {
        ParsedLast(WrittenEntries(front, false), WrittenMetric(last.value, false), p, true);
        var heard := Announcing(front);
        forall i | 0 <= i < |heard| ensures Less(heard[i].key, last.key) {
          AnnouncingFrom(front, i);
          var j :| 0 <= j < n && front[j] == heard[i];
          assert ms[j] == heard[i];
        }
        HeardOneMore(last, heard, q);
      } else {
        assert WrittenEntries(ms, false) == WrittenEntries(front, false);
      }
    }
  }

  /** Read by an empty receiver, such a message brings exactly the flagged metrics
      without alias, in order, and never a type. */
  lemma PlainBirthAnnounces(s: PayloadState, now: nat)
    requires Named(s.metrics)
    ensures Heard(Announcing(s.metrics), Parsed(WrittenMessage(s, false), EMPTY_PAYLOAD, true, now).metrics)
  {
    HeardEntries(s.metrics, Headed(WrittenMessage(s, false), EMPTY_PAYLOAD, now));
  }

  /** So a name is known to the receiver exactly when such a metric has it. */
  lemma PlainBirthKeys(s: PayloadState, now: nat, key: string)
    requires Named(s.metrics)
    ensures IndexOf(Parsed(WrittenMessage(s, false), EMPTY_PAYLOAD, true, now).metrics, key) >= 0 <==>
            exists j :: 0 <= j < |s.metrics| && Same(s.metrics[j].key, key) && Announces(s.metrics[j])
  {
    var r := Parsed(WrittenMessage(s, false), EMPTY_PAYLOAD, true, now).metrics;
    var a := Announcing(s.metrics);
    PlainBirthAnnounces(s, now);
    IndexOfFirst(r, key);
    var i := IndexOf(r, key);
    if i >= 0 {
      AnnouncingFrom(s.metrics, i);
      assert HeardAs(a[i], r[i]);
    }
    if j :| 0 <= j < |s.metrics| && Same(s.metrics[j].key, key) && Announces(s.metrics[j]) {
      AnnouncingIn(s.metrics, j);
      var k :| 0 <= k < |a| && a[k] == s.metrics[j];
      assert HeardAs(a[k], r[k]);
    }
  }

  lemma {:induction false} AnnouncingAll(ms: MetricMap)
    ensures |Announcing(ms)| <= |ms|
    ensures |Announcing(ms)| == |ms| <==> forall i :: 0 <= i < |ms| ==> Announces(ms[i])
    ensures |Announcing(ms)| == |ms| ==> Announcing(ms) == ms
  {
    if ms != [] {
      var n := |ms| - 1;
      AnnouncingAll(ms[..n]);
      assert forall i :: 0 <= i < n ==> ms[..n][i] == ms[i];
      assert ms == ms[..n] + [ms[n]];
    }
  }

  /** Such a birth has all metrics if and only if every one is flagged and has no alias,
      and makes a copy if and only if no metric has a type either. */
  lemma PlainBirthComplete(s: PayloadState, now: nat)
    requires Named(s.metrics)
    ensures var r := Parsed(WrittenMessage(s, false), EMPTY_PAYLOAD, true, now).metrics;
            var all := forall i :: 0 <= i < |s.metrics| ==> Announces(s.metrics[i]);
            && (|r| == |s.metrics| <==> all)
            && (Copies(s.metrics, r) <==> all && forall i :: 0 <= i < |s.metrics| ==> s.metrics[i].value.mtype == UNKNOWN)
  {
    var r := Parsed(WrittenMessage(s, false), EMPTY_PAYLOAD, true, now).metrics;
    PlainBirthAnnounces(s, now);
    AnnouncingAll(s.metrics);
    if |r| == |s.metrics| {
      forall i | 0 <= i < |r| ensures HeardAs(s.metrics[i], r[i]) {
      }
      HeardIsCopy(s.metrics, r);
    }
  }

  lemma HeardIsCopy(a: MetricMap, b: MetricMap)
    requires Heard(a, b) && forall i :: 0 <= i < |a| ==> Announces(a[i])
    ensures Copies(a, b) <==> forall i :: 0 <= i < |a| ==> a[i].value.mtype == UNKNOWN
  {
    forall i | 0 <= i < |a| ensures HeardAs(a[i], b[i]) {
    }
    if forall i :: 0 <= i < |a| ==> a[i].value.mtype == UNKNOWN {
      forall i | 0 <= i < |a| ensures AgreeAt(a, b, i) {
        assert HeardAs(a[i], b[i]);
      }
    }
  }

  /** A delta creates nothing exactly when it has no entry without alias; here the
      metrics need not even be sorted. */
  lemma {:induction false} PlainBirthEntries(ms: MetricMap, p: PayloadState)
    requires p.metrics == [] && forall i :: 0 <= i < |ms| ==> ms[i].key == ms[i].value.name
    ensures var q := ParsedEntries(WrittenEntries(ms, false), p, true);
            q.metrics == [] <==> forall i :: 0 <= i < |ms| && Included(ms[i], false) ==> ms[i].value.alias != 0
  {
    if ms != [] {
      var front, last := ms[..|ms| - 1], ms[|ms| - 1];
      PlainBirthEntries(front, p);
      assert forall i :: 0 <= i < |front| ==> front[i] == ms[i];
      var ws0 := WrittenEntries(front, false);
      var q0 := ParsedEntries(ws0, p, true);
      if Included(last, false) {
        ParsedLast(ws0, WrittenMetric(last.value, false), p, true);
        OneMoreEntry(last, q0);
      } else {
        assert WrittenEntries(ms, false) == ws0;
      }
    }
  }

  lemma OneMoreEntry(e: Entry<MetricState>, p: PayloadState)
    requires e.key == e.value.name != ""
    ensures ParsedEntry(WrittenMetric(e.value, false), p, true).metrics == [] <==> p.metrics == [] && e.value.alias != 0
  {
    var w := WrittenMetric(e.value, false);
    if p.metrics == [] && e.value.alias == 0 {
      assert Creates(p.metrics, w, true);
      assert |Created(p, e.key).metrics| == 1;
    }
  }

  /** In particular a node that has assigned its aliases announces nothing. */
  lemma PlainBirthAnnouncesNothing(s: PayloadState, now: nat)
    requires forall i :: 0 <= i < |s.metrics| ==> s.metrics[i].key == s.metrics[i].value.name
    ensures Parsed(WrittenMessage(s, false), EMPTY_PAYLOAD, true, now).metrics == [] <==>
            forall i :: 0 <= i < |s.metrics| && s.metrics[i].key != "" && s.metrics[i].value.updated ==>
              s.metrics[i].value.alias != 0
  {
    PlainBirthEntries(s.metrics, Headed(WrittenMessage(s, false), EMPTY_PAYLOAD, now));
    assert forall i :: 0 <= i < |s.metrics| ==>
      (Included(s.metrics[i], false) <==> s.metrics[i].key != "" && s.metrics[i].value.updated);
  }
}
