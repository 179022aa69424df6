/** Messages parsed without `CreateMetrics` cannot change what a payload is made
    of, whatever the message says. */
module Delta {
  import opened Text
  import opened OrderedMap
  import opened Wire
  import opened Property
  import opened Metrics
  import opened Payloads
  import opened PayloadHelpers

  /** Same identity; same property keys and types at every depth, except that a
      "unit" property may have appeared. */
  ghost predicate SameStructure(a: MetricState, b: MetricState) {
    && b.name == a.name && b.alias == a.alias && b.mtype == a.mtype
    && (|| ListShape(b.properties) == ListShape(a.properties)
        || (IndexOf(a.properties, UNIT) < 0 && ListShape(b.properties) == ListShape(WithUnit(a, "").properties)))
  }

  ghost predicate SamePayload(p: PayloadState, q: PayloadState) {
    && |q.metrics| == |p.metrics|
    && forall i :: 0 <= i < |p.metrics| ==>
         q.metrics[i].key == p.metrics[i].key && SameStructure(p.metrics[i].value, q.metrics[i].value)
  }

  // -------------------------------------------------- shapes decide positions

  lemma ShapeKeys(a: PropertyList, b: PropertyList)
    requires ListShape(a) == ListShape(b)
    ensures |a| == |b|
    ensures forall i :: 0 <= i < |a| ==> a[i].key == b[i].key && ShapeOf(a[i].value) == ShapeOf(b[i].value)
  {
    assert |ListShape(a)| == |a| && |ListShape(b)| == |b|;
    forall i | 0 <= i < |a| ensures a[i].key == b[i].key && ShapeOf(a[i].value) == ShapeOf(b[i].value) {
      assert ListShape(a)[i] == (a[i].key, ShapeOf(a[i].value));
      assert ListShape(b)[i] == (b[i].key, ShapeOf(b[i].value));
    }
  }

  lemma {:induction false} SameKeysSamePlace(a: PropertyList, b: PropertyList, key: string)
    requires |a| == |b| && forall i :: 0 <= i < |a| ==> a[i].key == b[i].key
    ensures IndexOf(a, key) == IndexOf(b, key) && Position(a, key) == Position(b, key)
  {
    if a != [] { SameKeysSamePlace(a[1..], b[1..], key); }
  }

  /** Adding a unit to lists of the same shape gives lists of the same shape. */
  lemma UnitShape(a: MetricState, b: MetricState, u: string, v: string)
    requires ListShape(a.properties) == ListShape(b.properties)
    requires IndexOf(a.properties, UNIT) < 0
    ensures IndexOf(b.properties, UNIT) < 0
    ensures ListShape(WithUnit(a, u).properties) == ListShape(WithUnit(b, v).properties)
  {
    ShapeKeys(a.properties, b.properties);
    SameKeysSamePlace(a.properties, b.properties, UNIT);
    var p := MetricProperty(UNIT, STRING, false, u, []);
    var q := MetricProperty(UNIT, STRING, false, v, []);
    assert ShapeOf(p) == ShapeOf(q);
    var x, y := WithUnit(a, u).properties, WithUnit(b, v).properties;
    assert x == Insert(a.properties, UNIT, p) && y == Insert(b.properties, UNIT, q);
    forall i | 0 <= i < |x| ensures x[i].key == y[i].key && ShapeOf(x[i].value) == ShapeOf(y[i].value) {
      var k := Position(a.properties, UNIT);
      if i > k { assert x[i] == a.properties[i - 1] && y[i] == b.properties[i - 1]; }
    }
  }

  lemma UnitPresent(m: MetricState)
    requires IndexOf(m.properties, UNIT) < 0
    ensures IndexOf(WithUnit(m, "").properties, UNIT) >= 0
  {
    LookupInsert(m.properties, UNIT, MetricProperty(UNIT, STRING, false, "", []), UNIT);
  }

  lemma StructureTransitive(a: MetricState, b: MetricState, c: MetricState)
    requires SameStructure(a, b) && SameStructure(b, c)
    ensures SameStructure(a, c)
  {
    if ListShape(b.properties) == ListShape(a.properties) {
      if ListShape(c.properties) != ListShape(b.properties) {
        UnitShape(b, a, "", "");
      }
    } else if ListShape(c.properties) != ListShape(b.properties) {
      var u := WithUnit(a, "");
      ShapeKeys(b.properties, u.properties);
      SameKeysSamePlace(b.properties, u.properties, UNIT);
      UnitPresent(a);
      assert false;
    }
  }

  // ------------------------------------------------------------- the parser

  lemma TextKeepsStructure(m: MetricState, s: string)
    ensures SameStructure(m, StoredText(m, s))
  {
    var space := FirstSpace(s);
    if IsNumeric(m.mtype) && space < |s| && IndexOf(m.properties, UNIT) < 0 {
      UnitShape(m, m, s[space + 1..], "");
    }
  }

  lemma ScalarKeepsStructure(m: MetricState, v: Scalar)
    ensures SameStructure(m, StoredScalar(m, v))
  {
    match v {
      case StringValue(s) => TextKeepsStructure(m, s);
      case BytesValue(s) => TextKeepsStructure(m, s);
      case _ =>
    }
  }

  lemma FlagsKeepStructure(w: MetricEntry, m: MetricState, now: nat)
    ensures SameStructure(m, Flagged(w, Identified(w, m, false), now))
  {
    assert Flagged(w, Identified(w, m, false), now).properties == m.properties;
  }

  lemma MergeKeepsStructure(w: MetricEntry, m: MetricState)
    ensures SameStructure(m, MergedInto(w, m, false))
  {
    if w.properties.Some? {
      MergedKeepsShape(w.properties.value, |w.properties.value.keys|, m.properties);
    }
  }

  lemma ParsedKeepsStructure(w: MetricEntry, m: MetricState, now: nat)
    ensures SameStructure(m, ParsedMetric(w, m, false, now))
  {
    var f := Flagged(w, Identified(w, m, false), now);
    var s := StoredScalar(f, w.value);
    FlagsKeepStructure(w, m, now);
    ScalarKeepsStructure(f, w.value);
    MergeKeepsStructure(w, s);
    StructureTransitive(m, f, s);
    StructureTransitive(m, s, MergedInto(w, s, false));
  }

  lemma {:induction false} EntriesKeepStructure(ws: seq<MetricEntry>, p: PayloadState)
    ensures SamePayload(p, ParsedEntries(ws, p, false))
  {
    if ws != [] {
      var q := ParsedEntries(ws[..|ws| - 1], p, false);
      EntriesKeepStructure(ws[..|ws| - 1], p);
      var w := ws[|ws| - 1];
      var i := Resolve(q.metrics, w);
      if i >= 0 {
        ParsedKeepsStructure(w, q.metrics[i].value, TimestampOf(q));
        StructureTransitive(p.metrics[i].value, q.metrics[i].value,
                            ParsedMetric(w, q.metrics[i].value, false, TimestampOf(q)));
      }
    }
  }

  lemma {:induction false} SameAliasIndex(a: MetricMap, b: MetricMap, alias: nat)
    requires |a| == |b| && forall i :: 0 <= i < |a| ==> a[i].value.alias == b[i].value.alias
    ensures AliasIndex(a, alias) == AliasIndex(b, alias)
  {
    if a != [] { SameAliasIndex(a[1..], b[1..], alias); }
  }

  lemma {:induction false} SameIndex(a: MetricMap, b: MetricMap, key: string)
    requires |a| == |b| && forall i :: 0 <= i < |a| ==> a[i].key == b[i].key
    ensures IndexOf(a, key) == IndexOf(b, key)
  {
    if a != [] { SameIndex(a[1..], b[1..], key); }
  }

  /** An entry resolves alike before and behind any other entries. */
  lemma SameResolution(p: PayloadState, q: PayloadState, w: MetricEntry)
    requires SamePayload(p, q)
    ensures Resolve(p.metrics, w) == Resolve(q.metrics, w)
  {
    if w.name.Some? {
      SameIndex(p.metrics, q.metrics, w.name.value);
    } else if w.alias.Some? {
      assert forall i :: 0 <= i < |p.metrics| ==> SameStructure(p.metrics[i].value, q.metrics[i].value);
      SameAliasIndex(p.metrics, q.metrics, w.alias.value);
    }
  }

  lemma {:induction false} UntouchedByEntries(ws: seq<MetricEntry>, p: PayloadState, i: nat)
    requires i < |p.metrics| && forall k :: 0 <= k < |ws| ==> Resolve(p.metrics, ws[k]) != i
    ensures i < |ParsedEntries(ws, p, false).metrics|
    ensures ParsedEntries(ws, p, false).metrics[i] == p.metrics[i]
  {
    if ws != [] {
      var n := |ws| - 1;
      UntouchedByEntries(ws[..n], p, i);
      EntriesKeepStructure(ws[..n], p);
      SameResolution(p, ParsedEntries(ws[..n], p, false), ws[n]);
    }
  }

  /** A metric to which no entry of the message resolves, by name or by alias, is left
      exactly as it was: value, flags, properties and all.  One called timestamp is
      written with the message's own. */
  lemma UnmatchedChangesNothing(msg: Message, p: PayloadState, now: nat, i: nat)
    requires i < |p.metrics|
    requires forall k :: 0 <= k < |msg.metrics| ==> Resolve(p.metrics, msg.metrics[k]) != i
    ensures i < |Parsed(msg, p, false, now).metrics|
    ensures Parsed(msg, p, false, now).metrics[i] == Headed(msg, p, now).metrics[i]
    ensures !Same(p.metrics[i].key, TIMESTAMP) ==> Parsed(msg, p, false, now).metrics[i] == p.metrics[i]
  {
    var h := Headed(msg, p, now);
    IndexOfFirst(p.metrics, TIMESTAMP);
    EntriesKeepStructure([], p);
    assert SamePayload(p, h);
    forall k | 0 <= k < |msg.metrics| ensures Resolve(h.metrics, msg.metrics[k]) != i {
      SameResolution(p, h, msg.metrics[k]);
    }
    UntouchedByEntries(msg.metrics, h, i);
  }

  /** Every message, well-formed or not, at any nesting depth. */
  lemma DeltaKeepsStructure(msg: Message, p: PayloadState, now: nat)
    ensures SamePayload(p, Parsed(msg, p, false, now))
  {
    var h := Headed(msg, p, now);
    var r := Parsed(msg, p, false, now);
    EntriesKeepStructure(msg.metrics, h);
    forall i | 0 <= i < |p.metrics|
      ensures r.metrics[i].key == p.metrics[i].key && SameStructure(p.metrics[i].value, r.metrics[i].value)
    {
      assert SameStructure(p.metrics[i].value, h.metrics[i].value);
      StructureTransitive(p.metrics[i].value, h.metrics[i].value, r.metrics[i].value);
    }
  }
}
