/** Metric properties: values kept by value in a case-insensitive map, copied by
    hand-written copy operations, written to and read from property sets. */
module Property {
  import opened Text
  import opened OrderedMap
  import opened Wire

  type PropertyList = seq<Entry<MetricProperty>>

  datatype MetricProperty = MetricProperty(
    key: string, ptype: MetricType, isNull: bool, text: string, sets: seq<PropertyMap>)

  /** A nested property set, one element of `prop_array_`. */
  datatype PropertyMap = PropertyMap(entries: seq<Entry<MetricProperty>>)

  /** A default-constructed property whose key is then set. */
  function BlankProperty(key: string): MetricProperty {
    MetricProperty(key, STRING, false, "", [])
  }

  /** The copy constructor leaves the nested property sets behind. */
  function Copied(p: MetricProperty): MetricProperty {
    p.(sets := [])
  }

  /** Assignment overwrites everything but the nested property sets. */
  function Assigned(before: MetricProperty, p: MetricProperty): MetricProperty {
    p.(sets := before.sets)
  }

  /** `Metric::AddProperty` */
  function Added(list: PropertyList, p: MetricProperty): PropertyList {
    var i := IndexOf(list, p.key);
    if i < 0 then Insert(list, p.key, Copied(p))
    else list[i := Entry(list[i].key, Assigned(list[i].value, p))]
  }

  // ------------------------------------------------------------------ writing

  function WrittenValue(p: MetricProperty, all: bool): PropertyValue {
    PropertyValue(if all then Some(p.ptype as nat) else None, Some(p.isNull),
                  Plain(Encode(PropertyKind(p.ptype), p.text)))
  }

  function WrittenKeys(list: PropertyList): seq<string> {
    if list == [] then []
    else WrittenKeys(list[..|list| - 1]) + (if list[|list| - 1].key == "" then [] else [list[|list| - 1].key])
  }

  function WrittenValues(list: PropertyList, all: bool): (r: seq<PropertyValue>)
    ensures |r| == |WrittenKeys(list)|
  {
    if list == [] then []
    else WrittenValues(list[..|list| - 1], all) +
         (if list[|list| - 1].key == "" then [] else [WrittenValue(list[|list| - 1].value, all)])
  }

  function WrittenSet(list: PropertyList, all: bool): PropertySet {
    PropertySet(WrittenKeys(list), WrittenValues(list, all))
  }

  /** `WritePropertySet` */
  method WritePropertySet(list: PropertyList, all: bool) returns (changed: bool, r: PropertySet)
    ensures r == WrittenSet(list, all)
    ensures changed <==> exists i :: 0 <= i < |list| && list[i].key != ""
  {
    changed := false;
    var keys: seq<string>, values: seq<PropertyValue> := [], [];
    for i := 0 to |list|
      invariant keys == WrittenKeys(list[..i]) && values == WrittenValues(list[..i], all)
      invariant changed <==> exists j :: 0 <= j < i && list[j].key != ""
    {
      assert list[..i + 1][..i] == list[..i];
      if list[i].key == "" {
        continue;
      }
      changed := true;
      keys := keys + [list[i].key];
      values := values + [WrittenValue(list[i].value, all)];
    }
    assert list[..|list|] == list;
    r := PropertySet(keys, values);
  }

  // ------------------------------------------------------------------ parsing

  /** `ParsePropertyValue` */
  function ParsedValue(w: PropertyValue, p: MetricProperty, create: bool): MetricProperty
    decreases w, 1, 0
  {
    var q := p.(isNull := w.isNull.GetOr(false));
    match w.content
    case Plain(Absent) => q
    case Plain(BytesValue(_)) => q
    case Plain(v) => q.(text := Decode(PropertySigned(q.ptype), v))
    case Nested(props) =>
      if q.sets != [] then q.(sets := q.sets[0 := PropertyMap(ParsedSet(props, |props.keys|, q.sets[0].entries, create))])
      else if create then q.(text := "", sets := [PropertyMap(ParsedSet(props, |props.keys|, [], create))])
      else q
  }

  /** `ParsePropertySet`, after the first n keys. */
  function ParsedSet(w: PropertySet, n: nat, list: PropertyList, create: bool): PropertyList
    requires n <= |w.keys|
    decreases w, 0, n
  {
    if n == 0 then list
    else
      var before := ParsedSet(w, n - 1, list, create);
      var key := w.keys[n - 1];
      if key == "" || n - 1 >= |w.values| then before
      else
        var i := IndexOf(before, key);
        if i >= 0 then before[i := Entry(before[i].key, ParsedValue(w.values[n - 1], before[i].value, create))]
        else if create then Insert(before, key, Copied(ParsedValue(w.values[n - 1], BlankProperty(key), create)))
        else before
  }

  method ParsePropertyValue(w: PropertyValue, p: MetricProperty, create: bool) returns (q: MetricProperty)
    ensures q == ParsedValue(w, p, create)
    decreases w, 1
  {
    q := p.(isNull := w.isNull.GetOr(false));
    match w.content {
      case Plain(Absent) =>
      case Plain(BytesValue(_)) =>
      case Plain(v) =>
        q := q.(text := Decode(PropertySigned(q.ptype), v));
      case Nested(props) =>
        if q.sets == [] {
          if !create {
            return;
          }
          q := q.(text := "", sets := [PropertyMap([])]);
        }
        var first := ParsePropertySet(props, q.sets[0].entries, create);
        q := q.(sets := q.sets[0 := PropertyMap(first)]);
    }
  }

  method ParsePropertySet(w: PropertySet, start: PropertyList, create: bool) returns (list: PropertyList)
    ensures list == ParsedSet(w, |w.keys|, start, create)
    decreases w, 0
  {
    list := start;
    for n := 0 to |w.keys|
      invariant list == ParsedSet(w, n, start, create)
    {
      var key := w.keys[n];
      if key == "" || n >= |w.values| {
        continue;
      }
      var i := IndexOf(list, key);
      if i < 0 {
        if !create {
          continue;
        }
        var created := ParsePropertyValue(w.values[n], BlankProperty(key), create);
        list := Insert(list, key, Copied(created));
      } else {
        var changed := ParsePropertyValue(w.values[n], list[i].value, create);
        list := list[i := Entry(list[i].key, changed)];
      }
    }
  }

  /** The property loop of `ParseMetric`, after the first n keys: here a created
      property takes its type from the message and keeps its nested sets. */
  function Merged(w: PropertySet, n: nat, list: PropertyList, create: bool): PropertyList
    requires n <= |w.keys|
  {
    if n == 0 then list
    else
      var before := Merged(w, n - 1, list, create);
      var key := w.keys[n - 1];
      if key == "" || n - 1 >= |w.values| then before
      else
        var v := w.values[n - 1];
        var i := IndexOf(before, key);
        if i >= 0 then before[i := Entry(before[i].key, ParsedValue(v, before[i].value, create))]
        else if create then Insert(before, key, ParsedValue(v, TypedBlank(key, v), create))
        else before
  }

  function TypedBlank(key: string, v: PropertyValue): MetricProperty {
    BlankProperty(key).(ptype := if v.ptype.Some? then TypeOfCode(v.ptype.value) else STRING)
  }

  // --------------------------------------------------------------- round trip

  /** The typed reading of a property. */
  function PropertyReading(p: MetricProperty): Typed {
    Read(PropertyKind(p.ptype), p.text)
  }

  /** What a property is to its users, apart from the spelling of its key and the
      value of a floating-point one. */
  predicate Alike(p: MetricProperty, q: MetricProperty) {
    && p.ptype == q.ptype && p.isNull == q.isNull
    && (IsFloat(PropertyKind(p.ptype)) || PropertyReading(p) == PropertyReading(q))
  }

  predicate AlikeAt(a: Option<MetricProperty>, b: Option<MetricProperty>) {
    match (a, b)
    case (None, None) => true
    case (Some(p), Some(q)) => Alike(p, q)
    case _ => false
  }

  /** A written property is read back alike by any property of the same type. */
  lemma PropertyUpdate(p: MetricProperty, q: MetricProperty, all: bool, create: bool)
    requires q.ptype == p.ptype
    ensures Alike(ParsedValue(WrittenValue(p, all), q, create), p)
  {
    var k := PropertyKind(p.ptype);
    if !IsFloat(k) { ValueRoundTrip(k, PropertySigned(p.ptype), p.text); }
  }

  lemma PropertyRoundTrip(p: MetricProperty, key: string)
    ensures var v := WrittenValue(p, true);
            Alike(ParsedValue(v, TypedBlank(key, v), true), p)
  {
    PropertyUpdate(p, TypedBlank(key, WrittenValue(p, true)), true, true);
  }

  /** The wire lists of a prefix are prefixes of the wire lists. */
  lemma {:induction false} MergedPrefix(w: PropertySet, keys: seq<string>, values: seq<PropertyValue>, n: nat,
                                        list: PropertyList, create: bool)
    requires |w.keys| == |w.values| && n <= |w.keys|
    requires w.keys <= keys && w.values <= values && |keys| == |values|
    ensures Merged(w, n, list, create) == Merged(PropertySet(keys, values), n, list, create)
  {
    if n > 0 { MergedPrefix(w, keys, values, n - 1, list, create); }
  }

  /** One more property on both sides keeps lookups alike. */
  lemma InsertKeepsAlike(front: PropertyList, last: Entry<MetricProperty>, before: PropertyList, q: MetricProperty, key: string)
    requires last.key != "" && IndexOf(front, last.key) < 0 && Alike(q, last.value)
    requires AlikeAt(Lookup(before, last.key), Lookup(front, last.key))
    requires AlikeAt(Lookup(before, key), if key == "" then None else Lookup(front, key))
    ensures AlikeAt(Lookup(Insert(before, last.key, q), key), if key == "" then None else Lookup(front + [last], key))
  {
    LookupConcat(front, [last], key);
    LookupSingle(last, key);
    LookupInsert(before, last.key, q, key);
    if Same(last.key, key) {
      AbsentForSame(front, last.key, key);
      assert |Fold(last.key)| == |last.key| && |Fold(key)| == |key|;
    }
  }

  /** The list read from a fully written list. */
  function ReadBack(list: PropertyList): PropertyList {
    var w := WrittenSet(list, true);
    Merged(w, |w.keys|, [], true)
  }

  function ReadBackValue(e: Entry<MetricProperty>): MetricProperty {
    var v := WrittenValue(e.value, true);
    ParsedValue(v, TypedBlank(e.key, v), true)
  }

  lemma WrittenLast(front: PropertyList, last: Entry<MetricProperty>, all: bool)
    ensures last.key == "" ==> WrittenSet(front + [last], all) == WrittenSet(front, all)
    ensures last.key != "" ==>
              WrittenSet(front + [last], all) ==
              PropertySet(WrittenKeys(front) + [last.key], WrittenValues(front, all) + [WrittenValue(last.value, all)])
  {
    var list := front + [last];
    assert list[..|list| - 1] == front;
  }

  /** Reading one more property into a list. */
  lemma MergedNext(keys: seq<string>, values: seq<PropertyValue>, key: string, v: PropertyValue, list: PropertyList, create: bool)
    requires |keys| == |values| && key != ""
    ensures var before := Merged(PropertySet(keys, values), |keys|, list, create);
            var i := IndexOf(before, key);
            Merged(PropertySet(keys + [key], values + [v]), |keys| + 1, list, create) ==
            if i >= 0 then before[i := Entry(before[i].key, ParsedValue(v, before[i].value, create))]
            else if create then Insert(before, key, ParsedValue(v, TypedBlank(key, v), create))
            else before
  {
    var w := PropertySet(keys + [key], values + [v]);
    MergedPrefix(PropertySet(keys, values), w.keys, w.values, |keys|, list, create);
    assert w.keys[|keys|] == key && w.values[|keys|] == v;
  }

  /** Reading one more written property into a list. */
  lemma MergedLast(front: PropertyList, last: Entry<MetricProperty>, list: PropertyList, all: bool, create: bool)
    requires last.key != ""
    ensures var w, w0 := WrittenSet(front + [last], all), WrittenSet(front, all);
            var before := Merged(w0, |w0.keys|, list, create);
            var i := IndexOf(before, last.key);
            i >= 0 ==> Merged(w, |w.keys|, list, create) ==
                       before[i := Entry(before[i].key, ParsedValue(WrittenValue(last.value, all), before[i].value, create))]
  {
    WrittenLast(front, last, all);
    MergedNext(WrittenKeys(front), WrittenValues(front, all), last.key, WrittenValue(last.value, all), list, create);
  }

  lemma ReadBackStep(front: PropertyList, last: Entry<MetricProperty>)
    requires last.key != "" ==> IndexOf(ReadBack(front), last.key) < 0
    ensures ReadBack(front + [last]) ==
            if last.key == "" then ReadBack(front) else Insert(ReadBack(front), last.key, ReadBackValue(last))
  {
    WrittenLast(front, last, true);
    if last.key != "" {
      MergedNext(WrittenKeys(front), WrittenValues(front, true), last.key, WrittenValue(last.value, true), [], true);
    }
  }

  /** Writing any number of unnested properties in full and reading them into an
      empty list gives the same case-insensitive map. */
  lemma {:induction false} SetRoundTrip(list: PropertyList, key: string)
    requires Sorted(list)
    ensures AlikeAt(Lookup(ReadBack(list), key), if key == "" then None else Lookup(list, key))
  {
    if list != [] {
      var last, front := list[|list| - 1], list[..|list| - 1];
      assert list == front + [last];
      SetRoundTrip(front, key);
      SetRoundTrip(front, last.key);
      NewKey(front, last);
      ReadBackStep(front, last);
      if last.key == "" {
        LookupConcat(front, [last], key);
        LookupSingle(last, key);
        assert |Fold(last.key)| == |last.key| && |Fold(key)| == |key|;
      } else {
        PropertyRoundTrip(last.value, last.key);
        InsertKeepsAlike(front, last, ReadBack(front), ReadBackValue(last), key);
      }
    }
  }

  /** Both lists have these keys with these types. */
  ghost predicate SameTypes(a: PropertyList, b: PropertyList) {
    |a| == |b| && forall i :: 0 <= i < |a| ==> a[i].key == b[i].key && a[i].value.ptype == b[i].value.ptype
  }

  /** The first k properties of a have been read into b. */
  ghost predicate UpdatedUpTo(a: PropertyList, b: PropertyList, r: PropertyList, k: nat) {
    && SameTypes(a, b) && |r| == |b|
    && forall i :: 0 <= i < |a| ==>
         r[i].key == b[i].key && if i < k && a[i].key != "" then Alike(r[i].value, a[i].value) else r[i] == b[i]
  }

  lemma UpdateStep(a: PropertyList, b: PropertyList, r: PropertyList, k: nat, q: MetricProperty)
    requires UpdatedUpTo(a, b, r, k) && k < |a| && a[k].key != "" && Alike(q, a[k].value)
    ensures UpdatedUpTo(a, b, r[k := Entry(r[k].key, q)], k + 1)
  {
  }

  /** What b has become when the first k properties of a have been read into it. */
  function Updated(a: PropertyList, b: PropertyList, k: nat, all: bool, create: bool): PropertyList
    requires k <= |a|
  {
    var w := WrittenSet(a[..k], all);
    Merged(w, |w.keys|, b, create)
  }

  lemma UpdatedNext(a: PropertyList, b: PropertyList, k: nat, all: bool, create: bool)
    requires k < |a|
    ensures var r := Updated(a, b, k, all, create);
            var i := IndexOf(r, a[k].key);
            && (a[k].key == "" ==> Updated(a, b, k + 1, all, create) == r)
            && (a[k].key != "" && i >= 0 ==>
                  Updated(a, b, k + 1, all, create) ==
                  r[i := Entry(r[i].key, ParsedValue(WrittenValue(a[k].value, all), r[i].value, create))])
  {
    assert a[..k + 1] == a[..k] + [a[k]];
    if a[k].key == "" {
      WrittenLast(a[..k], a[k], all);
    } else {
      MergedLast(a[..k], a[k], b, all, create);
    }
  }

  lemma UpdatedPlace(a: PropertyList, b: PropertyList, r: PropertyList, k: nat)
    requires Sorted(a) && UpdatedUpTo(a, b, r, k) && k < |a|
    ensures IndexOf(r, a[k].key) == k && r[k] == b[k]
  {
    assert forall i :: 0 <= i < |r| ==> r[i].key == a[i].key;
    assert Sorted(r);
    IndexOfOwnKey(r, k, a[k].key);
  }

  /** A message, in full or delta form, brings the properties that the receiver has to
      the sender's values; one whose key is the empty text is never written. */
  lemma {:induction false} SetUpdate(a: PropertyList, b: PropertyList, k: nat, all: bool, create: bool)
    requires Sorted(a) && SameTypes(a, b) && k <= |a|
    ensures UpdatedUpTo(a, b, Updated(a, b, k, all, create), k)
  {
    if k > 0 {
      var r := Updated(a, b, k - 1, all, create);
      SetUpdate(a, b, k - 1, all, create);
      UpdatedPlace(a, b, r, k - 1);
      UpdatedNext(a, b, k - 1, all, create);
      if a[k - 1].key != "" {
        PropertyUpdate(a[k - 1].value, b[k - 1].value, all, create);
        UpdateStep(a, b, r, k - 1, ParsedValue(WrittenValue(a[k - 1].value, all), b[k - 1].value, create));
      }
    }
  }

  /** What lookups see after a property is added: a copy without nested sets, or the
      old property with everything but its nested sets overwritten. */
  lemma AddedLookup(list: PropertyList, p: MetricProperty, key: string)
    requires Sorted(list)
    ensures Lookup(Added(list, p), key) ==
            if !Same(p.key, key) then Lookup(list, key)
            else Some(p.(sets := match Lookup(list, key) case Some(q) => q.sets case None => []))
  {
    IndexOfFirst(list, p.key);
    var i := IndexOf(list, p.key);
    if i < 0 {
      LookupInsert(list, p.key, Copied(p), key);
      if Same(p.key, key) { AbsentForSame(list, p.key, key); }
    } else {
      IndexOfOwnKey(list, i, list[i].key);
      LookupUpdate(list, i, Assigned(list[i].value, p), key);
      if Same(p.key, key) { IndexOfOwnKey(list, i, key); }
    }
  }

  // ------------------------------------------------------------- nested sets

  ghost predicate Flat(list: PropertyList) {
    forall i :: 0 <= i < |list| ==> list[i].value.sets == []
  }

  predicate Among(key: string, keys: seq<string>, n: nat)
    requires n <= |keys|
  {
    n > 0 && (key == keys[n - 1] || Among(key, keys, n - 1))
  }

  /** The keys read so far are the only ones the list has. */
  ghost predicate KeysAmong(list: PropertyList, keys: seq<string>, n: nat)
    requires n <= |keys|
  {
    forall i :: 0 <= i < |list| ==> Among(list[i].key, keys, n)
  }

  ghost predicate DistinctKeys(keys: seq<string>) {
    forall i, j :: 0 <= i < j < |keys| ==> !Same(keys[i], keys[j])
  }

  lemma {:induction false} AmongOthers(key: string, keys: seq<string>, n: nat, m: nat)
    requires DistinctKeys(keys) && n <= m < |keys| && Among(key, keys, n)
    ensures !Same(key, keys[m])
  {
    if key != keys[n - 1] { AmongOthers(key, keys, n - 1, m); }
  }

  lemma KeyIsNew(list: PropertyList, keys: seq<string>, n: nat)
    requires DistinctKeys(keys) && n < |keys| && KeysAmong(list, keys, n)
    ensures IndexOf(list, keys[n]) < 0
  {
    IndexOfFirst(list, keys[n]);
    forall i | 0 <= i < |list| ensures !Same(list[i].key, keys[n]) {
      AmongOthers(list[i].key, keys, n, n);
    }
  }

  lemma InsertKeysAmong(list: PropertyList, keys: seq<string>, n: nat, p: MetricProperty)
    requires n < |keys| && KeysAmong(list, keys, n) && Flat(list) && p.sets == []
    ensures KeysAmong(Insert(list, keys[n], p), keys, n + 1) && Flat(Insert(list, keys[n], p))
  {
    var r := Insert(list, keys[n], p);
    var at := Position(list, keys[n]);
    forall i | 0 <= i < |r| ensures Among(r[i].key, keys, n + 1) && r[i].value.sets == [] {
      if i != at { assert r[i] == list[if i < at then i else i - 1]; }
    }
  }

  /** A set with distinct keys that is read into a new property stays one level deep:
      the copy into the list leaves every deeper set behind. */
  lemma {:induction false} DeeperSetsDropped(w: PropertySet, n: nat)
    requires n <= |w.keys| && DistinctKeys(w.keys)
    ensures Flat(ParsedSet(w, n, [], true)) && KeysAmong(ParsedSet(w, n, [], true), w.keys, n)
  {
    if n > 0 {
      DeeperSetsDropped(w, n - 1);
      var before := ParsedSet(w, n - 1, [], true);
      KeyIsNew(before, w.keys, n - 1);
      if w.keys[n - 1] != "" && n - 1 < |w.values| {
        var p := Copied(ParsedValue(w.values[n - 1], BlankProperty(w.keys[n - 1]), true));
        assert ParsedSet(w, n, [], true) == Insert(before, w.keys[n - 1], p);
        InsertKeysAmong(before, w.keys, n - 1, p);
      } else {
        assert ParsedSet(w, n, [], true) == before;
      }
    }
  }

  /** A nested set goes into the first set of the property and leaves the others; it
      makes a first set, and clears the text, only where creation is on. */
  lemma NestedRead(w: PropertyValue, p: MetricProperty, create: bool)
    requires w.content.Nested?
    ensures var q := ParsedValue(w, p, create);
            && q.key == p.key && q.ptype == p.ptype && (q.isNull <==> w.isNull == Some(true))
            && (p.sets != [] ==> q.text == p.text && |q.sets| == |p.sets| && q.sets[1..] == p.sets[1..])
            && (p.sets == [] ==> if create then q.text == "" && |q.sets| == 1 else q.text == p.text && q.sets == [])
  {
  }

  /** What the key of number k makes of the property found under it. */
  function ReadUnder(w: PropertySet, k: nat, before: Option<MetricProperty>, create: bool): Option<MetricProperty>
    requires k < |w.keys|
  {
    if w.keys[k] == "" || k >= |w.values| then before
    else
      match before
      case Some(p) => Some(ParsedValue(w.values[k], p, create))
      case None => if create then Some(Copied(ParsedValue(w.values[k], BlankProperty(w.keys[k]), create))) else None
  }

  lemma SetStep(w: PropertySet, n: nat, list: PropertyList, create: bool, key: string)
    requires n < |w.keys| && Sorted(ParsedSet(w, n, list, create))
    ensures var before, after := ParsedSet(w, n, list, create), ParsedSet(w, n + 1, list, create);
            && Sorted(after)
            && Lookup(after, key) ==
               if Same(w.keys[n], key) then ReadUnder(w, n, Lookup(before, key), create) else Lookup(before, key)
  {
    var before := ParsedSet(w, n, list, create);
    if w.keys[n] != "" && n < |w.values| {
      IndexOfFirst(before, w.keys[n]);
      var i := IndexOf(before, w.keys[n]);
      if i >= 0 {
        IndexOfOwnKey(before, i, before[i].key);
        LookupUpdate(before, i, ParsedValue(w.values[n], before[i].value, create), key);
        if Same(w.keys[n], key) { IndexOfOwnKey(before, i, key); }
      } else {
        if Same(w.keys[n], key) { AbsentForSame(before, w.keys[n], key); }
        if create {
          var p := Copied(ParsedValue(w.values[n], BlankProperty(w.keys[n]), create));
          LookupInsert(before, w.keys[n], p, key);
          InsertSorted(before, w.keys[n], p);
        }
      }
    }
  }

  lemma {:induction false} SetSorted(w: PropertySet, n: nat, list: PropertyList, create: bool)
    requires n <= |w.keys| && Sorted(list)
    ensures Sorted(ParsedSet(w, n, list, create))
  {
    if n > 0 {
      SetSorted(w, n - 1, list, create);
      SetStep(w, n - 1, list, create, "");
    }
  }

  lemma SetOther(w: PropertySet, n: nat, list: PropertyList, create: bool, key: string)
    requires n < |w.keys| && Sorted(list) && !Same(w.keys[n], key)
    ensures Lookup(ParsedSet(w, n + 1, list, create), key) == Lookup(ParsedSet(w, n, list, create), key)
  {
    SetSorted(w, n, list, create);
    SetStep(w, n, list, create, key);
  }

  /** A property is left as it is while other keys are read. */
  lemma {:induction false} SetLeaves(w: PropertySet, m: nat, n: nat, list: PropertyList, create: bool, key: string)
    requires m <= n <= |w.keys| && Sorted(list) && forall i :: m <= i < n ==> !Same(w.keys[i], key)
    ensures Lookup(ParsedSet(w, n, list, create), key) == Lookup(ParsedSet(w, m, list, create), key)
  {
    if m < n {
      SetLeaves(w, m, n - 1, list, create, key);
      SetOther(w, n - 1, list, create, key);
    }
  }

  /** A set whose keys are distinct up to case is read key by key: each finds the old
      property under it, or makes one where creation is on. */
  lemma SetRead(w: PropertySet, list: PropertyList, create: bool, k: nat)
    requires k < |w.keys| && DistinctKeys(w.keys) && Sorted(list)
    ensures Lookup(ParsedSet(w, |w.keys|, list, create), w.keys[k]) == ReadUnder(w, k, Lookup(list, w.keys[k]), create)
  {
    SetLeaves(w, 0, k, list, create, w.keys[k]);
    SetSorted(w, k, list, create);
    SetStep(w, k, list, create, w.keys[k]);
    SetLeaves(w, k + 1, |w.keys|, list, create, w.keys[k]);
  }

  /** So it is at every depth: the properties of a nested set are those of the first set
      of the property, or new ones. */
  lemma NestedLookup(w: PropertyValue, p: MetricProperty, create: bool, k: nat)
    requires w.content.Nested? && DistinctKeys(w.content.props.keys) && k < |w.content.props.keys|
    requires p.sets != [] ==> Sorted(p.sets[0].entries)
    requires p.sets != [] || create
    ensures var q, key := ParsedValue(w, p, create), w.content.props.keys[k];
            && q.sets != []
            && Lookup(q.sets[0].entries, key) ==
               ReadUnder(w.content.props, k, if p.sets == [] then None else Lookup(p.sets[0].entries, key), create)
  {
    var props := w.content.props;
    SetRead(props, if p.sets == [] then [] else p.sets[0].entries, create, k);
  }

  /** A property that a metric has not got is made where creation is on, of the type that
      the message gives it, and a string without one. */
  lemma PropertyMade(list: PropertyList, key: string, v: PropertyValue, create: bool)
    requires Sorted(list) && key != "" && IndexOf(list, key) < 0
    ensures var r := Merged(PropertySet([key], [v]), 1, list, create);
            if !create then r == list
            else
              && Lookup(r, key).Some? && Lookup(r, key).value.key == key
              && Lookup(r, key).value.ptype == match v.ptype case Some(c) => if c <= 34 then c else 0 case None => 12
  {
    var w := PropertySet([key], [v]);
    assert Merged(w, 0, list, create) == list;
    ParsedKeepsKey(v, TypedBlank(key, v), create);
    LookupInsert(list, key, ParsedValue(v, TypedBlank(key, v), create), key);
  }

  lemma ParsedKeepsKey(w: PropertyValue, p: MetricProperty, create: bool)
    ensures ParsedValue(w, p, create).key == p.key && ParsedValue(w, p, create).ptype == p.ptype
  {
  }

  /** A value of bytes, or none, leaves the text. */
  lemma NothingRead(w: PropertyValue, p: MetricProperty, create: bool)
    requires w.content.Plain? && (w.content.scalar.Absent? || w.content.scalar.BytesValue?)
    ensures ParsedValue(w, p, create) == p.(isNull := w.isNull == Some(true))
  {
  }

  lemma NewKey<V>(front: seq<Entry<V>>, last: Entry<V>)
    requires Sorted(front + [last])
    ensures IndexOf(front, last.key) < 0
  {
    IndexOfOwnKey(front + [last], |front|, last.key);
    IndexOfConcat(front, [last], last.key);
  }

  // ------------------------------------------------- structure preservation

  /** The keys and types of a property and of everything below it. */
  datatype Shape = Shape(key: string, ptype: MetricType, below: seq<seq<(string, Shape)>>)

  function ShapeOf(p: MetricProperty): Shape {
    Shape(p.key, p.ptype, seq(|p.sets|, i requires 0 <= i < |p.sets| => MapShape(p.sets[i])))
  }

  function MapShape(m: PropertyMap): seq<(string, Shape)> {
    seq(|m.entries|, i requires 0 <= i < |m.entries| => (m.entries[i].key, ShapeOf(m.entries[i].value)))
  }

  function ListShape(list: PropertyList): seq<(string, Shape)> {
    MapShape(PropertyMap(list))
  }

  /** Without `CreateMetrics`, parsing any property value, nested to any depth
      and well-formed or not, changes no key and no type at any depth. */
  lemma {:induction false} ValueKeepsShape(w: PropertyValue, p: MetricProperty)
    ensures ShapeOf(ParsedValue(w, p, false)) == ShapeOf(p)
    decreases w, 1, 0
  {
    if w.content.Nested? && p.sets != [] {
      var props := w.content.props;
      SetKeepsShape(props, |props.keys|, p.sets[0].entries);
    }
  }

  lemma {:induction false} SetKeepsShape(w: PropertySet, n: nat, list: PropertyList)
    requires n <= |w.keys|
    ensures ListShape(ParsedSet(w, n, list, false)) == ListShape(list)
    decreases w, 0, n
  {
    if n > 0 {
      SetKeepsShape(w, n - 1, list);
      var before := ParsedSet(w, n - 1, list, false);
      var i := IndexOf(before, w.keys[n - 1]);
      if w.keys[n - 1] != "" && n - 1 < |w.values| && i >= 0 {
        ValueKeepsShape(w.values[n - 1], before[i].value);
        var q := ParsedValue(w.values[n - 1], before[i].value, false);
        assert ListShape(before[i := Entry(before[i].key, q)]) == ListShape(before);
      }
    }
  }

  lemma {:induction false} MergedKeepsShape(w: PropertySet, n: nat, list: PropertyList)
    requires n <= |w.keys|
    ensures ListShape(Merged(w, n, list, false)) == ListShape(list)
  {
    if n > 0 {
      MergedKeepsShape(w, n - 1, list);
      var before := Merged(w, n - 1, list, false);
      var i := IndexOf(before, w.keys[n - 1]);
      if w.keys[n - 1] != "" && n - 1 < |w.values| && i >= 0 {
        ValueKeepsShape(w.values[n - 1], before[i].value);
        var q := ParsedValue(w.values[n - 1], before[i].value, false);
        assert ListShape(before[i := Entry(before[i].key, q)]) == ListShape(before);
      }
    }
  }
}
