/** What the metric types mean, in plain numbers: which wire field a value goes out in
    and what the receiver stores. */
module TypedValues {
  import opened Text
  import opened OrderedMap
  import opened Wire
  import opened Property
  import opened Metrics
  import opened Payloads
  import opened PayloadHelpers
  import opened RoundTrip

  /** Int8, Int16, Int32 in 32 bits, Int64 in 64, and the unsigned ones alike. */
  predicate Fits(t: int, n: int) {
    || (1 <= t <= 3 && -2147483648 <= n <= 2147483647)
    || (t == 4 && -9223372036854775808 <= n <= 9223372036854775807)
    || (5 <= t <= 7 && 0 <= n <= 4294967295)
    || (t == 8 && 0 <= n <= 18446744073709551615)
  }

  /** The unsigned wire field that holds a number in two's complement. */
  function OnTheWire(t: int, n: int): Scalar
    requires Fits(t, n) || (t == 13 && 0 <= n <= 18446744073709551615)
  {
    if t == 4 || t == 8 || t == 13 then LongValue(if n < 0 then n + 18446744073709551616 else n)
    else IntValue(if n < 0 then n + 4294967296 else n)
  }

  // ------------------------------------------------------------------ metrics

  /** What a reader of the given type stores for an entry with a value. */
  lemma StoredBy(w: MetricEntry, r: MetricState, create: bool, now: nat)
    requires Identified(w, r, create).mtype == r.mtype && !w.value.Absent?
    requires w.value.StringValue? || w.value.BytesValue? ==> !IsNumeric(r.mtype)
    ensures ParsedMetric(w, r, create, now).text == Decode(MetricSigned(r.mtype), w.value)
  {
    var f := Flagged(w, Identified(w, r, create), now);
    assert f.mtype == r.mtype;
    if w.value.StringValue? || w.value.BytesValue? {
      assert StoredScalar(f, w.value).text == Decode(MetricSigned(r.mtype), w.value);
    }
    MergeLeavesValue(w, StoredScalar(f, w.value), create);
  }

  /** Encoding and decoding, as a metric of the same type sees them. */
  lemma CarriedBy(m: MetricState, r: MetricState, all: bool, create: bool, now: nat)
    requires r.mtype == m.mtype
    ensures WrittenMetric(m, all).value == Encode(MetricKind(m.mtype), m.text)
    ensures ParsedMetric(WrittenMetric(m, all), r, create, now).text ==
            Decode(MetricSigned(m.mtype), Encode(MetricKind(m.mtype), m.text))
  {
    var w := WrittenMetric(m, all);
    assert Identified(w, r, create).mtype == m.mtype;
    StoredBy(w, r, create, now);
  }

  lemma IntegerEncoded(t: MetricType, n: int)
    requires Fits(t, n)
    ensures Encode(MetricKind(t), Print(n)) == OnTheWire(t, n)
    ensures Decode(MetricSigned(t), OnTheWire(t, n)) == Print(n)
  {
    ScanPrint(n);
  }

  /** Every number that fits its type crosses the wire in the field of its width and
      arrives as the same decimal text, in full messages and in deltas. */
  lemma IntegerCarried(m: MetricState, r: MetricState, n: int, all: bool, create: bool, now: nat)
    requires r.mtype == m.mtype && Fits(m.mtype, n)
    ensures var w := WrittenMetric(Written(m, WriteInt(n)), all);
            w.value == OnTheWire(m.mtype, n) && ParsedMetric(w, r, create, now).text == Print(n)
  {
    IntegerEncoded(m.mtype, n);
    CarriedBy(Stored(m, Print(n)), r, all, create, now);
  }

  lemma OtherEncoded(t: MetricType, s: string, b: bool)
    ensures t == 0 || t >= 12 ==> Encode(MetricKind(t), s) == StringValue(s)
    ensures t == 11 ==> Encode(MetricKind(t), PrintBool(b)) == BoolValue(b)
  {
  }

  lemma BooleanCarried(m: MetricState, r: MetricState, b: bool, all: bool, create: bool, now: nat)
    requires r.mtype == m.mtype == 11
    ensures var w := WrittenMetric(Written(m, WriteBool(b)), all);
            w.value == BoolValue(b) && ParsedMetric(w, r, create, now).text == if b then "1" else "0"
  {
    OtherEncoded(m.mtype, "", b);
    CarriedBy(Stored(m, PrintBool(b)), r, all, create, now);
  }

  /** Any text, for strings and all types that are neither numbers nor Boolean. */
  lemma TextCarried(m: MetricState, r: MetricState, s: string, all: bool, create: bool, now: nat)
    requires r.mtype == m.mtype && (m.mtype == 0 || m.mtype >= 12)
    ensures var w := WrittenMetric(Written(m, WriteString(s)), all);
            w.value == StringValue(s) && ParsedMetric(w, r, create, now).text == s
  {
    OtherTextTaken(m, s);
    OtherEncoded(m.mtype, s, true);
    CarriedBy(StoredText(m, s), r, all, create, now);
  }

  /** The two floating-point types have fields of their own, which carry what the text
      says. */
  lemma FloatCarried(m: MetricState, r: MetricState, all: bool, create: bool, now: nat)
    requires r.mtype == m.mtype
    ensures var w := WrittenMetric(m, all);
            && (if m.mtype == 9 then w.value == FloatValue(m.text) else !w.value.FloatValue?)
            && (if m.mtype == 10 then w.value == DoubleValue(m.text) else !w.value.DoubleValue?)
            && (m.mtype == 9 || m.mtype == 10 ==> ParsedMetric(w, r, create, now).text == m.text)
  {
    CarriedBy(m, r, all, create, now);
  }

  /** The sign of a wire integer is taken into account for the four signed types only. */
  lemma WireIntegerStored(w: MetricEntry, r: MetricState, now: nat)
    ensures w.value.IntValue? ==>
            ParsedMetric(w, r, false, now).text ==
            Print(if 1 <= r.mtype <= 4 && w.value.i >= 2147483648 then w.value.i - 4294967296 else w.value.i)
    ensures w.value.LongValue? ==>
            ParsedMetric(w, r, false, now).text ==
            Print(if 1 <= r.mtype <= 4 && w.value.l >= 9223372036854775808
                  then w.value.l - 18446744073709551616 else w.value.l)
  {
    if w.value.IntValue? || w.value.LongValue? { StoredBy(w, r, false, now); }
  }

  /** A Boolean is stored as a digit, whatever the type. */
  lemma WireBooleanStored(w: MetricEntry, r: MetricState, now: nat)
    requires w.value.BoolValue?
    ensures ParsedMetric(w, r, false, now).text == if w.value.b then "1" else "0"
  {
    StoredBy(w, r, false, now);
  }

  /** Flags and timestamp of an entry: what is missing is false, or the payload's time;
      a transient flag without a historical flag does not count. */
  lemma FlagsStored(w: MetricEntry, r: MetricState, create: bool, now: nat)
    ensures var q := ParsedMetric(w, r, create, now);
            && (q.isNull <==> w.isNull == Some(true))
            && (q.historical <==> w.historical == Some(true))
            && (q.transient <==> w.transient == Some(true) && w.historical != None)
            && q.timestamp == (match w.timestamp case Some(t) => t case None => now)
  {
    var f := Flagged(w, Identified(w, r, create), now);
    ScalarLeavesFlags(f, w.value);
    MergeLeavesValue(w, StoredScalar(f, w.value), create);
  }

  /** Bytes are taken as text. */
  lemma BytesAreText(w: MetricEntry, s: string, r: MetricState, create: bool, now: nat)
    ensures ParsedMetric(w.(value := BytesValue(s)), r, create, now) ==
            ParsedMetric(w.(value := StringValue(s)), r, create, now)
  {
  }

  /** A metric without type takes that of the entry where creation is on; a code that
      is no type leaves it unknown. */
  lemma TypeTaken(w: MetricEntry, r: MetricState, create: bool, now: nat)
    requires r.mtype == 0 && w.datatypeCode.Some?
    ensures ParsedMetric(w, r, create, now).mtype ==
            if create && w.datatypeCode.value <= 34 then w.datatypeCode.value else 0
  {
    var i := Identified(w, r, create);
    var f := Flagged(w, i, now);
    assert f.mtype == i.mtype;
    ScalarLeavesFlags(f, w.value);
    MergeLeavesValue(w, StoredScalar(f, w.value), create);
  }

  /** An entry without a value leaves text, validity and updated flag. */
  lemma NoValueStored(w: MetricEntry, r: MetricState, create: bool, now: nat)
    requires w.value == Absent
    ensures var q := ParsedMetric(w, r, create, now);
            q.text == r.text && q.valid == r.valid && q.updated == r.updated
  {
  }

  /** A metric found by an entry without timestamp takes that of the message, even if the
      payload had another before. */
  lemma EntryTime(r: PayloadState, w: MetricEntry, ms: nat, now: nat, i: nat)
    requires Resolve(r.metrics, w) == i && IndexOf(r.metrics, "timestamp") < 0
    ensures var q := Parsed(Message(Some(ms), None, None, [w]), r, false, now);
            i < |q.metrics| && q.metrics[i].value.timestamp == match w.timestamp case Some(t) => t case None => ms
  {
    var h := Headed(Message(Some(ms), None, None, [w]), r, now);
    assert h.metrics == r.metrics && TimestampOf(h) == ms;
    assert [w][..0] == [];
    assert ParsedEntries([w], h, false) == ParsedEntry(w, ParsedEntries([], h, false), false);
    FlagsStored(w, h.metrics[i].value, false, ms);
  }

  lemma TextLeavesFlags(f: MetricState, s: string)
    ensures var q := StoredText(f, s);
            q == f.(text := q.text, valid := q.valid, updated := q.updated, properties := q.properties)
  {
    var n := WithUnit(f, s[FirstSpace(s)..]);
    assert n == f.(properties := n.properties);
  }

  lemma ScalarLeavesFlags(f: MetricState, v: Scalar)
    ensures var q := StoredScalar(f, v);
            q == f.(text := q.text, valid := q.valid, updated := q.updated, properties := q.properties)
  {
    match v {
      case StringValue(s) => TextLeavesFlags(f, s);
      case BytesValue(s) => TextLeavesFlags(f, s);
      case _ =>
    }
  }

  // ----------------------------------------------------------- what is read

  /** A number beyond the range of a signed type is read as the bound, one beyond the
      range of an unsigned type as its largest value, and a negative one wraps around. */
  lemma BeyondRange(n: int)
    ensures ReadSigned(2147483648, Print(n)) ==
            if n > 2147483647 then 2147483647 else if n < -2147483648 then -2147483648 else n
    ensures ReadUnsigned(4294967296, Print(n)) ==
            if n >= 4294967296 || n <= -4294967296 then 4294967295 else if n < 0 then n + 4294967296 else n
    ensures ReadUnsigned(18446744073709551616, Print(n)) ==
            if n >= 18446744073709551616 || n <= -18446744073709551616 then 18446744073709551615
            else if n < 0 then n + 18446744073709551616 else n
  {
    ScanPrint(n);
  }

  // --------------------------------------------------------------- properties

  /** Properties carry numbers alike, and DateTime as an unsigned 64-bit number. */
  lemma PropertyCarried(p: MetricProperty, q: MetricProperty, n: int, all: bool, create: bool)
    requires q.ptype == p.ptype && p.text == Print(n)
    requires Fits(p.ptype, n) || (p.ptype == 13 && 0 <= n <= 18446744073709551615)
    ensures var w := WrittenValue(p, all);
            w.content == Plain(OnTheWire(p.ptype, n)) && ParsedValue(w, q, create).text == Print(n)
  {
    ScanPrint(n);
    if p.ptype != 13 { IntegerEncoded(p.ptype, n); }
  }

  /** Here the sign counts for the two floating-point types too. */
  lemma WireIntegerInProperty(w: PropertyValue, q: MetricProperty, create: bool, i: u32)
    requires w.content == Plain(IntValue(i))
    ensures ParsedValue(w, q, create).text ==
            Print(if (1 <= q.ptype <= 4 || 9 <= q.ptype <= 10) && i >= 2147483648 then i - 4294967296 else i)
  {
  }

  /** Boolean properties, and those that are neither numbers nor Boolean. */
  lemma OtherPropertyCarried(p: MetricProperty, q: MetricProperty, all: bool, create: bool)
    requires q.ptype == p.ptype
    ensures var w := WrittenValue(p, all);
            var r := ParsedValue(w, q, create);
            && (p.ptype == 11 ==> w.content == Plain(BoolValue(ReadBool(p.text))) && r.text == if ReadBool(p.text) then "1" else "0")
            && (p.ptype == 0 || p.ptype == 12 || p.ptype >= 14 ==> w.content == Plain(StringValue(p.text)) && r.text == p.text)
  {
  }

  // ---------------------------------------------------------- texts with unit

  /** The text set into a metric of a numeric type is split at its first space; what is
      behind becomes the unit unless there is one. */
  lemma NumericTextSplits(m: MetricState, value: string, unit: string)
    requires 1 <= m.mtype <= 10 && ' ' !in value && Sorted(m.properties)
    ensures var r := StoredText(m, value + " " + unit);
            && r.text == value
            && UnitOf(r) == (if Lookup(m.properties, "unit").Some? then UnitOf(m) else unit)
            && StoredText(m, value).text == value && StoredText(m, value).properties == m.properties
  {
    SpaceBehind(value, unit);
    assert FirstSpace(value) == |value|;
    if IndexOf(m.properties, "unit") < 0 { UnitStored(m, unit); }
  }

  /** For all other types the text is taken as it is. */
  lemma OtherTextTaken(m: MetricState, s: string)
    requires m.mtype == 0 || m.mtype >= 11
    ensures StoredText(m, s).text == s && StoredText(m, s).properties == m.properties
  {
  }

  /** Views and character pointers are stored as they are, for all types, and a null
      pointer as the empty text. */
  lemma PlainTextTaken(m: MetricState, s: string)
    ensures Written(m, WriteView(s)) == Written(m, WriteChars(Some(s))) ==
            m.(text := s, valid := true, updated := m.updated || s != m.text)
    ensures Written(m, WriteChars(None)) == m.(text := "", valid := true, updated := m.updated || m.text != "")
  {
  }

  /** A unit is a string property under that name. */
  lemma UnitStored(m: MetricState, unit: string)
    requires Sorted(m.properties)
    ensures var p := Lookup(WithUnit(m, unit).properties, "unit");
            p.Some? && p.value.text == unit && p.value.ptype == 12 && !p.value.isNull
    ensures UnitOf(WithUnit(m, unit)) == unit
  {
    AddedLookup(m.properties, MetricProperty("unit", 12, false, unit, []), "unit");
  }

  // ----------------------------------------------------- what readers tolerate

  lemma {:induction false} DigitsBefore(s: string, rest: string)
    requires (forall c :: c in s ==> IsDigit(c)) && (rest == "" || !IsDigit(rest[0]))
    ensures DigitCount(s + rest) == |s|
  {
    if s == "" {
      assert s + rest == rest;
    } else {
      assert (s + rest)[1..] == s[1..] + rest;
      DigitsBefore(s[1..], rest);
    }
  }

  lemma DigitsScan(n: nat, rest: string)
    requires rest == "" || !IsDigit(rest[0])
    ensures var s := PrintNat(n) + rest;
            s != "" && IsDigit(s[0]) && DigitCount(s) == |PrintNat(n)| && s[..DigitCount(s)] == PrintNat(n)
    ensures NatOf(PrintNat(n)) == n && PrintNat(n) != ""
  {
    PrintNatScans(n);
    DigitsBefore(PrintNat(n), rest);
    assert IsDigit(PrintNat(n)[0]);
    assert (PrintNat(n) + rest)[0] == PrintNat(n)[0];
  }

  /** Any text behind a number does not matter. */
  lemma TrailingText(n: nat, rest: string)
    requires rest == "" || !IsDigit(rest[0])
    ensures Scan(PrintNat(n) + rest) == Number(false, n)
  {
    DigitsScan(n, rest);
  }

  /** A sign may stand before it. */
  lemma LeadingSign(n: nat, rest: string, sign: char)
    requires (rest == "" || !IsDigit(rest[0])) && (sign == '+' || sign == '-')
    ensures Scan([sign] + (PrintNat(n) + rest)) == Number(sign == '-', n)
  {
    DigitsScan(n, rest);
    var t := [sign] + (PrintNat(n) + rest);
    assert t[1..] == PrintNat(n) + rest;
  }

  /** And white space: blank, tab, line feed, vertical tab, form feed, carriage return. */
  lemma LeadingSpace(text: string, space: char)
    ensures IsSpace(space) <==> space == ' ' || 9 <= space as int <= 13
    ensures IsSpace(space) ==> Scan([space] + text) == Scan(text)
  {
    assert ([space] + text)[1..] == text;
  }

  /** A text that starts neither with a digit, a sign nor a space is no number. */
  lemma NoNumberRead(text: string)
    requires text == "" || !('0' <= text[0] <= '9' || IsSpace(text[0]) || text[0] == '+' || text[0] == '-')
    ensures Scan(text) == NoNumber && ReadSigned(2147483648, text) == ReadUnsigned(4294967296, text) == 0
  {
  }

  /** The first character decides what a text means as a Boolean. */
  lemma BooleanRead(c: char, rest: string)
    ensures !ReadBool("")
    ensures ReadBool([c] + rest) <==> c == '1' || c == 'Y' || c == 'y' || c == 'T' || c == 't'
  {
  }

  /** The narrow accessor is exact for eight bits. */
  lemma NarrowRead(n: int)
    requires -128 <= n <= 127
    ensures ReadInt8(Print(n)) == n
  {
    ScanPrint(n);
    assert ReadInt8(Print(n)) == CastInt8(n);
    EightBits(n);
  }

  lemma EightBits(n: int)
    requires -128 <= n <= 127
    ensures CastInt8(n) == n
  {
  }
}
