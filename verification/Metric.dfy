/** A metric: a value kept as text, a `valid` flag, an `updated` flag and
    properties.  `MetricState` is the value of a metric at one moment and the
    functions on it say what each operation does; the class does it in place. */
module Metrics {
  import opened Text
  import opened OrderedMap
  import opened Wire
  import opened Property

  datatype MetricState = MetricState(
    name: string, alias: nat, timestamp: nat, mtype: MetricType,
    historical: bool, transient: bool, isNull: bool,
    valid: bool, properties: PropertyList, text: string, updated: bool)

  function BlankMetric(name: string): MetricState {
    MetricState(name, 0, 0, UNKNOWN, false, false, false, false, [], "", false)
  }

  const UNIT := "unit"

  /** What every setter ends with: the value is valid, and flagged if it changed. */
  function Stored(m: MetricState, text: string): MetricState {
    m.(text := text, valid := true, updated := m.updated || text != m.text)
  }

  predicate IsNumeric(t: MetricType) {
    INT8 <= t <= DOUBLE
  }

  /** `find_first_of(' ')`, or the length when there is none. */
  function FirstSpace(s: string): (i: nat)
    ensures i <= |s| && ' ' !in s[..i]
    ensures i < |s| ==> s[i] == ' '
    ensures i == |s| <==> ' ' !in s
  {
    if s == "" || s[0] == ' ' then 0
    else
      var i := 1 + FirstSpace(s[1..]);
      assert s[..i] == [s[0]] + s[1..][..i - 1] && s == [s[0]] + s[1..];
      i
  }

  function WithUnit(m: MetricState, unit: string): MetricState {
    m.(properties := Added(m.properties, MetricProperty(UNIT, STRING, false, unit, [])))
  }

  /** `Metric::Value(std::string)`: a numeric text may carry a unit behind a space. */
  function StoredText(m: MetricState, s: string): MetricState {
    var space := FirstSpace(s);
    if IsNumeric(m.mtype) && space < |s| then
      var n := if IndexOf(m.properties, UNIT) < 0 then WithUnit(m, s[space + 1..]) else m;
      Stored(n, s[..space])
    else Stored(m, s)
  }

  function UnitOf(m: MetricState): string {
    var i := IndexOf(m.properties, UNIT);
    if i < 0 then "" else m.properties[i].value.text
  }

  /** `Metric::GetMqttString` */
  function MqttString(m: MetricState): string {
    if m.isNull then ""
    else if UnitOf(m) == "" then m.text
    else m.text + " " + UnitOf(m)
  }

  /** The typed reading at the width the writer uses for the type. */
  function Reading(m: MetricState): Typed {
    Read(MetricKind(m.mtype), m.text)
  }

  /** A local write through one of the setters. */
  datatype Write =
    | WriteInt(n: int)
    | WriteBool(b: bool)
    | WriteString(s: string)
    | WriteView(view: string)
    | WriteChars(chars: Option<string>)

  function Written(m: MetricState, w: Write): MetricState {
    match w
    case WriteInt(n) => Stored(m, Print(n))
    case WriteBool(b) => Stored(m, PrintBool(b))
    case WriteString(s) => StoredText(m, s)
    case WriteView(v) => Stored(m, v)
    case WriteChars(c) => Stored(m, c.GetOr(""))
  }

  /** Every setter keeps the identity of the metric, makes it valid, and raises
      the flag unless the stored text is the old one. */
  lemma WrittenKeepsIdentity(m: MetricState, w: Write)
    ensures var r := Written(m, w);
            && r.name == m.name && r.alias == m.alias && r.mtype == m.mtype
            && r.valid
            && (r.updated <==> m.updated || r.text != m.text)
  {
    match w {
      case WriteString(s) => var n := WithUnit(m, s);
      case _ =>
    }
  }

  // ------------------------------------------------- value with unit, as text

  /** The MQTT text of a metric, set into a blank metric of the same numeric type,
      restores value and unit exactly when the value text has no space (or, for a
      null metric, when there is nothing to restore). */
  lemma ValueWithUnitRoundTrip(m: MetricState, name: string)
    requires IsNumeric(m.mtype)
    ensures var r := StoredText(BlankMetric(name).(mtype := m.mtype), MqttString(m));
            r.text == m.text && UnitOf(r) == UnitOf(m) <==>
            if m.isNull then m.text == "" && UnitOf(m) == "" else ' ' !in m.text
  {
    var b := BlankMetric(name).(mtype := m.mtype);
    var s, u := MqttString(m), UnitOf(m);
    var i := FirstSpace(s);
    var r := StoredText(b, s);
    if i < |s| { UnitOfBlank(b, s); }
    if !m.isNull && ' ' !in m.text && u != "" {
      SpaceBehind(m.text, u);
    }
  }

  lemma {:induction false} SpaceBehind(text: string, u: string)
    requires ' ' !in text
    ensures var s := text + " " + u;
            FirstSpace(s) == |text| && s[..|text|] == text && s[|text| + 1..] == u
  {
    var s := text + " " + u;
    if text != "" {
      SpaceBehind(text[1..], u);
      assert s[1..] == text[1..] + " " + u;
      assert s[0] == text[0] && text[0] in text;
    }
  }

  lemma UnitOfBlank(b: MetricState, s: string)
    requires b.properties == [] && IsNumeric(b.mtype) && FirstSpace(s) < |s|
    ensures UnitOf(StoredText(b, s)) == s[FirstSpace(s) + 1..]
  {
  }

  // ---------------------------------------------------------------- the class

  class Metric {
    var name: string
    var alias: nat
    var timestamp: nat
    var mtype: MetricType
    var historical: bool
    var transient: bool
    var isNull: bool
    var valid: bool
    var properties: PropertyList
    var text: string
    var updated: bool

    function State(): MetricState
      reads this
    {
      MetricState(name, alias, timestamp, mtype, historical, transient, isNull, valid, properties, text, updated)
    }

    constructor (name: string)
      ensures State() == BlankMetric(name)
    {
      this.name, alias, timestamp, mtype := name, 0, 0, UNKNOWN;
      historical, transient, isNull, valid := false, false, false, false;
      properties, text, updated := [], "", false;
    }

    /** `Value(T)` for the integer types. */
    method SetInt(n: int)
      modifies this
      ensures State() == Written(old(State()), WriteInt(n))
    {
      var before := text;
      text := Print(n);
      var changed := before != text;
      valid := true;
      if changed { updated := true; }
    }

    method SetBool(b: bool)
      modifies this
      ensures State() == Written(old(State()), WriteBool(b))
    {
      var before := text;
      text := if b then "1" else "0";
      var changed := before != text;
      valid := true;
      if changed { updated := true; }
    }

    method SetString(s: string)
      modifies this
      ensures State() == Written(old(State()), WriteString(s))
    {
      var value := s;
      if IsNumeric(mtype) {
        var space := FirstSpace(value);
        if space < |value| {
          if IndexOf(properties, UNIT) < 0 {
            SetUnit(value[space + 1..]);
          }
          value := value[..space];
        }
      }
      var changed := value != text;
      text := value;
      valid := true;
      if changed { updated := true; }
    }

    method SetView(v: string)
      modifies this
      ensures State() == Written(old(State()), WriteView(v))
    {
      var changed := text != v;
      text := v;
      valid := true;
      if changed { updated := true; }
    }

    method SetChars(c: Option<string>)
      modifies this
      ensures State() == Written(old(State()), WriteChars(c))
    {
      var changed := false;
      if c.None? && text != "" {
        changed := true;
        text := "";
      } else if c.Some? && text != c.value {
        changed := true;
        text := c.value;
      }
      valid := true;
      if changed { updated := true; }
    }

    method AddProperty(p: MetricProperty)
      modifies `properties
      ensures properties == Added(old(properties), p)
    {
      var i := IndexOf(properties, p.key);
      if i < 0 {
        properties := Insert(properties, p.key, Copied(p));
      } else {
        properties := properties[i := Entry(properties[i].key, Assigned(properties[i].value, p))];
      }
    }

    method SetUnit(unit: string)
      modifies `properties
      ensures State() == WithUnit(old(State()), unit)
    {
      AddProperty(MetricProperty(UNIT, STRING, false, unit, []));
    }

    method GetMqttString() returns (s: string)
      ensures s == MqttString(State())
    {
      var i := IndexOf(properties, UNIT);
      var unit := if i < 0 then "" else properties[i].value.text;
      s := "";
      if !isNull {
        s := text;
        if unit != "" {
          s := s + " " + unit;
        }
      }
    }
  }
}
