/** A payload: the metrics of one topic, found by name or alias, and the message
    body.  `PayloadState` is its value, with the metrics' values inside. */
module Payloads {
  import opened Text
  import opened OrderedMap
  import opened Wire
  import opened Property
  import opened Metrics

  type MetricMap = seq<Entry<MetricState>>

  datatype PayloadState = PayloadState(metrics: MetricMap, timestamp: nat, seqNo: nat, uuid: string)

  const EMPTY_PAYLOAD := PayloadState([], 0, 0, "")

  const TIMESTAMP := "timestamp"

  /** `GetMetric(alias)`: the first metric in map order that has the alias. */
  function AliasIndex(m: MetricMap, alias: nat): (r: int)
    ensures -1 <= r < |m|
    ensures r >= 0 ==> m[r].value.alias == alias
    ensures forall i :: 0 <= i < (if r < 0 then |m| else r) ==> m[i].value.alias != alias
  {
    if m == [] then -1
    else if m[0].value.alias == alias then 0
    else
      var r := AliasIndex(m[1..], alias);
      if r < 0 then -1 else r + 1
  }

  function Put(p: PayloadState, i: nat, m: MetricState): PayloadState
    requires i < |p.metrics|
  {
    p.(metrics := p.metrics[i := Entry(p.metrics[i].key, m)])
  }

  /** `Payload::Timestamp(ms)`: a metric of that name is written along. */
  function Stamped(p: PayloadState, ms: nat): PayloadState {
    var q := p.(timestamp := ms);
    var i := IndexOf(p.metrics, TIMESTAMP);
    if i < 0 then q else Put(q, i, Metrics.Written(p.metrics[i].value, WriteInt(ms)))
  }

  /** `Payload::Timestamp()` */
  function TimestampOf(p: PayloadState): nat {
    var i := IndexOf(p.metrics, TIMESTAMP);
    if i < 0 then p.timestamp else ReadUnsigned(TWO_64, p.metrics[i].value.text)
  }

  /** `CreateMetric`: nothing happens when the name exists already. */
  function Created(p: PayloadState, name: string): PayloadState {
    if IndexOf(p.metrics, name) >= 0 then p
    else p.(metrics := Insert(p.metrics, name, BlankMetric(name)))
  }

  // ---------------------------------------------------------------- the class

  ghost function Objects(list: seq<Entry<Metric>>): set<Metric> {
    set e | e in list :: e.value
  }

  ghost function StatesOf(list: seq<Entry<Metric>>): (r: MetricMap)
    reads Objects(list)
    ensures |r| == |list|
    ensures forall i :: 0 <= i < |list| ==> r[i] == Entry(list[i].key, list[i].value.State())
  {
    seq(|list|, i requires 0 <= i < |list| reads Objects(list) => Entry(list[i].key, list[i].value.State()))
  }

  ghost predicate Distinct(list: seq<Entry<Metric>>) {
    forall i, j :: 0 <= i < j < |list| ==> list[i].value != list[j].value
  }

  class Payload {
    var metrics: seq<Entry<Metric>>
    var timestamp: nat
    var seqNo: nat
    var uuid: string
    var body: Option<Message>

    ghost function Owned(): set<Metric>
      reads this
    {
      Objects(metrics)
    }

    ghost predicate Valid()
      reads this
    {
      Distinct(metrics) && Sorted(metrics)
    }

    ghost function State(): PayloadState
      reads this, Owned()
    {
      PayloadState(StatesOf(metrics), timestamp, seqNo, uuid)
    }

    constructor ()
      ensures Valid() && State() == EMPTY_PAYLOAD && Owned() == {}
    {
      metrics, timestamp, seqNo, uuid, body := [], 0, 0, "", None;
    }

    function GetMetric(name: string): (i: int)
      reads this, Owned()
      ensures i == IndexOf(State().metrics, name) && -1 <= i < |metrics|
    {
      SameKeys(metrics, name);
      IndexOf(metrics, name)
    }

    method GetMetricByAlias(alias: nat) returns (r: int)
      ensures r == old(AliasIndex(State().metrics, alias))
    {
      var i := 0;
      while i < |metrics|
        invariant i <= |metrics|
        invariant forall j :: 0 <= j < i ==> metrics[j].value.alias != alias
      {
        if metrics[i].value.alias == alias {
          return i;
        }
        i := i + 1;
      }
      r := -1;
    }

    method CreateMetric(name: string) returns (i: nat)
      requires Valid()
      modifies this`metrics
      ensures Valid() && fresh(Owned() - old(Owned()))
      ensures i < |metrics| && i == IndexOf(State().metrics, name)
      ensures State() == Created(old(State()), name)
    {
      SameKeys(metrics, name);
      var existing := IndexOf(metrics, name);
      if existing >= 0 {
        return existing;
      }
      i := InsertMetric(name);
      SameKeys(metrics, name);
    }

    method InsertMetric(name: string) returns (i: nat)
      requires Valid() && IndexOf(metrics, name) < 0
      modifies this`metrics
      ensures Valid() && fresh(Owned() - old(Owned()))
      ensures i < |metrics| && i == IndexOf(metrics, name)
      ensures StatesOf(metrics) == Insert(old(StatesOf(metrics)), name, BlankMetric(name))
    {
      var metric := new Metric(name);
      InsertObject(metrics, name, metric);
      i := Position(metrics, name);
      metrics := Insert(metrics, name, metric);
    }

    function GetTimestamp(): (ms: nat)
      reads this, Owned()
      ensures ms == TimestampOf(State())
    {
      var i := GetMetric(TIMESTAMP);
      if i < 0 then timestamp else ReadUnsigned(TWO_64, metrics[i].value.text)
    }

    method SetTimestamp(ms: nat)
      requires Valid()
      modifies this, Owned()
      ensures metrics == old(metrics) && body == old(body) && Valid()
      ensures State() == Stamped(old(State()), ms)
    {
      ghost var was := StatesOf(metrics);
      var i := GetMetric(TIMESTAMP);
      timestamp := ms;
      if i >= 0 {
        var target := metrics[i].value;
        target.SetInt(ms);
        OneChanged(metrics, i, was);
      }
    }
  }

  /** When one object of a list has changed, so has one state. */
  lemma OneChanged(list: seq<Entry<Metric>>, i: nat, was: MetricMap)
    requires i < |list| == |was|
    requires forall j :: 0 <= j < |list| ==> was[j].key == list[j].key
    requires forall j :: 0 <= j < |list| && j != i ==> was[j].value == list[j].value.State()
    ensures StatesOf(list) == was[i := Entry(was[i].key, list[i].value.State())]
  {
  }

  /** Lookups by name see the same keys in objects and in states. */
  lemma {:induction false} SameKeys(list: seq<Entry<Metric>>, name: string)
    ensures IndexOf(StatesOf(list), name) == IndexOf(list, name)
  {
    if list != [] {
      assert StatesOf(list)[1..] == StatesOf(list[1..]);
      SameKeys(list[1..], name);
    }
  }

  lemma {:induction false} SamePosition(list: seq<Entry<Metric>>, name: string)
    ensures Position(StatesOf(list), name) == Position(list, name)
  {
    if list != [] {
      assert StatesOf(list)[1..] == StatesOf(list[1..]);
      SamePosition(list[1..], name);
    }
  }

  lemma InsertDistinct(list: seq<Entry<Metric>>, name: string, m: Metric)
    requires Distinct(list) && m !in Objects(list)
    ensures Distinct(Insert(list, name, m))
  {
    var p := Position(list, name);
    var r := Insert(list, name, m);
    forall i, j | 0 <= i < j < |r| ensures r[i].value != r[j].value {
      if i == p {
        assert list[j - 1] in list;
      } else if j == p {
        assert list[i] in list;
      }
    }
  }

  lemma InsertedObjects(list: seq<Entry<Metric>>, name: string, m: Metric)
    ensures Objects(Insert(list, name, m)) == Objects(list) + {m}
  {
    var p := Position(list, name);
    var r := list[..p] + [Entry(name, m)] + list[p..];
    assert list == list[..p] + list[p..];
    assert r[p] == Entry(name, m);
    assert forall x :: x in r <==> x in list || x == Entry(name, m);
  }

  lemma InsertObject(list: seq<Entry<Metric>>, name: string, m: Metric)
    requires Distinct(list) && Sorted(list) && IndexOf(list, name) < 0 && m !in Objects(list)
    ensures var r := Insert(list, name, m);
            && Distinct(r) && Sorted(r) && Objects(r) == Objects(list) + {m}
            && IndexOf(r, name) == Position(list, name)
            && StatesOf(r) == Insert(StatesOf(list), name, m.State())
  {
    InsertDistinct(list, name, m);
    InsertedObjects(list, name, m);
    InsertSorted(list, name, m);
    IndexOfOwnKey(Insert(list, name, m), Position(list, name), name);
    InsertedStates(list, name, m);
  }

  lemma InsertedStates(list: seq<Entry<Metric>>, name: string, m: Metric)
    ensures StatesOf(Insert(list, name, m)) == Insert(StatesOf(list), name, m.State())
  {
    SamePosition(list, name);
  }
}
