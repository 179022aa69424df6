/** Alias numbers: the metrics of a node's NBIRTH and of its devices' DBIRTHs are
    numbered in one go before the births are published. */
module Aliases {
  import opened OrderedMap
  import opened Metrics
  import opened Payloads

  // ----------------------------------------------------------- specification

  function NumberedFrom(m: MetricMap, start: nat): MetricMap {
    seq(|m|, i requires 0 <= i < |m| => Entry(m[i].key, m[i].value.(alias := start + i)))
  }

  /** The first number for the k-th list. */
  function Start(births: seq<MetricMap>, k: nat): (n: nat)
    requires k <= |births|
    ensures n > 0
  {
    if k == 0 then 1 else Start(births, k - 1) + |births[k - 1]|
  }

  function Assigned(births: seq<MetricMap>): seq<MetricMap> {
    seq(|births|, k requires 0 <= k < |births| => NumberedFrom(births[k], Start(births, k)))
  }

  function AliasesOf(m: MetricMap): seq<nat> {
    seq(|m|, i requires 0 <= i < |m| => m[i].value.alias)
  }

  function AliasLists(births: seq<MetricMap>): seq<seq<nat>> {
    seq(|births|, k requires 0 <= k < |births| => AliasesOf(births[k]))
  }

  function Flat(lists: seq<seq<nat>>, k: nat): seq<nat>
    requires k <= |lists|
  {
    if k == 0 then [] else Flat(lists, k - 1) + lists[k - 1]
  }

  /** The aliases of all lists, one list after the other. */
  function AllAliases(births: seq<MetricMap>): seq<nat> {
    Flat(AliasLists(births), |births|)
  }

  function Total(births: seq<MetricMap>): nat {
    Start(births, |births|) - 1
  }

  // ---------------------------------------------------------------- the loops

  /** A topic that does not exist has no metrics. */
  ghost function MapOf(p: Payload?): MetricMap
    reads p, if p == null then {} else p.Owned()
  {
    if p == null then [] else StatesOf(p.metrics)
  }

  ghost predicate Apart(births: seq<Payload?>)
    reads births
  {
    && (forall k :: 0 <= k < |births| && births[k] != null ==> births[k].Valid())
    && forall j, k :: 0 <= j < k < |births| && births[j] != null && births[k] != null ==>
         births[j].Owned() !! births[k].Owned()
  }

  /** The inner loop. */
  method Number(p: Payload, start: nat) returns (next: nat)
    requires p.Valid()
    modifies p.Owned()`alias
    ensures next == start + |p.metrics|
    ensures StatesOf(p.metrics) == NumberedFrom(old(StatesOf(p.metrics)), start)
  {
    next := start;
    for i := 0 to |p.metrics|
      invariant next == start + i
      invariant forall j :: 0 <= j < i ==> p.metrics[j].value.alias == start + j
    {
      assert p.metrics[i] in p.metrics;
      p.metrics[i].value.alias := next;
      next := next + 1;
    }
  }

  ghost predicate Within(births: seq<Payload?>, owned: set<Metric>)
    reads births
  {
    forall k :: 0 <= k < |births| && births[k] != null ==> births[k].Owned() <= owned
  }

  /** What the metrics are when the first n lists have been numbered. */
  ghost predicate Progress(births: seq<Payload?>, owned: set<Metric>, was: seq<MetricMap>, n: nat)
    requires Within(births, owned)
    reads births, owned
  {
    && |was| == |births|
    && forall k :: 0 <= k < |births| ==>
         MapOf(births[k]) == if k < n then Assigned(was)[k] else was[k]
  }

  /** One round of the loop over the births. */
  method NumberBirth(births: seq<Payload?>, k: nat, start: nat, ghost owned: set<Metric>) returns (next: nat)
    requires Apart(births) && Within(births, owned) && k < |births|
    modifies owned`alias
    ensures next == start + |old(MapOf(births[k]))|
    ensures MapOf(births[k]) == NumberedFrom(old(MapOf(births[k])), start)
    ensures forall j :: 0 <= j < |births| && j != k ==> MapOf(births[j]) == old(MapOf(births[j]))
  {
    var p := births[k];
    next := start;
    if p != null {
      next := Number(p, start);
    }
  }

  method NumberNext(births: seq<Payload?>, k: nat, start: nat, ghost owned: set<Metric>, ghost was: seq<MetricMap>)
    returns (next: nat)
    requires Apart(births) && Within(births, owned) && k < |births|
    requires Progress(births, owned, was, k) && start == Start(was, k)
    modifies owned`alias
    ensures Progress(births, owned, was, k + 1) && next == Start(was, k + 1)
  {
    next := NumberBirth(births, k, start, owned);
  }

  /** The NBIRTH payload comes first, then the DBIRTH payloads in the order of the
      device list; null where a topic does not exist. */
  method AssignAliasNumbers(births: seq<Payload?>, ghost owned: set<Metric>, ghost was: seq<MetricMap>)
    requires Apart(births) && Within(births, owned) && Progress(births, owned, was, 0)
    modifies owned`alias
    ensures Progress(births, owned, was, |births|)
  {
    var aliasNumber := 1;
    for k := 0 to |births|
      invariant Progress(births, owned, was, k) && aliasNumber == Start(was, k)
    {
      aliasNumber := NumberNext(births, k, aliasNumber, owned, was);
    }
  }

  // --------------------------------------------------------------- bijection

  ghost predicate CountsFrom(aliases: seq<nat>, start: nat) {
    forall i :: 0 <= i < |aliases| ==> aliases[i] == start + i
  }

  lemma CountsOn(a: seq<nat>, b: seq<nat>, start: nat)
    requires CountsFrom(a, start) && CountsFrom(b, start + |a|)
    ensures CountsFrom(a + b, start)
  {
  }

  lemma {:induction false} FlatCounts(births: seq<MetricMap>, lists: seq<seq<nat>>, k: nat)
    requires k <= |births| == |lists|
    requires forall j {:trigger lists[j]} :: 0 <= j < k ==> |lists[j]| == |births[j]| && CountsFrom(lists[j], Start(births, j))
    ensures CountsFrom(Flat(lists, k), 1) && |Flat(lists, k)| == Start(births, k) - 1
  {
    if k > 0 {
      FlatCounts(births, lists, k - 1);
      CountsOn(Flat(lists, k - 1), lists[k - 1], 1);
    }
  }

  /** The aliases are exactly 1 .. total, each used once, whatever they were. */
  lemma AliasesAreOneToTotal(births: seq<MetricMap>)
    ensures var r := AllAliases(Assigned(births)); CountsFrom(r, 1) && |r| == Total(births)
  {
    FlatCounts(births, AliasLists(Assigned(births)), |births|);
  }

  /** In its own list a metric's alias finds the metric its name finds, and it finds
      nothing in any other list. */
  lemma LookupsAgree(births: seq<MetricMap>, k: nat, i: nat)
    requires k < |births| && i < |births[k]| && Sorted(births[k])
    ensures var r := Assigned(births);
            var alias := r[k][i].value.alias;
            && AliasIndex(r[k], alias) == i == IndexOf(r[k], births[k][i].key)
            && forall j :: 0 <= j < |births| && j != k ==> AliasIndex(r[j], alias) == -1
  {
    var r: seq<MetricMap> := Assigned(births);
    IndexOfOwnKey(r[k], i, births[k][i].key);
    var alias := r[k][i].value.alias;
    forall j: nat | j < |births| && j != k ensures AliasIndex(r[j], alias) == -1 {
      if j < k { StartGrows(births, j, k); } else { StartGrows(births, k, j); }
    }
  }

  lemma {:induction false} StartGrows(births: seq<MetricMap>, j: nat, k: nat)
    requires j < k <= |births|
    ensures Start(births, j) + |births[j]| <= Start(births, k)
  {
    if j < k - 1 { StartGrows(births, j, k - 1); }
  }
}
