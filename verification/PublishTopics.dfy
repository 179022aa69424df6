/** `PublishTopics` on a topic with protobuf content. */
module PublishTopics {
  import opened OrderedMap
  import opened Wire
  import opened Metrics
  import opened Payloads
  import opened PayloadHelpers

  predicate AnyUpdated(ms: MetricMap) {
    exists i :: 0 <= i < |ms| && ms[i].value.updated
  }

  function ResetAll(ms: MetricMap): MetricMap {
    seq(|ms|, i requires 0 <= i < |ms| => Entry(ms[i].key, ms[i].value.(updated := false)))
  }

  /** `ITopic::IsUpdated` */
  method IsUpdated(payload: Payload) returns (any: bool)
    ensures any == AnyUpdated(payload.State().metrics)
  {
    for i := 0 to |payload.metrics|
      invariant forall j :: 0 <= j < i ==> !payload.metrics[j].value.updated
    {
      if payload.metrics[i].value.updated {
        assert payload.State().metrics[i].value.updated;
        return true;
      }
    }
    any := false;
  }

  /** `ITopic::ResetUpdated` */
  method ResetUpdated(payload: Payload)
    requires payload.Valid()
    modifies payload.Owned()
    ensures payload.State() == old(payload.State()).(metrics := ResetAll(old(payload.State()).metrics))
  {
    ghost var was := StatesOf(payload.metrics);
    for i := 0 to |payload.metrics|
      invariant forall j :: 0 <= j < |was| ==>
        payload.metrics[j].value.State() == if j < i then was[j].value.(updated := false) else was[j].value
    {
      assert payload.metrics[i] in payload.metrics;
      payload.metrics[i].value.updated := false;
    }
    assert StatesOf(payload.metrics) == ResetAll(was);
  }

  /** Apart from its flag no metric changes. */
  lemma ResetOnlyFlags(ms: MetricMap, i: nat)
    requires i < |ms|
    ensures var m := ResetAll(ms)[i].value;
            && !m.updated && m.(updated := ms[i].value.updated) == ms[i].value && ResetAll(ms)[i].key == ms[i].key
  {
  }

  lemma {:induction false} NothingLeftToWrite(ms: MetricMap)
    ensures WrittenEntries(ResetAll(ms), false) == []
    ensures Cleared(ResetAll(ms), false) == ResetAll(ms)
  {
    if ms != [] {
      var r := ResetAll(ms);
      assert r[..|r| - 1] == ResetAll(ms[..|ms| - 1]);
      NothingLeftToWrite(ms[..|ms| - 1]);
    }
  }

  /** The flags are down before the protobuf body is generated, and a delta body
      holds flagged metrics only: unless a setter raises a flag in between, what goes
      out carries no metric at all.  `DeltaRace.OutIffRaised` has the interleavings. */
  method PublishProtobufTopic(payload: Payload)
    requires payload.Valid()
    modifies payload`body, payload.Owned()
    ensures old(AnyUpdated(payload.State().metrics)) ==> payload.body.Some? && payload.body.value.metrics == []
    ensures !old(AnyUpdated(payload.State().metrics)) ==> payload.body == old(payload.body)
    ensures payload.State() == old(payload.State()).(metrics :=
              if AnyUpdated(old(payload.State()).metrics) then ResetAll(old(payload.State()).metrics)
              else old(payload.State()).metrics)
  {
    var updated := IsUpdated(payload);
    if updated {
      ghost var was := payload.State().metrics;
      ResetUpdated(payload);
      NothingLeftToWrite(was);
      GenerateProtobuf(payload);
    }
  }
}
