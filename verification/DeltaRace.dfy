/** `Metric::Value` writers on any number of threads against `WriteProtobuf`, which
    reads a metric before it takes its flag down, alone or behind the resets of
    `PublishTopics`.  One step is one access to a shared field; the setters are those
    of `LostUpdate`. */
module DeltaRace {
  import opened LostUpdate

  /** The writer loop at metric i: its flag is looked at, its value read, its flag
      taken down.  With `all` the flag does not matter.  `PublishTopics` takes every flag
      down first. */
  datatype Helper =
    | Idle
    | Lowering(i: nat)
    | Checking(all: bool, i: nat)
    | Taking(all: bool, i: nat)
    | Clearing(all: bool, i: nat)

  type Race = Shared<Helper>

  datatype Access =
    | Store(w: nat, m: nat, text: string)
    | Raise(w: nat)
    | Begin(all: bool)
    | Publish
    | ResetFlag
    | CheckFlag
    | ReadValue
    | ClearFlag

  /** A protobuf body has a place for every metric. */
  ghost predicate Proper(s: Race) {
    && SharedWellFormed(s)
    && (forall m :: 0 <= m < |s.carried| ==> s.carried[m])
    && match s.publisher
       case Idle => true
       case Lowering(i) => i <= |s.values|
       case Checking(_, i) => i <= |s.values|
       case Taking(_, i) => i < |s.values|
       case Clearing(_, i) => i < |s.values|
  }

  /** A step that is not enabled leaves the state alone. */
  function Accessed(s: Race, e: Access): Race
    requires Proper(s)
  {
    match e
    case Store(w, m, text) => Stored(s, w, m, text)
    case Raise(w) => Raised(s, w)
    case Begin(all) => if s.publisher == Idle then s.(publisher := Checking(all, 0)) else s
    case Publish => if s.publisher == Idle then s.(publisher := Lowering(0)) else s
    case ResetFlag =>
      if !s.publisher.Lowering? then s
      else
        var i := s.publisher.i;
        if i == |s.values| then s.(publisher := Checking(false, 0))
        else s.(flags := s.flags[i := false], publisher := Lowering(i + 1))
    case CheckFlag =>
      if !s.publisher.Checking? then s
      else
        var all, i := s.publisher.all, s.publisher.i;
        if i == |s.values| then s.(publisher := Idle)
        else s.(publisher := if all || s.flags[i] then Taking(all, i) else Checking(all, i + 1))
    case ReadValue =>
      if !s.publisher.Taking? then s
      else
        var i := s.publisher.i;
        s.(body := s.body[i := s.values[i]], publisher := Clearing(s.publisher.all, i))
    case ClearFlag =>
      if !s.publisher.Clearing? then s
      else
        var i := s.publisher.i;
        s.(flags := s.flags[i := false], publisher := Checking(s.publisher.all, i + 1))
  }

  lemma AccessedProper(s: Race, e: Access)
    requires Proper(s)
    ensures Proper(Accessed(s, e)) && |Accessed(s, e).values| == |s.values|
  {
  }

  function Run(s: Race, steps: seq<Access>): Race
    requires Proper(s)
    ensures Proper(Run(s, steps)) && |Run(s, steps).values| == |s.values|
  {
    if steps == [] then s
    else
      var t := Run(s, steps[..|steps| - 1]);
      AccessedProper(t, steps[|steps| - 1]);
      Accessed(t, steps[|steps| - 1])
  }

  /** The metric's text was read last, or its flag is up or about to be. */
  ghost predicate Accounted(s: Race, m: nat)
    requires Proper(s) && m < |s.values|
  {
    s.body[m] == s.values[m] || s.flags[m] || WriterPending(s, m)
  }

  // ------------------------------------------------------ what loses an update

  /** The flag is taken down, by `WriteProtobuf` or by the reset before it. */
  predicate Clears(s: Race, e: Access, m: nat) {
    || (e == ClearFlag && s.publisher.Clearing? && s.publisher.i == m)
    || (e == ResetFlag && s.publisher == Lowering(m))
  }

  predicate Reads(s: Race, e: Access, m: nat) {
    e == ReadValue && s.publisher.Taking? && s.publisher.i == m
  }

  predicate Raises(s: Race, e: Access, m: nat) {
    e.Raise? && e.w < |s.writers| && s.writers[e.w] == Storing(m)
  }

  /** A setter stores a text that differs from the one it finds. */
  predicate StoresNew(s: Race, e: Access, m: nat)
    requires m < |s.values|
  {
    e.Store? && e.m == m && e.w < |s.writers| && s.writers[e.w] == Ready && e.text != s.values[m]
  }

  /** The flag is taken down although the value has changed since it was read, and
      no writer is left that would raise it again. */
  ghost predicate Loses(s: Race, e: Access, m: nat)
    requires Proper(s) && m < |s.values|
  {
    Clears(s, e, m) && s.body[m] != s.values[m] && !WriterPending(s, m)
  }

  predicate Repairs(s: Race, e: Access, m: nat)
    requires m < |s.values|
  {
    StoresNew(s, e, m) || Reads(s, e, m)
  }

  lemma PendingStep(s: Race, e: Access, m: nat)
    requires Proper(s) && m < |s.values|
    ensures WriterPending(Accessed(s, e), m) ==> WriterPending(s, m) || StoresNew(s, e, m)
    ensures StoresNew(s, e, m) ==> WriterPending(Accessed(s, e), m)
    ensures WriterPending(s, m) ==> WriterPending(Accessed(s, e), m) || Raises(s, e, m)
  {
    var t := Accessed(s, e);
    if w :| 0 <= w < |t.writers| && t.writers[w] == Storing(m) {
      assert w < |s.writers| && (s.writers[w] == Storing(m) || StoresNew(s, e, m));
    }
    if StoresNew(s, e, m) {
      assert t.writers[e.w] == Storing(m);
    }
    if w :| 0 <= w < |s.writers| && s.writers[w] == Storing(m) {
      assert Raises(s, e, m) || t.writers[w] == Storing(m);
    }
  }

  /** Of all accesses just one kind loses an update. */
  lemma StepLoses(s: Race, e: Access, m: nat)
    requires Proper(s) && m < |s.values|
    ensures Accounted(Accessed(s, e), m) <==>
            if Accounted(s, m) then !Loses(s, e, m) else Repairs(s, e, m)
  {
    PendingStep(s, e, m);
  }

  ghost predicate LosesAt(s: Race, steps: seq<Access>, m: nat, k: nat)
    requires Proper(s) && m < |s.values| && k < |steps|
  {
    Loses(Run(s, steps[..k]), steps[k], m)
  }

  predicate RepairsAt(s: Race, steps: seq<Access>, m: nat, k: nat)
    requires Proper(s) && m < |s.values| && k < |steps|
  {
    Repairs(Run(s, steps[..k]), steps[k], m)
  }

  /** Step k loses an update of the metric, and nothing behind it makes up for that. */
  ghost predicate LosesForGood(s: Race, steps: seq<Access>, m: nat, k: nat)
    requires Proper(s) && m < |s.values| && k < |steps|
  {
    LosesAt(s, steps, m, k) && forall j :: k < j < |steps| ==> !RepairsAt(s, steps, m, j)
  }

  lemma EarlierStep(s: Race, steps: seq<Access>, m: nat, k: nat)
    requires Proper(s) && m < |s.values| && k < |steps| - 1
    ensures var front := steps[..|steps| - 1];
            && LosesAt(s, front, m, k) == LosesAt(s, steps, m, k)
            && RepairsAt(s, front, m, k) == RepairsAt(s, steps, m, k)
  {
    var front := steps[..|steps| - 1];
    assert front[k] == steps[k] && front[..k] == steps[..k];
  }

  lemma StillForGood(s: Race, steps: seq<Access>, m: nat, k: nat)
    requires Proper(s) && m < |s.values| && k < |steps| - 1 && LosesForGood(s, steps, m, k)
    ensures LosesForGood(s, steps[..|steps| - 1], m, k) && !RepairsAt(s, steps, m, |steps| - 1)
  {
    EarlierStep(s, steps, m, k);
    var front := steps[..|steps| - 1];
    forall j | k < j < |front| ensures !RepairsAt(s, front, m, j) {
      EarlierStep(s, steps, m, j);
      assert !RepairsAt(s, steps, m, j);
    }
  }

  lemma OnceMoreForGood(s: Race, steps: seq<Access>, m: nat, k: nat)
    requires Proper(s) && m < |s.values| && k < |steps| - 1
    requires LosesForGood(s, steps[..|steps| - 1], m, k) && !RepairsAt(s, steps, m, |steps| - 1)
    ensures LosesForGood(s, steps, m, k)
  {
    EarlierStep(s, steps, m, k);
    forall j | k < j < |steps| ensures !RepairsAt(s, steps, m, j) {
      if j < |steps| - 1 {
        EarlierStep(s, steps, m, j);
        assert !RepairsAt(s, steps[..|steps| - 1], m, j);
      }
    }
  }

  ghost predicate LostForGood(s: Race, steps: seq<Access>, m: nat)
    requires Proper(s) && m < |s.values|
  {
    exists k :: 0 <= k < |steps| && LosesForGood(s, steps, m, k)
  }

  lemma LostForGoodLast(s: Race, steps: seq<Access>, m: nat)
    requires Proper(s) && m < |s.values| && steps != []
    ensures var n := |steps| - 1;
            LostForGood(s, steps, m) <==>
            LosesAt(s, steps, m, n) || (LostForGood(s, steps[..n], m) && !RepairsAt(s, steps, m, n))
  {
    var n := |steps| - 1;
    if LosesAt(s, steps, m, n) {
      assert LosesForGood(s, steps, m, n);
    }
    if k :| 0 <= k < n && LosesForGood(s, steps[..n], m, k) {
      if !RepairsAt(s, steps, m, n) { OnceMoreForGood(s, steps, m, k); }
    }
    if k :| 0 <= k < n && LosesForGood(s, steps, m, k) {
      StillForGood(s, steps, m, k);
    }
  }

  /** In every interleaving an update is lost exactly when some clear lost it and no
      new text and no reading followed. */
  lemma {:induction false} LostExactlyWhen(s: Race, steps: seq<Access>, m: nat)
    requires Proper(s) && m < |s.values| && Accounted(s, m)
    ensures !Accounted(Run(s, steps), m) <==> LostForGood(s, steps, m)
  {
    if steps != [] {
      var n := |steps| - 1;
      LostExactlyWhen(s, steps[..n], m);
      StepLoses(Run(s, steps[..n]), steps[n], m);
      LostForGoodLast(s, steps, m);
      LostAgain(Run(s, steps[..n]), steps[n], m);
    }
  }

  lemma LostAgain(s: Race, e: Access, m: nat)
    requires Proper(s) && m < |s.values|
    ensures Loses(s, e, m) ==> !Repairs(s, e, m)
  {
  }

  // ------------------------------------------------------------------ at rest

  /** The text last read for the metric. */
  function LastRead(s: Race, steps: seq<Access>, m: nat): string
    requires Proper(s) && m < |s.values|
  {
    if steps == [] then s.body[m]
    else
      var front, last := steps[..|steps| - 1], steps[|steps| - 1];
      if Reads(Run(s, front), last, m) then Run(s, front).values[m] else LastRead(s, front, m)
  }

  /** Whether a raise fell after the last clear. */
  predicate RaisedSinceClear(s: Race, steps: seq<Access>, m: nat)
    requires Proper(s) && m < |s.values|
  {
    if steps == [] then s.flags[m]
    else
      var front, last := steps[..|steps| - 1], steps[|steps| - 1];
      Raises(Run(s, front), last, m) || (!Clears(Run(s, front), last, m) && RaisedSinceClear(s, front, m))
  }

  lemma StepTrace(s: Race, e: Access, m: nat)
    requires Proper(s) && m < |s.values|
    ensures Accessed(s, e).body[m] == if Reads(s, e, m) then s.values[m] else s.body[m]
    ensures Accessed(s, e).flags[m] <==> Raises(s, e, m) || (!Clears(s, e, m) && s.flags[m])
  {
  }

  lemma {:induction false} TraceInState(s: Race, steps: seq<Access>, m: nat)
    requires Proper(s) && m < |s.values|
    ensures Run(s, steps).body[m] == LastRead(s, steps, m)
    ensures Run(s, steps).flags[m] <==> RaisedSinceClear(s, steps, m)
  {
    if steps != [] {
      var front := steps[..|steps| - 1];
      TraceInState(s, front, m);
      StepTrace(Run(s, front), steps[|steps| - 1], m);
    }
  }

  /** With all setters done, an update is lost exactly when the value differs from the
      text last read and no raise fell after the last clear. */
  lemma LostAtRest(s: Race, steps: seq<Access>, m: nat)
    requires Proper(s) && m < |s.values|
    requires forall w :: 0 <= w < |Run(s, steps).writers| ==> Run(s, steps).writers[w] == Ready
    ensures !Accounted(Run(s, steps), m) <==>
            Run(s, steps).values[m] != LastRead(s, steps, m) && !RaisedSinceClear(s, steps, m)
  {
    TraceInState(s, steps, m);
  }

  // --------------------------------------------------- what a publication sends

  /** Between the reset of metric m and the look at its flag in the same pass. */
  predicate OnTheWay(p: Helper, m: nat) {
    match p
    case Idle => false
    case Lowering(i) => m <= i
    case Checking(all, i) => i <= m
    case Taking(all, i) => i < m
    case Clearing(all, i) => i < m
  }

  ghost predicate WithinPass(s: Race, steps: seq<Access>, m: nat)
    requires Proper(s)
  {
    forall k :: 0 <= k <= |steps| ==> OnTheWay(Run(s, steps[..k]).publisher, m)
  }

  /** Step k raises the flag of metric m, which has been reset. */
  predicate RaisesAt(s: Race, steps: seq<Access>, m: nat, k: nat)
    requires Proper(s) && k < |steps|
  {
    Raises(Run(s, steps[..k]), steps[k], m) && Run(s, steps[..k]).publisher != Lowering(m)
  }

  ghost predicate RaisedSinceReset(s: Race, steps: seq<Access>, m: nat)
    requires Proper(s)
  {
    exists k :: 0 <= k < |steps| && RaisesAt(s, steps, m, k)
  }

  lemma EarlierRaise(s: Race, steps: seq<Access>, m: nat, k: nat)
    requires Proper(s) && k < |steps| - 1
    ensures RaisesAt(s, steps[..|steps| - 1], m, k) == RaisesAt(s, steps, m, k)
  {
    var front := steps[..|steps| - 1];
    assert front[k] == steps[k] && front[..k] == steps[..k];
  }

  lemma RaisedSinceResetLast(s: Race, steps: seq<Access>, m: nat)
    requires Proper(s) && steps != []
    ensures var n := |steps| - 1;
            RaisedSinceReset(s, steps, m) <==> RaisedSinceReset(s, steps[..n], m) || RaisesAt(s, steps, m, n)
  {
    var n := |steps| - 1;
    var front := steps[..n];
    if k :| 0 <= k < |front| && RaisesAt(s, front, m, k) {
      EarlierRaise(s, steps, m, k);
    }
    if k :| 0 <= k < n && RaisesAt(s, steps, m, k) {
      EarlierRaise(s, steps, m, k);
      assert RaisesAt(s, front, m, k);
    }
  }

  lemma PassStep(s: Race, e: Access, m: nat)
    requires Proper(s) && m < |s.values|
    requires OnTheWay(s.publisher, m) && OnTheWay(Accessed(s, e).publisher, m)
    ensures Accessed(s, e).publisher == Lowering(m) ==> s.publisher == Lowering(m)
    ensures s.publisher == Lowering(m) && Accessed(s, e).publisher != Lowering(m) ==> !Accessed(s, e).flags[m]
    ensures s.publisher != Lowering(m) ==> (Accessed(s, e).flags[m] <==> s.flags[m] || Raises(s, e, m))
    ensures Raises(s, e, m) ==> Accessed(s, e).publisher == s.publisher
  {
  }

  lemma {:induction false} FlagWithinPass(s: Race, steps: seq<Access>, m: nat)
    requires Proper(s) && m < |s.values| && s.publisher == Lowering(m) && WithinPass(s, steps, m)
    ensures var t := Run(s, steps);
            if t.publisher == Lowering(m) then !RaisedSinceReset(s, steps, m)
            else t.flags[m] <==> RaisedSinceReset(s, steps, m)
  {
    if steps != [] {
      var n := |steps| - 1;
      var front := steps[..n];
      assert steps[..|steps|] == steps && front[..n] == front;
      assert forall k :: 0 <= k <= n ==> front[..k] == steps[..k];
      FlagWithinPass(s, front, m);
      PassStep(Run(s, front), steps[n], m);
      RaisedSinceResetLast(s, steps, m);
    }
  }

  /** When `PublishTopics` publishes a protobuf topic, a metric goes out if and only if
      some setter raised its flag between its reset and the look at its flag. */
  lemma OutIffRaised(s: Race, steps: seq<Access>, m: nat)
    requires Proper(s) && m < |s.values| && s.publisher == Lowering(m) && WithinPass(s, steps, m)
    requires Run(s, steps).publisher == Checking(false, m)
    ensures Accessed(Run(s, steps), CheckFlag).publisher ==
            if RaisedSinceReset(s, steps, m) then Taking(false, m) else Checking(false, m + 1)
  {
    FlagWithinPass(s, steps, m);
  }

  // ----------------------------------------------------------------- progress

  function After(s: Race, e: Access): (t: Race)
    requires Proper(s)
    ensures Proper(t)
  {
    AccessedProper(s, e);
    Accessed(s, e)
  }

  /** The next access of the writer loop. */
  function OwnAccess(s: Race): Access {
    match s.publisher
    case Idle => Publish
    case Lowering(_) => ResetFlag
    case Checking(_, _) => CheckFlag
    case Taking(_, _) => ReadValue
    case Clearing(_, _) => ClearFlag
  }

  /** k accesses of the loop with no other thread in between. */
  function LeftAlone(s: Race, k: nat): (t: Race)
    requires Proper(s)
    ensures Proper(t)
    decreases k
  {
    if k == 0 then s else LeftAlone(After(s, OwnAccess(s)), k - 1)
  }

  /** What sending metric i leaves behind. */
  function Sent(s: Race, i: nat): Race
    requires Proper(s) && i < |s.values| && s.publisher.Checking?
  {
    s.(body := s.body[i := s.values[i]], flags := s.flags[i := false], publisher := Checking(s.publisher.all, i + 1))
  }

  /** A metric is looked at, read, and its flag taken down. */
  lemma SentAlone(s: Race, k: nat)
    requires Proper(s) && s.publisher.Checking? && s.publisher.i < |s.values|
    requires s.publisher.all || s.flags[s.publisher.i]
    ensures Proper(Sent(s, s.publisher.i)) && LeftAlone(s, k + 3) == LeftAlone(Sent(s, s.publisher.i), k)
  {
    var t := After(s, OwnAccess(s));
    var u := After(t, OwnAccess(t));
    var v := After(u, OwnAccess(u));
    assert LeftAlone(s, k + 3) == LeftAlone(t, k + 2) == LeftAlone(u, k + 1) == LeftAlone(v, k);
    assert v == Sent(s, s.publisher.i);
  }

  lemma PassedOver(s: Race, k: nat)
    requires Proper(s) && s.publisher.Checking? && s.publisher.i < |s.values|
    requires !s.publisher.all && !s.flags[s.publisher.i]
    ensures var t := s.(publisher := Checking(false, s.publisher.i + 1));
            Proper(t) && LeftAlone(s, k + 1) == LeftAlone(t, k)
  {
    assert After(s, OwnAccess(s)) == s.(publisher := Checking(false, s.publisher.i + 1));
  }

  /** The metrics from number i on that are wanted are sent, the others left alone. */
  ghost predicate SentFrom(s: Race, t: Race, all: bool, i: nat)
    requires Proper(s) && Proper(t)
  {
    && t.values == s.values && t.writers == s.writers
    && forall m :: 0 <= m < |s.values| ==>
         if i <= m && (all || s.flags[m]) then t.body[m] == s.values[m] && !t.flags[m]
         else t.body[m] == s.body[m] && t.flags[m] == s.flags[m]
  }

  lemma SentFirst(s: Race, u: Race, t: Race)
    requires Proper(s) && Proper(u) && Proper(t) && s.publisher.Checking? && s.publisher.i < |s.values|
    requires var all, i := s.publisher.all, s.publisher.i;
             && u == (if all || s.flags[i] then Sent(s, i) else s.(publisher := Checking(all, i + 1)))
             && SentFrom(u, t, all, i + 1)
    ensures SentFrom(s, t, s.publisher.all, s.publisher.i)
  {
  }

  lemma LoopEnds(s: Race)
    requires Proper(s) && s.publisher.Checking? && s.publisher.i == |s.values|
    ensures LeftAlone(s, 1) == s.(publisher := Idle)
  {
    var t := After(s, OwnAccess(s));
    assert LeftAlone(s, 1) == LeftAlone(t, 0);
  }

  lemma {:induction false} LoopAlone(s: Race) returns (k: nat)
    requires Proper(s) && s.publisher.Checking?
    ensures k <= 3 * (|s.values| - s.publisher.i) + 1
    ensures LeftAlone(s, k).publisher == Idle && SentFrom(s, LeftAlone(s, k), s.publisher.all, s.publisher.i)
    decreases |s.values| - s.publisher.i
  {
    var all, i := s.publisher.all, s.publisher.i;
    if i == |s.values| {
      LoopEnds(s);
      k := 1;
    } else if all || s.flags[i] {
      var u := Sent(s, i);
      k := LoopAlone(u);
      SentAlone(s, k);
      SentFirst(s, u, LeftAlone(u, k));
      k := k + 3;
    } else {
      var u := s.(publisher := Checking(all, i + 1));
      k := LoopAlone(u);
      PassedOver(s, k);
      SentFirst(s, u, LeftAlone(u, k));
      k := k + 1;
    }
  }

  /** Left alone, `WriteProtobuf` is done after at most 3n + 1 accesses: it has read
      exactly the flagged metrics, or all of them, and has taken down the flags of exactly
      those. */
  lemma WritesAlone(s: Race, all: bool) returns (k: nat)
    requires Proper(s) && s.publisher == Idle
    ensures k <= 3 * |s.values| + 1
    ensures LeftAlone(After(s, Begin(all)), k).publisher == Idle
    ensures SentFrom(s, LeftAlone(After(s, Begin(all)), k), all, 0)
  {
    k := LoopAlone(After(s, Begin(all)));
  }

  /** The race in the open: a new text that is stored and flagged between the reading
      and the clearing is lost; flagged behind the clearing it is not. */
  lemma LostBetween(s: Race, w: nat, text: string)
    requires Proper(s) && s.publisher.Taking? && w < |s.writers| && s.writers[w] == Ready
    requires text != s.values[s.publisher.i] && !WriterPending(s, s.publisher.i)
    ensures var m := s.publisher.i;
            var stored := After(After(s, ReadValue), Access.Store(w, m, text));
            && |After(After(stored, Access.Raise(w)), ClearFlag).values| == |s.values|
            && |After(After(stored, ClearFlag), Access.Raise(w)).values| == |s.values|
            && !Accounted(After(After(stored, Access.Raise(w)), ClearFlag), m)
            && Accounted(After(After(stored, ClearFlag), Access.Raise(w)), m)
  {
    var m := s.publisher.i;
    var stored := After(After(s, ReadValue), Access.Store(w, m, text));
    assert stored.writers == s.writers[w := Storing(m)] && stored.values[m] == text != stored.body[m];
    var raised := After(stored, Access.Raise(w));
    assert raised.writers == s.writers[w := Ready];
    forall v | 0 <= v < |raised.writers| ensures raised.writers[v] != Storing(m) {
      assert s.writers[v] != Storing(m);
    }
  }
}
