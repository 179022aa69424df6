/** `Metric::Value` writers on any number of threads against `PublishTopics`, which
    is serialised by the topic lock.  One step is one access to a shared field. */
module LostUpdate {

  /** A setter stores the text under the metric's lock, leaves the lock, and raises
      the flag if the text was new. */
  datatype Writer = Ready | Storing(metric: nat)

  /** `PublishTopics` on one topic: two looks at the flags, then every flag down,
      then every value read into the body. */
  datatype Publisher =
    | Free
    | Looking(again: bool, i: nat)
    | Resetting(i: nat)
    | Reading(i: nat, texts: seq<string>)

  datatype Shared<+P> = Shared(
    values: seq<string>,      // the text of each metric
    flags: seq<bool>,         // its updated flag
    body: seq<string>,        // the text of each metric in the last body that has it
    carried: seq<bool>,       // the body has a place for it: JSON leaves some types out
    publisher: P,
    writers: seq<Writer>)

  type State = Shared<Publisher>

  datatype Step =
    | Store(w: nat, m: nat, text: string)
    | Raise(w: nat)
    | Lock
    | Look
    | ResetOne
    | ReadOne

  /** The first step of a setter, by writer w. */
  function Stored<P>(s: Shared<P>, w: nat, m: nat, text: string): Shared<P> {
    if w < |s.writers| && s.writers[w] == Ready && m < |s.values| then
      s.(values := s.values[m := text],
         writers := s.writers[w := if text != s.values[m] then Storing(m) else Ready])
    else s
  }

  /** And the second. */
  function Raised<P>(s: Shared<P>, w: nat): Shared<P>
    requires SharedWellFormed(s)
  {
    if w < |s.writers| && s.writers[w].Storing? then
      s.(flags := s.flags[s.writers[w].metric := true], writers := s.writers[w := Ready])
    else s
  }

  ghost predicate SharedWellFormed<P>(s: Shared<P>) {
    && |s.flags| == |s.values| == |s.body| == |s.carried|
    && (forall w :: 0 <= w < |s.writers| && s.writers[w].Storing? ==> s.writers[w].metric < |s.values|)
  }

  /** A step that is not enabled leaves the state alone. */
  function Next(s: State, e: Step): State
    requires WellFormed(s)
  {
    match e
    case Store(w, m, text) => Stored(s, w, m, text)
    case Raise(w) => Raised(s, w)
    case Lock => if s.publisher == Free then s.(publisher := Looking(false, 0)) else s
    case Look =>
      if !s.publisher.Looking? then s
      else
        var i := s.publisher.i;
        if i == |s.flags| then s.(publisher := Free)
        else if !s.flags[i] then s.(publisher := Looking(s.publisher.again, i + 1))
        else s.(publisher := if s.publisher.again then Resetting(0) else Looking(true, 0))
    case ResetOne =>
      if !s.publisher.Resetting? then s
      else
        var i := s.publisher.i;
        if i == |s.flags| then s.(publisher := Reading(0, []))
        else s.(flags := s.flags[i := false], publisher := Resetting(i + 1))
    case ReadOne =>
      if !s.publisher.Reading? then s
      else
        var i, texts := s.publisher.i, s.publisher.texts;
        if i == |s.values| then s.(body := texts, publisher := Free)
        else s.(publisher := Reading(i + 1, texts + [if s.carried[i] then s.values[i] else ""]))
  }

  ghost predicate WellFormed(s: State) {
    && SharedWellFormed(s)
    && match s.publisher
       case Free => true
       case Looking(_, i) => i <= |s.values|
       case Resetting(i) => i <= |s.values|
       case Reading(i, texts) => i <= |s.values| && |texts| == i
  }

  /** The text last put into a body, finished or under construction. */
  function Shown(s: State, m: nat): string
    requires WellFormed(s) && m < |s.values|
  {
    if s.publisher.Reading? && m < s.publisher.i then s.publisher.texts[m] else s.body[m]
  }

  ghost predicate WriterPending<P>(s: Shared<P>, m: nat) {
    exists w :: 0 <= w < |s.writers| && s.writers[w] == Storing(m)
  }

  predicate ResetNotRead(p: Publisher, m: nat) {
    (p.Resetting? && m < p.i) || (p.Reading? && p.i <= m)
  }

  /** An update of metric m is on its way, or has been shown, if the body shows it. */
  ghost predicate NotLost(s: State, m: nat)
    requires WellFormed(s) && m < |s.values|
  {
    s.carried[m] ==>
      Shown(s, m) == s.values[m] || s.flags[m] || WriterPending(s, m) || ResetNotRead(s.publisher, m)
  }

  ghost predicate Safe(s: State) {
    WellFormed(s) && forall m :: 0 <= m < |s.values| ==> NotLost(s, m)
  }

  lemma StepWellFormed(s: State, e: Step)
    requires WellFormed(s)
    ensures WellFormed(Next(s, e)) && Next(s, e).carried == s.carried
  {
  }

  function Run(s: State, steps: seq<Step>): State
    requires WellFormed(s)
    ensures WellFormed(Run(s, steps)) && Run(s, steps).carried == s.carried
  {
    if steps == [] then s
    else
      var t := Run(s, steps[..|steps| - 1]);
      StepWellFormed(t, steps[|steps| - 1]);
      Next(t, steps[|steps| - 1])
  }

  lemma StepSafe(s: State, e: Step)
    requires Safe(s)
    ensures Safe(Next(s, e))
  {
    StepWellFormed(s, e);
    var t := Next(s, e);
    forall m | 0 <= m < |t.values| ensures NotLost(t, m) {
      assert NotLost(s, m);
      match e {
        case Store(w, k, text) =>
          if t != s {
            if k == m && text != s.values[m] {
              assert t.writers[w] == Storing(m);
            } else if WriterPending(s, m) {
              var v :| 0 <= v < |s.writers| && s.writers[v] == Storing(m);
              assert t.writers[v] == Storing(m);
            }
          }
        case Raise(w) =>
          if t != s && s.writers[w].metric != m && WriterPending(s, m) {
            var v :| 0 <= v < |s.writers| && s.writers[v] == Storing(m);
            assert t.writers[v] == Storing(m);
          }
        case _ =>
          assert t.writers == s.writers;
          assert WriterPending(s, m) ==> WriterPending(t, m);
      }
    }
  }

  /** All threads are done and no flag is up. */
  ghost predicate Quiescent(s: State) {
    && s.publisher == Free
    && (forall w :: 0 <= w < |s.writers| ==> s.writers[w] == Ready)
    && (forall m :: 0 <= m < |s.flags| ==> !s.flags[m])
  }

  lemma {:induction false} RunSafe(s: State, steps: seq<Step>)
    requires Safe(s)
    ensures Safe(Run(s, steps))
  {
    if steps != [] {
      RunSafe(s, steps[..|steps| - 1]);
      StepSafe(Run(s, steps[..|steps| - 1]), steps[|steps| - 1]);
    }
  }

  /** Nothing is pending at the start: the body shows each unflagged metric it can. */
  ghost predicate UnflaggedShown(s: State)
    requires WellFormed(s)
  {
    forall m :: 0 <= m < |s.values| && s.carried[m] ==> s.flags[m] || s.body[m] == s.values[m]
  }

  lemma StartSafe(s: State)
    requires WellFormed(s) && s.publisher == Free && UnflaggedShown(s)
    ensures Safe(s)
  {
  }

  /** From any start at which unflagged metrics are shown, no interleaving loses an
      update, and at rest the last body shows the current value of every metric that it
      has a place for. */
  lemma NoLostUpdate(s: State, steps: seq<Step>)
    requires WellFormed(s) && s.publisher == Free && UnflaggedShown(s)
    ensures var t := Run(s, steps);
            && (forall m :: 0 <= m < |t.values| ==> NotLost(t, m))
            && (Quiescent(t) ==> forall m :: 0 <= m < |t.values| && s.carried[m] ==> t.body[m] == t.values[m])
  {
    StartSafe(s);
    RunSafe(s, steps);
    var t := Run(s, steps);
    if Quiescent(t) {
      forall m | 0 <= m < |t.values| && s.carried[m] ensures t.body[m] == t.values[m] {
        assert NotLost(t, m);
      }
    }
  }

  // ----------------------------------------------------------------- progress

  /** The next access of the publisher. */
  function OwnStep(s: State): Step {
    match s.publisher
    case Free => Lock
    case Looking(_, _) => Look
    case Resetting(_) => ResetOne
    case Reading(_, _) => ReadOne
  }

  function After(s: State): (t: State)
    requires WellFormed(s)
    ensures WellFormed(t)
  {
    StepWellFormed(s, OwnStep(s));
    Next(s, OwnStep(s))
  }

  /** k accesses of the publisher with no other thread in between. */
  function Alone(s: State, k: nat): (t: State)
    requires WellFormed(s)
    ensures WellFormed(t)
    decreases k
  {
    if k == 0 then s else Alone(After(s), k - 1)
  }

  lemma RunPush(s: State, steps: seq<Step>, e: Step)
    requires WellFormed(s)
    ensures Run(s, steps + [e]) == Next(Run(s, steps), e)
  {
    assert (steps + [e])[..|steps|] == steps;
  }

  /** It continues a run of any threads as one of the runs above. */
  lemma {:induction false} AloneIsRun(s: State, steps: seq<Step>, k: nat) returns (more: seq<Step>)
    requires WellFormed(s)
    ensures |more| == |steps| + k && steps <= more && Run(s, more) == Alone(Run(s, steps), k)
    decreases k
  {
    if k == 0 {
      more := steps;
    } else {
      var e := OwnStep(Run(s, steps));
      RunPush(s, steps, e);
      more := AloneIsRun(s, steps + [e], k - 1);
    }
  }

  predicate FirstUp(s: State, u: nat) {
    u < |s.flags| && s.flags[u] && forall m :: 0 <= m < u ==> !s.flags[m]
  }

  /** j flags that are down are looked past. */
  lemma {:induction false} LooksPast(s: State, j: nat, k: nat)
    requires WellFormed(s) && s.publisher.Looking? && s.publisher.i + j <= |s.flags|
    requires forall m :: s.publisher.i <= m < s.publisher.i + j ==> !s.flags[m]
    ensures var t := s.(publisher := Looking(s.publisher.again, s.publisher.i + j));
            WellFormed(t) && Alone(s, j + k) == Alone(t, k)
    decreases j
  {
    if j > 0 {
      assert After(s) == s.(publisher := Looking(s.publisher.again, s.publisher.i + 1));
      LooksPast(After(s), j - 1, k);
    }
  }

  lemma LookFinds(s: State, u: nat, k: nat)
    requires WellFormed(s) && s.publisher.Looking? && s.publisher.i == 0 && FirstUp(s, u)
    ensures var t := s.(publisher := if s.publisher.again then Resetting(0) else Looking(true, 0));
            WellFormed(t) && Alone(s, u + (k + 1)) == Alone(t, k)
  {
    LooksPast(s, u, k + 1);
    var v := s.(publisher := Looking(s.publisher.again, u));
    assert After(v) == s.(publisher := if s.publisher.again then Resetting(0) else Looking(true, 0));
  }

  function Lowered(flags: seq<bool>, i: nat): seq<bool>
    requires i <= |flags|
    decreases |flags| - i
  {
    if i == |flags| then flags else Lowered(flags[i := false], i + 1)
  }

  lemma {:induction false} AllLowered(flags: seq<bool>, i: nat)
    requires i <= |flags| && forall m :: 0 <= m < i ==> !flags[m]
    ensures |Lowered(flags, i)| == |flags| && forall m :: 0 <= m < |flags| ==> !Lowered(flags, i)[m]
    decreases |flags| - i
  {
    if i < |flags| { AllLowered(flags[i := false], i + 1); }
  }

  lemma {:induction false} ResetsDown(s: State, k: nat)
    requires WellFormed(s) && s.publisher.Resetting?
    ensures var i := s.publisher.i;
            var t := s.(flags := Lowered(s.flags, i), publisher := Reading(0, []));
            |t.flags| == |s.flags| && WellFormed(t) && Alone(s, |s.flags| - i + (k + 1)) == Alone(t, k)
    decreases |s.flags| - s.publisher.i
  {
    var i := s.publisher.i;
    if i == |s.flags| {
      assert After(s) == s.(publisher := Reading(0, []));
    } else {
      assert After(s) == s.(flags := s.flags[i := false], publisher := Resetting(i + 1));
      ResetsDown(After(s), k);
    }
  }

  /** The body when the metrics from number i on have been read behind the given texts. */
  ghost predicate Completed(s: State, body: seq<string>)
    requires WellFormed(s) && s.publisher.Reading?
  {
    && |body| == |s.values|
    && (forall m :: 0 <= m < s.publisher.i ==> body[m] == s.publisher.texts[m])
    && forall m :: s.publisher.i <= m < |s.values| && s.carried[m] ==> body[m] == s.values[m]
  }

  lemma ReadOneMore(s: State, body: seq<string>)
    requires WellFormed(s) && s.publisher.Reading? && s.publisher.i < |s.values|
    requires After(s).publisher.Reading? && Completed(After(s), body)
    ensures Completed(s, body)
  {
    var i, texts := s.publisher.i, s.publisher.texts;
    assert After(s).publisher.texts[i] == if s.carried[i] then s.values[i] else "";
    forall m | 0 <= m < i ensures body[m] == texts[m] {
      assert After(s).publisher.texts[m] == texts[m];
    }
  }

  lemma {:induction false} ReadsUp(s: State, k: nat) returns (body: seq<string>)
    requires WellFormed(s) && s.publisher.Reading?
    ensures Completed(s, body)
    ensures var t := s.(body := body, publisher := Free);
            WellFormed(t) && Alone(s, |s.values| - s.publisher.i + (k + 1)) == Alone(t, k)
    decreases |s.values| - s.publisher.i
  {
    if s.publisher.i == |s.values| {
      body := s.publisher.texts;
      assert After(s) == s.(body := body, publisher := Free);
    } else {
      body := ReadsUp(After(s), k);
      ReadOneMore(s, body);
    }
  }

  lemma FindsWork(s: State, u: nat, k: nat)
    requires WellFormed(s) && s.publisher == Free && FirstUp(s, u)
    ensures var t := s.(publisher := Resetting(0));
            WellFormed(t) && Alone(s, 1 + (u + (u + (k + 1) + 1))) == Alone(t, k)
  {
    var s1 := s.(publisher := Looking(false, 0));
    assert After(s) == s1;
    LookFinds(s1, u, u + (k + 1));
    LookFinds(s.(publisher := Looking(true, 0)), u, k);
  }

  /** Left alone with a flag up, number u the first, the publisher is free again after
      2u + 2n + 5 accesses, with all flags down and the current value of every metric
      that the body has a place for. */
  lemma PublishesAlone(s: State, u: nat)
    requires WellFormed(s) && s.publisher == Free && FirstUp(s, u)
    ensures var t := Alone(s, 2 * u + 2 * |s.values| + 5);
            && t.publisher == Free && t.values == s.values && t.writers == s.writers
            && (forall m :: 0 <= m < |t.flags| ==> !t.flags[m])
            && forall m :: 0 <= m < |t.values| && s.carried[m] ==> t.body[m] == s.values[m]
  {
    var n := |s.values|;
    var t1 := s.(publisher := Resetting(0));
    var t2 := t1.(flags := Lowered(s.flags, 0), publisher := Reading(0, []));
    AllLowered(s.flags, 0);
    FindsWork(s, u, n + (n + 1 + 1));
    ResetsDown(t1, n + 1);
    var body := ReadsUp(t2, 0);
    assert 1 + (u + (u + (n + (n + 1 + 1) + 1) + 1)) == 2 * u + 2 * n + 5;
  }

  /** With no flag up it looks once over all of them and leaves everything as it was. */
  lemma NothingToPublish(s: State)
    requires WellFormed(s) && s.publisher == Free && forall m :: 0 <= m < |s.flags| ==> !s.flags[m]
    ensures Alone(s, 1 + (|s.flags| + 1)) == s
  {
    var s1 := s.(publisher := Looking(false, 0));
    assert After(s) == s1;
    LooksPast(s1, |s.flags|, 1);
    var s2 := s.(publisher := Looking(false, |s.flags|));
    assert After(s2) == s;
    assert Alone(s, 0) == s;
  }
}
