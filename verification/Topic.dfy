/** Topic names: five fields, and the text that is split into them or joined from
    them. */
module Topics {

  const NAMESPACE := "spBv1.0"
  const STATE := "STATE"

  datatype Fields = Fields(nameSpace: string, groupId: string, messageType: string, nodeId: string, deviceId: string)

  const BLANK := Fields("", "", "", "", "")

  /** A plain topic starts blank, a Sparkplug topic with the namespace in place. */
  function Started(space: string): Fields {
    BLANK.(nameSpace := space)
  }

  // -------------------------------------------------------- splitting a text

  /** The parts between the slashes; there is always at least one. */
  function Split(s: string): (parts: seq<string>)
    ensures |parts| > 0
  {
    if s == "" then [""]
    else
      var before, c := Split(s[..|s| - 1]), s[|s| - 1];
      if c == '/' then before + [""] else before[..|before| - 1] + [before[|before| - 1] + [c]]
  }

  function Join(parts: seq<string>): string {
    if parts == [] then ""
    else if |parts| == 1 then parts[0]
    else Join(parts[..|parts| - 1]) + "/" + parts[|parts| - 1]
  }

  predicate SlashFree(parts: seq<string>) {
    forall i :: 0 <= i < |parts| ==> '/' !in parts[i]
  }

  /** The parts when more is written behind the last. */
  function Longer(parts: seq<string>, t: string): seq<string>
    requires parts != []
  {
    parts[..|parts| - 1] + [parts[|parts| - 1] + t]
  }

  lemma SplitPush(s: string, c: char)
    ensures Split(s + [c]) == if c == '/' then Split(s) + [""] else Longer(Split(s), [c])
  {
    assert (s + [c])[..|s|] == s;
  }

  lemma JoinLonger(parts: seq<string>, t: string)
    requires parts != []
    ensures Join(Longer(parts, t)) == Join(parts) + t
    ensures Join(parts + [t]) == Join(parts) + "/" + t
  {
    var r := Longer(parts, t);
    assert r[..|r| - 1] == parts[..|parts| - 1];
    assert (parts + [t])[..|parts|] == parts;
  }

  lemma {:induction false} JoinSplit(s: string)
    ensures Join(Split(s)) == s && SlashFree(Split(s))
  {
    if s != "" {
      var front, c := s[..|s| - 1], s[|s| - 1];
      assert s == front + [c];
      JoinSplit(front);
      SplitPush(front, c);
      JoinLonger(Split(front), if c == '/' then "" else [c]);
    }
  }

  lemma LongerTwice(parts: seq<string>, t: string, u: string)
    requires parts != []
    ensures Longer(parts, "") == parts
    ensures Longer(Longer(parts, t), u) == Longer(parts, t + u)
  {
    var last := parts[|parts| - 1];
    assert last + "" == last && last + t + u == last + (t + u);
  }

  lemma {:induction false} SplitMore(s: string, t: string)
    requires '/' !in t
    ensures Split(s + t) == Longer(Split(s), t)
  {
    if t == "" {
      assert s + t == s;
      LongerTwice(Split(s), "", "");
    } else {
      var front, c := t[..|t| - 1], t[|t| - 1];
      assert c in t && t == front + [c];
      calc {
        Split(s + t);
      ==  { assert s + t == s + front + [c]; }
        Split(s + front + [c]);
      ==  { SplitPush(s + front, c); }
        Longer(Split(s + front), [c]);
      ==  { SplitMore(s, front); }
        Longer(Longer(Split(s), front), [c]);
      ==  { LongerTwice(Split(s), front, [c]); }
        Longer(Split(s), front + [c]);
      }
    }
  }

  lemma SplitSingle(t: string)
    requires '/' !in t
    ensures Split(t) == [t]
  {
    SplitMore("", t);
    assert "" + t == t;
  }

  lemma SplitBehind(s: string, t: string)
    requires '/' !in t
    ensures Split(s + "/" + t) == Split(s) + [t]
  {
    SplitPush(s, '/');
    SplitMore(s + "/", t);
    assert "" + t == t;
  }

  lemma {:induction false} SplitJoin(parts: seq<string>)
    requires parts != [] && SlashFree(parts)
    ensures Split(Join(parts)) == parts
  {
    var last := parts[|parts| - 1];
    if |parts| == 1 {
      SplitSingle(last);
    } else {
      var front := parts[..|parts| - 1];
      assert parts == front + [last];
      SplitJoin(front);
      SplitBehind(Join(front), last);
    }
  }

  // ------------------------------------------------------------- the fields

  /** `AssignLevelName`: only a blank field takes a name. */
  function AssignedLevel(f: Fields, level: nat, name: string): Fields {
    if level == 0 && f.nameSpace == "" then f.(nameSpace := name)
    else if level == 1 && f.groupId == "" then f.(groupId := name)
    else if level == 2 && f.messageType == "" then f.(messageType := name)
    else if level == 3 && f.nodeId == "" then f.(nodeId := name)
    else if level == 4 && f.deviceId == "" then f.(deviceId := name)
    else f
  }

  /** The first n parts assigned to their levels. */
  function Filled(f: Fields, parts: seq<string>, n: nat): Fields
    requires n <= |parts|
  {
    if n == 0 then f else AssignedLevel(Filled(f, parts, n - 1), n - 1, parts[n - 1])
  }

  /** A host's topic has its name behind STATE, where others have a group. */
  function Swapped(f: Fields): Fields {
    if f.nameSpace == NAMESPACE && f.groupId == STATE
    then f.(nodeId := f.messageType, messageType := STATE, groupId := "")
    else f
  }

  /** `ITopic::Topic(s)`: the fields that were f before. */
  function Parsed(f: Fields, s: string): Fields {
    var parts := Split(s);
    var n := |parts|;
    Swapped(Filled(f, parts, if n > 1 && parts[n - 1] != "" then n else n - 1))
  }

  function Kept(part: string): seq<string> {
    if part == "" then [] else [part]
  }

  function NonBlank(f: Fields): seq<string> {
    Kept(f.nameSpace) + Kept(f.groupId) + Kept(f.messageType) + Kept(f.nodeId) + Kept(f.deviceId)
  }

  /** `ITopic::Topic()` of a topic without a text. */
  function Joined(f: Fields): string {
    Join(NonBlank(f))
  }

  // -------------------------------------------------------------- the object

  class Topic {
    var topic: string
    var nameSpace: string
    var groupId: string
    var messageType: string
    var nodeId: string
    var deviceId: string

    function State(): Fields
      reads this
    {
      Fields(nameSpace, groupId, messageType, nodeId, deviceId)
    }

    constructor (space: string)
      ensures topic == "" && State() == Started(space)
    {
      topic, nameSpace, groupId, messageType, nodeId, deviceId := "", space, "", "", "", "";
    }

    method AssignLevelName(level: nat, name: string)
      modifies this
      ensures topic == old(topic) && State() == AssignedLevel(old(State()), level, name)
    {
      match level {
        case 0 => if nameSpace == "" { nameSpace := name; }
        case 1 => if groupId == "" { groupId := name; }
        case 2 => if messageType == "" { messageType := name; }
        case 3 => if nodeId == "" { nodeId := name; }
        case 4 => if deviceId == "" { deviceId := name; }
        case _ =>
      }
    }

    method SetTopic(s: string)
      modifies this
      ensures topic == s && State() == Parsed(old(State()), s)
    {
      topic := s;
      var level: nat := 0;
      var temp := "";
      for k := 0 to |s|
        invariant topic == s
        invariant var parts := Split(s[..k]); level == |parts| - 1 && temp == parts[level]
        invariant State() == Filled(old(State()), Split(s[..k]), level)
      {
        NextPart(old(State()), s, k);
        if s[k] == '/' {
          AssignLevelName(level, temp);
          temp := "";
          level := level + 1;
        } else {
          temp := temp + [s[k]];
        }
      }
      assert s[..|s|] == s;
      if level > 0 && temp != "" {
        AssignLevelName(level, temp);
      }
      if nameSpace == NAMESPACE && groupId == STATE {
        nodeId := messageType;
        messageType := groupId;
        groupId := "";
      }
    }

    /** The text is kept once it is made. */
    method GetTopic() returns (s: string)
      modifies `topic
      ensures topic == s && s == if old(topic) == "" then Joined(State()) else old(topic)
    {
      if topic == "" {
        var temp := AddTopicPart("", nameSpace, []);
        temp := AddTopicPart(temp, groupId, Kept(nameSpace));
        temp := AddTopicPart(temp, messageType, Kept(nameSpace) + Kept(groupId));
        temp := AddTopicPart(temp, nodeId, Kept(nameSpace) + Kept(groupId) + Kept(messageType));
        temp := AddTopicPart(temp, deviceId, Kept(nameSpace) + Kept(groupId) + Kept(messageType) + Kept(nodeId));
        topic := temp;
      }
      s := topic;
    }
  }

  method AddTopicPart(temp: string, part: string, ghost parts: seq<string>) returns (r: string)
    requires temp == Join(parts) && "" !in parts
    ensures r == Join(parts + Kept(part)) && "" !in parts + Kept(part)
  {
    assert parts + [] == parts;
    if part == "" {
      return temp;
    }
    r := temp;
    JoinBlank(parts);
    assert (parts + [part])[..|parts|] == parts;
    if r != "" {
      r := r + "/";
    }
    r := r + part;
  }

  /** Without blank parts only nothing joins to nothing. */
  lemma JoinBlank(parts: seq<string>)
    requires "" !in parts
    ensures Join(parts) == "" <==> parts == []
  {
    if |parts| == 1 { assert parts[0] in parts; }
  }

  lemma {:induction false} FilledPrefix(f: Fields, a: seq<string>, b: seq<string>, n: nat)
    requires n <= |a| && n <= |b| && a[..n] == b[..n]
    ensures Filled(f, a, n) == Filled(f, b, n)
  {
    if n > 0 {
      assert a[n - 1] == a[..n][n - 1] == b[n - 1];
      assert a[..n - 1] == a[..n][..n - 1] == b[..n - 1];
      FilledPrefix(f, a, b, n - 1);
    }
  }

  /** One more character ends the last part or makes it longer. */
  lemma NextPart(f: Fields, s: string, k: nat)
    requires k < |s|
    ensures var a, b := Split(s[..k]), Split(s[..k + 1]);
            var level := |a| - 1;
            if s[k] == '/' then
              |b| == |a| + 1 && b[level + 1] == ""
              && Filled(f, b, level + 1) == AssignedLevel(Filled(f, a, level), level, a[level])
            else
              |b| == |a| && b[level] == a[level] + [s[k]] && Filled(f, b, level) == Filled(f, a, level)
  {
    assert s[..k + 1][..k] == s[..k];
    var a, b := Split(s[..k]), Split(s[..k + 1]);
    FilledPrefix(f, a, b, |a| - 1);
  }

  // -------------------------------------------------------------- round trips

  predicate NoBlank(parts: seq<string>) {
    forall i :: 0 <= i < |parts| ==> parts[i] != ""
  }

  function PartAt(parts: seq<string>, n: nat, level: nat): string
    requires n <= |parts|
  {
    if level < n then parts[level] else ""
  }

  /** The first n parts as fields of a topic that had its namespace set at most,
      before the name of a host is moved. */
  function Placed(space: string, parts: seq<string>, n: nat): Fields
    requires n <= |parts|
  {
    Fields(if space != "" then space else PartAt(parts, n, 0),
           PartAt(parts, n, 1), PartAt(parts, n, 2), PartAt(parts, n, 3), PartAt(parts, n, 4))
  }

  lemma {:induction false} FilledFields(space: string, parts: seq<string>, n: nat)
    requires n <= |parts|
    ensures Filled(Started(space), parts, n) == Placed(space, parts, n)
  {
    if n > 0 { FilledFields(space, parts, n - 1); }
  }

  /** Every field of a parsed text, in closed form; a text without a slash has none. */
  lemma ParsedFields(space: string, s: string)
    ensures var parts := Split(s);
            Parsed(Started(space), s) ==
            Swapped(Placed(space, parts, if |parts| > 1 then |parts| else 0))
  {
    var parts := Split(s);
    FilledFields(space, parts, |parts|);
    FilledFields(space, parts, |parts| - 1);
  }

  lemma NonBlankParts(f: Fields)
    ensures |NonBlank(f)| ==
            |Kept(f.nameSpace)| + |Kept(f.groupId)| + |Kept(f.messageType)| + |Kept(f.nodeId)| + |Kept(f.deviceId)|
    ensures NoBlank(NonBlank(f))
  {
  }

  predicate SlashFreeFields(f: Fields) {
    '/' !in f.nameSpace && '/' !in f.groupId && '/' !in f.messageType && '/' !in f.nodeId && '/' !in f.deviceId
  }

  lemma PlacedSlashFree(space: string, parts: seq<string>, n: nat)
    requires n <= |parts| && SlashFree(parts) && '/' !in space
    ensures SlashFreeFields(Swapped(Placed(space, parts, n)))
  {
  }

  lemma NonBlankSlashFree(f: Fields)
    requires SlashFreeFields(f)
    ensures SlashFree(NonBlank(f))
  {
  }

  /** A text is the join of slash-free fields exactly when its parts are those that
      are not blank. */
  lemma JoinedIsText(f: Fields, s: string)
    requires SlashFreeFields(f)
    ensures Joined(f) == s <==> (if NonBlank(f) == [] then s == "" else NonBlank(f) == Split(s))
  {
    JoinSplit(s);
    NonBlankSlashFree(f);
    if NonBlank(f) != [] { SplitJoin(NonBlank(f)); }
  }

  predicate Restorable(space: string, parts: seq<string>)
    requires |parts| > 1
  {
    && |parts| <= 5 && NoBlank(parts)
    && (space == "" || parts[0] == space)
    && !(parts[0] == NAMESPACE && parts[1] == STATE && |parts| >= 4)
  }

  lemma HostParts(g: Fields)
    requires g.nameSpace == NAMESPACE && g.groupId == STATE
    ensures NonBlank(Swapped(g)) == [NAMESPACE, STATE] + Kept(g.messageType) + Kept(g.deviceId)
  {
  }

  lemma PlacedParts(space: string, parts: seq<string>)
    requires 1 < |parts| <= 5 && NoBlank(parts)
    ensures var g := Placed(space, parts, |parts|); NonBlank(g) == [g.nameSpace] + parts[1..]
  {
  }

  lemma PlacedWhole(space: string, parts: seq<string>)
    requires space == "" || space == NAMESPACE
    requires 1 < |parts| <= 5 && NoBlank(parts)
    ensures NonBlank(Swapped(Placed(space, parts, |parts|))) == parts <==> Restorable(space, parts)
  {
    var g := Placed(space, parts, |parts|);
    if g.nameSpace == NAMESPACE && parts[1] == STATE {
      HostParts(g);
    } else {
      PlacedParts(space, parts);
      assert NonBlank(g)[0] == g.nameSpace;
    }
  }

  lemma NotWhole(f: Fields, parts: seq<string>)
    requires |parts| > 5 || !NoBlank(parts)
    ensures NonBlank(f) != parts
  {
    NonBlankParts(f);
  }

  lemma WholeParts(space: string, parts: seq<string>)
    requires (space == "" || space == NAMESPACE) && |parts| > 1
    ensures NonBlank(Swapped(Placed(space, parts, |parts|))) == parts <==> Restorable(space, parts)
  {
    if |parts| <= 5 && NoBlank(parts) {
      PlacedWhole(space, parts);
    } else {
      NotWhole(Swapped(Placed(space, parts, |parts|)), parts);
    }
  }

  lemma OnePart(space: string, s: string)
    requires (space == "" || space == NAMESPACE) && |Split(s)| == 1
    ensures Joined(Parsed(Started(space), s)) == s <==> s == space
  {
    ParsedFields(space, s);
    JoinSplit(s);
    assert Parsed(Started(space), s) == Started(space);
    assert NonBlank(Started(space)) == Kept(space);
  }

  /** A text survives splitting and joining exactly when its parts, two to five of
      them, are not blank, the first is the namespace the topic had if it had one, and
      a host's text has no more than its three; or when it has no slash and is that
      namespace. */
  lemma TextRoundTrip(space: string, s: string)
    requires space == "" || space == NAMESPACE
    ensures var parts := Split(s);
            Joined(Parsed(Started(space), s)) == s <==>
            if |parts| == 1 then s == space else Restorable(space, parts)
  {
    var parts := Split(s);
    if |parts| == 1 {
      OnePart(space, s);
    } else {
      var f := Swapped(Placed(space, parts, |parts|));
      ParsedFields(space, s);
      JoinSplit(s);
      PlacedSlashFree(space, parts, |parts|);
      JoinedIsText(f, s);
      WholeParts(space, parts);
      BlankNotWhole(f, s);
    }
  }

  /** A text with a slash is not the join of nothing. */
  lemma BlankNotWhole(f: Fields, s: string)
    requires |Split(s)| > 1
    ensures s != "" && (NonBlank(f) == Split(s) ==> NonBlank(f) != [])
  {
  }

  /** The leading fields up to the last that is not blank. */
  predicate Leading(f: Fields) {
    && (f.deviceId != "" ==> f.nodeId != "")
    && (f.nodeId != "" ==> f.messageType != "")
    && (f.messageType != "" ==> f.groupId != "")
    && (f.groupId != "" ==> f.nameSpace != "")
  }

  predicate HostForm(f: Fields) {
    f.nameSpace == NAMESPACE && f.groupId == "" && f.messageType == STATE && f.deviceId == ""
  }

  /** Fields from a list of parts that are not blank come back from it. */
  lemma PlacedBack(f: Fields)
    requires |NonBlank(f)| > 1
    ensures Swapped(Placed("", NonBlank(f), |NonBlank(f)|)) == f <==>
            (Leading(f) && !(f.nameSpace == NAMESPACE && f.groupId == STATE)) || HostForm(f)
  {
    NonBlankParts(f);
  }

  /** Fields survive joining and splitting, into a blank topic, exactly when they are
      two to five leading ones that are not a group called STATE in the Sparkplug
      namespace, or those of a host, or none at all. */
  lemma FieldsRoundTrip(f: Fields)
    requires SlashFreeFields(f)
    ensures Parsed(BLANK, Joined(f)) == f <==>
            || f == BLANK
            || (Leading(f) && f.groupId != "" && !(f.nameSpace == NAMESPACE && f.groupId == STATE))
            || HostForm(f)
  {
    var parts := NonBlank(f);
    ParsedFields("", Joined(f));
    assert Started("") == BLANK;
    if parts == [] {
      assert Split("") == [""];
    } else {
      NonBlankSlashFree(f);
      SplitJoin(parts);
      if |parts| > 1 {
        PlacedBack(f);
      }
    }
  }

  /** A topic that has the namespace in place reads any text alike, whatever stands
      before the first slash. */
  lemma NamespaceIgnored(s: string, t: string)
    requires Split(s)[1..] == Split(t)[1..]
    ensures Parsed(Started(NAMESPACE), s) == Parsed(Started(NAMESPACE), t)
  {
    ParsedFields(NAMESPACE, s);
    ParsedFields(NAMESPACE, t);
    var a, b := Split(s), Split(t);
    assert |a[1..]| == |b[1..]|;
    assert forall i :: 1 <= i < |a| ==> a[i] == a[1..][i - 1] && b[i] == b[1..][i - 1];
  }
}
