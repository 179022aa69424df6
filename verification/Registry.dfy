/** The remote hosts and nodes a client has heard of: a list that is searched from
    the front, ignoring case, and grows when a message names someone new. */
module Registry {
  import opened OrderedMap
  import opened Topics

  datatype Client = Host(name: string) | Node(group: string, name: string)

  datatype Key = HostKey(name: string) | NodeKey(group: string, name: string)

  /** Who the client itself is; its group may be empty when it is a host. */
  datatype Identity = Identity(isHost: bool, group: string, name: string)

  datatype Found = NotFound | Itself | Remote(index: nat)

  /** A message as it arrives: the text of its topic and the length of its payload. */
  datatype Message = Message(topic: string, length: int)

  function GroupOf(c: Client): string {
    if c.Host? then "" else c.group
  }

  function KeyOf(c: Client): Key {
    match c
    case Host(n) => HostKey(Fold(n))
    case Node(g, n) => NodeKey(Fold(g), Fold(n))
  }

  predicate IsSelf(me: Identity, c: Client) {
    match c
    case Host(n) => me.isHost && Same(n, me.name)
    case Node(g, n) => Same(g, me.group) && Same(n, me.name)
  }

  // ----------------------------------------------------------- specification

  /** Whom a message brings into being if it is not there yet.  A death, node data or
      a node command names nobody new, and neither does one with an empty name. */
  function Introduced(m: Message): Option<Client> {
    var f := Parsed(Started(NAMESPACE), m.topic);
    if m.length < 0 then None
    else if f.messageType == STATE then
      if f.nodeId == "" then None else Some(Host(f.nodeId))
    else if f.groupId == "" || f.nodeId == "" then None
    else if f.messageType == "NBIRTH" then Some(Node(f.groupId, f.nodeId))
    else if f.messageType in {"DBIRTH", "DCMD", "DDATA"} then
      if f.deviceId == "" then None else Some(Node(f.groupId, f.nodeId))
    else None
  }

  /** The map the list stands for; of two entries with one key the first would count. */
  function AsMap(list: seq<Client>): map<Key, Client> {
    if list == [] then map[]
    else
      var front, last := AsMap(list[..|list| - 1]), list[|list| - 1];
      if KeyOf(last) in front then front else front[KeyOf(last) := last]
  }

  function Learned(me: Identity, m: map<Key, Client>, c: Option<Client>): map<Key, Client> {
    if c.None? || IsSelf(me, c.value) || KeyOf(c.value) in m then m else m[KeyOf(c.value) := c.value]
  }

  function Appended(me: Identity, list: seq<Client>, c: Option<Client>): seq<Client> {
    if c.None? || IsSelf(me, c.value) || KeyOf(c.value) in AsMap(list) then list else list + [c.value]
  }

  /** The answer of a search is the answer of the map. */
  ghost predicate Answers(me: Identity, list: seq<Client>, c: Client, r: Found) {
    match r
    case Itself => IsSelf(me, c)
    case NotFound => !IsSelf(me, c) && KeyOf(c) !in AsMap(list)
    case Remote(i) =>
      && !IsSelf(me, c) && KeyOf(c) in AsMap(list)
      && i < |list| && list[i] == AsMap(list)[KeyOf(c)]
  }

  lemma AppendedMap(list: seq<Client>, c: Client)
    ensures AsMap(list + [c]) == if KeyOf(c) in AsMap(list) then AsMap(list) else AsMap(list)[KeyOf(c) := c]
  {
    assert (list + [c])[..|list|] == list;
  }

  /** The first entry with a key is the map's. */
  lemma {:induction false} FirstIsMapped(list: seq<Client>, key: Key, i: nat)
    requires i <= |list|
    requires forall j :: 0 <= j < i ==> KeyOf(list[j]) != key
    requires i < |list| ==> KeyOf(list[i]) == key
    ensures if i < |list| then key in AsMap(list) && AsMap(list)[key] == list[i] else key !in AsMap(list)
  {
    if i < |list| - 1 {
      FirstIsMapped(list[..|list| - 1], key, i);
    } else if list != [] {
      FirstIsMapped(list[..|list| - 1], key, |list| - 1);
    }
  }

  // -------------------------------------------------------------- the object

  class RemoteClients {
    const me: Identity
    var nodeList: seq<Client>

    constructor (me: Identity)
      ensures this.me == me && nodeList == []
    {
      this.me := me;
      nodeList := [];
    }

    method GetHost(hostId: string) returns (r: Found)
      ensures Answers(me, nodeList, Host(hostId), r)
    {
      if me.isHost && Same(hostId, me.name) {
        return Itself;
      }
      var key := KeyOf(Host(hostId));
      for i := 0 to |nodeList|
        invariant forall j :: 0 <= j < i ==> KeyOf(nodeList[j]) != key
      {
        if nodeList[i].Host? && Same(nodeList[i].name, hostId) {
          FirstIsMapped(nodeList, key, i);
          return Remote(i);
        }
      }
      FirstIsMapped(nodeList, key, |nodeList|);
      r := NotFound;
    }

    /** A host in the list has no group, so it never answers for a node. */
    method GetNode(group: string, name: string) returns (r: Found)
      ensures if group == "" || name == "" then r == NotFound else Answers(me, nodeList, Node(group, name), r)
    {
      if group == "" || name == "" {
        return NotFound;
      }
      if Same(group, me.group) && Same(name, me.name) {
        return Itself;
      }
      var key := KeyOf(Node(group, name));
      for i := 0 to |nodeList|
        invariant forall j :: 0 <= j < i ==> KeyOf(nodeList[j]) != key
      {
        if Same(group, GroupOf(nodeList[i])) && Same(nodeList[i].name, name) {
          assert |Fold(group)| == |group| && |Fold("")| == 0;
          FirstIsMapped(nodeList, key, i);
          return Remote(i);
        }
      }
      FirstIsMapped(nodeList, key, |nodeList|);
      r := NotFound;
    }

    method HandleStateMessage(hostName: string)
      modifies this
      ensures nodeList == Appended(me, old(nodeList), if hostName == "" then None else Some(Host(hostName)))
    {
      if hostName == "" {
        return;
      }
      var host := GetHost(hostName);
      if host == NotFound {
        nodeList := nodeList + [Host(hostName)];
      }
    }

    method HandleNodeBirthMessage(group: string, name: string)
      modifies this
      ensures nodeList ==
              Appended(me, old(nodeList), if group == "" || name == "" then None else Some(Node(group, name)))
    {
      if group == "" || name == "" {
        return;
      }
      var node := GetNode(group, name);
      if node == NotFound {
        nodeList := nodeList + [Node(group, name)];
      }
    }

    /** DBIRTH, DCMD and DDATA find or create the node in the same way. */
    method HandleDeviceMessage(group: string, name: string, device: string)
      modifies this
      ensures nodeList ==
              Appended(me, old(nodeList),
                       if group == "" || name == "" || device == "" then None else Some(Node(group, name)))
    {
      if group == "" || name == "" || device == "" {
        return;
      }
      var node := GetNode(group, name);
      if node == NotFound {
        nodeList := nodeList + [Node(group, name)];
      }
    }

    method Receive(m: Message)
      modifies this
      ensures nodeList == Appended(me, old(nodeList), Introduced(m))
    {
      if m.length < 0 {
        return;
      }
      var temp := new Topic(NAMESPACE);
      temp.SetTopic(m.topic);
      if temp.messageType == STATE {
        HandleStateMessage(temp.nodeId);
      } else if temp.messageType == "NBIRTH" {
        HandleNodeBirthMessage(temp.groupId, temp.nodeId);
      } else if temp.messageType == "DBIRTH" || temp.messageType == "DCMD" || temp.messageType == "DDATA" {
        HandleDeviceMessage(temp.groupId, temp.nodeId, temp.deviceId);
      }
    }
  }

  // -------------------------------------------------------------- whole runs

  function Run(me: Identity, messages: seq<Message>): seq<Client> {
    if messages == [] then []
    else Appended(me, Run(me, messages[..|messages| - 1]), Introduced(messages[|messages| - 1]))
  }

  function MapRun(me: Identity, messages: seq<Message>): map<Key, Client> {
    if messages == [] then map[]
    else Learned(me, MapRun(me, messages[..|messages| - 1]), Introduced(messages[|messages| - 1]))
  }

  ghost predicate DistinctKeys(list: seq<Client>) {
    forall i, j :: 0 <= i < j < |list| ==> KeyOf(list[i]) != KeyOf(list[j])
  }

  /** A message that names someone else under this key. */
  predicate Names(me: Identity, m: Message, key: Key) {
    var c := Introduced(m);
    c.Some? && !IsSelf(me, c.value) && KeyOf(c.value) == key
  }

  lemma {:induction false} MappedKeys(list: seq<Client>, i: nat)
    requires i < |list|
    ensures KeyOf(list[i]) in AsMap(list)
  {
    if i < |list| - 1 { MappedKeys(list[..|list| - 1], i); }
  }

  /** Over every run the list is the map: no key twice, and as many entries as keys. */
  lemma {:induction false} RegistryIsMap(me: Identity, messages: seq<Message>)
    ensures var list := Run(me, messages);
            DistinctKeys(list) && AsMap(list) == MapRun(me, messages) && |list| == |MapRun(me, messages)|
  {
    if messages != [] {
      var front, c := messages[..|messages| - 1], Introduced(messages[|messages| - 1]);
      RegistryIsMap(me, front);
      var list := Run(me, front);
      if Appended(me, list, c) != list {
        AppendedMap(list, c.value);
        forall i | 0 <= i < |list| ensures KeyOf(list[i]) != KeyOf(c.value) {
          MappedKeys(list, i);
        }
      }
    }
  }

  /** It holds exactly the keys named by the messages that introduce a host or node. */
  lemma {:induction false} KeysAreThoseNamed(me: Identity, messages: seq<Message>, key: Key)
    ensures key in MapRun(me, messages) <==>
            exists k :: 0 <= k < |messages| && Names(me, messages[k], key)
  {
    if messages != [] {
      var front, last := messages[..|messages| - 1], messages[|messages| - 1];
      KeysAreThoseNamed(me, front, key);
      if key in MapRun(me, front) {
        var k :| 0 <= k < |front| && Names(me, front[k], key);
        assert messages[k] == front[k];
      } else if Names(me, last, key) {
        assert messages[|messages| - 1] == last;
      } else {
        forall k | 0 <= k < |messages| ensures !Names(me, messages[k], key) {
          assert messages[k] == if k < |front| then front[k] else last;
        }
      }
    }
  }

  /** The client itself never gets into its own list. */
  lemma {:induction false} NeverItself(me: Identity, messages: seq<Message>)
    ensures forall i :: 0 <= i < |Run(me, messages)| ==> !IsSelf(me, Run(me, messages)[i])
  {
    if messages != [] { NeverItself(me, messages[..|messages| - 1]); }
  }

  // ------------------------------------------------------- topics, as texts

  predicate Plain(part: string) {
    part != "" && '/' !in part
  }

  lemma ThreeParts(a: string, b: string, c: string)
    requires '/' !in a && '/' !in b && '/' !in c
    ensures Split(a + "/" + b + "/" + c) == [a, b, c]
  {
    SplitSingle(a);
    SplitBehind(a, b);
    SplitBehind(a + "/" + b, c);
  }

  lemma FourParts(a: string, b: string, c: string, d: string)
    requires '/' !in a && '/' !in b && '/' !in c && '/' !in d
    ensures Split(a + "/" + b + "/" + c + "/" + d) == [a, b, c, d]
  {
    ThreeParts(a, b, c);
    SplitBehind(a + "/" + b + "/" + c, d);
  }

  lemma FiveParts(a: string, b: string, c: string, d: string, e: string)
    requires '/' !in a && '/' !in b && '/' !in c && '/' !in d && '/' !in e
    ensures Split(a + "/" + b + "/" + c + "/" + d + "/" + e) == [a, b, c, d, e]
  {
    FourParts(a, b, c, d);
    SplitBehind(a + "/" + b + "/" + c + "/" + d, e);
  }

  /** The fields of a node's and of a device's topic, whatever the namespace. */
  lemma NodeTopicFields(space: string, g: string, kind: string, n: string)
    requires '/' !in space && Plain(g) && Plain(kind) && Plain(n) && g != "STATE"
    ensures Parsed(Started(NAMESPACE), space + "/" + g + "/" + kind + "/" + n) == Fields("spBv1.0", g, kind, n, "")
  {
    FourParts(space, g, kind, n);
    ParsedFields(NAMESPACE, space + "/" + g + "/" + kind + "/" + n);
  }

  lemma DeviceTopicFields(space: string, g: string, kind: string, n: string, d: string)
    requires '/' !in space && Plain(g) && Plain(kind) && Plain(n) && Plain(d) && g != "STATE"
    ensures Parsed(Started(NAMESPACE), space + "/" + g + "/" + kind + "/" + n + "/" + d) == Fields("spBv1.0", g, kind, n, d)
  {
    FiveParts(space, g, kind, n, d);
    ParsedFields(NAMESPACE, space + "/" + g + "/" + kind + "/" + n + "/" + d);
  }

  lemma HostTopicFields(space: string, h: string)
    requires '/' !in space && Plain(h)
    ensures Parsed(Started(NAMESPACE), space + "/STATE/" + h) == Fields("spBv1.0", "", "STATE", h, "")
    ensures Parsed(BLANK, "spBv1.0/STATE/" + h) == Fields("spBv1.0", "", "STATE", h, "")
  {
    ThreeParts(space, "STATE", h);
    assert space + "/STATE/" + h == space + "/" + "STATE" + "/" + h;
    ParsedFields(NAMESPACE, space + "/STATE/" + h);
    ThreeParts("spBv1.0", "STATE", h);
    assert "spBv1.0/STATE/" + h == "spBv1.0" + "/" + "STATE" + "/" + h;
    assert Started("") == BLANK;
    ParsedFields("", "spBv1.0/STATE/" + h);
  }

  // ------------------------------------------------ what one message leads to

  /** The list has a node of this group and name, or a host of this name, up to case. */
  ghost predicate HasNode(list: seq<Client>, g: string, n: string) {
    exists i :: 0 <= i < |list| && list[i].Node? && Same(list[i].group, g) && Same(list[i].name, n)
  }

  ghost predicate HasHost(list: seq<Client>, h: string) {
    exists i :: 0 <= i < |list| && list[i].Host? && Same(list[i].name, h)
  }

  lemma {:induction false} MappedFrom(list: seq<Client>, key: Key)
    requires key in AsMap(list)
    ensures exists i :: 0 <= i < |list| && KeyOf(list[i]) == key
  {
    var n := |list| - 1;
    if key in AsMap(list[..n]) {
      MappedFrom(list[..n], key);
      var i :| 0 <= i < n && KeyOf(list[..n][i]) == key;
      assert KeyOf(list[i]) == key;
    } else {
      assert KeyOf(list[n]) == key;
    }
  }

  lemma MappedIffListed(list: seq<Client>, g: string, n: string)
    ensures NodeKey(Fold(g), Fold(n)) in AsMap(list) <==> HasNode(list, g, n)
    ensures HostKey(Fold(n)) in AsMap(list) <==> HasHost(list, n)
  {
    var a, b := NodeKey(Fold(g), Fold(n)), HostKey(Fold(n));
    if a in AsMap(list) { MappedFrom(list, a); }
    if b in AsMap(list) { MappedFrom(list, b); }
    forall i: nat | i < |list| ensures KeyOf(list[i]) in AsMap(list) { MappedKeys(list, i); }
  }

  lemma RunPush(me: Identity, messages: seq<Message>, m: Message)
    ensures Run(me, messages + [m]) == Appended(me, Run(me, messages), Introduced(m))
  {
    assert (messages + [m])[..|messages|] == messages;
  }

  /** An NBIRTH on <namespace>/<group>/NBIRTH/<node>, after any messages, leaves exactly
      one node more, of that group and name, unless that is the client itself or, up to
      case, is in the list already. */
  lemma NodeBirthHeard(me: Identity, messages: seq<Message>, space: string, g: string, n: string, length: nat)
    requires '/' !in space && Plain(g) && Plain(n) && g != "STATE"
    ensures var list := Run(me, messages);
            Run(me, messages + [Message(space + "/" + g + "/" + "NBIRTH" + "/" + n, length)]) ==
            if (Same(g, me.group) && Same(n, me.name)) || HasNode(list, g, n) then list else list + [Node(g, n)]
  {
    NodeTopicFields(space, g, "NBIRTH", n);
    RunPush(me, messages, Message(space + "/" + g + "/" + "NBIRTH" + "/" + n, length));
    MappedIffListed(Run(me, messages), g, n);
  }

  /** Likewise for the births, commands and data of its devices. */
  lemma DeviceHeard(me: Identity, messages: seq<Message>, space: string, g: string, kind: string, n: string, d: string,
                    length: nat)
    requires '/' !in space && Plain(g) && Plain(n) && Plain(d) && g != "STATE"
    requires kind == "DBIRTH" || kind == "DCMD" || kind == "DDATA"
    ensures var list := Run(me, messages);
            Run(me, messages + [Message(space + "/" + g + "/" + kind + "/" + n + "/" + d, length)]) ==
            if (Same(g, me.group) && Same(n, me.name)) || HasNode(list, g, n) then list else list + [Node(g, n)]
  {
    DeviceTopicFields(space, g, kind, n, d);
    RunPush(me, messages, Message(space + "/" + g + "/" + kind + "/" + n + "/" + d, length));
    MappedIffListed(Run(me, messages), g, n);
  }

  /** A STATE message leaves the host that its topic names. */
  lemma StateHeard(me: Identity, messages: seq<Message>, space: string, h: string, length: nat)
    requires '/' !in space && Plain(h)
    ensures var list := Run(me, messages);
            Run(me, messages + [Message(space + "/STATE/" + h, length)]) ==
            if (me.isHost && Same(h, me.name)) || HasHost(list, h) then list else list + [Host(h)]
  {
    HostTopicFields(space, h);
    RunPush(me, messages, Message(space + "/STATE/" + h, length));
    MappedIffListed(Run(me, messages), "", h);
  }

  /** Deaths, node data and node commands introduce nobody, and neither does a message
      with a negative length. */
  lemma OthersHeard(me: Identity, messages: seq<Message>, space: string, g: string, kind: string, n: string, d: string,
                    length: nat)
    requires '/' !in space && Plain(g) && Plain(n) && Plain(d) && g != "STATE"
    requires kind == "NDEATH" || kind == "NDATA" || kind == "NCMD" || kind == "DDEATH"
    ensures Run(me, messages + [Message(space + "/" + g + "/" + kind + "/" + n, length)]) == Run(me, messages)
    ensures Run(me, messages + [Message(space + "/" + g + "/" + kind + "/" + n + "/" + d, length)]) == Run(me, messages)
  {
    NodeTopicFields(space, g, kind, n);
    RunPush(me, messages, Message(space + "/" + g + "/" + kind + "/" + n, length));
    DeviceTopicFields(space, g, kind, n, d);
    RunPush(me, messages, Message(space + "/" + g + "/" + kind + "/" + n + "/" + d, length));
  }

  lemma NothingReceived(me: Identity, messages: seq<Message>, topic: string, length: int)
    requires length < 0
    ensures Run(me, messages + [Message(topic, length)]) == Run(me, messages)
  {
    RunPush(me, messages, Message(topic, length));
  }

  /** No two entries are of one kind with the same group and name up to case. */
  lemma NoneTwice(me: Identity, messages: seq<Message>, i: nat, j: nat)
    requires i < j < |Run(me, messages)|
    ensures var a, b := Run(me, messages)[i], Run(me, messages)[j];
            !(a.Host? && b.Host? && Same(a.name, b.name)) &&
            !(a.Node? && b.Node? && Same(a.group, b.group) && Same(a.name, b.name))
  {
    RegistryIsMap(me, messages);
    assert KeyOf(Run(me, messages)[i]) != KeyOf(Run(me, messages)[j]);
  }
}
