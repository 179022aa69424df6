/** `std::map` with the `util::string::IgnoreCase` comparator, as the sequence
    of its entries in iteration order.  Metric lists, property lists and device
    lists are all of this kind. */
module OrderedMap {

  datatype Entry<+V> = Entry(key: string, value: V)

  datatype Option<+V> = None | Some(value: V) {
    function GetOr(default: V): V {
      if Some? then value else default
    }
  }

  function FoldChar(c: char): char {
    if 'A' <= c <= 'Z' then (c as int + 32) as char else c
  }

  function Fold(s: string): string {
    seq(|s|, i requires 0 <= i < |s| => FoldChar(s[i]))
  }

  /** `IEquals`: equality that ignores case. */
  predicate Same(a: string, b: string) {
    Fold(a) == Fold(b)
  }

  /** Case is that of the ASCII letters. */
  lemma SameIsCaseless(a: string, b: string)
    ensures Same(a, b) <==>
            |a| == |b| && forall i :: 0 <= i < |a| ==>
              || a[i] == b[i]
              || ('A' <= a[i] <= 'Z' && b[i] as int == a[i] as int + 32)
              || ('A' <= b[i] <= 'Z' && a[i] as int == b[i] as int + 32)
  {
    if Same(a, b) {
      forall i | 0 <= i < |a| ensures FoldChar(a[i]) == FoldChar(b[i]) {
        assert Fold(a)[i] == FoldChar(a[i]) && Fold(b)[i] == FoldChar(b[i]);
      }
    }
  }

  predicate LessText(a: string, b: string) {
    b != "" && (a == "" || a[0] < b[0] || (a[0] == b[0] && LessText(a[1..], b[1..])))
  }

  /** The `IgnoreCase` ordering. */
  predicate Less(a: string, b: string) {
    LessText(Fold(a), Fold(b))
  }

  ghost predicate Sorted<V>(m: seq<Entry<V>>) {
    forall i, j :: 0 <= i < j < |m| ==> Less(m[i].key, m[j].key)
  }

  /** `find`: the position of the entry, or -1. */
  function IndexOf<V>(m: seq<Entry<V>>, key: string): (r: int)
    ensures -1 <= r < |m|
  {
    if m == [] then -1
    else if Same(m[0].key, key) then 0
    else
      var r := IndexOf(m[1..], key);
      if r < 0 then -1 else r + 1
  }

  /** Where `insert` puts a new key: before the first greater one. */
  function Position<V>(m: seq<Entry<V>>, key: string): (p: nat)
    ensures p <= |m|
  {
    if m == [] || Less(key, m[0].key) then 0 else 1 + Position(m[1..], key)
  }

  /** `insert` / `emplace` of a key that is not there yet. */
  function Insert<V>(m: seq<Entry<V>>, key: string, value: V): seq<Entry<V>> {
    var p := Position(m, key);
    m[..p] + [Entry(key, value)] + m[p..]
  }

  function Lookup<V>(m: seq<Entry<V>>, key: string): Option<V> {
    var i := IndexOf(m, key);
    if i < 0 then None else Some(m[i].value)
  }

  /** `find` answers with the first entry whose key is the same up to case. */
  lemma {:induction false} IndexOfFirst<V>(m: seq<Entry<V>>, key: string)
    ensures var r := IndexOf(m, key);
            && (r >= 0 ==> Same(m[r].key, key))
            && forall i :: 0 <= i < (if r < 0 then |m| else r) ==> !Same(m[i].key, key)
  {
    if m != [] { IndexOfFirst(m[1..], key); }
  }

  lemma {:induction false} PositionFirst<V>(m: seq<Entry<V>>, key: string)
    ensures var p := Position(m, key);
            && (forall i :: 0 <= i < p ==> !Less(key, m[i].key))
            && (p < |m| ==> Less(key, m[p].key))
  {
    if m != [] { PositionFirst(m[1..], key); }
  }

  // ------------------------------------------------------- the order is total

  lemma {:induction false} LessTextIrreflexive(a: string)
    ensures !LessText(a, a)
  {
    if a != "" { LessTextIrreflexive(a[1..]); }
  }

  lemma {:induction false} LessTextTransitive(a: string, b: string, c: string)
    requires LessText(a, b) && LessText(b, c)
    ensures LessText(a, c)
  {
    if a != "" && a[0] == b[0] == c[0] { LessTextTransitive(a[1..], b[1..], c[1..]); }
  }

  lemma {:induction false} LessTextTotal(a: string, b: string)
    ensures a == b || LessText(a, b) || LessText(b, a)
  {
    if a != "" && b != "" && a[0] == b[0] {
      LessTextTotal(a[1..], b[1..]);
      assert a == [a[0]] + a[1..] && b == [b[0]] + b[1..];
    }
  }

  /** Two keys are equivalent for the map exactly when they are equal up to case. */
  lemma EquivalentIffSame(a: string, b: string)
    ensures Same(a, b) <==> !Less(a, b) && !Less(b, a)
  {
    LessTextTotal(Fold(a), Fold(b));
    LessTextIrreflexive(Fold(a));
  }

  lemma LessAsymmetric(a: string, b: string)
    requires Less(a, b)
    ensures !Less(b, a) && !Same(a, b)
  {
    LessTextIrreflexive(Fold(a));
    if Less(b, a) { LessTextTransitive(Fold(a), Fold(b), Fold(a)); }
  }

  // -------------------------------------------------------------- insertion

  /** Inserting a new key keeps the list sorted, hence free of duplicates. */
  lemma InsertSorted<V>(m: seq<Entry<V>>, key: string, value: V)
    requires Sorted(m) && IndexOf(m, key) < 0
    ensures Sorted(Insert(m, key, value))
  {
    PositionFirst(m, key);
    IndexOfFirst(m, key);
    var p := Position(m, key);
    var r := Insert(m, key, value);
    forall i, j | 0 <= i < j < |r| ensures Less(r[i].key, r[j].key) {
      if j == p {
        LessTextTotal(Fold(m[i].key), Fold(key));
      } else if i == p && j > p + 1 {
        LessTextTransitive(Fold(key), Fold(m[p].key), Fold(m[j - 1].key));
      }
    }
  }

  /** In a sorted list every index is the answer for its own key. */
  lemma IndexOfOwnKey<V>(m: seq<Entry<V>>, i: nat, key: string)
    requires Sorted(m) && i < |m| && Same(m[i].key, key)
    ensures IndexOf(m, key) == i
  {
    IndexOfFirst(m, key);
    var r := IndexOf(m, key);
    if r >= 0 && r < i { LessAsymmetric(m[r].key, m[i].key); }
  }

  lemma {:induction false} IndexOfConcat<V>(a: seq<Entry<V>>, b: seq<Entry<V>>, key: string)
    ensures IndexOf(a + b, key) ==
            if IndexOf(a, key) >= 0 then IndexOf(a, key)
            else if IndexOf(b, key) >= 0 then |a| + IndexOf(b, key) else -1
  {
    if a == [] {
      assert a + b == b;
    } else {
      assert (a + b)[1..] == a[1..] + b;
      IndexOfConcat(a[1..], b, key);
    }
  }

  lemma LookupConcat<V>(a: seq<Entry<V>>, b: seq<Entry<V>>, key: string)
    ensures Lookup(a + b, key) == if Lookup(a, key).Some? then Lookup(a, key) else Lookup(b, key)
  {
    IndexOfConcat(a, b, key);
  }

  lemma LookupSingle<V>(e: Entry<V>, key: string)
    ensures Lookup([e], key) == if Same(e.key, key) then Some(e.value) else None
  {
  }

  /** What lookups see after an insertion. */
  lemma LookupInsert<V>(m: seq<Entry<V>>, key: string, value: V, other: string)
    requires IndexOf(m, key) < 0
    ensures Lookup(Insert(m, key, value), other) ==
            if Same(key, other) then Some(value) else Lookup(m, other)
  {
    var p := Position(m, key);
    var a, e, b := m[..p], Entry(key, value), m[p..];
    LookupConcat(a + [e], b, other);
    LookupConcat(a, [e], other);
    LookupSingle(e, other);
    assert m == a + b;
    LookupConcat(a, b, other);
    LookupConcat(a, b, key);
    if Same(key, other) { AbsentForSame(m, key, other); }
  }

  lemma AbsentForSame<V>(m: seq<Entry<V>>, key: string, other: string)
    requires Same(key, other) && IndexOf(m, key) < 0
    ensures IndexOf(m, other) < 0
  {
    IndexOfFirst(m, key);
    IndexOfFirst(m, other);
  }

  /** What lookups see after one entry is overwritten in place. */
  lemma LookupUpdate<V>(m: seq<Entry<V>>, i: nat, value: V, other: string)
    requires i < |m| && IndexOf(m, m[i].key) == i
    ensures Lookup(m[i := Entry(m[i].key, value)], other) ==
            if Same(m[i].key, other) then Some(value) else Lookup(m, other)
  {
    var r := m[i := Entry(m[i].key, value)];
    IndexOfFirst(m, other);
    IndexOfFirst(r, other);
    IndexOfFirst(m, m[i].key);
    assert forall k :: 0 <= k < |m| ==> r[k].key == m[k].key;
    var a, b := IndexOf(m, other), IndexOf(r, other);
    if b >= 0 { assert Same(m[b].key, other); }
    if a >= 0 { assert Same(r[a].key, other); }
    if Same(m[i].key, other) { assert Same(r[i].key, other); }
  }

  /** Appending behind every other key is where `insert` puts it. */
  lemma InsertLast<V>(m: seq<Entry<V>>, key: string, value: V)
    requires forall i :: 0 <= i < |m| ==> Less(m[i].key, key)
    ensures IndexOf(m, key) < 0
    ensures Insert(m, key, value) == m + [Entry(key, value)]
  {
    PositionFirst(m, key);
    IndexOfFirst(m, key);
    var p := Position(m, key);
    if p < |m| { LessAsymmetric(m[p].key, key); }
    var i := IndexOf(m, key);
    if i >= 0 { LessAsymmetric(m[i].key, key); }
  }
}
