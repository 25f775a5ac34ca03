/** What a bounded cache of results holds, from least to most recently used. */
module RecencyOrder {
  import opened Sequences

  datatype Entry<T> = Entry(key: string, value: T)

  predicate NoDuplicates<T>(s: seq<Entry<T>>) {
    forall i, j | 0 <= i < j < |s| :: s[i].key != s[j].key
  }

  function IndexOf<T>(s: seq<Entry<T>>, key: string): (i: nat)
    ensures i <= |s| && (i < |s| ==> s[i].key == key) && forall j | 0 <= j < i :: s[j].key != key
  {
    if |s| == 0 then 0
    else
      var i := IndexOf(s[..|s| - 1], key);
      if i < |s| - 1 then i else if s[|s| - 1].key == key then |s| - 1 else |s|
  }

  predicate Holds<T>(s: seq<Entry<T>>, key: string) {
    IndexOf(s, key) < |s|
  }

  function MoveLast<T>(s: seq<T>, i: nat): (r: seq<T>)
    requires i < |s|
    ensures |r| == |s|
  {
    s[..i] + s[i + 1..] + [s[i]]
  }

  /** A hit makes its entry the most recent one. */
  function Hit<T>(s: seq<Entry<T>>, key: string): seq<Entry<T>> {
    if Holds(s, key) then MoveLast(s, IndexOf(s, key)) else s
  }

  function Put<T>(s: seq<Entry<T>>, key: string, value: T, limit: nat): seq<Entry<T>> {
    var i := IndexOf(s, key);
    if i < |s| then MoveLast(s[i := Entry(key, value)], i)
    else Newest(s + [Entry(key, value)], limit)
  }

  // ----- Runs: the order is the order of last use -----

  datatype Use<T> = Looked(key: string) | Stored(key: string, value: T)

  function Cache<T>(uses: seq<Use<T>>, limit: nat): seq<Entry<T>> {
    if |uses| == 0 then []
    else
      var s := Cache(uses[..|uses| - 1], limit);
      match uses[|uses| - 1]
      case Looked(key) => Hit(s, key)
      case Stored(key, value) => Put(s, key, value, limit)
  }

  /** When a key was last stored or found, counting uses from 1; 0 when it never was. */
  function LastUse<T>(uses: seq<Use<T>>, limit: nat, key: string): nat {
    if |uses| == 0 then 0
    else
      var before, u := uses[..|uses| - 1], uses[|uses| - 1];
      if u.key == key && (u.Stored? || Holds(Cache(before, limit), key)) then |uses|
      else LastUse(before, limit, key)
  }

  lemma {:induction false} LastUseBound<T>(uses: seq<Use<T>>, limit: nat, key: string)
    ensures LastUse(uses, limit, key) <= |uses|
  {
    if |uses| > 0 {
      LastUseBound(uses[..|uses| - 1], limit, key);
    }
  }

  /** Held keys rank by position, above zero and above every key that is not held. */
  ghost predicate Ranked<T>(s: seq<Entry<T>>, rank: string -> nat) {
    && (forall i | 0 <= i < |s| :: rank(s[i].key) > 0)
    && (forall i, j | 0 <= i < j < |s| :: rank(s[i].key) < rank(s[j].key))
    && (forall key, i | 0 <= i < |s| && !Holds(s, key) :: rank(key) < rank(s[i].key))
  }

  /** Everything held is ordered by its last use, and was used after everything that was dropped. */
  ghost predicate OrderedByUse<T>(s: seq<Entry<T>>, uses: seq<Use<T>>, limit: nat) {
    Ranked(s, key => LastUse(uses, limit, key))
  }

  /** `after` ranks `top` at one key and is `before` elsewhere, where every rank is below `top`. */
  ghost predicate Raises(before: string -> nat, after: string -> nat, key: string, top: nat) {
    && top > 0
    && after(key) == top
    && forall k :: before(k) < top && (k != key ==> after(k) == before(k))
  }

  lemma {:induction false} HoldsIff<T>(s: seq<Entry<T>>, key: string)
    ensures Holds(s, key) <==> exists i | 0 <= i < |s| :: s[i].key == key
  {
  }

  lemma {:induction false} MoveLastKeys<T>(s: seq<Entry<T>>, i: nat, value: T)
    requires NoDuplicates(s) && i < |s|
    ensures var r := MoveLast(s[i := Entry(s[i].key, value)], i);
            && |r| == |s| && r[|s| - 1] == Entry(s[i].key, value)
            && (forall j | 0 <= j < i :: r[j] == s[j])
            && (forall j | i <= j < |s| - 1 :: r[j] == s[j + 1])
            && NoDuplicates(r)
  {
  }

  lemma {:induction false} MoveLastHolds<T>(s: seq<Entry<T>>, i: nat, value: T, key: string)
    requires NoDuplicates(s) && i < |s|
    ensures Holds(MoveLast(s[i := Entry(s[i].key, value)], i), key) <==> Holds(s, key)
  {
    hide IndexOf, MoveLast, NoDuplicates;
    var r := MoveLast(s[i := Entry(s[i].key, value)], i);
    MoveLastKeys(s, i, value);
    HoldsIff(s, key);
    HoldsIff(r, key);
    if Holds(s, key) {
      var j :| 0 <= j < |s| && s[j].key == key;
      assert r[if j < i then j else if j == i then |s| - 1 else j - 1].key == key;
    }
    if Holds(r, key) {
      var j :| 0 <= j < |r| && r[j].key == key;
      assert s[if j < i then j else if j == |s| - 1 then i else j + 1].key == key;
    }
  }

  lemma {:induction false} TouchRanks<T>(s: seq<Entry<T>>, i: nat, value: T, before: string -> nat,
          after: string -> nat, top: nat)
    requires NoDuplicates(s) && i < |s| && Ranked(s, before) && Raises(before, after, s[i].key, top)
    ensures Ranked(MoveLast(s[i := Entry(s[i].key, value)], i), after)
  {
    hide Holds, MoveLast;
    var r := MoveLast(s[i := Entry(s[i].key, value)], i);
    MoveLastKeys(s, i, value);
    MoveLastHolds(s, i, value, s[i].key);
    HoldsIff(s, s[i].key);
    forall key, j | 0 <= j < |r| && !Holds(r, key)
      ensures after(key) < after(r[j].key)
    {
      MoveLastHolds(s, i, value, key);
      assert !Holds(s, key) && key != s[i].key;
      if j < |s| - 1 {
        assert before(key) < before(s[if j < i then j else j + 1].key);
      }
    }
  }

  lemma {:induction false} AppendHolds<T>(s: seq<Entry<T>>, e: Entry<T>, key: string)
    ensures Holds(s + [e], key) <==> Holds(s, key) || key == e.key
  {
  }

  lemma {:induction false} AppendRanks<T>(s: seq<Entry<T>>, e: Entry<T>, before: string -> nat, after: string -> nat,
          top: nat)
    requires NoDuplicates(s) && !Holds(s, e.key) && Ranked(s, before) && Raises(before, after, e.key, top)
    ensures NoDuplicates(s + [e]) && Ranked(s + [e], after)
  {
    hide Holds;
    HoldsIff(s, e.key);
    forall key, j | 0 <= j < |s + [e]| && !Holds(s + [e], key)
      ensures after(key) < after((s + [e])[j].key)
    {
      AppendHolds(s, e, key);
      if j < |s| {
        assert before(key) < before(s[j].key);
      }
    }
  }

  lemma {:induction false} DropOldestRanks<T>(s: seq<Entry<T>>, rank: string -> nat, n: nat)
    requires n <= |s| && NoDuplicates(s) && Ranked(s, rank)
    ensures NoDuplicates(s[n..]) && Ranked(s[n..], rank)
  {
  }

  lemma {:induction false} UseRaises<T>(uses: seq<Use<T>>, u: Use<T>, limit: nat)
    requires u.Stored? || Holds(Cache(uses, limit), u.key)
    ensures Raises(key => LastUse(uses, limit, key), key => LastUse(uses + [u], limit, key), u.key, |uses| + 1)
  {
    hide Cache, Holds;
    assert (uses + [u])[..|uses|] == uses;
    forall key
      ensures LastUse(uses, limit, key) < |uses| + 1
    {
      LastUseBound(uses, limit, key);
    }
  }

  lemma {:induction false} MissKeepsOrder<T>(uses: seq<Use<T>>, u: Use<T>, limit: nat)
    requires u.Looked? && !Holds(Cache(uses, limit), u.key) && OrderedByUse(Cache(uses, limit), uses, limit)
    ensures OrderedByUse(Cache(uses, limit), uses + [u], limit)
  {
    hide Cache, Holds;
    assert (uses + [u])[..|uses|] == uses;
    assert forall key :: LastUse(uses + [u], limit, key) == LastUse(uses, limit, key);
  }

  /** After any run of look-ups and stores: no key twice, at most `limit` of them, ordered by last use, and
      whatever was dropped had been used before everything kept. */
  lemma {:induction false} LeastRecentlyUsedGoes<T>(uses: seq<Use<T>>, limit: nat)
    requires limit >= 1
    ensures var s := Cache(uses, limit);
            NoDuplicates(s) && |s| <= limit && OrderedByUse(s, uses, limit)
  {
    hide IndexOf, LastUse, Ranked, Raises, NoDuplicates;
    if |uses| == 0 {
      NothingUsed<T>(limit);
    } else {
      var before, u := uses[..|uses| - 1], uses[|uses| - 1];
      LeastRecentlyUsedGoes(before, limit);
      assert uses == before + [u];
      UseKeepsOrder(before, u, limit);
    }
  }

  lemma {:induction false} UseKeepsOrder<T>(uses: seq<Use<T>>, u: Use<T>, limit: nat)
    requires limit >= 1
    requires var s := Cache(uses, limit);
             NoDuplicates(s) && |s| <= limit && OrderedByUse(s, uses, limit)
    ensures var s := Cache(uses + [u], limit);
            NoDuplicates(s) && |s| <= limit && OrderedByUse(s, uses + [u], limit)
  {
    hide IndexOf, LastUse, Ranked, Raises, NoDuplicates, MoveLast;
    var s := Cache(uses, limit);
    CacheNext(uses, u, limit);
    hide Cache;
    var i := IndexOf(s, u.key);
    var rank, ranked := key => LastUse(uses, limit, key), key => LastUse(uses + [u], limit, key);
    if i < |s| {
      var value := if u.Stored? then u.value else s[i].value;
      assert u.Looked? ==> s[i := Entry(u.key, value)] == s;
      UseRaises(uses, u, limit);
      TouchRanks(s, i, value, rank, ranked, |uses| + 1);
      MoveLastKeys(s, i, value);
    } else if u.Stored? {
      UseRaises(uses, u, limit);
      var grown := s + [Entry(u.key, u.value)];
      AppendRanks(s, Entry(u.key, u.value), rank, ranked, |uses| + 1);
      DropOldestRanks(grown, ranked, if |grown| > limit then |grown| - limit else 0);
      assert grown[0..] == grown;
    } else {
      MissKeepsOrder(uses, u, limit);
    }
  }

  lemma {:induction false} CacheNext<T>(uses: seq<Use<T>>, u: Use<T>, limit: nat)
    ensures Cache(uses + [u], limit) == match u
                                        case Looked(key) => Hit(Cache(uses, limit), key)
                                        case Stored(key, value) => Put(Cache(uses, limit), key, value, limit)
  {
  }

  lemma {:induction false} NothingUsed<T>(limit: nat)
    ensures NoDuplicates<T>([]) && OrderedByUse<T>([], [], limit)
  {
  }
}

/** The doubly linked ring under the cache, and the cache itself. */
module LruList {
  import opened Options
  import opened Sequences
  import opened RecencyOrder

  class Node<T(0)> {
    var prev: Node?<T>
    var next: Node?<T>
    var key: string
    var value: T
  }

  function Succ(i: nat, n: nat): nat {
    if i + 1 == n then 0 else i + 1
  }

  function Pred(i: nat, n: nat): int {
    if i == 0 then n - 1 else i - 1
  }

  predicate Distinct<T(0)>(ring: seq<Node<T>>) {
    forall i, j | 0 <= i < j < |ring| :: ring[i] != ring[j]
  }

  predicate Neighbours<T(0)>(ring: seq<Node<T>>, i: nat)
    requires i < |ring|
    reads ring
  {
    ring[i].next == ring[Succ(i, |ring|)] && ring[i].prev == ring[Pred(i, |ring|)]
  }

  /** The nodes in order, each pointing at its neighbours around the ring. */
  predicate Linked<T(0)>(ring: seq<Node<T>>)
    reads ring
  {
    Distinct(ring) && forall i | 0 <= i < |ring| :: Neighbours(ring, i)
  }

  lemma {:induction false} Ends<T(0)>(s: seq<Node<T>>, i: nat)
    requires Linked(s) && i < |s|
    ensures s[0].prev == s[|s| - 1] && s[|s| - 1].next == s[0]
    ensures s[i].next == s[Succ(i, |s|)] && s[i].prev == s[Pred(i, |s|)]
  {
    assert Neighbours(s, 0) && Neighbours(s, i) && Neighbours(s, |s| - 1);
  }

  function Kept(j: nat, i: nat): nat {
    if j < i then j else j + 1
  }

  lemma {:induction false} WithoutAt<T>(s: seq<T>, i: nat, j: nat)
    requires 0 < i < |s| && j < |s| - 1
    ensures Kept(j, i) < |s| && Without(s, i)[j] == s[Kept(j, i)]
  {
  }

  /** The neighbours of a place in the shorter ring. */
  lemma {:induction false} NeighboursAround(n: nat, i: nat, j: nat)
    requires 0 < i < n && j < n - 1
    ensures var k := Kept(j, i);
            && Kept(Succ(j, n - 1), i) == (if Succ(k, n) == i then Succ(i, n) else Succ(k, n))
            && Pred(j, n - 1) >= 0 && Kept(Pred(j, n - 1), i) == (if Pred(k, n) == i then i - 1 else Pred(k, n))
            && (Succ(k, n) == i <==> k == i - 1) && (Pred(k, n) == i <==> k == Succ(i, n))
  {
  }

  lemma {:induction false} WithoutDistinct<T(0)>(s: seq<Node<T>>, i: nat)
    requires 0 < i < |s| && Distinct(s)
    ensures Distinct(Without(s, i))
  {
    var r := Without(s, i);
    forall j, k | 0 <= j < k < |r|
      ensures r[j] != r[k]
    {
      WithoutAt(s, i, j);
      WithoutAt(s, i, k);
    }
  }

  /** The neighbours of s[i] point past it; every other node is as in a ring. */
  predicate PointsPast<T(0)>(s: seq<Node<T>>, i: nat, j: nat)
    requires 0 < i < |s| && j < |s|
    reads s
  {
    && s[j].next == s[if j == i - 1 then Succ(i, |s|) else Succ(j, |s|)]
    && s[j].prev == s[if j == Succ(i, |s|) then i - 1 else Pred(j, |s|)]
  }

  lemma {:induction false} SkippedIsLinked<T(0)>(s: seq<Node<T>>, i: nat)
    requires 0 < i < |s| && Distinct(s)
    requires forall j | 0 <= j < |s| && j != i :: PointsPast(s, i, j)
    ensures Linked(Without(s, i))
  {
    hide Without;
    var n := |s|;
    forall j | 0 <= j < n - 1
      ensures Neighbours(Without(s, i), j)
    {
      NeighboursAround(n, i, j);
      WithoutAt(s, i, j);
      WithoutAt(s, i, Succ(j, n - 1));
      WithoutAt(s, i, Pred(j, n - 1));
      assert PointsPast(s, i, Kept(j, i));
    }
    WithoutDistinct(s, i);
  }

  /** Putting e between the last and the first node closes the longer ring. */
  twostate lemma ClosedIsLinked<T(0)>(s: seq<Node<T>>, new e: Node<T>)
    requires |s| > 0 && old(Linked(s)) && e !in s
    requires e.next == s[0] && e.prev == s[|s| - 1]
    requires forall n <- s :: n.next == (if n == s[|s| - 1] then e else old(n.next))
    requires forall n <- s :: n.prev == (if n == s[0] then e else old(n.prev))
    ensures Linked(s + [e])
  {
    var r := s + [e];
    forall j | 0 <= j < |r|
      ensures Neighbours(r, j)
    {
      if j < |s| {
        assert r[j] == s[j] && s[j] in s;
        assert old(Neighbours(s, j));
      }
    }
  }

  /** A list around a sentinel node: front is root.next, back is root.prev. */
  class NodeList<T(0)> {
    const root: Node<T>
    ghost var ring: seq<Node<T>>

    ghost predicate Valid()
      reads this, ring
    {
      |ring| > 0 && ring[0] == root && Linked(ring)
    }

    constructor ()
      ensures Valid() && ring == [root] && fresh(root)
    {
      var node := new Node<T>;
      root := node;
      ring := [node];
      new;
      root.next := root;
      root.prev := root;
    }

    /** Links a node that is in no list before the sentinel, at the back. */
    method InsertLast(e: Node<T>)
      requires Valid() && e !in ring
      modifies this`ring, ring, e
      ensures Valid() && ring == old(ring) + [e]
      ensures forall n <- ring :: n.key == old(n.key) && n.value == old(n.value)
    {
      hide Linked;
      ghost var s := ring;
      Ends(s, 0);
      ring := s + [e];
      var at := root.prev;
      e.prev := at;
      e.next := at.next;
      e.prev.next := e;
      e.next.prev := e;
      ClosedIsLinked(s, e);
    }

    /** Unlinks the node at place i. */
    method Unlink(e: Node<T>, ghost i: nat)
      requires Valid() && 0 < i < |ring| && ring[i] == e
      modifies this`ring, ring
      ensures Valid() && ring == old(Without(ring, i))
      ensures forall n <- old(ring) :: n.key == old(n.key) && n.value == old(n.value)
    {
      ghost var s := ring;
      Ends(s, i);
      ring := Without(s, i);
      e.prev.next := e.next;
      e.next.prev := e.prev;
      forall j | 0 <= j < |s| && j != i
        ensures PointsPast(s, i, j)
      {
        assert old(Neighbours(s, j));
      }
      SkippedIsLinked(s, i);
    }

    method PushBack(key: string, value: T) returns (e: Node<T>)
      requires Valid()
      modifies this`ring, ring
      ensures Valid() && fresh(e) && ring == old(ring) + [e]
      ensures e.key == key && e.value == value
      ensures forall n <- old(ring) :: n.key == old(n.key) && n.value == old(n.value)
    {
      e := new Node<T>;
      e.key, e.value := key, value;
      InsertLast(e);
    }

    method MoveToBack(e: Node<T>, ghost i: nat)
      requires Valid() && 0 < i < |ring| && ring[i] == e
      modifies this`ring, ring
      ensures Valid() && ring == old(MoveLast(ring, i))
      ensures forall n <- ring :: n.key == old(n.key) && n.value == old(n.value)
    {
      Ends(ring, 0);
      if root.prev == e {
        assert ring == MoveLast(ring, i);
        return;
      }
      Unlink(e, i);
      InsertLast(e);
    }

    method Front() returns (e: Node?<T>)
      requires Valid()
      ensures e == if |ring| > 1 then ring[1] else null
    {
      Ends(ring, 0);
      if root.next == root {
        return null;
      }
      return root.next;
    }
  }

  // ----- The cache -----

  /** Entry i of s is held by node i + 1 of the ring, which the map finds under its key. */
  ghost predicate MirrorsAt<T(0)>(ring: seq<Node<T>>, entries: map<string, Node<T>>, s: seq<Entry<T>>, i: nat)
    requires i < |s| && |ring| == |s| + 1
    reads ring
  {
    && Entry(ring[i + 1].key, ring[i + 1].value) == s[i]
    && s[i].key in entries && entries[s[i].key] == ring[i + 1]
  }

  ghost predicate Mirrors<T(0)>(ring: seq<Node<T>>, entries: map<string, Node<T>>, s: seq<Entry<T>>)
    reads ring
  {
    && |ring| == |s| + 1 && NoDuplicates(s)
    && (forall i | 0 <= i < |s| :: MirrorsAt(ring, entries, s, i))
    && (forall key <- entries :: Holds(s, key))
  }

  function KeySet<T>(s: seq<Entry<T>>): set<string> {
    if |s| == 0 then {} else KeySet(s[..|s| - 1]) + {s[|s| - 1].key}
  }

  lemma {:induction false} KeySetHolds<T>(s: seq<Entry<T>>, key: string)
    ensures key in KeySet(s) <==> Holds(s, key)
  {
    if |s| > 0 {
      KeySetHolds(s[..|s| - 1], key);
    }
  }

  lemma {:induction false} KeyCount<T>(s: seq<Entry<T>>)
    requires NoDuplicates(s)
    ensures |KeySet(s)| == |s|
  {
    hide IndexOf;
    if |s| > 0 {
      var front := s[..|s| - 1];
      KeyCount(front);
      KeySetHolds(front, s[|s| - 1].key);
      HoldsIff(front, s[|s| - 1].key);
    }
  }

  lemma {:induction false} MirrorKeys<T(0)>(ring: seq<Node<T>>, entries: map<string, Node<T>>, s: seq<Entry<T>>,
          key: string)
    requires Mirrors(ring, entries, s)
    ensures key in entries <==> Holds(s, key)
    ensures key in entries ==> entries[key] == ring[IndexOf(s, key) + 1]
  {
    if Holds(s, key) {
      assert MirrorsAt(ring, entries, s, IndexOf(s, key));
    }
  }

  lemma {:induction false} MirrorSize<T(0)>(ring: seq<Node<T>>, entries: map<string, Node<T>>, s: seq<Entry<T>>)
    requires Mirrors(ring, entries, s)
    ensures |entries| == |s|
  {
    hide IndexOf, KeySet;
    forall key
      ensures key in entries <==> key in KeySet(s)
    {
      KeySetHolds(s, key);
      MirrorKeys(ring, entries, s, key);
    }
    assert entries.Keys == KeySet(s);
    KeyCount(s);
  }

  lemma {:induction false} MoveLastAt<T>(s: seq<T>, i: nat, j: nat)
    requires i < |s| && j < |s|
    ensures MoveLast(s, i)[j] == s[if j < i then j else if j < |s| - 1 then j + 1 else i]
  {
  }

  lemma {:induction false} MoveLastMembers<T(0)>(s: seq<Node<T>>, i: nat)
    requires i < |s|
    ensures forall n <- MoveLast(s, i) :: n in s
  {
    forall n | n in MoveLast(s, i)
      ensures n in s
    {
      var j :| 0 <= j < |s| && MoveLast(s, i)[j] == n;
      MoveLastAt(s, i, j);
    }
  }

  /** Results by key, with a list of them from least to most recently used. */
  class ResultCache<T(0)> {
    const maxEntries: nat
    const order: NodeList<T>
    var entries: map<string, Node<T>>
    /** What is held, from least to most recently used. */
    ghost var contents: seq<Entry<T>>

    ghost predicate Valid()
      reads this, order, order.ring
    {
      && 1 <= maxEntries && |contents| <= maxEntries
      && order.Valid() && Mirrors(order.ring, entries, contents)
    }

    constructor (limit: nat)
      requires limit >= 1
      ensures Valid() && fresh(order) && fresh(order.ring) && contents == [] && maxEntries == limit
    {
      maxEntries := limit;
      order := new NodeList<T>();
      entries := map[];
      contents := [];
    }

    /** The cached branch of Do. */
    method Get(key: string) returns (r: Option<T>)
      requires Valid()
      modifies this`contents, order`ring, order.ring
      ensures Valid() && contents == Hit(old(contents), key)
      ensures forall n <- order.ring :: n in old(order.ring)
      ensures r == if Holds(old(contents), key) then Some(old(contents)[IndexOf(old(contents), key)].value) else None
    {
      MirrorKeys(order.ring, entries, contents, key);
      if key !in entries {
        return None;
      }
      var e := entries[key];
      ghost var i := IndexOf(contents, key);
      assert MirrorsAt(order.ring, entries, contents, i);
      r := Some(e.value);
      MoveToBack(e, i);
    }

    method MoveToBack(e: Node<T>, ghost i: nat)
      requires Valid() && i < |contents| && order.ring[i + 1] == e
      modifies this`contents, order`ring, order.ring
      ensures Valid() && contents == MoveLast(old(contents), i)
      ensures forall n <- order.ring :: n in old(order.ring)
    {
      hide NodeList.Valid, IndexOf, MoveLast;
      ghost var s, ring := contents, order.ring;
      MoveLastKeys(s, i, s[i].value);
      assert s[i := Entry(s[i].key, s[i].value)] == s;
      order.MoveToBack(e, i + 1);
      MoveLastMembers(ring, i + 1);
      contents := MoveLast(s, i);
      forall j | 0 <= j < |s|
        ensures MirrorsAt(order.ring, entries, contents, j)
      {
        MoveLastAt(s, i, j);
        MoveLastAt(ring, i + 1, j + 1);
        assert old(MirrorsAt(ring, entries, s, if j < i then j else if j < |s| - 1 then j + 1 else i));
        assert order.ring[j + 1] in order.ring;
      }
      forall key | key in entries
        ensures Holds(contents, key)
      {
        MoveLastHolds(s, i, s[i].value, key);
      }
    }

    /** storeLocked. */
    method Store(key: string, value: T)
      requires Valid()
      modifies this`contents, this`entries, order`ring, order.ring
      ensures Valid() && contents == Put(old(contents), key, value, maxEntries)
      ensures forall n <- order.ring :: n in old(order.ring) || fresh(n)
    {
      hide IndexOf, MoveLast, NodeList.Valid;
      MirrorKeys(order.ring, entries, contents, key);
      if key in entries {
        ghost var i := IndexOf(contents, key);
        var e := entries[key];
        Overwrite(e, i, value);
        MoveToBack(e, i);
        return;
      }
      StoreNew(key, value);
    }

    method StoreNew(key: string, value: T)
      requires Valid() && !Holds(contents, key)
      modifies this`contents, this`entries, order`ring, order.ring
      ensures Valid() && contents == Newest(old(contents) + [Entry(key, value)], maxEntries)
      ensures forall n <- order.ring :: n in old(order.ring) || fresh(n)
    {
      hide Mirrors, Linked;
      Append(key, value);
      ghost var grown, nodes := contents, order.ring;
      ghost var n := 0;
      while |entries| > maxEntries
        invariant 0 <= n <= |grown| && contents == grown[n..]
        invariant order.Valid() && Mirrors(order.ring, entries, contents)
        invariant |order.ring| == |contents| + 1
        invariant n > 0 ==> |contents| >= maxEntries
        invariant forall node <- order.ring :: node in nodes
        invariant forall node <- nodes :: node in old(order.ring) || fresh(node)
        decreases |contents|
      {
        MirrorSize(order.ring, entries, contents);
        var oldest := order.Front();
        if oldest == null {
          break;
        }
        forall j | 0 <= j < |order.ring|
          ensures order.ring[j] in old(order.ring) || fresh(order.ring[j])
        {
          assert order.ring[j] in order.ring;
        }
        DropFront(oldest);
        n := n + 1;
      }
      MirrorSize(order.ring, entries, contents);
    }

    method Overwrite(e: Node<T>, ghost i: nat, value: T)
      requires Valid() && i < |contents| && order.ring[i + 1] == e
      modifies this`contents, e
      ensures Valid() && contents == old(contents)[i := Entry(old(contents)[i].key, value)]
      ensures order.ring == old(order.ring)
    {
      ghost var s, ring := contents, order.ring;
      e.value := value;
      contents := s[i := Entry(s[i].key, value)];
      forall j | 0 <= j < |ring|
        ensures Neighbours(ring, j)
      {
        assert old(Neighbours(ring, j));
      }
      forall j | 0 <= j < |s|
        ensures MirrorsAt(ring, entries, contents, j)
      {
        assert old(MirrorsAt(ring, entries, s, j));
      }
      forall key | key in entries
        ensures Holds(contents, key)
      {
        HoldsIff(s, key);
        HoldsIff(contents, key);
        assert s[IndexOf(s, key)].key == key;
        assert contents[IndexOf(s, key)].key == key;
      }
    }

    method Append(key: string, value: T)
      requires order.Valid() && Mirrors(order.ring, entries, contents) && !Holds(contents, key)
      modifies this`contents, this`entries, order`ring, order.ring
      ensures order.Valid() && Mirrors(order.ring, entries, contents) && |order.ring| == |contents| + 1
      ensures contents == old(contents) + [Entry(key, value)]
      ensures fresh(order.ring[|order.ring| - 1]) && order.ring[..|order.ring| - 1] == old(order.ring)
    {
      ghost var s, ring := contents, order.ring;
      var element := order.PushBack(key, value);
      contents := s + [Entry(key, value)];
      entries := entries[key := element];
      forall j | 0 <= j < |contents|
        ensures MirrorsAt(order.ring, entries, contents, j)
      {
        if j < |s| {
          assert old(MirrorsAt(ring, entries, s, j));
          assert ring[j + 1] in ring;
          HoldsIff(s, key);
        }
      }
      forall k | k in entries
        ensures Holds(contents, k)
      {
        AppendHolds(s, Entry(key, value), k);
      }
      HoldsIff(s, key);
    }

    method DropFront(oldest: Node<T>)
      requires order.Valid() && Mirrors(order.ring, entries, contents)
      requires |contents| > 0 && order.ring[1] == oldest
      modifies this`contents, this`entries, order`ring, order.ring
      ensures order.Valid() && Mirrors(order.ring, entries, contents) && |order.ring| == |contents| + 1
      ensures contents == old(contents)[1..]
      ensures forall n <- order.ring :: n in old(order.ring)
    {
      ghost var s, ring := contents, order.ring;
      assert MirrorsAt(ring, entries, s, 0);
      entries := entries - {oldest.key};
      order.Unlink(oldest, 1);
      contents := s[1..];
      forall j | 0 <= j < |contents|
        ensures MirrorsAt(order.ring, entries, contents, j)
      {
        WithoutAt(ring, 1, j + 1);
        assert old(MirrorsAt(ring, entries, s, j + 1));
        assert ring[j + 2] in ring;
      }
      forall key | key in entries
        ensures Holds(contents, key)
      {
        HoldsIff(s, key);
        HoldsIff(contents, key);
        var j := IndexOf(s, key);
        assert s[j].key == key && j > 0;
        assert contents[j - 1].key == key;
      }
    }
  }
}
