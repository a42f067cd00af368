/**
  The dedup LRU of the analytics ingest: a list of elements, most recently seen
  first, and an index from id to list element. Its specification is the history
  of the ids ever added.
 */
module DedupLru {
  import opened Basics

  datatype EventId = EventId(uuid: nat)

  const NIL_ID := EventId(0)

  // ---------------------------------------------------- the history specification

  /** The last position below n at which `s` holds `x`, or -1. */
  function LastBelow<T(==)>(s: seq<T>, x: T, n: nat): (k: int)
    requires n <= |s|
    ensures -1 <= k < n
  {
    if n == 0 then -1 else if s[n - 1] == x then n - 1 else LastBelow(s, x, n - 1)
  }

  function LastIndex<T(==)>(s: seq<T>, x: T): int {
    LastBelow(s, x, |s|)
  }

  /** The ids added from position k on. */
  function IdsFrom(h: seq<EventId>, k: int): set<EventId>
    requires k >= 0
  {
    set i | k <= i < |h| :: h[i]
  }

  /** `id` was added before, and fewer than `cap` distinct other ids were added since its last `Add`. */
  predicate SeenRecently(h: seq<EventId>, id: EventId, cap: nat) {
    id in h && |IdsFrom(h, LastIndex(h, id) + 1)| < cap
  }

  function RemoveAt<T>(s: seq<T>, k: int): seq<T> {
    if 0 <= k < |s| then seq(|s| - 1, i requires 0 <= i < |s| - 1 => if i < k then s[i] else s[i + 1]) else s
  }

  /** `x` at the front of `s`, taken out of its old place if it had one. */
  function ToFront<T(==)>(s: seq<T>, x: T): seq<T> {
    [x] + RemoveAt(s, LastIndex(s, x))
  }

  /** The distinct ids of `h`, most recently added first. */
  function Recency(h: seq<EventId>): seq<EventId> {
    if h == [] then [] else ToFront(Recency(h[..|h| - 1]), h[|h| - 1])
  }

  function Take<T>(s: seq<T>, n: nat): seq<T> {
    if n < |s| then s[..n] else s
  }

  // -------------------------------------------------------------- facts on lists

  lemma {:induction false} LastBelowIs<T>(s: seq<T>, x: T, n: nat)
    requires n <= |s|
    ensures LastBelow(s, x, n) >= 0 ==> s[LastBelow(s, x, n)] == x
    ensures forall i :: LastBelow(s, x, n) < i < n ==> s[i] != x
  {
    if n > 0 { LastBelowIs(s, x, n - 1); }
  }

  lemma {:induction false} LastBelowAt<T>(s: seq<T>, k: nat)
    requires k < |s| && Distinct(s)
    ensures LastIndex(s, s[k]) == k
  {
    LastBelowIs(s, s[k], |s|);
  }

  lemma LastIndexAbsent<T>(s: seq<T>, x: T)
    ensures LastIndex(s, x) == -1 <==> x !in s
  {
    LastBelowIs(s, x, |s|);
  }

  /** `m` is `s` with its k-th element moved to the front. */
  ghost predicate IsMoved<T>(s: seq<T>, k: nat, m: seq<T>) {
    && k < |s| == |m|
    && m[0] == s[k]
    && (forall i {:trigger m[i]} :: 0 < i <= k ==> m[i] == s[i - 1])
    && (forall i {:trigger m[i]} :: k < i < |s| ==> m[i] == s[i])
  }

  /** Where the i-th element goes. */
  function MovedTo(k: nat, i: nat): nat {
    if i < k then i + 1 else if i == k then 0 else i
  }

  lemma IsMovedIndex<T>(s: seq<T>, k: nat, m: seq<T>, i: nat)
    requires IsMoved(s, k, m) && i < |s|
    ensures MovedTo(k, i) < |m| && m[MovedTo(k, i)] == s[i]
  {}

  lemma IsMovedElements<T(!new)>(s: seq<T>, k: nat, m: seq<T>)
    requires IsMoved(s, k, m)
    ensures forall x :: x in s <==> x in m
    ensures Distinct(s) ==> Distinct(m)
  {
    forall x | x in s ensures x in m {
      var i :| 0 <= i < |s| && s[i] == x;
      IsMovedIndex(s, k, m, i);
    }
  }

  lemma ToFrontAt<T>(s: seq<T>, k: nat)
    requires k < |s| && Distinct(s)
    ensures IsMoved(s, k, ToFront(s, s[k]))
  {
    LastBelowAt(s, k);
  }

  lemma ToFrontNew<T>(s: seq<T>, x: T)
    requires x !in s
    ensures ToFront(s, x) == [x] + s
    ensures Distinct(s) ==> Distinct(ToFront(s, x))
  {
    LastIndexAbsent(s, x);
  }

  // ------------------------------------------------------------ facts on Recency

  lemma {:induction false} RecencyElements(h: seq<EventId>)
    ensures Distinct(Recency(h))
    ensures forall x :: x in Recency(h) <==> x in h
  {
    if h != [] {
      var front, x := h[..|h| - 1], h[|h| - 1];
      assert h == front + [x];
      RecencyElements(front);
      var r := Recency(front);
      if x in r {
        var k :| 0 <= k < |r| && r[k] == x;
        ToFrontAt(r, k);
        IsMovedElements(r, k, ToFront(r, x));
      } else {
        ToFrontNew(r, x);
      }
    }
  }

  lemma {:induction false} LastBelowPrefix(front: seq<EventId>, x: EventId, id: EventId, n: nat)
    requires n <= |front|
    ensures LastBelow(front + [x], id, n) == LastBelow(front, id, n)
  {
    if n > 0 { LastBelowPrefix(front, x, id, n - 1); }
  }

  lemma LastIndexMore(front: seq<EventId>, x: EventId, id: EventId)
    requires x != id
    ensures LastIndex(front + [x], id) == LastIndex(front, id)
    ensures forall k :: 0 <= k <= |front| ==> IdsFrom(front + [x], k) == IdsFrom(front, k) + {x}
  {
    LastBelowPrefix(front, x, id, |front|);
    var h := front + [x];
    forall k | 0 <= k <= |front| ensures IdsFrom(h, k) == IdsFrom(front, k) + {x} {
      assert h[|front|] == x;
      forall y | y in IdsFrom(front, k) ensures y in IdsFrom(h, k) {
        var i :| k <= i < |front| && front[i] == y;
        assert h[i] == y;
      }
      forall y | y in IdsFrom(h, k) ensures y in IdsFrom(front, k) + {x} {
        var i :| k <= i < |h| && h[i] == y;
        assert i < |front| ==> front[i] == y;
      }
    }
  }

  lemma MovedPrefix(r: seq<EventId>, k: nat, m: seq<EventId>, p: nat)
    requires IsMoved(r, k, m) && Distinct(r) && p < |r| && p != k
    ensures Prefix(m, MovedTo(k, p)) + {r[k]} == Prefix(r, p) + {r[k]}
    ensures r[k] in Prefix(m, MovedTo(k, p))
  {
    var q := MovedTo(k, p);
    assert m[0] == r[k];
    forall y | y in Prefix(r, p) ensures y in Prefix(m, q) {
      var i :| 0 <= i < p && r[i] == y;
      IsMovedIndex(r, k, m, i);
    }
    forall y | y in Prefix(m, q) ensures y in Prefix(r, p) + {r[k]} {
      var i :| 0 <= i < q && m[i] == y;
    }
  }

  /** Moving x to the front puts x, and nothing else, newly before any other element. */
  lemma ToFrontPrefix(r: seq<EventId>, x: EventId, p: nat) returns (q: nat)
    requires Distinct(r) && p < |r| && r[p] != x
    ensures q < |ToFront(r, x)| && ToFront(r, x)[q] == r[p]
    ensures Prefix(ToFront(r, x), q) == Prefix(r, p) + {x}
  {
    var m := ToFront(r, x);
    if x in r {
      var k :| 0 <= k < |r| && r[k] == x;
      ToFrontAt(r, k);
      MovedPrefix(r, k, m, p);
      IsMovedIndex(r, k, m, p);
      q := MovedTo(k, p);
    } else {
      ToFrontNew(r, x);
      q := p + 1;
      forall y | y in Prefix(r, p) ensures y in Prefix(m, q) {
        var i :| 0 <= i < p && r[i] == y;
        assert m[i + 1] == y;
      }
      assert m[0] == x;
    }
  }

  /** Before `id` in recency order stand exactly the ids added after its last `Add`. */
  lemma {:induction false} RecencyPosition(h: seq<EventId>, id: EventId) returns (p: nat)
    requires id in h
    ensures p < |Recency(h)| && Recency(h)[p] == id
    ensures Prefix(Recency(h), p) == IdsFrom(h, LastIndex(h, id) + 1)
  {
    var front, x := h[..|h| - 1], h[|h| - 1];
    assert h == front + [x];
    if x == id {
      p := 0;
    } else {
      p := RecencyPosition(front, id);
      RecencyElements(front);
      p := ToFrontPrefix(Recency(front), x, p);
      LastIndexMore(front, x, id);
    }
  }

  /** The recency list is ordered by last `Add`, newest first. */
  lemma RecencyOrder(h: seq<EventId>, i: nat, j: nat)
    requires i < j < |Recency(h)|
    ensures LastIndex(h, Recency(h)[i]) > LastIndex(h, Recency(h)[j])
  {
    RecencyElements(h);
    var r := Recency(h);
    var p := RecencyPosition(h, r[j]);
    assert p == j && r[i] in Prefix(r, p);
    var k :| LastIndex(h, r[j]) + 1 <= k < |h| && h[k] == r[i];
    LastBelowIs(h, r[i], |h|);
  }

  /** The `cap` most recent distinct ids are exactly those `SeenRecently` speaks of. */
  lemma KeptIffSeenRecently(h: seq<EventId>, id: EventId, cap: nat)
    ensures id in Take(Recency(h), cap) <==> SeenRecently(h, id, cap)
  {
    RecencyElements(h);
    if id in h {
      var p := RecencyPosition(h, id);
      DistinctSize(Recency(h), p);
      if p < cap {
        assert Take(Recency(h), cap)[p] == id;
      }
    }
  }

  // --------------------------------------------------------- the bounded list

  /** What `Add` makes of the bounded list. */
  function Touch(s: seq<EventId>, id: EventId, cap: nat): seq<EventId>
    requires cap > 0
  {
    if id in s then ToFront(s, id) else [id] + Take(s, cap - 1)
  }

  lemma TouchOld<T>(r: seq<T>, k: nat, cap: nat)
    requires Distinct(r) && k < |r| && k < cap
    ensures ToFront(Take(r, cap), r[k]) == Take(ToFront(r, r[k]), cap)
  {
    assert Take(r, cap)[k] == r[k];
    ToFrontAt(r, k);
    ToFrontAt(Take(r, cap), k);
  }

  lemma TouchNew<T>(r: seq<T>, x: T, cap: nat)
    requires Distinct(r) && cap > 0 && x !in Take(r, cap)
    ensures [x] + Take(Take(r, cap), cap - 1) == Take(ToFront(r, x), cap)
  {
    if x in r {
      var k :| 0 <= k < |r| && r[k] == x;
      ToFrontAt(r, k);
      assert k >= cap by {
        assert forall i :: 0 <= i < |Take(r, cap)| ==> Take(r, cap)[i] == r[i];
      }
    } else {
      ToFrontNew(r, x);
    }
  }

  /** Forgetting all but the `cap` newest ids first, or last, is the same. */
  lemma TouchKeepsNewest(h: seq<EventId>, id: EventId, cap: nat)
    requires cap > 0
    ensures Touch(Take(Recency(h), cap), id, cap) == Take(Recency(h + [id]), cap)
  {
    RecencyElements(h);
    var r := Recency(h);
    assert (h + [id])[..|h|] == h;
    if id in Take(r, cap) {
      var k :| 0 <= k < |Take(r, cap)| && Take(r, cap)[k] == id;
      TouchOld(r, k, cap);
    } else {
      TouchNew(r, id, cap);
    }
  }

  /** All that the bounded list tells about the history. */
  lemma AddSpec(h: seq<EventId>, id: EventId, cap: nat, s: seq<EventId>)
    requires cap > 0 && s == Take(Recency(h), cap)
    ensures |s| <= cap
    ensures id in s <==> SeenRecently(h, id, cap)
    ensures |s| == 0 <==> h == []
    ensures |s| >= cap <==> |Recency(h)| >= cap
    ensures Touch(s, id, cap) == Take(Recency(h + [id]), cap)
  {
    KeptIffSeenRecently(h, id, cap);
    TouchKeepsNewest(h, id, cap);
  }

  // -------------------------------------------------------------------- the class

  /** A list node. Its identity matters: the index points at nodes. */
  class Element {
    const value: EventId

    constructor (value: EventId)
      ensures this.value == value
    {
      this.value := value;
    }
  }

  function Values(ll: seq<Element>): seq<EventId> {
    seq(|ll|, i requires 0 <= i < |ll| => ll[i].value)
  }

  /** The index holds exactly the listed ids, each with its own node. */
  ghost predicate Indexed(ll: seq<Element>, index: map<EventId, Element>) {
    && (forall i, j :: 0 <= i < j < |ll| ==> ll[i].value != ll[j].value)
    && (forall i :: 0 <= i < |ll| ==> ll[i].value in index && index[ll[i].value] == ll[i])
    && (forall id :: id in index ==> index[id] in ll && index[id].value == id)
  }

  lemma IndexedIds(ll: seq<Element>, index: map<EventId, Element>)
    requires Indexed(ll, index)
    ensures forall id :: id in index <==> id in Values(ll)
  {
    forall id | id in index ensures id in Values(ll) {
      var i :| 0 <= i < |ll| && ll[i] == index[id];
      assert Values(ll)[i] == id;
    }
  }

  lemma MoveKeepsIndex(ll: seq<Element>, index: map<EventId, Element>, k: nat, m: seq<Element>)
    requires Indexed(ll, index) && IsMoved(ll, k, m)
    ensures Indexed(m, index)
  {
    forall id | id in index ensures index[id] in m {
      var i :| 0 <= i < |ll| && ll[i] == index[id];
      IsMovedIndex(ll, k, m, i);
    }
  }

  lemma MoveValues(ll: seq<Element>, k: nat, m: seq<Element>, v: seq<EventId>)
    requires IsMoved(ll, k, m) && IsMoved(Values(ll), k, v)
    ensures Values(m) == v
  {}

  /** Moving a node to the front moves its id. */
  lemma MoveToFront(ll: seq<Element>, index: map<EventId, Element>, el: Element)
    requires Indexed(ll, index) && el in ll
    ensures Indexed(ToFront(ll, el), index)
    ensures Values(ToFront(ll, el)) == ToFront(Values(ll), el.value)
  {
    var k :| 0 <= k < |ll| && ll[k] == el;
    assert Values(ll)[k] == el.value;
    ToFrontAt(ll, k);
    ToFrontAt(Values(ll), k);
    MoveKeepsIndex(ll, index, k, ToFront(ll, el));
    MoveValues(ll, k, ToFront(ll, el), ToFront(Values(ll), el.value));
  }

  lemma PushFront(ll: seq<Element>, index: map<EventId, Element>, el: Element)
    requires Indexed(ll, index) && el.value !in index
    ensures Indexed([el] + ll, index[el.value := el])
    ensures Values([el] + ll) == [el.value] + Values(ll)
  {
    var longer := [el] + ll;
    assert forall x :: x in ll ==> x in longer;
    assert longer[0] == el;
  }

  lemma DropBack(ll: seq<Element>, index: map<EventId, Element>)
    requires Indexed(ll, index) && ll != []
    ensures Indexed(ll[..|ll| - 1], index - {ll[|ll| - 1].value})
    ensures Values(ll[..|ll| - 1]) == Values(ll)[..|ll| - 1]
  {
    assert ll == ll[..|ll| - 1] + [ll[|ll| - 1]];
  }

  datatype AddResult = AddResult(dup: bool, wasEmpty: bool, evicted: bool)

  class DedupLRU {
    const cap: nat
    var ll: seq<Element>
    var index: map<EventId, Element>
    ghost var history: seq<EventId>

    ghost predicate Valid()
      reads this
    {
      cap > 0 && Indexed(ll, index) && Values(ll) == Take(Recency(history), cap)
    }

    constructor (capacity: nat)
      requires capacity > 0
      ensures Valid() && cap == capacity && history == [] && ll == []
    {
      cap, ll, index, history := capacity, [], map[], [];
    }

    method Add(id: EventId) returns (res: AddResult)
      requires Valid()
      modifies this
      ensures Valid() && history == old(history) + [id]
      ensures res.dup <==> SeenRecently(old(history), id, cap)
      ensures res.wasEmpty <==> old(history) == []
      ensures res.evicted <==> !res.dup && |Recency(old(history))| >= cap
      // The node of an id that was already there is kept and only moved.
      ensures res.dup ==> index == old(index)
    {
      AddSpec(history, id, cap, Values(ll));
      history := history + [id];
      res := TouchNode(id);
    }

    /** `Add` on the list and the index. */
    method TouchNode(id: EventId) returns (res: AddResult)
      requires cap > 0 && Indexed(ll, index) && |ll| <= cap
      modifies `ll, `index
      ensures Indexed(ll, index) && Values(ll) == Touch(Values(old(ll)), id, cap)
      ensures res.dup <==> id in Values(old(ll))
      ensures res.wasEmpty <==> |old(ll)| == 0
      ensures res.evicted <==> !res.dup && |old(ll)| >= cap
      ensures res.dup ==> index == old(index)
    {
      IndexedIds(ll, index);
      if id in index {
        var el := index[id];
        MoveToFront(ll, index, el);
        ll := ToFront(ll, el);
        res := AddResult(true, false, false);
      } else {
        var wasEmpty := |ll| == 0;
        var evicted := PushNew(id);
        res := AddResult(false, wasEmpty, evicted);
      }
    }

    /** The second half: make room if the list is full, then push a fresh node. */
    method PushNew(id: EventId) returns (evicted: bool)
      requires cap > 0 && Indexed(ll, index) && |ll| <= cap && id !in index
      modifies `ll, `index
      ensures Indexed(ll, index) && Values(ll) == [id] + Take(Values(old(ll)), cap - 1)
      ensures evicted <==> |old(ll)| >= cap
    {
      evicted := |ll| >= cap;
      if evicted {
        DropBack(ll, index);
        var oldest := ll[|ll| - 1];
        index := index - {oldest.value};
        ll := ll[..|ll| - 1];
      }
      assert Values(ll) == Take(Values(old(ll)), cap - 1);
      var el := new Element(id);
      PushFront(ll, index, el);
      ll := [el] + ll;
      index := index[id := el];
    }

    /** A probe: the recency of `id` does not change. */
    method Has(id: EventId) returns (found: bool)
      requires Valid()
      ensures found <==> SeenRecently(history, id, cap)
    {
      KeptIffSeenRecently(history, id, cap);
      IndexedIds(ll, index);
      found := id in index;
    }

    method Len() returns (n: nat)
      requires Valid()
      ensures n == |Take(Recency(history), cap)| <= cap
    {
      n := |ll|;
      assert n == |Values(ll)|;
    }
  }
}
