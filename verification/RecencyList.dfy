/** The recency list of the slots: a doubly linked list held in two index
    arrays (`lru_list` in bench/moe_cache_sim/moe_cache_sim.cpp). */
module RecencyList {

  /** `order` lists each of the slots 0..n-1 once. */
  ghost predicate IsOrder(order: seq<int>, n: nat) {
    && |order| == n
    && (forall i :: 0 <= i < n ==> 0 <= order[i] < n)
    && (forall i, j :: 0 <= i < j < n ==> order[i] != order[j])
    && (forall s :: 0 <= s < n ==> s in order)
  }

  ghost function Position(order: seq<int>, s: int): (i: nat)
    requires s in order
    ensures i < |order| && order[i] == s
  {
    var i :| 0 <= i < |order| && order[i] == s; i
  }

  /** Slot `s` becomes the most recently used. */
  ghost function Touched(order: seq<int>, s: int): seq<int>
    requires s in order
  {
    var i := Position(order, s);
    order[..i] + order[i + 1..] + [s]
  }

  lemma TouchedIsOrder(order: seq<int>, s: int, n: nat)
    requires IsOrder(order, n) && 0 <= s < n
    ensures IsOrder(Touched(order, s), n)
  {
    var i, r := Position(order, s), Touched(order, s);
    forall x | 0 <= x < n ensures x in r {
      var j := Position(order, x);
      assert x == s ==> r[n - 1] == x;
      assert j < i ==> r[j] == x;
      assert j > i ==> r[j - 1] == x;
    }
  }

  /** `prev` and `next` hold the neighbours of the slot at position `i`. */
  ghost predicate LinkedAt(prev: seq<int>, next: seq<int>, order: seq<int>, i: int)
    requires |prev| == |next| && 0 <= i < |order| && 0 <= order[i] < |prev|
  {
    && prev[order[i]] == (if i == 0 then -1 else order[i - 1])
    && next[order[i]] == (if i == |order| - 1 then -1 else order[i + 1])
  }

  ghost predicate Linked(prev: seq<int>, next: seq<int>, order: seq<int>) {
    && |prev| == |next|
    && IsOrder(order, |prev|)
    && forall i :: 0 <= i < |order| ==> LinkedAt(prev, next, order, i)
  }

  /** Taking the slot at position `i` out of its place and linking it behind
      the tail changes at most four links of its neighbours' and its own. */
  lemma TouchLinks(p: seq<int>, q: seq<int>, order: seq<int>, s: int, p': seq<int>, q': seq<int>)
    requires Linked(p, q, order) && s in order && s != order[|order| - 1]
    requires |p'| == |q'| == |p|
    requires var i := Position(order, s); var tail := order[|order| - 1];
      && p' == p[order[i + 1] := (if i == 0 then -1 else order[i - 1])][s := tail]
      && q' == (if i == 0 then q else q[order[i - 1] := order[i + 1]])[s := -1][tail := s]
    ensures Linked(p', q', Touched(order, s))
  {
    var n, i, r := |order|, Position(order, s), Touched(order, s);
    TouchedIsOrder(order, s, n);
    forall j | 0 <= j < n ensures LinkedAt(p', q', r, j) {
      if j < i {
        assert LinkedAt(p, q, order, j);
        assert r[j] == order[j];
      } else if j < n - 1 {
        assert LinkedAt(p, q, order, j + 1);
        assert r[j] == order[j + 1];
      }
    }
  }

  class LruList {
    const n: nat
    const prev: array<int>
    const next: array<int>
    var head: int
    var tail: int

    ghost var order: seq<int>
    ghost const Repr: set<object>

    ghost predicate Valid()
      reads this, Repr
    {
      && Repr == {this, prev, next}
      && prev != next
      && prev.Length == next.Length == n >= 1
      && |order| == n
      && Linked(prev[..], next[..], order)
      && head == order[0]
      && tail == order[n - 1]
    }

    constructor (n: nat)
      requires n >= 1
      ensures Valid() && fresh(Repr)
      ensures this.n == n
      ensures order == seq(n, i => i)
    {
      this.n := n;
      var p := new int[n]((s: int) => s - 1);
      var q := new int[n]((s: int) => if s + 1 < n then s + 1 else -1);
      prev, next := p, q;
      head, tail := 0, n - 1;
      order := seq(n, i => i);
      Repr := {this, p, q};
      new;
      assert forall s :: 0 <= s < n ==> order[s] == s;
      forall s | 0 <= s < n ensures s in order { assert order[s] == s; }
      forall i | 0 <= i < n ensures LinkedAt(prev[..], next[..], order, i) {}
    }

    method Touch(s: int)
      requires Valid() && 0 <= s < n
      modifies this, prev, next
      ensures Valid()
      ensures order == Touched(old(order), s)
    {
      ghost var i := Position(order, s);
      TouchedIsOrder(order, s, n);
      if s == tail {
        assert order == Touched(order, s);
        return;
      }
      ghost var p, q := prev[..], next[..];
      assert LinkedAt(p, q, order, i);
      if prev[s] >= 0 {
        next[prev[s]] := next[s];
      } else {
        head := next[s];
      }
      prev[next[s]] := prev[s];
      prev[s] := tail;
      next[s] := -1;
      next[tail] := s;
      tail := s;
      TouchLinks(p, q, order, s, prev[..], next[..]);
      order := Touched(order, s);
    }
  }
}
