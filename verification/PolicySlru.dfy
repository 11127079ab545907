/** The segmented policy with its two linked lists in shared arrays
    (`policy_slru` in bench/moe_cache_sim/moe_cache_sim.cpp). */
module PolicySlru {
  import opened Slots
  import opened RecencyList
  import opened Slru
  import opened Traces

  /** `prev` and `next` link the slots of `list` in order. */
  ghost predicate Chain(prev: seq<int>, next: seq<int>, list: seq<int>) {
    && |prev| == |next|
    && NoDup(list)
    && (forall i :: 0 <= i < |list| ==> 0 <= list[i] < |prev|)
    && (forall i :: 0 <= i < |list| ==> LinkedAt(prev, next, list, i))
  }

  ghost function First(list: seq<int>): int {
    if list == [] then -1 else list[0]
  }

  ghost function Last(list: seq<int>): int {
    if list == [] then -1 else list[|list| - 1]
  }

  /** A list is not disturbed by links written for slots outside it. */
  lemma ChainOther(p: seq<int>, q: seq<int>, list: seq<int>, p': seq<int>, q': seq<int>)
    requires Chain(p, q, list) && |p'| == |q'| == |p|
    requires forall i :: 0 <= i < |list| ==> p'[list[i]] == p[list[i]] && q'[list[i]] == q[list[i]]
    ensures Chain(p', q', list)
  {
    forall i | 0 <= i < |list| ensures LinkedAt(p', q', list, i) {
      assert LinkedAt(p, q, list, i);
    }
  }

  /** Joining the neighbours of the slot at position `i` takes it out. */
  lemma ChainWithout(p: seq<int>, q: seq<int>, list: seq<int>, i: nat, p': seq<int>, q': seq<int>)
    requires Chain(p, q, list) && i < |list|
    requires p' == if i < |list| - 1 then p[list[i + 1] := p[list[i]]] else p
    requires q' == if i > 0 then q[list[i - 1] := q[list[i]]] else q
    ensures Chain(p', q', list[..i] + list[i + 1..])
  {
    var r := list[..i] + list[i + 1..];
    assert LinkedAt(p, q, list, i);
    forall j | 0 <= j < |r| ensures LinkedAt(p', q', r, j) {
      if j < i {
        assert LinkedAt(p, q, list, j) && r[j] == list[j];
      } else {
        assert LinkedAt(p, q, list, j + 1) && r[j] == list[j + 1];
      }
    }
  }

  /** Linking a slot behind the last one appends it. */
  lemma ChainAppend(p: seq<int>, q: seq<int>, list: seq<int>, s: int, p': seq<int>, q': seq<int>)
    requires Chain(p, q, list) && 0 <= s < |p| && s !in list
    requires p' == p[s := Last(list)]
    requires q' == if list == [] then q[s := -1] else q[s := -1][Last(list) := s]
    ensures Chain(p', q', list + [s])
  {
    var r := list + [s];
    forall j | 0 <= j < |r| ensures LinkedAt(p', q', r, j) {
      if j < |list| {
        assert LinkedAt(p, q, list, j) && r[j] == list[j];
      }
    }
  }

  /** The effect of taking slot `s` out on its own list and its ends. */
  lemma UnlinkOwn(p: seq<int>, q: seq<int>, list: seq<int>, s: int, p': seq<int>, q': seq<int>)
    requires Chain(p, q, list) && s in list
    requires -1 <= p[s] < |p| && -1 <= q[s] < |q|
    requires p' == if q[s] >= 0 then p[q[s] := p[s]] else p
    requires q' == if p[s] >= 0 then q[p[s] := q[s]] else q
    ensures Chain(p', q', Without(list, s))
    ensures First(Without(list, s)) == if p[s] >= 0 then First(list) else q[s]
    ensures Last(Without(list, s)) == if q[s] >= 0 then Last(list) else p[s]
    ensures p[s] == -1 || p[s] in list
    ensures q[s] == -1 || q[s] in list
  {
    var i := Position(list, s);
    assert LinkedAt(p, q, list, i);
    ChainWithout(p, q, list, i, p', q');
  }

  /** The effect of taking slot `s` out of `list` on both lists. */
  lemma UnlinkLists(p: seq<int>, q: seq<int>, list: seq<int>, other: seq<int>, s: int, p': seq<int>, q': seq<int>)
    requires Chain(p, q, list) && Chain(p, q, other) && Elems(list) !! Elems(other) && s in list
    requires -1 <= p[s] < |p| && -1 <= q[s] < |q|
    requires p' == if q[s] >= 0 then p[q[s] := p[s]] else p
    requires q' == if p[s] >= 0 then q[p[s] := q[s]] else q
    ensures Chain(p', q', Without(list, s)) && Chain(p', q', other) && Without(other, s) == other
    ensures First(Without(list, s)) == if p[s] >= 0 then First(list) else q[s]
    ensures Last(Without(list, s)) == if q[s] >= 0 then Last(list) else p[s]
  {
    UnlinkOwn(p, q, list, s, p', q');
    assert p[s] == -1 || p[s] in Elems(list);
    assert q[s] == -1 || q[s] in Elems(list);
    OthersKept(list, other);
    ChainOther(p, q, other, p', q');
    assert s in Elems(list);
  }

  lemma OthersKept(list: seq<int>, other: seq<int>)
    requires Elems(list) !! Elems(other)
    ensures forall j :: 0 <= j < |other| ==> other[j] !in Elems(list)
  {
    forall j | 0 <= j < |other| ensures other[j] !in Elems(list) { assert other[j] in Elems(other); }
  }

  /** The effect of appending slot `s` to `list` on both lists. */
  lemma AppendLists(p: seq<int>, q: seq<int>, list: seq<int>, other: seq<int>, s: int, p': seq<int>, q': seq<int>)
    requires Chain(p, q, list) && Chain(p, q, other) && Elems(list) !! Elems(other)
    requires 0 <= s < |p| && s !in list && s !in other
    requires p' == p[s := Last(list)]
    requires q' == if Last(list) >= 0 then q[s := -1][Last(list) := s] else q[s := -1]
    ensures Chain(p', q', list + [s]) && Chain(p', q', other)
    ensures First(list + [s]) == if Last(list) >= 0 then First(list) else s
  {
    ChainAppend(p, q, list, s, p', q');
    assert list != [] ==> Last(list) in Elems(list);
    OthersKept(list, other);
    ChainOther(p, q, other, p', q');
  }

  lemma LinksInRange(p: seq<int>, q: seq<int>, list: seq<int>, s: int)
    requires Chain(p, q, list) && s in list
    ensures -1 <= p[s] < |p| && -1 <= q[s] < |q|
  {
    assert LinkedAt(p, q, list, Position(list, s));
  }

  /** The list of all slots in their own order. */
  lemma InitialChain(n: nat)
    ensures Chain(seq(n, (s: int) => s - 1), seq(n, (s: int) => if s + 1 < n then s + 1 else -1), seq(n, i => i))
    ensures IsPartition(seq(n, i => i), [], n)
  {
    var p, q, list := seq(n, (s: int) => s - 1), seq(n, (s: int) => if s + 1 < n then s + 1 else -1), seq(n, i => i);
    forall i | 0 <= i < n ensures LinkedAt(p, q, list, i) {}
    forall s ensures s in Elems(list) <==> 0 <= s < n {
      if 0 <= s < n { assert list[s] == s; }
    }
  }

  /** The flags say which slots are in the protected list. */
  ghost predicate Flags(flags: seq<bool>, safe: seq<int>) {
    forall s :: 0 <= s < |flags| ==> (flags[s] <==> s in Elems(safe))
  }

  /** The lists are a partition of the slots that the flags and the count know. */
  ghost predicate Accounted(flags: seq<bool>, nProtected: int, probation: seq<int>, safe: seq<int>) {
    IsPartition(probation, safe, |flags|) && Flags(flags, safe) && nProtected == |safe|
  }

  /** The flag of a slot names its list. */
  lemma HomeOf(p: seq<int>, q: seq<int>, flags: seq<bool>, nProtected: int, probation: seq<int>, safe: seq<int>, s: int)
    requires 0 <= s < |flags| && Accounted(flags, nProtected, probation, safe)
    requires Chain(p, q, probation) && Chain(p, q, safe) && s < |p|
    ensures var list := if flags[s] then safe else probation;
      s in list && -1 <= p[s] < |p| && -1 <= q[s] < |q|
  {
    assert s in Elems(if flags[s] then safe else probation);
    LinksInRange(p, q, if flags[s] then safe else probation, s);
  }

  lemma AccountedMoved(flags: seq<bool>, nProtected: int, g: Segments, s: int, protect: bool)
    requires 0 <= s < |g.keyOf| == |flags| && Accounted(flags, nProtected, g.probation, g.safe)
    ensures var m := Moved(g, s, protect);
      Accounted(flags[s := protect], nProtected + B(protect) - B(flags[s]), m.probation, m.safe)
  {
    MovedPartition(g, s, protect);
    MovedSafe(g, s, protect);
    assert s in g.safe <==> s in Elems(g.safe);
  }

  /** The arrays hold the lists `p` and `q`, and their ends. */
  ghost predicate TwoLists(prev: seq<int>, next: seq<int>, head: seq<int>, tail: seq<int>, p: seq<int>, q: seq<int>) {
    && Chain(prev, next, p) && Chain(prev, next, q)
    && |head| == |tail| == 2
    && head[0] == First(p) && tail[0] == Last(p)
    && head[1] == First(q) && tail[1] == Last(q)
  }

  /** At first all slots are linked in their own order, on probation. */
  lemma InitialLists(n: nat, p: seq<int>, q: seq<int>, flags: seq<bool>)
    requires n >= 1 && |p| == |q| == |flags| == n
    requires forall s :: 0 <= s < n ==> p[s] == s - 1 && q[s] == (if s + 1 < n then s + 1 else -1) && !flags[s]
    ensures var g := EmptySegments(n);
      TwoLists(p, q, [0, -1], [n - 1, -1], g.probation, g.safe) && Accounted(flags, 0, g.probation, g.safe) && g.Valid()
  {
    InitialChain(n);
    assert p == seq(n, (s: int) => s - 1);
    assert q == seq(n, (s: int) => if s + 1 < n then s + 1 else -1);
  }

  /** Taking slot `s` out of the list its flag names. */
  lemma UnlinkTwo(p: seq<int>, q: seq<int>, head: seq<int>, tail: seq<int>, probation: seq<int>, safe: seq<int>,
                  s: int, from: bool, p': seq<int>, q': seq<int>, head': seq<int>, tail': seq<int>)
    requires TwoLists(p, q, head, tail, probation, safe) && Elems(probation) !! Elems(safe)
    requires s in (if from then safe else probation)
    requires -1 <= p[s] < |p| && -1 <= q[s] < |q|
    requires q' == if p[s] >= 0 then q[p[s] := q[s]] else q
    requires head' == if p[s] >= 0 then head else head[B(from) := q[s]]
    requires p' == if q[s] >= 0 then p[q[s] := p[s]] else p
    requires tail' == if q[s] >= 0 then tail else tail[B(from) := p[s]]
    ensures TwoLists(p', q', head', tail', Without(probation, s), Without(safe, s))
  {
    if from {
      UnlinkLists(p, q, safe, probation, s, p', q');
      assert head'[0] == head[0] && tail'[0] == tail[0];
    } else {
      UnlinkLists(p, q, probation, safe, s, p', q');
      assert head'[1] == head[1] && tail'[1] == tail[1];
    }
  }

  /** Appending slot `s`, in neither list, to one. */
  lemma AppendTwo(p: seq<int>, q: seq<int>, head: seq<int>, tail: seq<int>, probation: seq<int>, safe: seq<int>,
                  s: int, protect: bool, p': seq<int>, q': seq<int>, head': seq<int>, tail': seq<int>)
    requires TwoLists(p, q, head, tail, probation, safe) && Elems(probation) !! Elems(safe)
    requires 0 <= s < |p| && s !in probation && s !in safe
    requires p' == p[s := tail[B(protect)]]
    requires -1 <= tail[B(protect)] < |q|
    requires q' == if tail[B(protect)] >= 0 then q[s := -1][tail[B(protect)] := s] else q[s := -1]
    requires head' == if tail[B(protect)] >= 0 then head else head[B(protect) := s]
    requires tail' == tail[B(protect) := s]
    ensures if protect then TwoLists(p', q', head', tail', probation, safe + [s])
            else TwoLists(p', q', head', tail', probation + [s], safe)
  {
    if protect {
      AppendLists(p, q, safe, probation, s, p', q');
    } else {
      AppendLists(p, q, probation, safe, s, p', q');
    }
  }

  function B(protect: bool): nat {
    if protect then 1 else 0
  }

  class Policy {
    const tab: Table
    const prev: array<int>
    const next: array<int>
    const isProtected: array<bool>
    var head: seq<int>              // [probation, protected]
    var tail: seq<int>
    var nProtected: int

    ghost var probation: seq<int>
    ghost var safe: seq<int>
    ghost const Repr: set<object>

    ghost predicate Shape()
      reads this, Repr, tab, tab.Repr
    {
      && Repr == {this, prev, next, isProtected} + tab.Repr
      && this !in tab.Repr && prev !in tab.Repr && next !in tab.Repr && isProtected !in tab.Repr
      && prev != next
      && tab.Valid() && tab.nSlots >= 1
      && prev.Length == next.Length == isProtected.Length == tab.nSlots
      && |head| == |tail| == 2
    }

    /** What holds between any two moves. */
    ghost predicate Linked()
      reads this, Repr, tab, tab.Repr, prev, next, isProtected
    {
      && Shape()
      && TwoLists(prev[..], next[..], head, tail, probation, safe)
      && Accounted(isProtected[..], nProtected, probation, safe)
    }

    ghost function State(): Segments
      reads this, tab, tab.keyOf
    {
      Segments(tab.keyOf[..], probation, safe)
    }

    ghost predicate Valid()
      reads this, Repr, tab, tab.Repr, prev, next, isProtected
    {
      Linked() && State().Valid()
    }

    constructor (nLayer: nat, nExpert: nat, nSlots: nat)
      requires nSlots >= 1
      ensures Valid() && fresh(Repr)
      ensures tab.nLayer == nLayer && tab.nExpert == nExpert && tab.nSlots == nSlots
      ensures State() == EmptySegments(nSlots)
    {
      var t := new Table(nLayer, nExpert, nSlots);
      var p := new int[nSlots]((s: int) => s - 1);
      var q := new int[nSlots]((s: int) => if s + 1 < nSlots then s + 1 else -1);
      var b := new bool[nSlots](_ => false);
      tab, prev, next, isProtected := t, p, q, b;
      head, tail, nProtected := [0, -1], [nSlots - 1, -1], 0;
      probation, safe := seq(nSlots, i => i), [];
      Repr := {this, p, q, b} + t.Repr;
      new;
      InitialLists(nSlots, prev[..], next[..], isProtected[..]);
    }

    /** Takes slot `s` out of the list it is in. */
    method Unlink(s: int)
      requires Linked() && 0 <= s < tab.nSlots
      modifies this`head, this`tail, prev, next
      ensures Shape() && TwoLists(prev[..], next[..], head, tail, Without(probation, s), Without(safe, s))
    {
      var from := isProtected[s];
      ghost var p, q, h, l := prev[..], next[..], head, tail;
      HomeOf(p, q, isProtected[..], nProtected, probation, safe, s);
      var before, after := prev[s], next[s];
      if before >= 0 {
        next[before] := after;
      } else {
        head := head[B(from) := after];
      }
      ghost var q', h' := if before >= 0 then q[before := after] else q, if before >= 0 then h else h[B(from) := after];
      assert next[..] == q' && prev[..] == p && head == h' && tail == l && tab.Valid();
      if after >= 0 {
        prev[after] := before;
      } else {
        tail := tail[B(from) := before];
      }
      ghost var p', l' := if after >= 0 then p[after := before] else p, if after >= 0 then l else l[B(from) := before];
      assert next[..] == q' && prev[..] == p' && head == h' && tail == l' && tab.Valid();
      UnlinkTwo(p, q, h, l, probation, safe, s, from, p', q', h', l');
    }

    /** Puts slot `s`, in no list, at the end of one. */
    method Append(s: int, protect: bool, ghost p0: seq<int>, ghost q0: seq<int>)
      requires Shape() && TwoLists(prev[..], next[..], head, tail, p0, q0)
      requires 0 <= s < tab.nSlots && s !in p0 && s !in q0 && Elems(p0) !! Elems(q0)
      modifies this`head, this`tail, prev, next
      ensures Shape()
      ensures if protect then TwoLists(prev[..], next[..], head, tail, p0, q0 + [s])
              else TwoLists(prev[..], next[..], head, tail, p0 + [s], q0)
    {
      var to := B(protect);
      ghost var p, q, h, l := prev[..], next[..], head, tail;
      prev[s] := tail[to];
      next[s] := -1;
      if tail[to] >= 0 {
        next[tail[to]] := s;
      } else {
        head := head[to := s];
      }
      tail := tail[to := s];
      AppendTwo(p, q, h, l, p0, q0, s, protect, prev[..], next[..], head, tail);
    }

    /** The links of slot `s` go from its list to the end of one. */
    method Relink(s: int, protect: bool)
      requires Linked() && 0 <= s < tab.nSlots
      modifies this`head, this`tail, prev, next
      ensures Shape()
      ensures var m := Moved(State(), s, protect); TwoLists(prev[..], next[..], head, tail, m.probation, m.safe)
    {
      WithoutElems(probation, s);
      WithoutElems(safe, s);
      Unlink(s);
      Append(s, protect, Without(probation, s), Without(safe, s));
    }

    /** The flag and the count follow the links. */
    method Reflag(s: int, protect: bool, ghost m: Segments)
      requires Shape() && 0 <= s < tab.nSlots && m.keyOf == tab.keyOf[..]
      requires TwoLists(prev[..], next[..], head, tail, m.probation, m.safe)
      requires Accounted(isProtected[..][s := protect], nProtected + B(protect) - B(isProtected[s]),
                         m.probation, m.safe)
      modifies isProtected, this`nProtected, this`probation, this`safe
      ensures Linked() && State() == m
    {
      var from := isProtected[s];
      isProtected[s] := protect;
      nProtected := nProtected + B(protect) - B(from);
      probation, safe := m.probation, m.safe;
    }

    /** Slot `s` goes from its list to the end of one. */
    method Shift(s: int, protect: bool)
      requires Linked() && 0 <= s < tab.nSlots
      modifies this, prev, next, isProtected
      ensures Linked() && State() == Moved(old(State()), s, protect)
    {
      AccountedMoved(isProtected[..], nProtected, State(), s, protect);
      ghost var m := Moved(State(), s, protect);
      Relink(s, protect);
      Reflag(s, protect, m);
    }

    /** Slot `s` becomes the most recently used of a list. */
    method Move(s: int, protect: bool)
      requires Linked() && 0 <= s < tab.nSlots
      modifies this, prev, next, isProtected
      ensures Linked() && State() == Moved(old(State()), s, protect)
    {
      var from := isProtected[s];
      if from == protect && s == tail[B(from)] {
        assert s in Elems(probation) || s in Elems(safe);
        LastStays(if from then safe else probation, s);
      } else {
        Shift(s, protect);
      }
    }

    method Touch(s: int)
      requires Valid() && 0 <= s < tab.nSlots
      modifies this, prev, next, isProtected
      ensures Valid() && State() == TouchedIn(old(State()), s)
    {
      TouchedValid(State(), s);
      Move(s, true);
      if nProtected > tab.nSlots / 2 {
        assert safe[0] in Elems(safe);
        Move(head[1], false);
      }
    }

    /** Does slot `s` hold an expert this layer chose? */
    method HoldsChosen(s: int, il: int, ghost wanted: set<int>) returns (chosen: bool)
      requires Shape() && Marks(il, wanted) && 0 <= s < tab.nSlots
      ensures chosen <==> tab.keyOf[s] in wanted
    {
      var key := tab.keyOf[s];
      chosen := !(key < 0 || key / tab.nExpert != il || tab.seen[key % tab.nExpert] != tab.seenGen);
    }

    /** The first slot of a list that holds none of the plan's experts. */
    method Scan(segment: nat, il: int, ghost list: seq<int>, ghost wanted: set<int>) returns (s: int)
      requires Linked() && segment < 2 && list == (if segment == 0 then probation else safe)
      requires Marks(il, wanted)
      requires forall j :: 0 <= j < |list| ==> 0 <= list[j] < tab.nSlots
      ensures var i := FirstFree(tab.keyOf[..], list, wanted, 0);
        s == if i < |list| then list[i] else -1
    {
      s := head[segment];
      ghost var i := 0;
      while s >= 0
        invariant 0 <= i <= |list| && s == if i < |list| then list[i] else -1
        invariant FirstFree(tab.keyOf[..], list, wanted, i) == FirstFree(tab.keyOf[..], list, wanted, 0)
        decreases |list| - i
      {
        var chosen := HoldsChosen(s, il, wanted);
        if !chosen {
          return;
        }
        assert LinkedAt(prev[..], next[..], list, i);
        s := next[s];
        i := i + 1;
      }
    }

    /** The marks left by FindDistinct tell the plan's experts. */
    ghost predicate Marks(il: int, wanted: set<int>)
      reads tab, tab.seen
    {
      && tab.seen.Length == tab.nExpert
      && -1 !in wanted
      && forall k :: 0 <= k < tab.nLayer * tab.nExpert ==>
        && tab.nExpert > 0 && 0 <= k % tab.nExpert < tab.nExpert
        && (k in wanted <==> k / tab.nExpert == il && tab.seen[k % tab.nExpert] == tab.seenGen)
    }

    method FindVictim(il: int, ghost wanted: set<int>) returns (s: int)
      requires Linked() && Marks(il, wanted)
      ensures s == Victim(State(), wanted)
    {
      PartitionRange(probation, safe, tab.nSlots);
      s := Scan(0, il, probation, wanted);
      if s < 0 {
        s := Scan(1, il, safe, wanted);
      }
    }

    /** Expert `e` of layer `il` hits if it has a slot. */
    method ServeHit(il: int, e: int, hits: nat) returns (hits': nat)
      requires Valid() && 0 <= il < tab.nLayer && 0 <= e < tab.nExpert
      modifies this, prev, next, isProtected
      ensures Valid()
      ensures SegServing(State(), hits', 0) == SegHit(SegServing(old(State()), hits, 0), Key(tab.nExpert, il, e))
    {
      hits' := hits;
      tab.Finds(il, e);
      var s := tab.slotOf[il * tab.nExpert + e];
      if s >= 0 {
        Touch(s);
        hits' := hits + 1;
      }
    }

    method ServeHits(il: int) returns (hits: nat)
      requires Valid() && 0 <= il < tab.nLayer
      requires forall i :: 0 <= i < |tab.uniq| ==> 0 <= tab.uniq[i] < tab.nExpert
      modifies this, prev, next, isProtected
      ensures Valid()
      ensures SegServing(State(), hits, 0) ==
          SegHits(SegServing(old(State()), 0, 0), Keys(tab.nExpert, il, tab.uniq), 0)
    {
      ghost var ks := Keys(tab.nExpert, il, tab.uniq);
      hits := 0;
      var j := 0;
      while j < |tab.uniq|
        invariant 0 <= j <= |tab.uniq| && Valid()
        invariant SegHits(SegServing(State(), hits, 0), ks, j) == SegHits(SegServing(old(State()), 0, 0), ks, 0)
      {
        hits := ServeHit(il, tab.uniq[j], hits);
        j := j + 1;
      }
    }

    /** Expert `e` of layer `il` takes the victim's slot. */
    method TakeVictim(il: int, e: int, ghost wanted: set<int>)
      requires Valid() && 0 <= il < tab.nLayer && 0 <= e < tab.nExpert && Marks(il, wanted)
      requires Key(tab.nExpert, il, e) !in tab.keyOf[..] && Spare(State(), wanted)
      modifies this, prev, next, isProtected, tab.slotOf, tab.keyOf
      ensures Linked()
      ensures State() == SegTake(old(State()), Victim(old(State()), wanted), Key(tab.nExpert, il, e))
    {
      var s := FindVictim(il, wanted);
      tab.Assign(s, il, e);
      Move(s, false);
    }

    /** Expert `e` of layer `il` takes the victim's slot if it has none. */
    method ServeMiss(il: int, e: int, hits: nat, misses: nat, ghost wanted: set<int>) returns (misses': nat)
      requires Valid() && 0 <= il < tab.nLayer && 0 <= e < tab.nExpert && Marks(il, wanted)
      requires Key(tab.nExpert, il, e) !in tab.keyOf[..] ==> Spare(State(), wanted)
      modifies this, prev, next, isProtected, tab.slotOf, tab.keyOf
      ensures Linked()
      ensures SegServing(State(), hits, misses') ==
        SegMiss(SegServing(old(State()), hits, misses), wanted, Key(tab.nExpert, il, e))
    {
      misses' := misses;
      tab.Finds(il, e);
      if tab.slotOf[il * tab.nExpert + e] < 0 {
        TakeVictim(il, e, wanted);
        misses' := misses + 1;
      }
    }

    /** What holds between the misses of a plan. */
    ghost predicate InMisses(il: int, wanted: set<int>, hits: nat, misses: nat)
      reads this, Repr, tab, tab.Repr, prev, next, isProtected
    {
      && Valid() && 0 <= il < tab.nLayer && Marks(il, wanted) && |wanted| <= tab.nSlots
      && SegMid(SegServing(State(), hits, misses), wanted)
    }

    method ServeNextMiss(il: int, e: int, hits: nat, misses: nat, ghost wanted: set<int>) returns (misses': nat)
      requires InMisses(il, wanted, hits, misses) && 0 <= e < tab.nExpert && Key(tab.nExpert, il, e) in wanted
      requires Key(tab.nExpert, il, e) >= 0
      modifies this, prev, next, isProtected, tab.slotOf, tab.keyOf
      ensures InMisses(il, wanted, hits, misses')
      ensures Key(tab.nExpert, il, e) !in old(State()).keyOf ==> Spare(old(State()), wanted)
      ensures SegServing(State(), hits, misses') ==
        SegMiss(SegServing(old(State()), hits, misses), wanted, Key(tab.nExpert, il, e))
    {
      SegMissMid(SegServing(State(), hits, misses), wanted, Key(tab.nExpert, il, e));
      misses' := ServeMiss(il, e, hits, misses, wanted);
    }

    method ServeMisses(il: int, hits: nat, ghost wanted: set<int>) returns (misses: nat)
      requires InMisses(il, wanted, hits, 0)
      requires forall i :: 0 <= i < |tab.uniq| ==> 0 <= tab.uniq[i] < tab.nExpert
      requires var ks := Keys(tab.nExpert, il, tab.uniq);
        forall i :: 0 <= i < |ks| ==> ks[i] in wanted && ks[i] >= 0
      modifies this, prev, next, isProtected, tab.slotOf, tab.keyOf
      ensures Valid()
      ensures SegServing(State(), hits, misses) ==
        SegMisses(SegServing(old(State()), hits, 0), wanted, Keys(tab.nExpert, il, tab.uniq), 0)
    {
      ghost var ks := Keys(tab.nExpert, il, tab.uniq);
      misses := 0;
      var j := 0;
      while j < |tab.uniq|
        invariant 0 <= j <= |tab.uniq| && InMisses(il, wanted, hits, misses)
        invariant SegMisses(SegServing(State(), hits, misses), wanted, ks, j)
               == SegMisses(SegServing(old(State()), hits, 0), wanted, ks, 0)
      {
        misses := ServeNextMiss(il, tab.uniq[j], hits, misses, wanted);
        j := j + 1;
      }
    }

    /** The misses of the plan, in ascending order. */
    method SortAndServeMisses(il: int, hits: nat) returns (misses: nat)
      requires Valid() && 0 <= il < tab.nLayer
      requires forall i :: 0 <= i < |tab.uniq| ==> 0 <= tab.uniq[i] < tab.nExpert
      requires Fits(Keys(tab.nExpert, il, tab.uniq), tab.nSlots)
      requires Marks(il, Elems(Keys(tab.nExpert, il, tab.uniq)))
      requires SegMid(SegServing(State(), hits, 0), Elems(Keys(tab.nExpert, il, tab.uniq)))
      modifies this, prev, next, isProtected, tab`uniq, tab.slotOf, tab.keyOf
      ensures Valid()
      ensures var ks := Keys(tab.nExpert, il, old(tab.uniq));
        && Fits(Sorted(ks), tab.nSlots) && |Elems(ks)| <= tab.nSlots
        && (forall i :: 0 <= i < |Sorted(ks)| ==> Sorted(ks)[i] in Elems(ks))
        && SegServing(State(), hits, misses) == SegMisses(SegServing(old(State()), hits, 0), Elems(ks), Sorted(ks), 0)
    {
      ghost var ks := Keys(tab.nExpert, il, tab.uniq);
      SortedFits(ks, tab.nSlots);
      KeysSorted(tab.nExpert, il, tab.uniq);
      tab.SortUniq();
      misses := ServeMisses(il, hits, Elems(ks));
    }

    /** The plan whose distinct experts are in `uniq`. */
    method ServePlan(il: int) returns (hits: nat, misses: nat)
      requires Valid() && 0 <= il < tab.nLayer
      requires forall i :: 0 <= i < |tab.uniq| ==> 0 <= tab.uniq[i] < tab.nExpert
      requires Fits(Keys(tab.nExpert, il, tab.uniq), tab.nSlots)
      requires Marks(il, Elems(Keys(tab.nExpert, il, tab.uniq)))
      modifies this, prev, next, isProtected, tab`uniq, tab.slotOf, tab.keyOf
      ensures Valid()
      ensures SegServing(State(), hits, misses) == SegPlanStep(old(State()), Keys(tab.nExpert, il, old(tab.uniq)))
    {
      ghost var v := SegAfterHits(State(), Keys(tab.nExpert, il, tab.uniq));
      hits := ServeHits(il);
      assert SegServing(State(), hits, 0) == v;
      misses := SortAndServeMisses(il, hits);
    }

    /** One plan: layer `il` chose `ids`. False, with the cache as it was, when
        they are more distinct experts than there are slots. */
    method Plan(il: int, ids: seq<int>) returns (ok: bool, hits: nat, misses: nat)
      requires Valid() && PlanOk(tab.nLayer, tab.nExpert, PlanRec(il, ids))
      modifies Repr
      ensures Valid()
      ensures ok <==> |Distinct(ids)| <= tab.nSlots
      ensures !ok ==> State() == old(State())
      ensures ok ==>
        && Fits(Wants(tab.nExpert, PlanRec(il, ids)), tab.nSlots)
        && SegServing(State(), hits, misses) == SegPlanStep(old(State()), Wants(tab.nExpert, PlanRec(il, ids)))
    {
      ghost var g := State();
      hits, misses := 0, 0;
      ok := tab.FindDistinct(ids);
      assert State() == g;
      if ok {
        WantsFit(tab.nLayer, tab.nExpert, PlanRec(il, ids));
        FoundMarks(il, ids);
        hits, misses := ServePlan(il);
      }
    }

    lemma FoundMarks(il: int, ids: seq<int>)
      requires tab.Valid() && PlanOk(tab.nLayer, tab.nExpert, PlanRec(il, ids))
      requires forall e :: 0 <= e < tab.nExpert ==> (tab.seen[e] == tab.seenGen <==> e in Distinct(ids))
      ensures Marks(il, Elems(Wants(tab.nExpert, PlanRec(il, ids))))
    {
      WantsFit(tab.nLayer, tab.nExpert, PlanRec(il, ids));
      forall k | 0 <= k < tab.nLayer * tab.nExpert
        ensures tab.nExpert > 0
        ensures k in Elems(Wants(tab.nExpert, PlanRec(il, ids)))
           <==> k / tab.nExpert == il && tab.seen[k % tab.nExpert] == tab.seenGen
      {
        assert tab.nExpert > 0;
        WantedKey(tab.nLayer, tab.nExpert, PlanRec(il, ids), k);
      }
    }
  }

  lemma LastStays(list: seq<int>, s: int)
    requires NoDup(list) && s in list && s == Last(list)
    ensures Without(list, s) + [s] == list
  {
  }
}
