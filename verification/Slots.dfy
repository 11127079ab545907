/** What every expert-cache policy shares: the two inverse index arrays of the
    slots, and the distinct experts of one plan
    (`policy` in bench/moe_cache_sim/moe_cache_sim.cpp). */
module Slots {

  const UINT32_WRAP: nat := 0x1_0000_0000

  // ------------------------------------------------------------ values

  ghost predicate NoDup<T>(s: seq<T>) {
    forall i, j :: 0 <= i < j < |s| ==> s[i] != s[j]
  }

  function Elems<T>(s: seq<T>): set<T> {
    set x | x in s
  }

  /** The first `j` elements of a list. */
  function Upto(s: seq<int>, j: nat): set<int>
    requires j <= |s|
  {
    Elems(s[..j])
  }

  lemma UptoNext(s: seq<int>, j: nat)
    requires j < |s|
    ensures Upto(s, j + 1) == Upto(s, j) + {s[j]}
    ensures s[j] in Elems(s) && Upto(s, j + 1) <= Elems(s)
    ensures NoDup(s) ==> s[j] !in Upto(s, j)
  {
    assert s[..j + 1] == s[..j] + [s[j]];
  }

  lemma UptoEnds(s: seq<int>)
    ensures Upto(s, 0) == {} && Upto(s, |s|) == Elems(s)
  {
    assert s[..|s|] == s;
  }

  lemma {:induction false} NoDupCard(s: seq<int>)
    requires NoDup(s)
    ensures |Elems(s)| == |s|
  {
    if s == [] {
    } else {
      var r, x := s[..|s| - 1], s[|s| - 1];
      NoDupCard(r);
      assert x !in Elems(r);
      assert s == r + [x];
      assert Elems(s) == Elems(r) + {x};
    }
  }

  lemma Pick<T>(s: set<T>) returns (x: T)
    requires s != {}
    ensures x in s
  {
    x :| x in s;
  }

  lemma SubsetCard<T>(a: set<T>, b: set<T>)
    requires a <= b
    ensures |a| <= |b|
  {
    assert a * b == a;
    assert |b - a| == |b| - |b * a|;
  }

  /** The pair (layer, expert) as one number. */
  function Key(nExpert: nat, il: int, e: int): int {
    il * nExpert + e
  }

  /** A key names one layer and one expert: division takes it apart again. */
  lemma KeyParts(nExpert: nat, il: int, e: int)
    requires 0 <= e < nExpert
    ensures Key(nExpert, il, e) / nExpert == il
    ensures Key(nExpert, il, e) % nExpert == e
  {
    var q, r := Key(nExpert, il, e) / nExpert, Key(nExpert, il, e) % nExpert;
    DivisionUnique(nExpert, q, r, il, e);
  }

  lemma DivisionUnique(n: nat, q: int, r: int, q': int, r': int)
    requires 0 <= r < n && 0 <= r' < n && q * n + r == q' * n + r'
    ensures q == q' && r == r'
  {
    var d := q - q';
    assert d * n == r' - r;
    assert d >= 1 ==> d * n >= n;
    assert d <= -1 ==> -d * n >= n;
  }

  lemma KeyBounds(nLayer: nat, nExpert: nat, il: int, e: int)
    requires 0 <= il < nLayer && 0 <= e < nExpert
    ensures 0 <= Key(nExpert, il, e) < nLayer * nExpert
  {
    assert il * nExpert <= (nLayer - 1) * nExpert;
  }

  /** The experts of a plan as keys, in the same order. */
  function Keys(nExpert: nat, il: int, es: seq<int>): (ks: seq<int>)
    ensures |ks| == |es|
    ensures forall i :: 0 <= i < |es| ==> ks[i] == Key(nExpert, il, es[i])
  {
    seq(|es|, i requires 0 <= i < |es| => Key(nExpert, il, es[i]))
  }

  lemma KeysCons(nExpert: nat, il: int, x: int, s: seq<int>)
    ensures Keys(nExpert, il, [x] + s) == [Key(nExpert, il, x)] + Keys(nExpert, il, s)
  {
  }

  lemma {:induction false} KeysInsert(nExpert: nat, il: int, x: int, s: seq<int>)
    ensures Keys(nExpert, il, Insert(x, s)) == Insert(Key(nExpert, il, x), Keys(nExpert, il, s))
  {
    if s == [] || x <= s[0] {
      KeysCons(nExpert, il, x, s);
    } else {
      KeysCons(nExpert, il, s[0], Insert(x, s[1..]));
      assert Keys(nExpert, il, s)[1..] == Keys(nExpert, il, s[1..]);
      KeysInsert(nExpert, il, x, s[1..]);
    }
  }

  /** Sorting the experts of one layer sorts their keys. */
  lemma {:induction false} KeysSorted(nExpert: nat, il: int, s: seq<int>)
    ensures Keys(nExpert, il, Sorted(s)) == Sorted(Keys(nExpert, il, s))
  {
    if s == [] {
    } else {
      assert Keys(nExpert, il, s)[1..] == Keys(nExpert, il, s[1..]);
      KeysSorted(nExpert, il, s[1..]);
      KeysInsert(nExpert, il, s[0], Sorted(s[1..]));
    }
  }

  /** The elements of `ids` in the order of their first occurrence. */
  function Distinct(ids: seq<int>): (u: seq<int>)
    ensures NoDup(u)
    ensures Elems(u) == Elems(ids)
  {
    if ids == [] then []
    else
      var u := Distinct(ids[..|ids| - 1]);
      var x := ids[|ids| - 1];
      assert Elems(ids) == Elems(ids[..|ids| - 1]) + {x};
      assert x in u <==> x in Elems(u);
      if x in u then u else u + [x]
  }

  /** The first place of `x` is `p`. */
  ghost predicate FirstAt(ids: seq<int>, x: int, p: nat) {
    p < |ids| && ids[p] == x && forall q :: 0 <= q < p ==> ids[q] != x
  }

  lemma FirstInFront(ids: seq<int>, x: int, p: nat)
    requires |ids| > 0 && x in Distinct(ids[..|ids| - 1]) && FirstAt(ids, x, p)
    ensures FirstAt(ids[..|ids| - 1], x, p)
  {
    var front := ids[..|ids| - 1];
    assert x in Elems(Distinct(front));
    assert x in front;
    var k :| 0 <= k < |front| && front[k] == x;
    assert ids[k] == x;
  }

  /** What was chosen first comes first. */
  lemma {:induction false} DistinctInOrder(ids: seq<int>, i: nat, j: nat, p: nat, q: nat)
    requires i < j < |Distinct(ids)|
    requires FirstAt(ids, Distinct(ids)[i], p) && FirstAt(ids, Distinct(ids)[j], q)
    ensures p < q
  {
    var n := |ids| - 1;
    var front, u := ids[..n], Distinct(ids[..n]);
    if j < |u| {
      FirstInFront(ids, u[i], p);
      FirstInFront(ids, u[j], q);
      DistinctInOrder(front, i, j, p, q);
    } else {
      FirstInFront(ids, u[i], p);
      assert forall r :: 0 <= r < n ==> front[r] in Elems(front);
    }
  }

  lemma DistinctRange(ids: seq<int>, n: nat)
    requires forall i :: 0 <= i < |ids| ==> 0 <= ids[i] < n
    ensures forall i :: 0 <= i < |Distinct(ids)| ==> 0 <= Distinct(ids)[i] < n
  {
    forall i | 0 <= i < |Distinct(ids)| ensures 0 <= Distinct(ids)[i] < n {
      assert Distinct(ids)[i] in Elems(ids);
    }
  }

  ghost predicate Ascending(s: seq<int>) {
    forall i, j :: 0 <= i < j < |s| ==> s[i] <= s[j]
  }

  function Insert(x: int, s: seq<int>): (r: seq<int>)
    ensures multiset(r) == multiset(s) + multiset{x}
    ensures |r| == |s| + 1
  {
    if s == [] || x <= s[0] then [x] + s
    else
      assert s == [s[0]] + s[1..];
      [s[0]] + Insert(x, s[1..])
  }

  /** `std::sort` of a list of experts. */
  function Sorted(s: seq<int>): (r: seq<int>)
    ensures multiset(r) == multiset(s)
    ensures |r| == |s|
  {
    if s == [] then []
    else
      assert s == [s[0]] + s[1..];
      Insert(s[0], Sorted(s[1..]))
  }

  lemma InsertElems(x: int, s: seq<int>)
    ensures Elems(Insert(x, s)) == Elems(s) + {x}
  {
    var r := Insert(x, s);
    forall y ensures y in Elems(r) <==> y in Elems(s) + {x} {
      assert y in r <==> y in multiset(r);
    }
  }

  lemma ConsAscending(x: int, s: seq<int>)
    requires Ascending(s) && forall y :: y in Elems(s) ==> x <= y
    ensures Ascending([x] + s)
  {
    forall i | 0 <= i < |s| ensures x <= s[i] { assert s[i] in Elems(s); }
  }

  lemma ConsNoDup(x: int, s: seq<int>)
    requires NoDup(s) && x !in Elems(s)
    ensures NoDup([x] + s)
  {
    forall i | 0 <= i < |s| ensures x != s[i] { assert s[i] in Elems(s); }
  }

  lemma {:induction false} InsertAscending(x: int, s: seq<int>)
    requires Ascending(s)
    ensures Ascending(Insert(x, s))
  {
    if s == [] || x <= s[0] {
      ConsAscending(x, s);
    } else {
      InsertAscending(x, s[1..]);
      InsertElems(x, s[1..]);
      ConsAscending(s[0], Insert(x, s[1..]));
    }
  }

  lemma {:induction false} InsertNoDup(x: int, s: seq<int>)
    requires NoDup(s) && x !in Elems(s)
    ensures NoDup(Insert(x, s))
  {
    if s == [] || x <= s[0] {
      ConsNoDup(x, s);
    } else {
      InsertNoDup(x, s[1..]);
      InsertElems(x, s[1..]);
      ConsNoDup(s[0], Insert(x, s[1..]));
    }
  }

  lemma {:induction false} SortedElems(s: seq<int>)
    ensures Ascending(Sorted(s))
    ensures Elems(Sorted(s)) == Elems(s)
    ensures NoDup(s) ==> NoDup(Sorted(s))
  {
    if s == [] {
    } else {
      var r := Sorted(s[1..]);
      SortedElems(s[1..]);
      InsertElems(s[0], r);
      InsertAscending(s[0], r);
      if NoDup(s) {
        assert s[0] !in Elems(r);
        InsertNoDup(s[0], r);
      }
    }
  }

  /** The choices of a plan: distinct experts, no more than the slots. */
  ghost predicate Fits(ks: seq<int>, n: nat) {
    NoDup(ks) && |ks| <= n && forall i :: 0 <= i < |ks| ==> ks[i] >= 0
  }

  lemma SortedFits(ks: seq<int>, n: nat)
    requires Fits(ks, n)
    ensures Fits(Sorted(ks), n) && Elems(Sorted(ks)) == Elems(ks) && |Elems(ks)| == |ks|
    ensures forall i :: 0 <= i < |Sorted(ks)| ==> Sorted(ks)[i] in Elems(ks)
  {
    NoDupCard(ks);
    SortedElems(ks);
    assert forall i :: 0 <= i < |ks| ==> Sorted(ks)[i] in Elems(Sorted(ks));
  }

  /** The slot that holds `k`, -1 if none does. */
  ghost function SlotOf(keyOf: seq<int>, k: int): (s: int)
    ensures s == -1 || 0 <= s < |keyOf|
    ensures s >= 0 <==> k in keyOf
    ensures s >= 0 ==> keyOf[s] == k
  {
    if k in keyOf then var s :| 0 <= s < |keyOf| && keyOf[s] == k; s else -1
  }

  /** No expert is held twice; -1 marks an empty slot. */
  ghost predicate Injective(keyOf: seq<int>) {
    && (forall s :: 0 <= s < |keyOf| ==> -1 <= keyOf[s])
    && (forall s, s' :: 0 <= s < s' < |keyOf| && keyOf[s] >= 0 ==> keyOf[s] != keyOf[s'])
  }

  lemma SlotOfUnique(keyOf: seq<int>, s: int)
    requires Injective(keyOf) && 0 <= s < |keyOf| && keyOf[s] >= 0
    ensures SlotOf(keyOf, keyOf[s]) == s
  {
  }

  /** The experts the cache holds. */
  ghost function Resident(keyOf: seq<int>): set<int> {
    set s | 0 <= s < |keyOf| && keyOf[s] >= 0 :: keyOf[s]
  }

  /** No more experts than slots; exactly as many when no slot is empty. */
  lemma {:induction false} ResidentCard(keyOf: seq<int>)
    requires Injective(keyOf)
    ensures |Resident(keyOf)| <= |keyOf|
    ensures (forall s :: 0 <= s < |keyOf| ==> keyOf[s] >= 0) ==> |Resident(keyOf)| == |keyOf|
  {
    if keyOf == [] {
    } else {
      var n := |keyOf| - 1;
      var r := keyOf[..n];
      ResidentCard(r);
      if keyOf[n] >= 0 {
        assert Resident(keyOf) == Resident(r) + {keyOf[n]};
        assert keyOf[n] !in Resident(r);
      } else {
        assert Resident(keyOf) == Resident(r);
      }
    }
  }

  /** Giving slot `s` to an absent expert `k` takes out what `s` held, adds
      `k`, and leaves every other expert where it was. */
  lemma AssignResident(keyOf: seq<int>, s: int, k: int)
    requires Injective(keyOf) && 0 <= s < |keyOf| && 0 <= k && k !in keyOf
    ensures Injective(keyOf[s := k])
    ensures Resident(keyOf[s := k]) == Resident(keyOf) - {keyOf[s]} + {k}
    ensures forall x :: x >= 0 && x != k && x != keyOf[s] ==> SlotOf(keyOf[s := k], x) == SlotOf(keyOf, x)
    ensures SlotOf(keyOf[s := k], k) == s
  {
    var key' := keyOf[s := k];
    assert key'[s] == k;
    forall x | x in Resident(key') ensures x in Resident(keyOf) - {keyOf[s]} + {k} {
      var i :| 0 <= i < |key'| && key'[i] >= 0 && key'[i] == x;
      assert i != s ==> keyOf[i] == x;
    }
    forall x | x in Resident(keyOf) - {keyOf[s]} + {k} ensures x in Resident(key') {
      if x != k {
        var i :| 0 <= i < |keyOf| && keyOf[i] >= 0 && keyOf[i] == x;
        assert key'[i] == x;
      }
    }
    forall x | x >= 0 && x != k && x != keyOf[s] ensures SlotOf(key', x) == SlotOf(keyOf, x) {
      if x in keyOf {
        var i := SlotOf(keyOf, x);
        assert key'[i] == x;
        SlotOfUnique(key', i);
      } else {
        assert forall i :: 0 <= i < |key'| ==> key'[i] == k || key'[i] == keyOf[i];
      }
    }
    SlotOfUnique(key', s);
  }

  // ------------------------------------------------------------ the arrays

  /** The base class of the policies. */
  class Table {
    const nLayer: nat
    const nExpert: nat
    const nSlots: nat
    const slotOf: array<int>   // [layer*nExpert + expert], -1 if not cached
    const keyOf: array<int>    // [slot], -1 if empty
    const seen: array<nat>     // [expert]
    var seenGen: nat
    var uniq: seq<int>

    ghost const Repr: set<object>

    ghost predicate Valid()
      reads this, Repr
    {
      && Repr == {this, slotOf, keyOf, seen}
      && slotOf != keyOf
      && slotOf.Length == nLayer * nExpert
      && keyOf.Length == nSlots
      && seen.Length == nExpert
      && seenGen < UINT32_WRAP
      && (forall e :: 0 <= e < nExpert ==> seen[e] <= seenGen)
      && Inverse(slotOf[..], keyOf[..])
    }

    constructor (nLayer: nat, nExpert: nat, nSlots: nat)
      ensures Valid() && fresh(Repr)
      ensures this.nLayer == nLayer && this.nExpert == nExpert && this.nSlots == nSlots
      ensures keyOf[..] == seq(nSlots, _ => -1)
    {
      this.nLayer, this.nExpert, this.nSlots := nLayer, nExpert, nSlots;
      var a := new int[nLayer * nExpert](_ => -1);
      var b := new int[nSlots](_ => -1);
      var c := new nat[nExpert](_ => 0);
      slotOf, keyOf, seen := a, b, c;
      seenGen, uniq := 0, [];
      Repr := {this, a, b, c};
    }

    /** The marks in `seen` are those of `uniq`. */
    ghost predicate Marked()
      reads this, seen
    {
      forall e :: 0 <= e < nExpert && e < seen.Length ==> (seen[e] == seenGen <==> e in uniq)
    }

    /** A mark that no expert has; the counter may wrap. */
    method NewMark()
      requires Valid()
      modifies this, seen
      ensures Valid() && seenGen >= 1 && uniq == [] && Marked()
    {
      uniq := [];
      seenGen := (seenGen + 1) % UINT32_WRAP;
      if seenGen == 0 {
        forall e | 0 <= e < seen.Length { seen[e] := 0; }
        seenGen := 1;
      }
    }

    /** Chooses expert `e` after `ids`. */
    method See(ghost ids: seq<int>, e: int)
      requires Valid() && seenGen >= 1 && 0 <= e < nExpert && uniq == Distinct(ids) && Marked()
      modifies this`uniq, seen
      ensures Valid() && uniq == Distinct(ids + [e]) && Marked()
    {
      assert (ids + [e])[..|ids|] == ids;
      if seen[e] != seenGen {
        seen[e] := seenGen;
        uniq := uniq + [e];
      }
    }

    /** The distinct experts of a plan, in order of first choice, left in
        `uniq` and marked with `seenGen`; false when they are more than the
        slots. */
    method FindDistinct(ids: seq<int>) returns (ok: bool)
      requires Valid()
      requires forall i :: 0 <= i < |ids| ==> 0 <= ids[i] < nExpert
      modifies this, seen
      ensures Valid()
      ensures uniq == Distinct(ids)
      ensures forall e :: 0 <= e < nExpert ==> (seen[e] == seenGen <==> e in uniq)
      ensures forall i :: 0 <= i < |uniq| ==> 0 <= uniq[i] < nExpert
      ensures ok <==> |Distinct(ids)| <= nSlots
    {
      NewMark();
      var i := 0;
      while i < |ids|
        invariant 0 <= i <= |ids|
        invariant Valid() && seenGen >= 1
        invariant uniq == Distinct(ids[..i]) && Marked()
      {
        assert ids[..i + 1] == ids[..i] + [ids[i]];
        See(ids[..i], ids[i]);
        i := i + 1;
      }
      assert ids[..i] == ids;
      DistinctRange(ids, nExpert);
      ok := |uniq| <= nSlots;
    }

    method SortUniq()
      requires Valid() && forall i :: 0 <= i < |uniq| ==> 0 <= uniq[i] < nExpert
      modifies this`uniq
      ensures Valid() && uniq == Sorted(old(uniq))
      ensures forall i :: 0 <= i < |uniq| ==> 0 <= uniq[i] < nExpert
    {
      SortedElems(uniq);
      forall i | 0 <= i < |Sorted(uniq)| ensures 0 <= Sorted(uniq)[i] < nExpert {
        assert Sorted(uniq)[i] in Elems(uniq);
      }
      uniq := Sorted(uniq);
    }

    /** Where an expert's slot is recorded, and that it is that expert's. */
    lemma Finds(il: int, e: int)
      requires Valid() && 0 <= il < nLayer && 0 <= e < nExpert
      ensures 0 <= il * nExpert + e < slotOf.Length
      ensures slotOf[il * nExpert + e] == SlotOf(keyOf[..], Key(nExpert, il, e))
    {
      KeyBounds(nLayer, nExpert, il, e);
      InverseFinds(slotOf[..], keyOf[..]);
    }

    /** Gives slot `s` to expert `e` of layer `il`, which has none. */
    method Assign(s: int, il: int, e: int)
      requires Valid()
      requires 0 <= s < nSlots && 0 <= il < nLayer && 0 <= e < nExpert
      requires Key(nExpert, il, e) !in keyOf[..]
      modifies slotOf, keyOf
      ensures Valid()
      ensures keyOf[..] == old(keyOf[..])[s := Key(nExpert, il, e)]
    {
      KeyBounds(nLayer, nExpert, il, e);
      if keyOf[s] >= 0 {
        slotOf[keyOf[s]] := -1;
      }
      keyOf[s] := il * nExpert + e;
      slotOf[keyOf[s]] := s;
    }
  }

  /** `slotOf` and `keyOf` are inverse partial maps. */
  ghost predicate Inverse(slotOf: seq<int>, keyOf: seq<int>) {
    && (forall s :: 0 <= s < |keyOf| ==>
          keyOf[s] == -1 || (0 <= keyOf[s] < |slotOf| && slotOf[keyOf[s]] == s))
    && (forall k :: 0 <= k < |slotOf| ==>
          slotOf[k] == -1 || (0 <= slotOf[k] < |keyOf| && keyOf[slotOf[k]] == k))
  }

  /** Inverse maps hold no expert twice, and `slotOf` finds each of them. */
  lemma InverseFinds(slotOf: seq<int>, keyOf: seq<int>)
    requires Inverse(slotOf, keyOf)
    ensures Injective(keyOf)
    ensures forall k :: 0 <= k < |slotOf| ==> slotOf[k] == SlotOf(keyOf, k)
  {
    forall k | 0 <= k < |slotOf| ensures slotOf[k] == SlotOf(keyOf, k) {
      if k in keyOf {
        var s := SlotOf(keyOf, k);
        assert slotOf[k] == s;
      }
    }
  }
}
