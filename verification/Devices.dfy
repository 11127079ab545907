/** Aligned blocks of a node's devices (`aligned_group` in
    bench/campaign/devices.py). */
module Devices {

  import opened Options

  /** The aligned blocks of `w` devices: the list cut up from its start. */
  function Blocks(devices: seq<int>, w: nat): seq<seq<int>>
    requires w >= 1
  {
    if |devices| < w then [] else [devices[..w]] + Blocks(devices[w..], w)
  }

  function Devs(block: seq<int>): set<int> {
    set d | d in block
  }

  predicate AllIn(block: seq<int>, free: set<int>) {
    forall i :: 0 <= i < |block| ==> block[i] in free
  }

  /** Some aligned block is free. */
  ghost predicate HasBlock(free: set<int>, devices: seq<int>, w: nat)
    requires w >= 1
  {
    exists b :: b in Blocks(devices, w) && AllIn(b, free)
  }

  /** The first aligned block whose devices are all free. */
  function AlignedGroup(free: set<int>, devices: seq<int>, w: nat): Option<seq<int>>
    requires w >= 1
  {
    if |devices| < w then None
    else if AllIn(devices[..w], free) then Some(devices[..w])
    else AlignedGroup(free, devices[w..], w)
  }

  /** There is one exactly when some block is free, and it is a free block. */
  lemma {:induction false} GroupIsBlock(free: set<int>, devices: seq<int>, w: nat)
    requires w >= 1
    ensures AlignedGroup(free, devices, w).Some? <==> HasBlock(free, devices, w)
    ensures var r := AlignedGroup(free, devices, w);
      r.Some? ==> r.value in Blocks(devices, w) && AllIn(r.value, free)
  {
    if |devices| < w {
    } else if AllIn(devices[..w], free) {
      assert devices[..w] in Blocks(devices, w);
    } else {
      GroupIsBlock(free, devices[w..], w);
      assert forall b :: b in Blocks(devices, w) <==> b == devices[..w] || b in Blocks(devices[w..], w);
    }
  }

  /** The `k`th of the blocks is free, and none before it is. */
  ghost predicate FirstFree(free: set<int>, devices: seq<int>, w: nat, k: nat)
    requires w >= 1
  {
    && k < |Blocks(devices, w)| && AllIn(Blocks(devices, w)[k], free)
    && forall j :: 0 <= j < k ==> !AllIn(Blocks(devices, w)[j], free)
  }

  /** It is the first of them. */
  lemma {:induction false} GroupIsFirst(free: set<int>, devices: seq<int>, w: nat) returns (k: nat)
    requires w >= 1 && AlignedGroup(free, devices, w).Some?
    ensures FirstFree(free, devices, w, k) && AlignedGroup(free, devices, w).value == Blocks(devices, w)[k]
  {
    if AllIn(devices[..w], free) {
      k := 0;
    } else {
      k := GroupIsFirst(free, devices[w..], w);
      k := k + 1;
      assert forall j :: 0 < j <= k ==> Blocks(devices, w)[j] == Blocks(devices[w..], w)[j - 1];
    }
  }

  /** As many blocks as the list holds whole ones. */
  lemma {:induction false} BlockCount(devices: seq<int>, w: nat)
    requires w >= 1
    ensures |Blocks(devices, w)| * w <= |devices| < (|Blocks(devices, w)| + 1) * w
  {
    if |devices| < w {
    } else {
      BlockCount(devices[w..], w);
      OneMore(|Blocks(devices[w..], w)|, w);
    }
  }

  lemma OneMore(k: nat, w: nat)
    ensures (k + 1) * w == k * w + w && (k + 2) * w == (k + 1) * w + w
  {
  }

  /** A block stays free when more devices are. */
  lemma MoreFree(free: set<int>, free': set<int>, devices: seq<int>, w: nat)
    requires w >= 1 && free <= free' && HasBlock(free, devices, w)
    ensures HasBlock(free', devices, w)
  {
    var b :| b in Blocks(devices, w) && AllIn(b, free);
    assert AllIn(b, free');
  }

  /** Every block is `w` devices starting at a multiple of `w`. */
  lemma {:induction false} BlockAt(devices: seq<int>, w: nat, k: nat)
    requires w >= 1 && k < |Blocks(devices, w)|
    ensures k * w + w <= |devices| && Blocks(devices, w)[k] == devices[k * w..k * w + w]
  {
    if k == 0 {
    } else {
      BlockAt(devices[w..], w, k - 1);
      var a := (k - 1) * w;
      assert k * w == a + w;
      assert devices[w..][a..a + w] == devices[w + a..w + a + w];
    }
  }

  lemma BlockDevices(devices: seq<int>, w: nat, b: seq<int>)
    requires w >= 1 && b in Blocks(devices, w)
    ensures |b| == w && forall d :: d in b ==> d in devices
  {
    var k :| 0 <= k < |Blocks(devices, w)| && Blocks(devices, w)[k] == b;
    BlockAt(devices, w, k);
  }

  /** No block before `start` is free. */
  ghost predicate SearchLeft(free: set<int>, devices: seq<int>, w: nat, start: nat)
    requires w >= 1 && start <= |devices|
  {
    AlignedGroup(free, devices[start..], w) == AlignedGroup(free, devices, w)
  }

  lemma SearchNext(free: set<int>, devices: seq<int>, w: nat, start: nat, block: seq<int>)
    requires w >= 1 && start + w <= |devices| && block == devices[start..start + w] &&
        SearchLeft(free, devices, w, start)
    ensures AllIn(block, free) ==> AlignedGroup(free, devices, w) == Some(block)
    ensures !AllIn(block, free) ==> SearchLeft(free, devices, w, start + w)
  {
    assert devices[start..][..w] == block && devices[start..][w..] == devices[start + w..];
  }

  method FindGroup(free: set<int>, devices: seq<int>, w: nat) returns (r: Option<seq<int>>)
    requires w >= 1
    ensures r == AlignedGroup(free, devices, w)
  {
    var start := 0;
    while start + w <= |devices|
      invariant 0 <= start <= |devices|
      invariant SearchLeft(free, devices, w, start)
    {
      var block := devices[start..start + w];
      SearchNext(free, devices, w, start, block);
      if AllIn(block, free) {
        return Some(block);
      }
      start := start + w;
    }
    r := None;
  }
}
