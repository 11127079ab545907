/** The look-ahead of Belady's policy (`next_uses` in
    bench/moe_cache_sim/moe_cache_sim.cpp). */
module NextUses {
  import opened Slots
  import opened Belady
  import opened Traces

  /** For each expert of `es`, of layer `il`, the next plan after `i` to choose it. */
  function Uses(reqs: Requests, nExpert: nat, i: nat, il: int, es: seq<int>): (r: seq<(int, nat)>)
    requires i < |reqs| <= SIZE_MAX
    ensures |r| == |es|
  {
    seq(|es|, j requires 0 <= j < |es| => (es[j], NextUse(reqs, i + 1, Key(nExpert, il, es[j]))))
  }

  /** The look-ahead of every plan is exact. */
  ghost predicate Exact(nExpert: nat, plans: seq<PlanRec>, rows: seq<seq<(int, nat)>>)
    requires |plans| <= SIZE_MAX
  {
    && |rows| == |plans|
    && forall i :: 0 <= i < |plans| ==> RowExact(nExpert, plans, i, rows[i])
  }

  ghost predicate RowExact(nExpert: nat, plans: seq<PlanRec>, i: nat, row: seq<(int, nat)>)
    requires i < |plans| <= SIZE_MAX
  {
    row == Uses(Asked(nExpert, plans), nExpert, i, plans[i].il, Distinct(plans[i].ids))
  }

  method ComputeNextUses(nLayer: nat, nExpert: nat, plans: seq<PlanRec>) returns (res: seq<seq<(int, nat)>>)
    requires PlansOk(nLayer, nExpert, plans)
    requires |plans| < UINT32_WRAP
    ensures Exact(nExpert, plans, res)
  {
    ghost var reqs := Asked(nExpert, plans);
    var rows := new seq<(int, nat)>[|plans|](_ => []);
    var next := new nat[nLayer * nExpert](_ => SIZE_MAX);
    var seen := new nat[nExpert](_ => 0);
    var gen := 0;
    var i := |plans|;
    while i > 0
      invariant 0 <= i <= |plans| && gen == |plans| - i
      invariant forall e :: 0 <= e < nExpert ==> seen[e] <= gen
      invariant forall k :: 0 <= k < nLayer * nExpert ==> next[k] == NextUse(reqs, i, k)
      invariant forall j :: i <= j < |plans| ==> RowExact(nExpert, plans, j, rows[j])
    {
      i := i - 1;
      gen := gen + 1;
      assert PlanOk(nLayer, nExpert, plans[i]);
      var row := FillRow(nLayer, nExpert, plans, i, next, seen, gen);
      rows[i] := row;
      MarkRow(nLayer, nExpert, plans, i, next, row);
    }
    res := rows[..];
  }

  /** The loop over one plan's choices. */
  method FillRow(nLayer: nat, nExpert: nat, plans: seq<PlanRec>, i: nat, next: array<nat>, seen: array<nat>, gen: nat)
    returns (row: seq<(int, nat)>)
    requires i < |plans| < UINT32_WRAP && PlanOk(nLayer, nExpert, plans[i])
    requires next.Length == nLayer * nExpert && seen.Length == nExpert && next != seen
    requires forall e :: 0 <= e < nExpert ==> seen[e] < gen
    requires forall k :: 0 <= k < nLayer * nExpert ==> next[k] == NextUse(Asked(nExpert, plans), i + 1, k)
    modifies seen
    ensures RowExact(nExpert, plans, i, row)
    ensures forall e :: 0 <= e < nExpert ==> seen[e] <= gen
  {
    var ids, il := plans[i].ids, plans[i].il;
    ghost var reqs := Asked(nExpert, plans);
    row := [];
    var j := 0;
    while j < |ids|
      invariant 0 <= j <= |ids|
      invariant forall e :: 0 <= e < nExpert ==> seen[e] <= gen && (seen[e] == gen <==> e in Distinct(ids[..j]))
      invariant row == Uses(reqs, nExpert, i, il, Distinct(ids[..j]))
    {
      var e := ids[j];
      assert ids[..j + 1][..j] == ids[..j];
      KeyBounds(nLayer, nExpert, il, e);
      if seen[e] != gen {
        seen[e] := gen;
        row := row + [(e, next[il * nExpert + e])];
      }
      j := j + 1;
    }
    assert ids[..j] == ids;
  }

  /** The plan's experts are from here back next used by it. */
  method MarkRow(nLayer: nat, nExpert: nat, plans: seq<PlanRec>, i: nat, next: array<nat>, row: seq<(int, nat)>)
    requires i < |plans| < UINT32_WRAP && PlanOk(nLayer, nExpert, plans[i])
    requires next.Length == nLayer * nExpert
    requires forall k :: 0 <= k < nLayer * nExpert ==> next[k] == NextUse(Asked(nExpert, plans), i + 1, k)
    requires RowExact(nExpert, plans, i, row)
    modifies next
    ensures forall k :: 0 <= k < nLayer * nExpert ==> next[k] == NextUse(Asked(nExpert, plans), i, k)
  {
    var p := 0;
    while p < |row|
      invariant 0 <= p <= |row|
      invariant MarkedTo(nLayer, nExpert, plans, i, next[..], p)
    {
      WantAt(nLayer, nExpert, plans[i], p);
      MarkedNext(nLayer, nExpert, plans, i, next[..], p);
      next[plans[i].il * nExpert + row[p].0] := i;
      p := p + 1;
    }
    MarkedAll(nLayer, nExpert, plans, i, next[..]);
  }

  /** The first `p` experts of plan `i` are marked as used by it. */
  ghost predicate MarkedTo(nLayer: nat, nExpert: nat, plans: seq<PlanRec>, i: nat, next: seq<nat>, p: nat)
    requires i < |plans| <= SIZE_MAX
  {
    var w := Wants(nExpert, plans[i]);
    && p <= |w| && |next| == nLayer * nExpert
    && forall k :: 0 <= k < |next| ==> next[k] == if k in w[..p] then i else NextUse(Asked(nExpert, plans), i + 1, k)
  }

  lemma MarkedNext(nLayer: nat, nExpert: nat, plans: seq<PlanRec>, i: nat, next: seq<nat>, p: nat)
    requires i < |plans| <= SIZE_MAX && MarkedTo(nLayer, nExpert, plans, i, next, p) && p < |Wants(nExpert, plans[i])|
    requires 0 <= Wants(nExpert, plans[i])[p] < |next|
    ensures MarkedTo(nLayer, nExpert, plans, i, next[Wants(nExpert, plans[i])[p] := i], p + 1)
  {
    var w := Wants(nExpert, plans[i]);
    assert w[..p + 1] == w[..p] + [w[p]];
  }

  lemma MarkedAll(nLayer: nat, nExpert: nat, plans: seq<PlanRec>, i: nat, next: seq<nat>)
    requires i < |plans| <= SIZE_MAX && MarkedTo(nLayer, nExpert, plans, i, next, |Wants(nExpert, plans[i])|)
    ensures forall k :: 0 <= k < |next| ==> next[k] == NextUse(Asked(nExpert, plans), i, k)
  {
    var w := Wants(nExpert, plans[i]);
    assert w[..|w|] == w;
    assert forall k :: k in w <==> k in Elems(w);
  }
}
