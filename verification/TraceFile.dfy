/** Traces in files (`write_trace` and `read_trace` in
    bench/moe_cache_sim/moe_cache_sim.cpp): 32-bit integers, least significant
    byte first. */
module TraceFile {
  import opened Bytes
  import opened Traces

  const TRACE_MAGIC: int := 0x43454f4d
  const TRACE_VERSION: int := 1
  const I32: int := 0x8000_0000

  datatype Error = NotATrace | TruncatedHeader | BadLength

  datatype Result<+T> = Ok(value: T) | Err(error: Error)

  // ------------------------------------------------------------ words

  predicate Int32(i: int) {
    -I32 <= i < I32
  }

  function Signed(n: nat): int {
    if n >= I32 then n - U32 else n
  }

  predicate AllInt32(ws: seq<int>) {
    forall i :: 0 <= i < |ws| ==> Int32(ws[i])
  }

  function WordAt(b: seq<byte>, p: nat): int
    requires p + 4 <= |b|
  {
    Signed(Get(b[p..p + 4]))
  }

  /** The whole words of a file, wherever it was cut. */
  function Words(b: seq<byte>): (ws: seq<int>)
    ensures |ws| == |b| / 4
  {
    seq(|b| / 4, i requires 0 <= i < |b| / 4 => WordAt(b, 4 * i))
  }

  /** A number as the file holds it: 32 bits of it. */
  function WordOf(i: int): (b: seq<byte>)
    ensures |b| == 4
  {
    Put(i % U32, 4)
  }

  /** Each of them as `f` puts it, in turn. */
  function Strung<T>(f: T -> seq<byte>, xs: seq<T>): seq<byte> {
    if xs == [] then [] else Strung(f, xs[..|xs| - 1]) + f(xs[|xs| - 1])
  }

  lemma {:induction false} StrungOn<T>(f: T -> seq<byte>, xs: seq<T>, ys: seq<T>)
    ensures Strung(f, xs + ys) == Strung(f, xs) + Strung(f, ys)
    decreases |ys|
  {
    if ys == [] {
      assert xs + ys == xs;
    } else {
      var front := ys[..|ys| - 1];
      StrungOn(f, xs, front);
      assert (xs + ys)[..|xs + ys| - 1] == xs + front;
    }
  }

  lemma StrungPair<T>(f: T -> seq<byte>, xs: seq<T>, ys: seq<T>, zs: seq<T>)
    ensures Strung(f, xs + (ys + zs)) == Strung(f, xs) + Strung(f, ys) + Strung(f, zs)
  {
    assert xs + (ys + zs) == xs + ys + zs;
    StrungOn(f, xs, ys);
    StrungOn(f, xs + ys, zs);
  }

  lemma InFirst(s: seq<byte>, t: seq<byte>, i: nat, j: nat)
    requires i <= j <= |s|
    ensures (s + t)[i..j] == s[i..j]
  {
  }

  lemma {:induction false} StrungAt<T>(f: T -> seq<byte>, xs: seq<T>, i: nat)
    requires forall x :: |f(x)| == 4
    ensures |Strung(f, xs)| == 4 * |xs|
    ensures i < |xs| ==> Strung(f, xs)[4 * i..4 * i + 4] == f(xs[i])
    decreases |xs|
  {
    if xs == [] {
    } else {
      var front := xs[..|xs| - 1];
      StrungAt(f, front, i);
      if i < |front| {
        InFirst(Strung(f, front), f(xs[|front|]), 4 * i, 4 * i + 4);
      }
    }
  }

  function WordBytes(ws: seq<int>): (b: seq<byte>)
    ensures |b| == 4 * |ws|
  {
    StrungAt(WordOf, ws, 0);
    Strung(WordOf, ws)
  }

  lemma WordIs(b: seq<byte>, p: nat, w: int)
    requires Int32(w) && p + 4 <= |b| && b[p..p + 4] == WordOf(w)
    ensures WordAt(b, p) == w
  {
    Spans();
    GetPut(w % U32, 4);
  }

  lemma WordRead(ws: seq<int>, n: nat, i: nat)
    requires AllInt32(ws) && n <= 4 * |ws| && i < n / 4
    ensures WordAt(WordBytes(ws)[..n], 4 * i) == ws[i]
  {
    var b := WordBytes(ws);
    StrungAt(WordOf, ws, i);
    Part(b, 0, n, 4 * i, 4 * i + 4);
    WordIs(b[..n], 4 * i, ws[i]);
  }

  /** The bytes of words, cut after any of them, are the words wholly inside. */
  lemma WordsCut(ws: seq<int>, n: nat)
    requires AllInt32(ws) && n <= 4 * |ws|
    ensures Words(WordBytes(ws)[..n]) == ws[..n / 4]
  {
    forall i | 0 <= i < n / 4 ensures Words(WordBytes(ws)[..n])[i] == ws[i] {
      WordRead(ws, n, i);
    }
  }

  // ------------------------------------------------------------ a trace in words

  function Head(t: Trace): seq<int> {
    [TRACE_MAGIC, TRACE_VERSION, t.nLayer, t.nExpert, t.nUsed, t.nSlots, |t.layers|] + t.layers
  }

  function Record(p: PlanRec): seq<int> {
    [p.il, |p.ids|] + p.ids
  }

  function Records(plans: seq<PlanRec>): seq<int> {
    if plans == [] then [] else Record(plans[0]) + Records(plans[1..])
  }

  function TraceWords(t: Trace): seq<int> {
    Head(t) + Records(t.plans)
  }

  /** Every number of it is one that 32 bits hold. */
  ghost predicate Writable(t: Trace) {
    && Int32(t.nLayer) && Int32(t.nExpert) && Int32(t.nUsed) && Int32(t.nSlots)
    && |t.layers| < I32 && AllInt32(t.layers)
    && forall i :: 0 <= i < |t.plans| ==> PlanWritable(t.plans[i])
  }

  ghost predicate PlanWritable(p: PlanRec) {
    Int32(p.il) && |p.ids| < I32 && AllInt32(p.ids)
  }

  lemma {:induction false} RecordsInt32(plans: seq<PlanRec>)
    requires forall i :: 0 <= i < |plans| ==> PlanWritable(plans[i])
    ensures AllInt32(Records(plans))
  {
    if plans == [] {
    } else {
      RecordsInt32(plans[1..]);
    }
  }

  lemma WordsInt32(t: Trace)
    requires Writable(t)
    ensures AllInt32(Head(t)) && AllInt32(TraceWords(t))
  {
    RecordsInt32(t.plans);
  }

  // ------------------------------------------------------------ reading

  /** What is at word `p`: no whole record, one of a length no record has, or
      a plan and where the next record is. */
  datatype Look = Over | Wrong | Plan(plan: PlanRec, next: nat)

  function LookAt(ws: seq<int>, p: nat): (l: Look)
    ensures l.Plan? ==> p < l.next <= |ws|
  {
    if p + 2 > |ws| then Over
    else if ws[p + 1] < 0 then Wrong
    else if p + 2 + ws[p + 1] > |ws| then Over
    else Plan(PlanRec(ws[p], ws[p + 2..p + 2 + ws[p + 1]]), p + 2 + ws[p + 1])
  }

  /** The plans from word `p` on, up to one that is not whole. */
  function ParsePlans(ws: seq<int>, p: nat): Result<seq<PlanRec>>
    decreases |ws| - p
  {
    match LookAt(ws, p)
    case Over => Ok([])
    case Wrong => Err(BadLength)
    case Plan(plan, next) => Prepend([plan], ParsePlans(ws, next))
  }

  function Prepend(plans: seq<PlanRec>, r: Result<seq<PlanRec>>): Result<seq<PlanRec>> {
    match r
    case Ok(more) => Ok(plans + more)
    case Err(e) => Err(e)
  }

  function Parse(ws: seq<int>): Result<Trace> {
    if |ws| < 7 || ws[0] != TRACE_MAGIC || ws[1] != TRACE_VERSION then Err(NotATrace)
    else if ws[6] < 0 then Err(BadLength)
    else if 7 + ws[6] > |ws| then Err(TruncatedHeader)
    else
      match ParsePlans(ws, 7 + ws[6])
      case Ok(plans) => Ok(Trace(ws[2], ws[3], ws[4], ws[5], ws[7..7 + ws[6]], plans))
      case Err(e) => Err(e)
  }

  /** A file being read. */
  class Stream {
    const data: array<byte>
    var pos: nat

    constructor (data: array<byte>)
      ensures this.data == data && pos == 0
    {
      this.data, pos := data, 0;
    }

    /** `n` words, if they are all there, from the `p`th on. */
    method ReadWords(n: nat, ghost p: nat) returns (ok: bool, ws: seq<int>)
      requires pos == 4 * p <= data.Length
      modifies this`pos
      ensures ok <==> p + n <= |Words(data[..])|
      ensures ok ==> pos == 4 * (p + n) && ws == Words(data[..])[p..p + n]
    {
      ok, ws := false, [];
      if pos + 4 * n <= data.Length {
        var i := 0;
        while i < n
          invariant i <= n
          invariant ws == Words(data[..])[p..p + i]
        {
          var at := pos + 4 * i;
          assert data[at..at + 4] == data[..][at..at + 4];
          assert Words(data[..])[p + i] == WordAt(data[..], at);
          ws := ws + [Signed(Get(data[at..at + 4]))];
          i := i + 1;
        }
        ok, pos := true, pos + 4 * n;
      }
    }
  }

  /** Reads a record at the cursor. */
  method ReadPlan(f: Stream, ghost p: nat) returns (look: Look)
    requires f.pos == 4 * p <= f.data.Length
    modifies f`pos
    ensures look == LookAt(Words(f.data[..]), p)
    ensures look.Plan? ==> f.pos == 4 * look.next
  {
    var ok, rec := f.ReadWords(2, p);
    if !ok {
      return Over;
    }
    if rec[1] < 0 {
      return Wrong;
    }
    var whole, ids := f.ReadWords(rec[1], p + 2);
    if !whole {
      return Over;
    }
    look := Plan(PlanRec(rec[0], ids), f.pos / 4);
  }

  /** Reads the plans from the cursor on, keeping what is whole. */
  method ReadPlans(f: Stream, ghost start: nat) returns (r: Result<seq<PlanRec>>)
    requires f.pos == 4 * start <= f.data.Length
    modifies f`pos
    ensures r == ParsePlans(Words(f.data[..]), start)
  {
    ghost var ws := Words(f.data[..]);
    ghost var p := start;
    var plans: seq<PlanRec> := [];
    PrependNone(ParsePlans(ws, start));
    while true
      invariant f.pos == 4 * p <= f.data.Length && Words(f.data[..]) == ws
      invariant PlansLeft(ws, start, plans, p)
      decreases f.data.Length - f.pos
    {
      PlanNext(ws, start, plans, p);
      var look := ReadPlan(f, p);
      match look {
        case Over => break;
        case Wrong => return Err(BadLength);
        case Plan(plan, next) =>
          plans, p := plans + [plan], next;
      }
    }
    r := Ok(plans);
  }

  /** `plans` were read, and the rest is from word `p` on. */
  ghost predicate PlansLeft(ws: seq<int>, start: nat, plans: seq<PlanRec>, p: nat) {
    ParsePlans(ws, start) == Prepend(plans, ParsePlans(ws, p))
  }

  lemma PlanNext(ws: seq<int>, start: nat, plans: seq<PlanRec>, p: nat)
    requires PlansLeft(ws, start, plans, p)
    ensures match LookAt(ws, p)
      case Over => ParsePlans(ws, start) == Ok(plans)
      case Wrong => ParsePlans(ws, start) == Err(BadLength)
      case Plan(plan, next) => PlansLeft(ws, start, plans + [plan], next)
  {
    match LookAt(ws, p)
    case Over => assert plans + [] == plans;
    case Wrong =>
    case Plan(plan, next) => PrependOn(plans, plan, ParsePlans(ws, next));
  }

  lemma PrependNone(r: Result<seq<PlanRec>>)
    ensures Prepend([], r) == r
  {
    if r.Ok? {
      assert [] + r.value == r.value;
    }
  }

  lemma PrependOn(plans: seq<PlanRec>, p: PlanRec, r: Result<seq<PlanRec>>)
    ensures Prepend(plans, Prepend([p], r)) == Prepend(plans + [p], r)
  {
    if r.Ok? {
      assert plans + ([p] + r.value) == plans + [p] + r.value;
    }
  }

  method ReadTrace(data: array<byte>) returns (r: Result<Trace>)
    ensures r == Parse(Words(data[..]))
  {
    var f := new Stream(data);
    var ok, head := f.ReadWords(2, 0);
    if !ok || head[0] != TRACE_MAGIC || head[1] != TRACE_VERSION {
      return Err(NotATrace);
    }
    var ok', hp := f.ReadWords(5, 2);
    if !ok' {
      return Err(NotATrace);
    }
    if hp[4] < 0 {
      return Err(BadLength);
    }
    var whole, layers := f.ReadWords(hp[4], 7);
    if !whole {
      return Err(TruncatedHeader);
    }
    var plans := ReadPlans(f, 7 + hp[4]);
    match plans
    case Ok(ps) => r := Ok(Trace(hp[0], hp[1], hp[2], hp[3], layers, ps));
    case Err(e) => r := Err(e);
  }

  /** What a trace is written as. */
  function FileBytes(t: Trace): seq<byte>
  {
    WordBytes(TraceWords(t))
  }

  method WriteTrace(t: Trace) returns (file: seq<byte>)
    requires Writable(t)
    ensures file == FileBytes(t)
  {
    var head, hp := [TRACE_MAGIC, TRACE_VERSION], [t.nLayer, t.nExpert, t.nUsed, t.nSlots, |t.layers|];
    file := WordBytes(head) + WordBytes(hp) + WordBytes(t.layers);
    StrungPair(WordOf, head, hp, t.layers);
    assert Head(t) == head + (hp + t.layers);
    var i := 0;
    assert Head(t) + Records([]) == Head(t);
    while i < |t.plans|
      invariant i <= |t.plans|
      invariant Written(t, i, file)
    {
      var p := t.plans[i];
      WriteOne(t, i, file);
      file := file + WordBytes([p.il, |p.ids|]) + WordBytes(p.ids);
      i := i + 1;
    }
    assert t.plans[..i] == t.plans;
  }

  /** The header and the first `i` plans. */
  ghost predicate Written(t: Trace, i: nat, file: seq<byte>) {
    i <= |t.plans| && file == WordBytes(Head(t) + Records(t.plans[..i]))
  }

  lemma WriteOne(t: Trace, i: nat, file: seq<byte>)
    requires i < |t.plans| && Written(t, i, file)
    ensures var p := t.plans[i];
      Written(t, i + 1, file + WordBytes([p.il, |p.ids|]) + WordBytes(p.ids))
  {
    var p, before := t.plans[i], Head(t) + Records(t.plans[..i]);
    StrungPair(WordOf, before, [p.il, |p.ids|], p.ids);
    RecordsNext(Head(t), t.plans, i);
  }

  lemma RecordsNext(head: seq<int>, plans: seq<PlanRec>, i: nat)
    requires i < |plans|
    ensures head + Records(plans[..i + 1]) ==
        head + Records(plans[..i]) + ([plans[i].il, |plans[i].ids|] + plans[i].ids)
  {
    RecordsOn(plans[..i], plans[i]);
    assert plans[..i + 1] == plans[..i] + [plans[i]];
    Regroup(head, Records(plans[..i]), Record(plans[i]));
  }

  lemma {:induction false} RecordsOn(plans: seq<PlanRec>, p: PlanRec)
    ensures Records(plans + [p]) == Records(plans) + Record(p)
  {
    if plans == [] {
      assert (plans + [p])[1..] == [];
      assert Record(p) + Records([]) == Record(p);
    } else {
      var rest := plans[1..];
      assert (plans + [p])[1..] == rest + [p];
      RecordsOn(rest, p);
      Regroup(Record(plans[0]), Records(rest), Record(p));
    }
  }

  lemma Regroup(a: seq<int>, b: seq<int>, c: seq<int>)
    ensures a + (b + c) == a + b + c
  {
  }

  // ------------------------------------------------------------ where what is

  /** At which word the record of plan `j` begins, after the header's. */
  function RecordAt(plans: seq<PlanRec>, j: nat): nat
    requires j <= |plans|
  {
    if j == 0 then 0 else RecordAt(plans, j - 1) + 2 + |plans[j - 1].ids|
  }

  lemma {:induction false} RecordsBegin(plans: seq<PlanRec>, j: nat)
    requires j <= |plans|
    ensures |Records(plans[..j])| == RecordAt(plans, j)
  {
    if j == 0 {
    } else {
      RecordsBegin(plans, j - 1);
      RecordsNext([], plans, j - 1);
      assert [] + Records(plans[..j]) == Records(plans[..j]);
      assert [] + Records(plans[..j - 1]) == Records(plans[..j - 1]);
    }
  }

  /** The words from the `p`th on are a plan's layer, how many experts it chose,
      and these. */
  ghost predicate RecordIs(ws: seq<int>, p: nat, plan: PlanRec) {
    && p + 2 + |plan.ids| <= |ws|
    && ws[p] == plan.il && ws[p + 1] == |plan.ids| && ws[p + 2..p + 2 + |plan.ids|] == plan.ids
  }

  lemma {:induction false} RecordThere(plans: seq<PlanRec>, j: nat)
    requires j < |plans|
    ensures RecordIs(Records(plans), RecordAt(plans, j), plans[j])
    decreases |plans|
  {
    var n := |plans| - 1;
    var front, last := plans[..n], plans[n];
    RecordsOn(front, last);
    assert plans == front + [last];
    RecordsBegin(plans, n);
    if j == n {
      LastRecord(Records(front), last);
    } else {
      RecordThere(front, j);
      RecordAtFront(plans, n, j);
      InFront(Records(front), Record(last), RecordAt(plans, j), plans[j]);
    }
  }

  lemma {:induction false} RecordAtFront(plans: seq<PlanRec>, n: nat, j: nat)
    requires j <= n <= |plans|
    ensures RecordAt(plans[..n], j) == RecordAt(plans, j)
  {
    if j == 0 {
    } else {
      RecordAtFront(plans, n, j - 1);
    }
  }

  lemma LastRecord(ws: seq<int>, p: PlanRec)
    ensures RecordIs(ws + Record(p), |ws|, p)
  {
  }

  lemma InFront(ws: seq<int>, more: seq<int>, p: nat, plan: PlanRec)
    requires RecordIs(ws, p, plan)
    ensures RecordIs(ws + more, p, plan)
  {
  }

  lemma Behind(front: seq<int>, ws: seq<int>, p: nat, q: nat, plan: PlanRec)
    requires RecordIs(ws, p, plan) && q == |front| + p
    ensures RecordIs(front + ws, q, plan)
  {
  }

  /** The words of a file: first the magic number, which is spelled MOEC, version
      1, the five numbers of the header in their order, and the layers. */
  lemma HeadLayout(t: Trace)
    requires Writable(t)
    ensures var ws := Words(FileBytes(t));
      && 7 + |t.layers| <= |ws|
      && ws[..7 + |t.layers|] == [0x43454f4d, 1, t.nLayer, t.nExpert, t.nUsed, t.nSlots, |t.layers|] + t.layers
  {
    WordsOfFile(t);
    assert (Head(t) + Records(t.plans))[..|Head(t)|] == Head(t);
  }

  /** At which word of the file the record of plan `j` begins. */
  function PlanAt(t: Trace, j: nat): nat
    requires j <= |t.plans|
  {
    7 + |t.layers| + RecordAt(t.plans, j)
  }

  /** Then for each plan in turn its layer, how many experts it chose, and these. */
  lemma RecordLayout(t: Trace, j: nat)
    requires Writable(t) && j < |t.plans|
    ensures RecordIs(Words(FileBytes(t)), PlanAt(t, j), t.plans[j])
  {
    WordsOfFile(t);
    RecordThere(t.plans, j);
    Behind(Head(t), Records(t.plans), RecordAt(t.plans, j), PlanAt(t, j), t.plans[j]);
  }

  lemma WordsOfFile(t: Trace)
    requires Writable(t)
    ensures Words(FileBytes(t)) == Head(t) + Records(t.plans)
  {
    var b, ws := FileBytes(t), TraceWords(t);
    WordsInt32(t);
    WordsCut(ws, 4 * |ws|);
    assert b[..4 * |ws|] == b && ws[..|ws|] == ws;
  }

  /** Words are in two's complement, the least significant byte first. */
  lemma WordLayout(w: int, i: nat)
    requires Int32(w) && i < 4
    ensures WordOf(w)[i] == TwosComplement(w) / Span(i) % 0x100
  {
    ComplementIs(w);
    PutAt(TwosComplement(w), 4, i);
  }

  lemma ComplementIs(w: int)
    requires Int32(w)
    ensures w % U32 == TwosComplement(w)
  {
    var n := TwosComplement(w);
    assert n < U32 && (n == w || n - U32 == w);
  }

  function TwosComplement(w: int): nat
    requires Int32(w)
  {
    if w >= 0 then w else w + 0x1_0000_0000
  }

  /** A file that is read as a trace begins with the letters MOEC. */
  lemma ReadsMagic(b: seq<byte>)
    requires Parse(Words(b)).Ok?
    ensures |b| >= 28 && b[..4] == [0x4d, 0x4f, 0x45, 0x43]
  {
    var m := b[0..4];
    assert b[..4] == m && Words(b)[0] == WordAt(b, 0);
    PutGet(m);
    Spelled();
  }

  lemma Spelled()
    ensures Put(TRACE_MAGIC, 4) == [0x4d, 0x4f, 0x45, 0x43]
  {
    assert Put(0x43, 1) == [0x43];
    assert Put(0x4345, 2) == [0x45, 0x43];
    assert Put(0x4345_4f, 3) == [0x4f, 0x45, 0x43];
  }

  // ------------------------------------------------------------ which files are read

  /** No whole record is at word `p`, nor the beginning of one of negative length. */
  ghost predicate NoRecord(ws: seq<int>, p: nat) {
    p + 2 > |ws| || (ws[p + 1] >= 0 && p + 2 + ws[p + 1] > |ws|)
  }

  /** The words from the `p`th on are these and, after them, no record. */
  ghost predicate RecordsAre(ws: seq<int>, p: nat, plans: seq<PlanRec>) {
    var q := p + |Records(plans)|;
    q <= |ws| && ws[p..q] == Records(plans) && NoRecord(ws, q)
  }

  lemma RecordsAreNext(ws: seq<int>, p: nat, plans: seq<PlanRec>)
    requires plans != []
    ensures RecordsAre(ws, p, plans) <==>
      RecordIs(ws, p, plans[0]) && RecordsAre(ws, p + 2 + |plans[0].ids|, plans[1..])
  {
    var rec, more := Record(plans[0]), Records(plans[1..]);
    var q := p + |rec|;
    var end := q + |more|;
    if end <= |ws| {
      assert ws[p..end] == ws[p..q] + ws[q..end];
      if ws[p..end] == rec + more {
        assert ws[p..q] == (rec + more)[..|rec|] && ws[q..end] == (rec + more)[|rec|..];
        RecordWords(ws, p, plans[0]);
      }
      if RecordIs(ws, p, plans[0]) {
        RecordWords(ws, p, plans[0]);
      }
    }
  }

  lemma RecordWords(ws: seq<int>, p: nat, plan: PlanRec)
    requires p + 2 + |plan.ids| <= |ws|
    ensures RecordIs(ws, p, plan) <==> ws[p..p + 2 + |plan.ids|] == Record(plan)
  {
    var part, rec := ws[p..p + 2 + |plan.ids|], Record(plan);
    assert part[2..] == ws[p + 2..p + 2 + |plan.ids|] && rec[2..] == plan.ids;
    assert part == [part[0], part[1]] + part[2..] && rec == [rec[0], rec[1]] + rec[2..];
    assert part[0] == ws[p] && part[1] == ws[p + 1];
  }

  lemma {:induction false} PlansExactly(ws: seq<int>, p: nat, plans: seq<PlanRec>)
    requires p <= |ws|
    ensures ParsePlans(ws, p) == Ok(plans) <==> RecordsAre(ws, p, plans)
    decreases |ws| - p
  {
    match LookAt(ws, p)
    case Over =>
      if plans != [] {
        RecordsAreNext(ws, p, plans);
      } else {
        assert ws[p..p] == [];
      }
    case Wrong =>
      if plans != [] {
        RecordsAreNext(ws, p, plans);
      }
    case Plan(plan, next) =>
      if plans != [] {
        RecordsAreNext(ws, p, plans);
        PlansExactly(ws, next, plans[1..]);
      }
      FirstOf(plan, plans, ParsePlans(ws, next));
  }

  lemma FirstOf(plan: PlanRec, plans: seq<PlanRec>, r: Result<seq<PlanRec>>)
    ensures Prepend([plan], r) == Ok(plans) <==> plans != [] && plans[0] == plan && r == Ok(plans[1..])
  {
    if r.Ok? {
      assert ([plan] + r.value)[1..] == r.value;
    }
    if plans != [] {
      assert plans == [plans[0]] + plans[1..];
    }
  }

  /** The words of any file are read as a trace exactly when they are its own,
      followed by no whole record nor the beginning of one of negative length. */
  lemma ReadExactly(ws: seq<int>, t: Trace)
    ensures Parse(ws) == Ok(t) <==>
      |Head(t)| <= |ws| && ws[..|Head(t)|] == Head(t) && RecordsAre(ws, |Head(t)|, t.plans)
  {
    if |Head(t)| <= |ws| {
      PlansExactly(ws, |Head(t)|, t.plans);
    }
    if |ws| >= 7 && ws[6] >= 0 && 7 + ws[6] <= |ws| {
      var head := ws[..7 + ws[6]];
      assert head == [ws[0], ws[1], ws[2], ws[3], ws[4], ws[5], ws[6]] + ws[7..7 + ws[6]];
    }
    if |Head(t)| <= |ws| && ws[..|Head(t)|] == Head(t) {
      assert forall i :: 0 <= i < 7 ==> ws[i] == ws[..|Head(t)|][i];
      assert ws[7..|Head(t)|] == ws[..|Head(t)|][7..];
    }
  }

  // ------------------------------------------------------------ what is read back

  /** How many of the plans lie wholly inside the first `m` words of their records. */
  function Whole(plans: seq<PlanRec>, m: nat): (k: nat)
    ensures k <= |plans|
  {
    if plans == [] || |Record(plans[0])| > m then 0
    else 1 + Whole(plans[1..], m - |Record(plans[0])|)
  }

  /** The first `Whole` plans end inside the `m` words, and the next would not. */
  lemma {:induction false} WholeIs(plans: seq<PlanRec>, m: nat)
    ensures var k := Whole(plans, m);
      && |Records(plans[..k])| <= m
      && (k < |plans| ==> |Records(plans[..k + 1])| > m)
    decreases |plans|
  {
    var k := Whole(plans, m);
    if plans == [] {
    } else {
      assert plans[..1] == [plans[0]] && Records([plans[0]]) == Record(plans[0]) + Records([]);
      if |Record(plans[0])| <= m {
        WholeIs(plans[1..], m - |Record(plans[0])|);
        assert plans[..k] == [plans[0]] + plans[1..][..k - 1];
        assert k < |plans| ==> plans[..k + 1] == [plans[0]] + plans[1..][..k];
      }
    }
  }

  /** Records read from `p` on, in words cut after the `m`th. */
  lemma {:induction false} PlansRead(ws: seq<int>, p: nat, plans: seq<PlanRec>, m: nat)
    requires p <= m <= |ws| && ws[p..] == Records(plans)
    ensures ParsePlans(ws[..m], p) == Ok(plans[..Whole(plans, m - p)])
    decreases |plans|
  {
    if plans == [] {
      assert |ws| == p;
    } else {
      var rec, q, v := Record(plans[0]), p + |Record(plans[0])|, ws[..m];
      RecordRead(ws, p, plans, m);
      if q <= m {
        PlansRead(ws, q, plans[1..], m);
        assert [plans[0]] + plans[1..][..Whole(plans[1..], m - q)] == plans[..Whole(plans, m - p)];
      }
    }
  }

  /** The first record, if the cut leaves it whole, or its beginning. */
  lemma RecordRead(ws: seq<int>, p: nat, plans: seq<PlanRec>, m: nat)
    requires p <= m <= |ws| && ws[p..] == Records(plans) && plans != []
    ensures var q := p + |Record(plans[0])|;
      && (p + 2 <= m ==> ws[..m][p] == plans[0].il && ws[..m][p + 1] == |plans[0].ids|)
      && (q <= m ==> ws[..m][p + 2..q] == plans[0].ids && ws[q..] == Records(plans[1..]))
  {
    var rec := Record(plans[0]);
    var q := p + |rec|;
    assert |ws[p..]| == |rec| + |Records(plans[1..])|;
    assert forall i :: 0 <= i < |rec| ==> ws[p..][i] == rec[i];
    if p + 2 <= m {
      assert ws[p] == ws[p..][0] && ws[p + 1] == ws[p..][1];
    }
    if q <= m {
      assert ws[..m][p + 2..q] == ws[p..][2..|rec|];
      assert ws[p..][2..|rec|] == rec[2..];
      assert ws[p..][|rec|..] == Records(plans[1..]);
      assert ws[q..] == ws[p..][|rec|..];
    }
  }

  /** The plans whose records lie wholly inside the first `n` bytes. */
  function Inside(t: Trace, n: nat): (k: nat)
    requires 4 * |Head(t)| <= n
    ensures k <= |t.plans|
  {
    Whole(t.plans, n / 4 - |Head(t)|)
  }

  lemma InsideIs(t: Trace, n: nat)
    requires 4 * |Head(t)| <= n
    ensures 4 * (|Head(t)| + |Records(t.plans[..Inside(t, n)])|) <= n
    ensures Inside(t, n) < |t.plans| ==> n < 4 * (|Head(t)| + |Records(t.plans[..Inside(t, n) + 1])|)
  {
    WholeIs(t.plans, n / 4 - |Head(t)|);
  }

  /** Reading back a file cut anywhere after its header gives the trace with
      exactly the plans whose records lie wholly inside. */
  lemma CutTraceReads(t: Trace, n: nat)
    requires Writable(t) && 4 * |Head(t)| <= n <= |FileBytes(t)|
    ensures Parse(Words(FileBytes(t)[..n])) == Ok(t.(plans := t.plans[..Inside(t, n)]))
    ensures 4 * (|Head(t)| + |Records(t.plans[..Inside(t, n)])|) <= n
    ensures Inside(t, n) < |t.plans| ==> n < 4 * (|Head(t)| + |Records(t.plans[..Inside(t, n) + 1])|)
  {
    Cut(t, n);
    CutWords(t, n / 4);
    InsideIs(t, n);
  }

  lemma Cut(t: Trace, n: nat)
    requires Writable(t) && n <= |FileBytes(t)|
    ensures |FileBytes(t)| == 4 * |TraceWords(t)|
    ensures Words(FileBytes(t)[..n]) == TraceWords(t)[..n / 4]
  {
    WordsInt32(t);
    WordsCut(TraceWords(t), n);
  }

  /** A file cut inside its header is refused. */
  lemma CutHeadRefused(t: Trace, n: nat)
    requires Writable(t) && n < 4 * |Head(t)| <= |FileBytes(t)|
    ensures Parse(Words(FileBytes(t)[..n])).Err?
  {
    Cut(t, n);
    CutHead(t, n / 4);
  }

  lemma CutWords(t: Trace, m: nat)
    requires |Head(t)| <= m <= |TraceWords(t)|
    ensures Parse(TraceWords(t)[..m]) == Ok(t.(plans := t.plans[..Whole(t.plans, m - |Head(t)|)]))
  {
    var ws := TraceWords(t);
    assert ws[|Head(t)|..] == Records(t.plans);
    PlansRead(ws, |Head(t)|, t.plans, m);
    assert ws[..m][..|Head(t)|] == Head(t);
    HeadReads(t, ws[..m]);
  }

  lemma CutHead(t: Trace, m: nat)
    requires m < |Head(t)|
    ensures Parse(TraceWords(t)[..m]).Err?
  {
    var v := TraceWords(t)[..m];
    assert forall i :: 0 <= i < m ==> v[i] == Head(t)[i];
    if m >= 7 {
      assert v[6] == |t.layers|;
    }
  }

  lemma HeadReads(t: Trace, v: seq<int>)
    requires |Head(t)| <= |v| && v[..|Head(t)|] == Head(t)
    ensures Parse(v) == match ParsePlans(v, |Head(t)|)
      case Ok(plans) => Ok(t.(plans := plans))
      case Err(e) => Err(e)
  {
    var h := v[..|Head(t)|];
    assert v[0] == h[0] && v[1] == h[1] && v[2] == h[2] && v[3] == h[3] && v[4] == h[4] && v[5] == h[5] && v[6] == h[6];
    assert v[7..7 + v[6]] == h[7..];
    assert h[7..] == t.layers;
  }

  /** Reading undoes writing. */
  lemma RoundTrip(t: Trace)
    requires Writable(t)
    ensures Parse(Words(FileBytes(t))) == Ok(t)
  {
    var b := FileBytes(t);
    Cut(t, |b|);
    assert b[..|b|] == b && TraceWords(t)[..|b| / 4] == TraceWords(t);
    WordsReadBack(t);
  }

  lemma WordsReadBack(t: Trace)
    ensures Parse(TraceWords(t)) == Ok(t)
  {
    var ws := TraceWords(t);
    CutWords(t, |ws|);
    AllWhole(t.plans);
    assert ws[..|ws|] == ws && t.plans[..|t.plans|] == t.plans;
  }

  lemma {:induction false} AllWhole(plans: seq<PlanRec>)
    ensures Whole(plans, |Records(plans)|) == |plans|
  {
    if plans == [] {
    } else {
      AllWhole(plans[1..]);
    }
  }
}
