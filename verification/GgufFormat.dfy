/** Well-formed GGUF headers, and the edit of one as the edit of its entries
    (engine/src/gguf_patch.rs; the layout is that of ggml's docs/gguf.md,
    section "File Structure"). */
module GgufFormat {
  import opened Options
  import opened Bytes
  import opened Gguf
  import opened GgufEdits

  /** A value: a scalar or the elements of a scalar array as the file stores
      them, or strings. */
  datatype Value =
    | Scalar(kind: nat, raw: seq<byte>)
    | Text(text: seq<byte>)
    | Scalars(elem: nat, count: nat, raw: seq<byte>)
    | Texts(texts: seq<seq<byte>>)

  datatype Entry = Entry(key: seq<byte>, value: Value)

  datatype Header = Header(version: nat, tensors: nat, entries: seq<Entry>)

  function Type(v: Value): nat {
    match v
    case Scalar(kind, _) => kind
    case Text(_) => TYPE_STRING
    case _ => TYPE_ARRAY
  }

  // ------------------------------------------------------------ the layout

  function StringsSize(texts: seq<seq<byte>>): nat {
    if texts == [] then 0 else 8 + |texts[0]| + StringsSize(texts[1..])
  }

  function ValueSize(v: Value): nat {
    match v
    case Scalar(_, raw) => |raw|
    case Text(text) => 8 + |text|
    case Scalars(_, _, raw) => 12 + |raw|
    case Texts(texts) => 12 + StringsSize(texts)
  }

  /** The bytes of `count` elements of `size` each. */
  function Together(count: nat, size: nat): nat {
    count * size
  }

  /** How far into an entry its value is. */
  function KeySize(e: Entry): nat {
    8 + |e.key| + 4
  }

  /** Where the entry at `p` ends. */
  function After(p: nat, e: Entry): nat {
    p + KeySize(e) + ValueSize(e.value)
  }

  function EntriesSize(es: seq<Entry>): nat {
    if es == [] then 0 else KeySize(es[0]) + ValueSize(es[0].value) + EntriesSize(es[1..])
  }

  ghost predicate BytesAre(b: seq<byte>, p: nat, s: seq<byte>) {
    p + |s| <= |b| && b[p..p + |s|] == s
  }

  /** Strings follow their lengths. */
  ghost predicate StringIs(b: seq<byte>, p: nat, s: seq<byte>) {
    IntAt(b, p, 8) == Ok(|s|) && BytesAre(b, p + 8, s)
  }

  ghost predicate StringsAre(b: seq<byte>, p: nat, texts: seq<seq<byte>>)
    decreases |texts|
  {
    texts == [] || (StringIs(b, p, texts[0]) && StringsAre(b, p + 8 + |texts[0]|, texts[1..]))
  }

  /** Arrays follow the type of their elements and how many they are. */
  ghost predicate ValueIs(b: seq<byte>, p: nat, v: Value) {
    match v
    case Scalar(kind, raw) => ScalarSize(kind) == Ok(|raw|) && BytesAre(b, p, raw)
    case Text(text) => StringIs(b, p, text)
    case Scalars(elem, count, raw) =>
      && IntAt(b, p, 4) == Ok(elem) && IntAt(b, p + 4, 8) == Ok(count)
      && ScalarSize(elem).Ok? && |raw| == Together(count, ScalarSize(elem).value)
      && BytesAre(b, p + 12, raw)
    case Texts(texts) =>
      && IntAt(b, p, 4) == Ok(TYPE_STRING) && IntAt(b, p + 4, 8) == Ok(|texts|)
      && StringsAre(b, p + 12, texts)
  }

  /** An entry is its key, the type of its value, and the value. */
  ghost predicate EntryIs(b: seq<byte>, p: nat, e: Entry) {
    && StringIs(b, p, e.key)
    && IntAt(b, p + 8 + |e.key|, 4) == Ok(Type(e.value))
    && ValueIs(b, p + KeySize(e), e.value)
  }

  ghost predicate EntriesAre(b: seq<byte>, p: nat, es: seq<Entry>)
    decreases |es|
  {
    es == [] || (EntryIs(b, p, es[0]) && EntriesAre(b, After(p, es[0]), es[1..]))
  }

  /** A file that begins with the header `h`, and can be positioned in. */
  ghost predicate Begins(b: seq<byte>, h: Header) {
    && |b| <= I64_MAX
    && IntAt(b, 0, 4) == Ok(GGUF_MAGIC) && IntAt(b, 4, 4) == Ok(h.version)
    && IntAt(b, 8, 8) == Ok(h.tensors) && IntAt(b, 16, 8) == Ok(|h.entries|)
    && EntriesAre(b, 24, h.entries)
  }

  /** The types of the format by number, and how many bytes a value of each has:
      `uint8`, `int8`, `uint16`, `int16`, `uint32`, `int32`, `float32` and `bool`
      are 0 to 7, `uint64`, `int64` and `float64` are 10 to 12. */
  lemma SizesOfTypes(t: nat)
    ensures ScalarSize(t) ==
      match t
      case 0 | 1 | 7 => Ok(1)
      case 2 | 3 => Ok(2)
      case 4 | 5 | 6 => Ok(4)
      case 10 | 11 | 12 => Ok(8)
      case _ => Err(UnknownType)
    ensures TYPE_STRING == 8 && TYPE_ARRAY == 9
  {
  }

  /** An array of `count` elements: refused when 64 bits do not hold its size, when
      it is of strings and the file is shorter than their lengths, when it reaches
      past the largest position, or when its elements are of no known size. */
  lemma ArrayEndsExactly(b: seq<byte>, p: nat, elem: nat, count: nat)
    requires IntAt(b, p, 4) == Ok(elem) && IntAt(b, p + 4, 8) == Ok(count)
    ensures elem == 8 && count * 8 >= 0x1_0000_0000_0000_0000 ==> ValueEnd(b, p, 9) == Err(SizeOverflows)
    ensures elem == 8 && |b| - (p + 12) < count * 8 < 0x1_0000_0000_0000_0000 ==> ValueEnd(b, p, 9) == Err(ArrayTooLong)
    ensures elem == 8 && count * 8 <= |b| - (p + 12) && count * 8 < 0x1_0000_0000_0000_0000 ==>
      ValueEnd(b, p, 9) == StringsEnd(b, p + 12, count)
    ensures elem != 8 && ScalarSize(elem).Err? ==> ValueEnd(b, p, 9) == Err(UnknownType)
    ensures elem != 8 && ScalarSize(elem).Ok? ==>
      var size := Together(count, ScalarSize(elem).value);
      ValueEnd(b, p, 9) ==
        if size >= 0x1_0000_0000_0000_0000 then Err(SizeOverflows)
        else if size > 0x7fff_ffff_ffff_ffff || p + 12 + size > 0x7fff_ffff_ffff_ffff then Err(SkipTooFar)
        else Ok(p + 12 + size)
  {
    assert p + 12 <= |b|;
    assert Together(count, 8) == count * 8;
  }

  /** The strings from `p` on end at `q`: each begins where the one before it ends. */
  ghost predicate StringsBetween(b: seq<byte>, starts: seq<nat>) {
    forall i :: 0 <= i < |starts| - 1 ==>
      && starts[i] + 8 <= |b|
      && starts[i + 1] == starts[i] + 8 + Get(b[starts[i]..starts[i] + 8]) <= 0x7fff_ffff_ffff_ffff
  }

  /** Strings, which may reach past the end of the file, are skipped exactly when
      each length is in the file and none reaches past the largest position. */
  lemma {:induction false} StringsEndExactly(b: seq<byte>, starts: seq<nat>)
    requires starts != []
    ensures StringsBetween(b, starts) ==> StringsEnd(b, starts[0], |starts| - 1) == Ok(starts[|starts| - 1])
    decreases |starts|
  {
    if |starts| > 1 && StringsBetween(b, starts) {
      StringsEndExactly(b, starts[1..]);
      assert Get(b[starts[0]..starts[0] + 8]) >= 0;
    }
  }

  lemma {:induction false} StringsStart(b: seq<byte>, p: nat, count: nat) returns (starts: seq<nat>)
    requires StringsEnd(b, p, count).Ok?
    ensures |starts| == count + 1 && starts[0] == p && StringsBetween(b, starts)
    ensures starts[count] == StringsEnd(b, p, count).value
    decreases count
  {
    if count == 0 {
      starts := [p];
    } else {
      var q := p + 8 + Get(b[p..p + 8]);
      var more := StringsStart(b, q, count - 1);
      starts := [p] + more;
      StartsOneMore(b, p, more);
    }
  }

  lemma StartsOneMore(b: seq<byte>, p: nat, more: seq<nat>)
    requires more != [] && StringsBetween(b, more) && p + 8 <= |b|
    requires more[0] == p + 8 + Get(b[p..p + 8]) <= 0x7fff_ffff_ffff_ffff
    ensures StringsBetween(b, [p] + more)
  {
    var starts := [p] + more;
    forall i | 0 <= i < |starts| - 1
      ensures starts[i] + 8 <= |b|
      ensures starts[i + 1] == starts[i] + 8 + Get(b[starts[i]..starts[i] + 8]) <= 0x7fff_ffff_ffff_ffff
    {
      if i > 0 {
        assert starts[i] == more[i - 1];
      }
    }
  }

  /** The four bytes a file begins with spell GGUF. */
  lemma BeginsWithMagic(b: seq<byte>, h: Header)
    requires Begins(b, h)
    ensures b[..4] == [0x47, 0x47, 0x55, 0x46]
  {
    var m := b[0..4];
    assert b[..4] == m;
    PutGet(m);
    Spelled();
  }

  /** A file in which anything is looked for to the end begins so. */
  lemma FoundMagic(b: seq<byte>, key: seq<byte>)
    requires Find(b, key).Ok?
    ensures |b| >= 24 && b[..4] == [0x47, 0x47, 0x55, 0x46]
  {
    var m := b[0..4];
    assert b[..4] == m;
    PutGet(m);
    Spelled();
  }

  lemma Spelled()
    ensures Put(GGUF_MAGIC, 4) == [0x47, 0x47, 0x55, 0x46]
    ensures Get([0x47, 0x47, 0x55, 0x46]) == GGUF_MAGIC
  {
    assert Put(0x46, 1) == [0x46];
    assert Put(0x4655, 2) == [0x55, 0x46];
    assert Put(0x4655_47, 3) == [0x47, 0x55, 0x46];
    GetPut(GGUF_MAGIC, 4);
    Spans();
  }

  /** An edit writes the value's bytes, the least significant first, and gives
      back the number that the four bytes there stood for. */
  lemma EditedBytes(b: seq<byte>, key: seq<byte>, value: nat, held: nat, b': seq<byte>, at: nat, i: nat)
    requires Edited(b, key, value, Ok(Some(held)), b') && Find(b, key) == Ok(Some(at)) && i < 4
    ensures at + 4 <= |b| == |b'|
    ensures b'[at + i] == value / Span(i) % 0x100
    ensures b[at + i] == held / Span(i) % 0x100
  {
    PutAt(value, 4, i);
    GetAt(b[at..at + 4], i);
  }

  // ------------------------------------------------------------ walking it

  lemma {:induction false} StringsEndThere(b: seq<byte>, p: nat, texts: seq<seq<byte>>)
    requires p <= |b| <= I64_MAX && StringsAre(b, p, texts)
    ensures StringsEnd(b, p, |texts|) == Ok(p + StringsSize(texts))
    ensures 8 * |texts| <= StringsSize(texts) && p + StringsSize(texts) <= |b|
    decreases |texts|
  {
    if texts == [] {
    } else {
      var q := p + 8 + |texts[0]|;
      StringsEndThere(b, q, texts[1..]);
      assert StringsEnd(b, p, |texts|) == StringsEnd(b, q, |texts[1..]|);
    }
  }

  lemma ValueEndThere(b: seq<byte>, p: nat, v: Value)
    requires |b| <= I64_MAX && ValueIs(b, p, v)
    ensures ValueEnd(b, p, Type(v)) == Ok(p + ValueSize(v))
    ensures p + ValueSize(v) <= |b|
  {
    match v
    case Scalar(kind, raw) =>
    case Text(text) =>
      assert StringsEnd(b, p + 8 + |text|, 0) == Ok(p + 8 + |text|);
    case Scalars(elem, count, raw) =>
    case Texts(texts) =>
      StringsEndThere(b, p + 12, texts);
  }

  function Shows(p: nat, e: Entry, key: seq<byte>): Look {
    if e.key != key then Further(After(p, e))
    else if Type(e.value) == TYPE_UINT32 then Here(p + KeySize(e))
    else Wrong(WrongType)
  }

  lemma LooksThere(b: seq<byte>, p: nat, e: Entry, key: seq<byte>)
    requires |b| <= I64_MAX && EntryIs(b, p, e)
    ensures LookAt(b, p, key) == Shows(p, e, key)
    ensures After(p, e) <= |b|
  {
    ValueEndThere(b, p + KeySize(e), e.value);
    LooksBy(b, p, key, e.key, Type(e.value), After(p, e));
  }

  lemma LooksBy(b: seq<byte>, p: nat, key: seq<byte>, k: seq<byte>, t: nat, end: nat)
    requires StringAt(b, p) == Ok(k) && IntAt(b, p + 8 + |k|, 4) == Ok(t) && ValueEnd(b, p + 8 + |k| + 4, t) == Ok(end)
    requires t == TYPE_UINT32 ==> p + 8 + |k| + 8 <= |b|
    ensures LookAt(b, p, key) ==
      if k != key then Further(end) else if t == TYPE_UINT32 then Here(p + 8 + |k| + 4) else Wrong(WrongType)
  {
  }

  /** The first entry with the key. */
  function First(es: seq<Entry>, key: seq<byte>): (i: nat)
    ensures i <= |es|
    ensures forall k :: 0 <= k < i ==> es[k].key != key
    ensures i < |es| ==> es[i].key == key
  {
    if es == [] || es[0].key == key then 0 else 1 + First(es[1..], key)
  }

  /** Where the value of the `i`th entry is, the first being at `p`. */
  function Place(p: nat, es: seq<Entry>, i: nat): nat
    requires i < |es|
    decreases i
  {
    if i == 0 then p + KeySize(es[0]) else Place(After(p, es[0]), es[1..], i - 1)
  }

  /** What a walk should give when the first with the key is the `i`th, and
      what comes after these entries gives `rest`. */
  function Expected(p: nat, es: seq<Entry>, i: nat, rest: Result<Option<nat>>): Result<Option<nat>>
    requires i <= |es|
  {
    if i == |es| then rest
    else if Type(es[i].value) == TYPE_UINT32 then Ok(Some(Place(p, es, i)))
    else Err(WrongType)
  }

  lemma WalkStep(look: nat -> Look, p: nat, es: seq<Entry>, key: seq<byte>, n: nat, rest: Result<Option<nat>>)
    requires es != [] && n >= 1 && look(p) == Shows(p, es[0], key)
    requires es[0].key != key ==>
      var q := After(p, es[0]);
      Walk(look, q, n - 1) == Expected(q, es[1..], First(es[1..], key), rest)
    ensures Walk(look, p, n) == Expected(p, es, First(es, key), rest)
  {
  }

  /** Each of the entries shows what it should. */
  ghost predicate AllShown(look: nat -> Look, p: nat, es: seq<Entry>, key: seq<byte>)
    decreases |es|
  {
    es == [] || (look(p) == Shows(p, es[0], key) && AllShown(look, After(p, es[0]), es[1..], key))
  }

  lemma {:induction false} EntriesShown(b: seq<byte>, p: nat, es: seq<Entry>, key: seq<byte>)
    requires |b| <= I64_MAX && EntriesAre(b, p, es)
    ensures AllShown(Looks(b, key), p, es, key)
    decreases |es|
  {
    if es == [] {
    } else {
      LooksThere(b, p, es[0], key);
      EntriesShown(b, After(p, es[0]), es[1..], key);
    }
  }

  lemma {:induction false} WalkShown(look: nat -> Look, p: nat, es: seq<Entry>, key: seq<byte>, n: nat, end: nat,
                                     rest: Result<Option<nat>>)
    requires AllShown(look, p, es, key) && n >= |es|
    requires end == p + EntriesSize(es) && rest == Walk(look, end, n - |es|)
    ensures Walk(look, p, n) == Expected(p, es, First(es, key), rest)
    decreases |es|
  {
    if es == [] {
    } else {
      if es[0].key != key {
        WalkShown(look, After(p, es[0]), es[1..], key, n - 1, end, rest);
      }
      WalkStep(look, p, es, key, n, rest);
    }
  }

  /** The walk over `n` entries that begin with well-formed ones finds the first
      of these with the key, or gives what it gives from their end on. */
  lemma FoundThere(b: seq<byte>, p: nat, es: seq<Entry>, key: seq<byte>, n: nat, end: nat, rest: Result<Option<nat>>)
    requires |b| <= I64_MAX && EntriesAre(b, p, es) && n >= |es|
    requires end == p + EntriesSize(es) && rest == FindEntry(b, end, n - |es|, key)
    ensures FindEntry(b, p, n, key) == Expected(p, es, First(es, key), rest)
  {
    EntriesShown(b, p, es, key);
    WalkShown(Looks(b, key), p, es, key, n, end, rest);
  }

  // ------------------------------------------------------------ nested arrays

  /** The file's count of entries is `n`, and `es` are its first. */
  ghost predicate BeginsWith(b: seq<byte>, n: nat, es: seq<Entry>) {
    && |b| <= I64_MAX && |es| <= n
    && IntAt(b, 0, 4) == Ok(GGUF_MAGIC) && IntAt(b, 4, 4).Ok? && IntAt(b, 8, 8).Ok? && IntAt(b, 16, 8) == Ok(n)
    && EntriesAre(b, 24, es)
  }

  /** The entry at `p` is `k` with an array of arrays. */
  ghost predicate NestedIs(b: seq<byte>, p: nat, k: seq<byte>) {
    var q := p + 8 + |k|;
    && StringIs(b, p, k) && IntAt(b, q, 4) == Ok(TYPE_ARRAY)
    && IntAt(b, q + 4, 4) == Ok(TYPE_ARRAY) && IntAt(b, q + 8, 8).Ok?
  }

  lemma NestedUnknown(b: seq<byte>, p: nat)
    requires IntAt(b, p, 4) == Ok(TYPE_ARRAY) && IntAt(b, p + 4, 8).Ok?
    ensures ValueEnd(b, p, TYPE_ARRAY) == Err(UnknownType)
  {
  }

  lemma NestedWrong(b: seq<byte>, p: nat, k: seq<byte>, key: seq<byte>)
    requires NestedIs(b, p, k) && k != key
    ensures LookAt(b, p, key) == Wrong(UnknownType)
  {
    NestedUnknown(b, p + 8 + |k| + 4);
  }

  lemma NestedFound(b: seq<byte>, p: nat, n: nat, k: seq<byte>, key: seq<byte>)
    requires NestedIs(b, p, k) && k != key && n >= 1
    ensures FindEntry(b, p, n, key) == Err(UnknownType)
  {
    NestedWrong(b, p, k, key);
  }

  lemma CountIs(b: seq<byte>, n: nat, es: seq<Entry>)
    requires BeginsWith(b, n, es)
    ensures EntryCount(b) == Ok(n)
  {
  }

  lemma NestedEnds(b: seq<byte>, es: seq<Entry>, k: seq<byte>, key: seq<byte>, n: nat, end: nat)
    requires BeginsWith(b, n, es) && |es| < n && end == 24 + EntriesSize(es) && NestedIs(b, end, k) && k != key
    ensures Find(b, key) == Expected(24, es, First(es, key), Err(UnknownType))
  {
    CountIs(b, n, es);
    NestedFound(b, end, n - |es|, k, key);
    FoundThere(b, 24, es, key, n, end, Err(UnknownType));
  }

  /** The edit does not get past an array of arrays, which the format allows: it
      fails with the bytes unchanged, unless the key comes before it. */
  lemma NestedRefused(b: seq<byte>, n: nat, es: seq<Entry>, k: seq<byte>, key: seq<byte>, value: nat,
                      r: Result<Option<nat>>, b': seq<byte>)
    requires BeginsWith(b, n, es) && |es| < n && NestedIs(b, 24 + EntriesSize(es), k) && k != key
    requires Edited(b, key, value, r, b')
    ensures First(es, key) == |es| ==> r == Err(UnknownType) && b' == b
    ensures First(es, key) < |es| ==> (r.Ok? <==> Type(es[First(es, key)].value) == TYPE_UINT32)
  {
    NestedEnds(b, es, k, key, n, 24 + EntriesSize(es));
  }

  // ------------------------------------------------------------ what stays

  lemma BytesStay(b: seq<byte>, b': seq<byte>, lo: nat, hi: nat, p: nat, s: seq<byte>)
    requires Agree(b, b', lo, hi) && lo <= p && p + |s| <= hi && BytesAre(b, p, s)
    ensures BytesAre(b', p, s)
  {
    Within(b, b', lo, hi, p, p + |s|);
  }

  lemma StringStill(b: seq<byte>, b': seq<byte>, lo: nat, hi: nat, p: nat, s: seq<byte>)
    requires Agree(b, b', lo, hi) && lo <= p && p + 8 + |s| <= hi && StringIs(b, p, s)
    ensures StringIs(b', p, s)
  {
    IntStays(b, b', lo, hi, p, 8);
    BytesStay(b, b', lo, hi, p + 8, s);
  }

  lemma {:induction false} StringsStill(b: seq<byte>, b': seq<byte>, lo: nat, hi: nat, p: nat, texts: seq<seq<byte>>)
    requires Agree(b, b', lo, hi) && lo <= p && p + StringsSize(texts) <= hi && StringsAre(b, p, texts)
    ensures StringsAre(b', p, texts)
    decreases |texts|
  {
    if texts == [] {
    } else {
      StringStill(b, b', lo, hi, p, texts[0]);
      StringsStill(b, b', lo, hi, p + 8 + |texts[0]|, texts[1..]);
    }
  }

  lemma ValueStill(b: seq<byte>, b': seq<byte>, lo: nat, hi: nat, p: nat, v: Value)
    requires Agree(b, b', lo, hi) && lo <= p && p + ValueSize(v) <= hi && ValueIs(b, p, v)
    ensures ValueIs(b', p, v)
  {
    match v
    case Scalar(_, raw) => BytesStay(b, b', lo, hi, p, raw);
    case Text(text) => StringStill(b, b', lo, hi, p, text);
    case Scalars(_, _, raw) =>
      IntStays(b, b', lo, hi, p, 4);
      IntStays(b, b', lo, hi, p + 4, 8);
      BytesStay(b, b', lo, hi, p + 12, raw);
    case Texts(texts) =>
      IntStays(b, b', lo, hi, p, 4);
      IntStays(b, b', lo, hi, p + 4, 8);
      StringsStill(b, b', lo, hi, p + 12, texts);
  }

  lemma EntryStill(b: seq<byte>, b': seq<byte>, lo: nat, hi: nat, p: nat, e: Entry)
    requires Agree(b, b', lo, hi) && lo <= p && After(p, e) <= hi && EntryIs(b, p, e)
    ensures EntryIs(b', p, e)
  {
    StringStill(b, b', lo, hi, p, e.key);
    IntStays(b, b', lo, hi, p + 8 + |e.key|, 4);
    ValueStill(b, b', lo, hi, p + KeySize(e), e.value);
  }

  lemma {:induction false} EntriesStill(b: seq<byte>, b': seq<byte>, lo: nat, hi: nat, p: nat, es: seq<Entry>)
    requires Agree(b, b', lo, hi) && lo <= p && p + EntriesSize(es) <= hi && EntriesAre(b, p, es)
    ensures EntriesAre(b', p, es)
    decreases |es|
  {
    if es == [] {
    } else {
      EntryStill(b, b', lo, hi, p, es[0]);
      EntriesStill(b, b', lo, hi, After(p, es[0]), es[1..]);
    }
  }

  lemma {:induction false} EntriesInside(b: seq<byte>, p: nat, es: seq<Entry>)
    requires p <= |b| <= I64_MAX && EntriesAre(b, p, es)
    ensures p + EntriesSize(es) <= |b|
    decreases |es|
  {
    if es == [] {
    } else {
      ValueEndThere(b, p + KeySize(es[0]), es[0].value);
      EntriesInside(b, After(p, es[0]), es[1..]);
    }
  }

  // ------------------------------------------------------------ the edit

  /** The entry with its `uint32` set. */
  function SetEntry(e: Entry, value: nat): Entry {
    Entry(e.key, Scalar(TYPE_UINT32, Put(value, 4)))
  }

  /** Setting the four bytes of a value sets that entry, and no other. */
  lemma {:induction false} EntrySet(b: seq<byte>, b': seq<byte>, p: nat, es: seq<Entry>, i: nat, value: nat)
    requires p <= |b| <= I64_MAX && EntriesAre(b, p, es) && i < |es| && Type(es[i].value) == TYPE_UINT32
    requires var at := Place(p, es, i);
      at + 4 <= |b| && Agree(b, b', 0, at) && Agree(b, b', at + 4, |b|) && BytesAre(b', at, Put(value, 4))
    ensures p + 12 <= Place(p, es, i)
    ensures EntriesAre(b', p, es[i := SetEntry(es[i], value)])
    decreases i
  {
    var e, at := es[0], Place(p, es, i);
    var q := After(p, e);
    ValueEndThere(b, p + KeySize(e), e.value);
    if i == 0 {
      FirstSet(b, b', p, es, value);
    } else {
      EntrySet(b, b', q, es[1..], i - 1, value);
      assert q <= at;
      EntryStill(b, b', 0, at, p, e);
      EntriesSetLater(b', p, es, i, SetEntry(es[i], value));
    }
  }

  lemma FirstSet(b: seq<byte>, b': seq<byte>, p: nat, es: seq<Entry>, value: nat)
    requires p <= |b| <= I64_MAX && EntriesAre(b, p, es) && es != [] && Type(es[0].value) == TYPE_UINT32
    requires var at := p + KeySize(es[0]);
      at + 4 <= |b| && Agree(b, b', 0, at) && Agree(b, b', at + 4, |b|) && BytesAre(b', at, Put(value, 4))
    ensures EntriesAre(b', p, es[0 := SetEntry(es[0], value)])
  {
    var e, at := es[0], p + KeySize(es[0]);
    StringStill(b, b', 0, at, p, e.key);
    IntStays(b, b', 0, at, p + 8 + |e.key|, 4);
    assert ValueSize(e.value) == 4;
    EntriesInside(b, at + 4, es[1..]);
    EntriesStill(b, b', at + 4, |b|, at + 4, es[1..]);
    EntriesSetFirst(b', p, es, SetEntry(e, value));
  }

  lemma EntriesSetFirst(b: seq<byte>, p: nat, es: seq<Entry>, e: Entry)
    requires es != [] && EntryIs(b, p, e) && EntriesAre(b, After(p, e), es[1..])
    ensures EntriesAre(b, p, es[0 := e])
  {
    assert es[0 := e][1..] == es[1..];
  }

  lemma EntriesSetLater(b: seq<byte>, p: nat, es: seq<Entry>, i: nat, e: Entry)
    requires 0 < i < |es| && EntryIs(b, p, es[0])
    requires EntriesAre(b, After(p, es[0]), es[1..][i - 1 := e])
    ensures EntriesAre(b, p, es[i := e])
  {
    assert es[i := e][1..] == es[1..][i - 1 := e];
  }

  /** Where a value is, its bytes are. */
  lemma {:induction false} RawThere(b: seq<byte>, p: nat, es: seq<Entry>, i: nat)
    requires EntriesAre(b, p, es) && i < |es| && Type(es[i].value) == TYPE_UINT32
    ensures es[i].value.Scalar? && |es[i].value.raw| == 4 && BytesAre(b, Place(p, es, i), es[i].value.raw)
    decreases i
  {
    if i == 0 {
    } else {
      RawThere(b, After(p, es[0]), es[1..], i - 1);
    }
  }

  /** The header with the `uint32` of the `i`th entry set. */
  function SetHeader(h: Header, i: nat, value: nat): Header
    requires i < |h.entries|
  {
    h.(entries := h.entries[i := SetEntry(h.entries[i], value)])
  }

  /** On a well-formed file an edit sets the `uint32` of the first entry with
      the key, no other, and gives back the one it held. Without the key, or
      with another type of value, nothing changes. */
  lemma EditSetsEntry(b: seq<byte>, h: Header, key: seq<byte>, value: nat, r: Result<Option<nat>>, b': seq<byte>)
    requires Begins(b, h) && value < U32 && Edited(b, key, value, r, b')
    ensures var i := First(h.entries, key);
      if i == |h.entries| then r == Ok(None) && b' == b
      else if Type(h.entries[i].value) != TYPE_UINT32 then r == Err(WrongType) && b' == b
      else
        && h.entries[i].value.Scalar?
        && r == Ok(Some(Get(h.entries[i].value.raw)))
        && Begins(b', SetHeader(h, i, value))
  {
    var es, i := h.entries, First(h.entries, key);
    CountIs(b, |es|, es);
    FoundThere(b, 24, es, key, |es|, 24 + EntriesSize(es), Ok(None));
    if i < |es| && Type(es[i].value) == TYPE_UINT32 {
      RawThere(b, 24, es, i);
      HeaderSet(b, h, i, value);
    }
  }

  lemma HeaderSet(b: seq<byte>, h: Header, i: nat, value: nat)
    requires Begins(b, h) && value < U32 && i < |h.entries| && Type(h.entries[i].value) == TYPE_UINT32
    requires Place(24, h.entries, i) + 4 <= |b|
    ensures Begins(Patch(b, Place(24, h.entries, i), value), SetHeader(h, i, value))
  {
    var at := Place(24, h.entries, i);
    var b' := Patch(b, at, value);
    PatchAgrees(b, b', at, value);
    assert BytesAre(b', at, Put(value, 4));
    EntrySet(b, b', 24, h.entries, i, value);
    IntStays(b, b', 0, at, 0, 4);
    IntStays(b, b', 0, at, 4, 4);
    IntStays(b, b', 0, at, 8, 8);
    IntStays(b, b', 0, at, 16, 8);
  }

  // ------------------------------------------------------------ one reading

  lemma SameRest<T>(s: seq<T>, s': seq<T>)
    requires s != [] && s' != [] && s[0] == s'[0] && s[1..] == s'[1..]
    ensures s == s'
  {
    assert s == [s[0]] + s[1..] && s' == [s'[0]] + s'[1..];
  }

  lemma SameString(b: seq<byte>, p: nat, s: seq<byte>, s': seq<byte>)
    requires StringIs(b, p, s) && StringIs(b, p, s')
    ensures s == s'
  {
  }

  lemma {:induction false} SameStrings(b: seq<byte>, p: nat, ss: seq<seq<byte>>, ss': seq<seq<byte>>)
    requires StringsAre(b, p, ss) && StringsAre(b, p, ss') && |ss| == |ss'|
    ensures ss == ss'
    decreases |ss|
  {
    if ss == [] {
    } else {
      SameString(b, p, ss[0], ss'[0]);
      SameStrings(b, p + 8 + |ss[0]|, ss[1..], ss'[1..]);
      SameRest(ss, ss');
    }
  }

  lemma SameValue(b: seq<byte>, p: nat, v: Value, v': Value)
    requires ValueIs(b, p, v) && ValueIs(b, p, v') && Type(v) == Type(v')
    ensures v == v'
  {
    if v.Text? {
      SameString(b, p, v.text, v'.text);
    } else if v.Texts? {
      SameStrings(b, p + 12, v.texts, v'.texts);
    }
  }

  lemma SameEntry(b: seq<byte>, p: nat, e: Entry, e': Entry)
    requires EntryIs(b, p, e) && EntryIs(b, p, e')
    ensures e == e'
  {
    SameString(b, p, e.key, e'.key);
    SameValue(b, p + KeySize(e), e.value, e'.value);
  }

  lemma {:induction false} SameEntries(b: seq<byte>, p: nat, es: seq<Entry>, es': seq<Entry>)
    requires EntriesAre(b, p, es) && EntriesAre(b, p, es') && |es| == |es'|
    ensures es == es'
    decreases |es|
  {
    if es == [] {
    } else {
      SameEntry(b, p, es[0], es'[0]);
      SameEntries(b, After(p, es[0]), es[1..], es'[1..]);
      SameRest(es, es');
    }
  }

  /** A file begins with one header only: reading an edited one again can give
      no other entries than those the edit left. */
  lemma OneHeader(b: seq<byte>, h: Header, h': Header)
    requires Begins(b, h) && Begins(b, h')
    ensures h == h'
  {
    SameEntries(b, 24, h.entries, h'.entries);
  }
}
