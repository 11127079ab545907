/** The walk over a GGUF header and the one edit made in place
    (engine/src/gguf_patch.rs). */
module Gguf {
  import opened Options
  import opened Bytes

  const GGUF_MAGIC: nat := 0x4655_4747

  const TYPE_UINT8: nat := 0
  const TYPE_INT8: nat := 1
  const TYPE_UINT16: nat := 2
  const TYPE_INT16: nat := 3
  const TYPE_UINT32: nat := 4
  const TYPE_INT32: nat := 5
  const TYPE_FLOAT32: nat := 6
  const TYPE_BOOL: nat := 7
  const TYPE_STRING: nat := 8
  const TYPE_ARRAY: nat := 9
  const TYPE_UINT64: nat := 10
  const TYPE_INT64: nat := 11
  const TYPE_FLOAT64: nat := 12

  const I64_MAX: nat := 0x7fff_ffff_ffff_ffff

  datatype Error =
    | UnexpectedEof | NotGguf | WrongType | UnknownType | StringTooLong | ArrayTooLong | SizeOverflows | SkipTooFar

  datatype Result<+T> = Ok(value: T) | Err(error: Error)
  {
    predicate IsFailure() {
      Err?
    }

    function PropagateFailure<U>(): Result<U>
      requires IsFailure()
    {
      Err(error)
    }

    function Extract(): T
      requires !IsFailure()
    {
      value
    }
  }

  // ------------------------------------------------------------ reading, on values

  function ScalarSize(t: nat): (r: Result<nat>)
    ensures r.Ok? ==> 1 <= r.value <= 8
  {
    if t == TYPE_UINT8 || t == TYPE_INT8 || t == TYPE_BOOL then Ok(1)
    else if t == TYPE_UINT16 || t == TYPE_INT16 then Ok(2)
    else if t == TYPE_UINT32 || t == TYPE_INT32 || t == TYPE_FLOAT32 then Ok(4)
    else if t == TYPE_UINT64 || t == TYPE_INT64 || t == TYPE_FLOAT64 then Ok(8)
    else Err(UnknownType)
  }

  /** The product, when 64 bits hold it. */
  function ArrayByteSize(count: nat, size: nat): Result<nat> {
    if count * size < U64 then Ok(count * size) else Err(SizeOverflows)
  }

  /** What lies between a position, perhaps past the end, and the end. */
  function BytesLeft(b: seq<byte>, p: nat): nat {
    if p <= |b| then |b| - p else 0
  }

  function IntAt(b: seq<byte>, p: nat, w: nat): Result<nat> {
    if p + w <= |b| then Ok(Get(b[p..p + w])) else Err(UnexpectedEof)
  }

  function StringAt(b: seq<byte>, p: nat): Result<seq<byte>> {
    var len :- IntAt(b, p, 8);
    if len > BytesLeft(b, p + 8) then Err(StringTooLong) else Ok(b[p + 8..p + 8 + len])
  }

  /** Where a skip ends: a file position may be past the end of the file, but
      is at most `I64_MAX`. */
  function Skipped(p: nat, n: nat): Result<nat> {
    if n > I64_MAX || p + n > I64_MAX then Err(SkipTooFar) else Ok(p + n)
  }

  function StringsEnd(b: seq<byte>, p: nat, count: nat): Result<nat>
    decreases count
  {
    if count == 0 then Ok(p)
    else
      var len :- IntAt(b, p, 8);
      var q :- Skipped(p + 8, len);
      StringsEnd(b, q, count - 1)
  }

  /** Where the value of type `t` at `p` ends. */
  function ValueEnd(b: seq<byte>, p: nat, t: nat): Result<nat> {
    if t == TYPE_STRING then StringsEnd(b, p, 1)
    else if t == TYPE_ARRAY then
      var elem :- IntAt(b, p, 4);
      var count :- IntAt(b, p + 4, 8);
      if elem == TYPE_STRING then
        var needed :- ArrayByteSize(count, 8);
        if needed > BytesLeft(b, p + 12) then Err(ArrayTooLong) else StringsEnd(b, p + 12, count)
      else
        var size :- ScalarSize(elem);
        var n :- ArrayByteSize(count, size);
        Skipped(p + 12, n)
    else
      var size :- ScalarSize(t);
      Skipped(p, size)
  }

  /** What an entry shows: an error, the value looked for, or the next entry. */
  datatype Look = Wrong(error: Error) | Here(at: nat) | Further(next: nat)

  function LookAt(b: seq<byte>, p: nat, key: seq<byte>): Look {
    match StringAt(b, p)
    case Err(e) => Wrong(e)
    case Ok(k) =>
      var q := p + 8 + |k|;
      match IntAt(b, q, 4)
      case Err(e) => Wrong(e)
      case Ok(t) =>
        if k == key then
          if t != TYPE_UINT32 then Wrong(WrongType)
          else if IntAt(b, q + 4, 4).Err? then Wrong(IntAt(b, q + 4, 4).error)
          else Here(q + 4)
        else
          match ValueEnd(b, q + 4, t)
          case Err(e) => Wrong(e)
          case Ok(next) => Further(next)
  }

  /** Going over `n` entries from `p` on, each showing what `look` says. */
  function Walk(look: nat -> Look, p: nat, n: nat): Result<Option<nat>>
    decreases n
  {
    if n == 0 then Ok(None)
    else
      match look(p)
      case Wrong(e) => Err(e)
      case Here(at) => Ok(Some(at))
      case Further(next) => Walk(look, next, n - 1)
  }

  function Looks(b: seq<byte>, key: seq<byte>): (look: nat -> Look)
    ensures forall p: nat :: look(p) == LookAt(b, p, key)
  {
    (p: nat) => LookAt(b, p, key)
  }

  /** Where the `uint32` value of `key` is among the `n` entries from `p` on;
      none when none of them has the key. */
  function FindEntry(b: seq<byte>, p: nat, n: nat, key: seq<byte>): Result<Option<nat>> {
    Walk(Looks(b, key), p, n)
  }

  /** The number of entries, which the first 24 bytes end with. */
  function EntryCount(b: seq<byte>): Result<nat> {
    var magic :- IntAt(b, 0, 4);
    if magic != GGUF_MAGIC then Err(NotGguf)
    else
      var version :- IntAt(b, 4, 4);
      var tensors :- IntAt(b, 8, 8);
      IntAt(b, 16, 8)
  }

  /** Where the `uint32` value of `key` is in the file. */
  function Find(b: seq<byte>, key: seq<byte>): Result<Option<nat>> {
    var entries :- EntryCount(b);
    FindEntry(b, 24, entries, key)
  }

  /** What is looked for among `n` entries is looked for among the last `k`. */
  ghost predicate Left(b: seq<byte>, key: seq<byte>, start: nat, n: nat, p: nat, k: nat) {
    FindEntry(b, start, n, key) == FindEntry(b, p, k, key)
  }

  lemma LeftNext(b: seq<byte>, key: seq<byte>, start: nat, n: nat, p: nat, k: nat)
    requires k > 0 && Left(b, key, start, n, p, k)
    ensures match LookAt(b, p, key)
      case Wrong(e) => FindEntry(b, start, n, key) == Err(e)
      case Here(at) => FindEntry(b, start, n, key) == Ok(Some(at))
      case Further(next) => Left(b, key, start, n, next, k - 1)
  {
  }

  /** The reading of a value that was looked for, with the position at it. */
  ghost predicate Sought(b: seq<byte>, pos: nat, found: Result<Option<nat>>, r: Result<Option<nat>>) {
    match found
    case Err(e) => r == Err(e)
    case Ok(None) => r == Ok(None)
    case Ok(Some(at)) => pos == at && IntAt(b, at, 4).Ok? && r == Ok(Some(IntAt(b, at, 4).value))
  }

  /** The bytes with the `uint32` at `at` set. */
  function Patch(b: seq<byte>, at: nat, value: nat): (r: seq<byte>)
    requires at + 4 <= |b|
    ensures |r| == |b|
  {
    b[..at] + Put(value, 4) + b[at + 4..]
  }

  lemma LooksInside(b: seq<byte>, p: nat, key: seq<byte>)
    ensures var l := LookAt(b, p, key);
      && (l.Here? ==> p + 12 <= l.at && l.at + 4 <= |b|)
      && (l.Further? ==> p + 12 <= l.next)
  {
    if StringAt(b, p).Ok? {
      var q := p + 8 + |StringAt(b, p).value|;
      if IntAt(b, q, 4).Ok? {
        ValueEndsLater(b, q + 4, IntAt(b, q, 4).value);
      }
    }
  }

  /** What is found after going forwards is further on, in the file. */
  ghost predicate Forwards(look: nat -> Look, size: nat) {
    forall p: nat ::
      && (look(p).Here? ==> p + 12 <= look(p).at && look(p).at + 4 <= size)
      && (look(p).Further? ==> p + 12 <= look(p).next)
  }

  lemma {:induction false} WalkInside(look: nat -> Look, size: nat, p: nat, n: nat)
    requires Forwards(look, size)
    ensures var r := Walk(look, p, n);
      r.Ok? && r.value.Some? ==> p + 12 <= r.value.value && r.value.value + 4 <= size
    decreases n
  {
    if n > 0 && look(p).Further? {
      WalkInside(look, size, look(p).next, n - 1);
    }
  }

  lemma FoundInside(b: seq<byte>, p: nat, n: nat, key: seq<byte>)
    ensures var r := FindEntry(b, p, n, key);
      r.Ok? && r.value.Some? ==> p + 12 <= r.value.value && r.value.value + 4 <= |b|
  {
    forall q: nat ensures var l := Looks(b, key)(q);
      (l.Here? ==> q + 12 <= l.at && l.at + 4 <= |b|) && (l.Further? ==> q + 12 <= l.next)
    {
      LooksInside(b, q, key);
    }
    WalkInside(Looks(b, key), |b|, p, n);
  }

  lemma {:induction false} StringsEndLater(b: seq<byte>, p: nat, count: nat)
    ensures StringsEnd(b, p, count).Ok? ==> StringsEnd(b, p, count).value >= p
    decreases count
  {
    if count > 0 && IntAt(b, p, 8).Ok? && Skipped(p + 8, IntAt(b, p, 8).value).Ok? {
      StringsEndLater(b, Skipped(p + 8, IntAt(b, p, 8).value).value, count - 1);
    }
  }

  lemma ValueEndsLater(b: seq<byte>, p: nat, t: nat)
    ensures ValueEnd(b, p, t).Ok? ==> ValueEnd(b, p, t).value >= p
  {
    StringsEndLater(b, p, 1);
    if IntAt(b, p + 4, 8).Ok? {
      StringsEndLater(b, p + 12, IntAt(b, p + 4, 8).value);
    }
  }

  // ------------------------------------------------------------ the file

  class File {
    const data: array<byte>
    var pos: nat

    constructor (data: array<byte>)
      ensures this.data == data && pos == 0
    {
      this.data, pos := data, 0;
    }

    method ReadInt(w: nat) returns (r: Result<nat>)
      modifies this`pos
      ensures r == IntAt(data[..], old(pos), w)
      ensures r.Ok? ==> pos == old(pos) + w
      ensures r.Ok? <==> old(pos) + w <= data.Length
    {
      if pos + w > data.Length {
        return Err(UnexpectedEof);
      }
      r := Ok(Get(data[pos..pos + w]));
      assert data[..][pos..pos + w] == data[pos..pos + w];
      pos := pos + w;
    }

    method ReadString() returns (r: Result<seq<byte>>)
      modifies this`pos
      ensures r == StringAt(data[..], old(pos))
      ensures r.Ok? ==> pos == old(pos) + 8 + |r.value| <= data.Length && r.value == data[old(pos) + 8..pos]
      ensures r == Err(UnexpectedEof) <==> old(pos) + 8 > data.Length
      ensures r.Err? ==> r.error == UnexpectedEof || r.error == StringTooLong
    {
      var len :- ReadInt(8);
      if len > BytesLeft(data[..], pos) {
        return Err(StringTooLong);
      }
      assert data[..][pos..pos + len] == data[pos..pos + len];
      r := Ok(data[pos..pos + len]);
      pos := pos + len;
    }

    method Skip(n: nat) returns (r: Result<()>)
      modifies this`pos
      ensures Ends(r, pos, Skipped(old(pos), n))
      ensures r.Ok? <==> n <= I64_MAX && old(pos) + n <= I64_MAX
      ensures if r.Ok? then pos == old(pos) + n else r.error == SkipTooFar
    {
      if n > I64_MAX || pos + n > I64_MAX {
        return Err(SkipTooFar);
      }
      pos := pos + n;
      r := Ok(());
    }

    method SkipString() returns (r: Result<()>)
      modifies this`pos
      ensures Ends(r, pos, StringsEnd(data[..], old(pos), 1))
    {
      var len :- ReadInt(8);
      r := Skip(len);
    }

    method SkipStrings(count: nat) returns (r: Result<()>)
      modifies this`pos
      ensures Ends(r, pos, StringsEnd(data[..], old(pos), count))
    {
      for i := 0 to count
        invariant StringsEnd(data[..], pos, count - i) == StringsEnd(data[..], old(pos), count)
      {
        var len :- ReadInt(8);
        var _ :- Skip(len);
      }
      r := Ok(());
    }

    method SkipValue(t: nat) returns (r: Result<()>)
      modifies this`pos
      ensures Ends(r, pos, ValueEnd(data[..], old(pos), t))
    {
      if t == TYPE_STRING {
        r := SkipString();
      } else if t == TYPE_ARRAY {
        var elem :- ReadInt(4);
        var count :- ReadInt(8);
        if elem == TYPE_STRING {
          var needed :- ArrayByteSize(count, 8);
          if needed > BytesLeft(data[..], pos) {
            return Err(ArrayTooLong);
          }
          r := SkipStrings(count);
        } else {
          var size :- ScalarSize(elem);
          var n :- ArrayByteSize(count, size);
          r := Skip(n);
        }
      } else {
        var size :- ScalarSize(t);
        r := Skip(size);
      }
    }

    method Overwrite(value: nat)
      requires pos + 4 <= data.Length
      modifies this`pos, data
      ensures data[..] == Patch(old(data[..]), old(pos), value)
      ensures pos == old(pos) + 4
    {
      ghost var was := data[..];
      var at, bytes := pos, Put(value, 4);
      for i := 0 to 4
        invariant forall k :: 0 <= k < data.Length ==>
          data[k] == if at <= k < at + i then bytes[k - at] else was[k]
      {
        data[at + i] := bytes[i];
      }
      assert data[..] == Patch(was, at, value);
      pos := at + 4;
    }

    method ReadEntryCount() returns (r: Result<nat>)
      requires pos == 0
      modifies this`pos
      ensures r == EntryCount(data[..])
      ensures r.Ok? ==> pos == 24
    {
      var magic :- ReadInt(4);
      if magic != GGUF_MAGIC {
        return Err(NotGguf);
      }
      var _ :- ReadInt(4);
      var _ :- ReadInt(8);
      r := ReadInt(8);
    }

    /** Goes over the next entry, or stops at its value, read, if it has the key. */
    method NextEntry(key: seq<byte>) returns (r: Result<Option<nat>>)
      modifies this`pos
      ensures match LookAt(data[..], old(pos), key)
        case Wrong(e) => r == Err(e)
        case Here(at) => pos == at && IntAt(data[..], at, 4).Ok? && r == Ok(Some(IntAt(data[..], at, 4).value))
        case Further(next) => pos == next && r == Ok(None)
    {
      var k :- ReadString();
      var t :- ReadInt(4);
      if k == key {
        if t != TYPE_UINT32 {
          return Err(WrongType);
        }
        var at := pos;
        var held :- ReadInt(4);
        pos := at;
        return Ok(Some(held));
      }
      var _ :- SkipValue(t);
      r := Ok(None);
    }

    /** Goes over `n` entries up to the value of `key`, and reads it. */
    method SeekEntry(key: seq<byte>, n: nat) returns (r: Result<Option<nat>>)
      modifies this`pos
      ensures Sought(data[..], pos, FindEntry(data[..], old(pos), n, key), r)
    {
      ghost var b, start := data[..], pos;
      for i := 0 to n
        invariant data[..] == b
        invariant Left(b, key, start, n, pos, n - i)
      {
        ghost var look := LookAt(b, pos, key);
        LeftNext(b, key, start, n, pos, n - i);
        r := NextEntry(key);
        assert data[..] == b;
        if r.Err? || r.value.Some? {
          return;
        }
        assert look == Further(pos);
        assert Left(b, key, start, n, pos, n - i - 1);
      }
      r := Ok(None);
    }

    method SeekValue(key: seq<byte>) returns (r: Result<Option<nat>>)
      requires pos == 0
      modifies this`pos
      ensures Sought(data[..], pos, Find(data[..], key), r)
    {
      var entries :- ReadEntryCount();
      r := SeekEntry(key, entries);
    }

    /** Sets the `uint32` of `key` and gives back the one it held; the bytes
        stay as they are when there is no such key or an error. */
    method SetU32(key: seq<byte>, value: nat) returns (r: Result<Option<nat>>)
      requires pos == 0 && value < U32
      modifies this`pos, data
      ensures Edited(old(data[..]), key, value, r, data[..])
    {
      r := SeekValue(key);
      if r.Ok? && r.value.Some? {
        Overwrite(value);
      }
    }
  }

  /** A step over part of the file ended where `e` says, with its error if any. */
  ghost predicate Ends(r: Result<()>, pos: nat, e: Result<nat>) {
    if r.Ok? then e == Ok(pos) else e == Err(r.error)
  }

  /** The outcome of an edit: what was found, and the bytes after it. */
  ghost predicate Edited(b: seq<byte>, key: seq<byte>, value: nat, r: Result<Option<nat>>, b': seq<byte>) {
    match Find(b, key)
    case Err(e) => r == Err(e) && b' == b
    case Ok(None) => r == Ok(None) && b' == b
    case Ok(Some(at)) => at + 4 <= |b| && r == Ok(Some(Get(b[at..at + 4]))) && b' == Patch(b, at, value)
  }
}
