/** A file read over HTTP in cached blocks (`RemoteFile` in
    bench/reflexbench/ab_data.py). */
module RemoteFiles {
  import opened Bytes

  const BLOCK: nat := 0x10_0000

  /** Block `n` of the file; the last may be short. */
  function BlockOf(file: seq<byte>, n: nat): seq<byte>
    requires n * BLOCK <= |file|
  {
    file[n * BLOCK..if (n + 1) * BLOCK < |file| then (n + 1) * BLOCK else |file|]
  }

  /** Block `n` holds some of the bytes from `p` to before `q`. */
  predicate Touches(p: int, q: int, n: nat) {
    p < q && p < (n + 1) * BLOCK && n * BLOCK < q
  }

  /** Up to `left` bytes of a block, from that at position `p` of the file on. */
  function Chunk(block: seq<byte>, p: nat, left: nat): seq<byte>
    requires p % BLOCK <= |block|
  {
    var rest := block[p % BLOCK..];
    if |rest| > left then rest[..left] else rest
  }

  function Min(a: int, b: int): int {
    if a < b then a else b
  }

  lemma ChunkIs(file: seq<byte>, p: nat, left: nat)
    requires p < |file| && left > 0
    ensures var n := p / BLOCK;
      && n * BLOCK <= p < (n + 1) * BLOCK
      && p % BLOCK < |BlockOf(file, n)|
      && var chunk := Chunk(BlockOf(file, n), p, left);
         var end := Min(p + left, Min(|file|, (n + 1) * BLOCK));
         p < end && |chunk| == end - p && chunk == file[p..end]
  {
    var n := p / BLOCK;
    assert p % BLOCK == p - n * BLOCK;
  }

  datatype Outcome = Bytes(out: seq<byte>) | NoRanges

  class RemoteFile {
    /** What the server has, and whether it answers range requests. */
    const file: seq<byte>
    const ranges: bool
    var pos: int
    var blocks: map<nat, seq<byte>>

    /** The cache holds true blocks of the file. */
    ghost predicate Valid()
      reads this
    {
      && (forall n :: n in blocks ==> n * BLOCK < |file| && blocks[n] == BlockOf(file, n))
      && (!ranges ==> blocks == map[])
    }

    constructor (file: seq<byte>, ranges: bool)
      ensures Valid() && this.file == file && this.ranges == ranges && pos == 0 && blocks == map[]
    {
      this.file, this.ranges, pos, blocks := file, ranges, 0, map[];
    }

    method Seek(offset: int, whence: nat) returns (at: int)
      requires Valid() && whence <= 2
      modifies this`pos
      ensures Valid() && at == pos
      ensures pos == offset + if whence == 0 then 0 else if whence == 1 then old(pos) else |file|
    {
      pos := if whence == 0 then offset else if whence == 1 then pos + offset else |file| + offset;
      at := pos;
    }

    /** Block `n`, fetched unless it was before. A range that starts below zero
        is not one, and a server that ignores it does not answer it. */
    method Block(n: int) returns (r: Outcome)
      requires Valid() && n * BLOCK < |file|
      modifies this`blocks
      ensures Valid()
      ensures if ranges && n >= 0 then r == Bytes(BlockOf(file, n)) && blocks.Keys == old(blocks.Keys) + {n}
              else r == NoRanges && blocks == old(blocks)
    {
      if n < 0 || n !in blocks {
        var start := n * BLOCK;
        var end := (if |file| < start + BLOCK then |file| else start + BLOCK) - 1;
        if !ranges || start < 0 {
          return NoRanges;
        }
        blocks := blocks[n := file[start..end + 1]];
      }
      r := Bytes(blocks[n]);
    }

    /** What is left to read, as far as one block goes. */
    method ReadChunk(left: nat) returns (r: Outcome)
      requires Valid() && pos < |file| && left > 0
      modifies this
      ensures Valid()
      ensures if ranges && old(pos) >= 0 then
          && old(pos) < pos == Min(old(pos) + left, Min(|file|, (old(pos) / BLOCK + 1) * BLOCK))
          && r == Bytes(file[old(pos)..pos]) && blocks.Keys == old(blocks.Keys) + {old(pos) / BLOCK}
        else r == NoRanges && pos == old(pos) && blocks == old(blocks)
    {
      assert pos / BLOCK * BLOCK <= pos;
      r := Block(pos / BLOCK);
      if r.Bytes? {
        ChunkIs(file, pos, left);
        var chunk := Chunk(r.out, pos, left);
        r, pos := Bytes(chunk), pos + |chunk|;
      }
    }

    /** Part of a read from `start` on is done, the cache having held `had`. */
    ghost predicate Going(start: int, q: int, left: int, out: seq<byte>, had: set<nat>)
      reads this
    {
      && Valid() && Reading(file, start, q, pos, left, out) && Fetched(had, blocks.Keys, start, pos)
      && (!ranges ==> pos == start)
    }

    /** The next block of it, or an end to it with nothing changed. */
    method ReadOn(ghost start: int, ghost q: int, left: int, out: seq<byte>, ghost had: set<nat>)
      returns (ok: bool, left': int, out': seq<byte>)
      requires Going(start, q, left, out, had) && left > 0 && pos < |file|
      modifies this
      ensures Valid() && (ok <==> ranges && start >= 0)
      ensures ok ==> Going(start, q, left', out', had) && old(pos) < pos
      ensures !ok ==> pos == old(pos) == start && blocks == old(blocks)
    {
      ghost var p, keys := pos, blocks.Keys;
      var chunk := ReadChunk(left);
      ok, left', out' := chunk.Bytes?, left, out;
      if ok {
        ReadingOn(file, start, q, p, left, out, chunk.out);
        FetchedOn(had, keys, start, p, pos);
        out', left' := out + chunk.out, left - |chunk.out|;
      }
    }

    /** Up to `size` bytes from the position on, all of them when it is
        negative: those of the file, however they fall on its blocks, and no
        block fetched that they do not touch. Without ranges, or from a position
        below zero, a read of any bytes fails with nothing changed. */
    method Read(size: int) returns (r: Outcome)
      requires Valid()
      modifies this
      ensures Valid()
      ensures var q := ReadEnd(|file|, old(pos), size);
        if (ranges && old(pos) >= 0) || q == old(pos) then
          && r == Bytes(Slice(file, old(pos), q)) && pos == q
          && Fetched(old(blocks.Keys), blocks.Keys, old(pos), q)
        else r == NoRanges && pos == old(pos) && blocks == old(blocks)
    {
      var ok, left, out := true, if size < 0 then |file| - pos else size, [];
      ghost var start, q, had := pos, ReadEnd(|file|, pos, size), blocks.Keys;
      while left > 0 && pos < |file|
        invariant Going(start, q, left, out, had)
        invariant pos == start || (ranges && start >= 0)
        invariant pos == start ==> blocks == old(blocks)
        decreases q - pos
      {
        ok, left, out := ReadOn(start, q, left, out, had);
        if !ok {
          return NoRanges;
        }
      }
      r := Bytes(out);
    }
  }

  /** Part of a read is done: `out` from `start` to `pos`, and `left` to go. */
  ghost predicate Reading(file: seq<byte>, start: int, q: int, pos: int, left: int, out: seq<byte>) {
    && (0 <= start || pos == start) && start <= pos <= q && out == Slice(file, start, pos)
    && (if left > 0 && pos < |file| then q == Min(|file|, pos + left) else q == pos)
  }

  lemma ReadingOn(file: seq<byte>, start: int, q: int, pos: int, left: int, out: seq<byte>, chunk: seq<byte>)
    requires Reading(file, start, q, pos, left, out) && left > 0 && 0 <= pos < |file|
    requires var end := Min(pos + left, Min(|file|, (pos / BLOCK + 1) * BLOCK));
      pos < end && |chunk| == end - pos && chunk == file[pos..end]
    ensures Reading(file, start, q, pos + |chunk|, left - |chunk|, out + chunk)
  {
    if start < pos {
      assert file[start..pos] + chunk == file[start..pos + |chunk|];
    }
  }

  /** A block is touched when a byte read lies in it. */
  lemma TouchesIs(p: int, q: int, n: nat)
    requires 0 <= p
    ensures Touches(p, q, n) <==> exists x :: p <= x < q && x / BLOCK == n
  {
    if Touches(p, q, n) {
      var x := if p < n * BLOCK then n * BLOCK else p;
      assert n * BLOCK <= x < (n + 1) * BLOCK;
      InBlock(x, n);
      assert p <= x < q && x / BLOCK == n;
    }
    if x :| p <= x < q && x / BLOCK == n {
      assert n * BLOCK <= x < (n + 1) * BLOCK;
    }
  }

  lemma InBlock(x: int, n: nat)
    requires n * BLOCK <= x < (n + 1) * BLOCK
    ensures x / BLOCK == n
  {
  }

  /** How many bytes a read gives, and which: from a position in the file as many as
      asked for, or to the end; behind the end none. */
  lemma ReadsThese(file: seq<byte>, p: nat, size: int, i: nat)
    ensures var q := ReadEnd(|file|, p, size); var out := Slice(file, p, q);
      && |out| == (if p >= |file| then 0 else if size < 0 || |file| - p < size then |file| - p else size)
      && q == p + |out| && (i < |out| ==> out[i] == file[p + i])
  {
  }

  /** The cache has the blocks it had and those touched from `p` to `q`. */
  ghost predicate Fetched(had: set<nat>, keys: set<nat>, p: int, q: int) {
    forall n :: n in keys <==> n in had || Touches(p, q, n)
  }

  lemma FetchedOn(had: set<nat>, keys: set<nat>, start: int, pos: int, end: int)
    requires Fetched(had, keys, start, pos) && 0 <= start <= pos < end <= (pos / BLOCK + 1) * BLOCK
    ensures Fetched(had, keys + {pos / BLOCK}, start, end)
  {
    forall n ensures n in keys + {pos / BLOCK} <==> n in had || Touches(start, end, n) {
      OneBlock(start, pos, end, n);
    }
  }

  /** Bytes of one block touch that block only. */
  lemma OneBlock(start: int, pos: int, end: int, n: nat)
    requires 0 <= start <= pos < end <= (pos / BLOCK + 1) * BLOCK
    ensures Touches(start, end, n) <==> Touches(start, pos, n) || n == pos / BLOCK
  {
    var k := pos / BLOCK;
    assert k * BLOCK <= pos < (k + 1) * BLOCK;
    if n < k {
      assert (n + 1) * BLOCK <= k * BLOCK;
    } else if n > k {
      assert n * BLOCK >= (k + 1) * BLOCK;
    }
  }

  /** Where a read of `size` bytes from `p` on ends, in a file of `len`. */
  function ReadEnd(len: nat, p: int, size: int): (q: int)
    ensures q >= p
  {
    if p >= len || size == 0 then p else if size < 0 then len else Min(len, p + size)
  }

  function Slice(file: seq<byte>, p: int, q: int): seq<byte> {
    if 0 <= p < q <= |file| then file[p..q] else []
  }

  /** Reading in two goes gives what one read of both sizes does, and leaves
      the position where it does. */
  lemma ReadsJoin(file: seq<byte>, p: nat, size: nat, more: nat)
    ensures var m, q := ReadEnd(|file|, p, size), ReadEnd(|file|, p, size + more);
      && ReadEnd(|file|, m, more) == q
      && Slice(file, p, m) + Slice(file, m, q) == Slice(file, p, q)
  {
    var m, q := ReadEnd(|file|, p, size), ReadEnd(|file|, p, size + more);
    if p < m < q {
      assert file[p..m] + file[m..q] == file[p..q];
    }
  }
}
