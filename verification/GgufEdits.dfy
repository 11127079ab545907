/** What the edit in place does to any file (engine/src/gguf_patch.rs). */
module GgufEdits {
  import opened Options
  import opened Bytes
  import opened Gguf

  /** Two files of one length that agree from `lo` to `hi`. */
  ghost predicate Agree(b: seq<byte>, b': seq<byte>, lo: nat, hi: nat) {
    |b| == |b'| && lo <= hi <= |b| && b[lo..hi] == b'[lo..hi]
  }

  lemma Within(b: seq<byte>, b': seq<byte>, lo: nat, hi: nat, p: nat, q: nat)
    requires Agree(b, b', lo, hi) && lo <= p <= q <= hi
    ensures b[p..q] == b'[p..q]
  {
    Part(b, lo, hi, p, q);
    Part(b', lo, hi, p, q);
  }

  lemma IntStays(b: seq<byte>, b': seq<byte>, lo: nat, hi: nat, p: nat, w: nat)
    requires Agree(b, b', lo, hi) && lo <= p && p + w <= hi
    ensures IntAt(b, p, w) == IntAt(b', p, w)
  {
    Within(b, b', lo, hi, p, p + w);
  }

  lemma StringStays(b: seq<byte>, b': seq<byte>, lo: nat, hi: nat, p: nat)
    requires Agree(b, b', lo, hi) && StringAt(b, p).Ok? && lo <= p && p + 8 + |StringAt(b, p).value| <= hi
    ensures StringAt(b, p) == StringAt(b', p)
  {
    IntStays(b, b', lo, hi, p, 8);
    Within(b, b', lo, hi, p + 8, p + 8 + |StringAt(b, p).value|);
  }

  lemma {:induction false} StringsStay(b: seq<byte>, b': seq<byte>, n: nat, p: nat, count: nat)
    requires Agree(b, b', 0, n) && StringsEnd(b, p, count).Ok? && StringsEnd(b, p, count).value <= n
    ensures StringsEnd(b', p, count) == StringsEnd(b, p, count)
    decreases count
  {
    if count == 0 {
    } else {
      var q := p + 8 + IntAt(b, p, 8).value;
      StringsEndLater(b, q, count - 1);
      IntStays(b, b', 0, n, p, 8);
      StringsStay(b, b', n, q, count - 1);
    }
  }

  lemma ValueStays(b: seq<byte>, b': seq<byte>, n: nat, p: nat, t: nat)
    requires Agree(b, b', 0, n) && ValueEnd(b, p, t).Ok? && ValueEnd(b, p, t).value <= n
    ensures ValueEnd(b', p, t) == ValueEnd(b, p, t)
  {
    if t == TYPE_STRING {
      StringsStay(b, b', n, p, 1);
    } else if t == TYPE_ARRAY {
      var count := IntAt(b, p + 4, 8).value;
      StringsEndLater(b, p + 12, count);
      IntStays(b, b', 0, n, p, 4);
      IntStays(b, b', 0, n, p + 4, 8);
      if IntAt(b, p, 4).value == TYPE_STRING {
        StringsStay(b, b', n, p + 12, count);
      }
    }
  }

  /** The key and the type of the entry at `p`. */
  lemma KeyStays(b: seq<byte>, b': seq<byte>, n: nat, p: nat)
    requires Agree(b, b', 0, n) && StringAt(b, p).Ok?
    requires p + 8 + |StringAt(b, p).value| + 4 <= n
    ensures StringAt(b', p) == StringAt(b, p)
    ensures IntAt(b', p + 8 + |StringAt(b, p).value|, 4) == IntAt(b, p + 8 + |StringAt(b, p).value|, 4)
  {
    StringStays(b, b', 0, n, p);
    IntStays(b, b', 0, n, p + 8 + |StringAt(b, p).value|, 4);
  }

  /** A look goes by the key, the type and, past another key, the value's end. */
  lemma LooksAlike(b: seq<byte>, b': seq<byte>, p: nat, key: seq<byte>, k: seq<byte>, t: nat)
    requires StringAt(b, p) == StringAt(b', p) == Ok(k) && |b'| == |b|
    requires var q := p + 8 + |k|;
      && IntAt(b, q, 4) == IntAt(b', q, 4) == Ok(t)
      && (k != key ==> ValueEnd(b', q + 4, t) == ValueEnd(b, q + 4, t))
    ensures LookAt(b', p, key) == LookAt(b, p, key)
  {
  }

  lemma LookStays(b: seq<byte>, b': seq<byte>, n: nat, p: nat, key: seq<byte>)
    requires Agree(b, b', 0, n) && n + 4 <= |b|
    requires LookAt(b, p, key).Here? ==> LookAt(b, p, key).at <= n
    requires LookAt(b, p, key).Further? ==> LookAt(b, p, key).next <= n
    requires !LookAt(b, p, key).Wrong?
    ensures LookAt(b', p, key) == LookAt(b, p, key)
  {
    var k := StringAt(b, p).value;
    var q := p + 8 + |k|;
    var t := IntAt(b, q, 4).value;
    if k != key {
      ValueEndsLater(b, q + 4, t);
      ValueStays(b, b', n, q + 4, t);
    }
    KeyStays(b, b', n, p);
    LooksAlike(b, b', p, key, k, t);
  }

  /** Where a value is found depends on nothing from the value on. */
  lemma {:induction false} FoundStays(b: seq<byte>, b': seq<byte>, p: nat, n: nat, key: seq<byte>, at: nat)
    requires FindEntry(b, p, n, key) == Ok(Some(at)) && at + 4 <= |b| && Agree(b, b', 0, at)
    ensures FindEntry(b', p, n, key) == Ok(Some(at))
    decreases n
  {
    var look := Looks(b, key)(p);
    if look.Further? {
      FoundInside(b, look.next, n - 1, key);
      FoundStays(b, b', look.next, n - 1, key, at);
    }
    LookStays(b, b', at, p, key);
    assert Looks(b', key)(p) == look;
  }

  lemma FindStays(b: seq<byte>, b': seq<byte>, key: seq<byte>, at: nat)
    requires Find(b, key) == Ok(Some(at)) && Agree(b, b', 0, at)
    ensures at >= 36 && at + 4 <= |b|
    ensures Find(b', key) == Ok(Some(at))
  {
    FoundInside(b, 24, EntryCount(b).value, key);
    IntStays(b, b', 0, at, 0, 4);
    IntStays(b, b', 0, at, 4, 4);
    IntStays(b, b', 0, at, 8, 8);
    IntStays(b, b', 0, at, 16, 8);
    FoundStays(b, b', 24, EntryCount(b).value, key, at);
  }

  /** An edit changes four bytes at most: the file keeps its length, and every
      byte outside the value of the first entry with the key. */
  lemma EditIsLocal(b: seq<byte>, key: seq<byte>, value: nat, r: Result<Option<nat>>, b': seq<byte>, i: nat)
    requires Edited(b, key, value, r, b') && i < |b|
    ensures |b'| == |b|
    ensures b'[i] != b[i] ==> Find(b, key).Ok? && Find(b, key).value.Some? && 0 <= i - Find(b, key).value.value < 4
  {
  }

  /** A patch leaves what is before the four bytes and what is after them. */
  lemma PatchAgrees(b: seq<byte>, b': seq<byte>, at: nat, value: nat)
    requires at + 4 <= |b| && b' == Patch(b, at, value)
    ensures Agree(b, b', 0, at) && Agree(b, b', at + 4, |b|) && b'[at..at + 4] == Put(value, 4)
  {
    assert b'[0..at] == b[0..at];
    assert b'[at + 4..|b|] == b[at + 4..|b|];
  }

  lemma PatchBack(b: seq<byte>, b': seq<byte>, at: nat, value: nat)
    requires at + 4 <= |b| && b' == Patch(b, at, value)
    ensures Patch(b', at, Get(b[at..at + 4])) == b
  {
    PatchAgrees(b, b', at, value);
    PutGet(b[at..at + 4]);
    assert b'[..at] == b[..at] && b'[at + 4..] == b[at + 4..];
    assert b == b[..at] + b[at..at + 4] + b[at + 4..];
  }

  /** On any file at all, setting the value given back undoes an edit, and the
      value set is read back. */
  lemma EditUndone(b: seq<byte>, key: seq<byte>, value: nat, held: nat, b': seq<byte>)
    requires value < U32 && Edited(b, key, value, Ok(Some(held)), b')
    ensures held < U32
    ensures Edited(b', key, held, Ok(Some(value)), b)
  {
    var at := Find(b, key).value.value;
    PatchAgrees(b, b', at, value);
    FindStays(b, b', key, at);
    PatchBack(b, b', at, value);
    Spans();
    GetPut(value, 4);
    PutGet(b[at..at + 4]);
  }
}
