/** The wrapping receive buffer: src/transport/ringbuffer.h. */
module RingBuffers {
  import opened Machine

  // ----- the circle as a value -----

  /** The bytes from `head` up to `tail`, wrapping at the end. */
  function Span(s: seq<byte>, head: nat, tail: nat): (r: seq<byte>)
    requires head <= |s| && tail <= |s|
    ensures |r| == if head <= tail then tail - head else |s| - head + tail
  {
    if head <= tail then s[head..tail] else s[head..] + s[..tail]
  }

  function Wrapped(i: nat, size: nat): nat
    requires i < 2 * size
  {
    if i < size then i else i - size
  }

  lemma WrappedIsMod(i: nat, size: nat)
    requires i < 2 * size
    ensures i % size == Wrapped(i, size)
  {
  }

  lemma SpanAt(s: seq<byte>, head: nat, tail: nat, i: nat)
    requires head < |s| && tail < |s| && i < |Span(s, head, tail)|
    ensures head + i < 2 * |s| && Span(s, head, tail)[i] == s[Wrapped(head + i, |s|)]
  {
  }

  /** Dropping a prefix of the span moves its head. */
  lemma SpanDrop(s: seq<byte>, head: nat, tail: nat, n: nat)
    requires head < |s| && tail < |s| && n <= |Span(s, head, tail)|
    ensures Span(s, Wrapped(head + n, |s|), tail) == Span(s, head, tail)[n..]
  {
  }

  /** `t` written over `s` from position `at`. */
  function Overwrite(s: seq<byte>, at: nat, t: seq<byte>): (r: seq<byte>)
    requires at + |t| <= |s|
    ensures |r| == |s|
  {
    s[..at] + t + s[at + |t|..]
  }

  /** The one or two stretches a write copies. */
  function Written(s: seq<byte>, tail: nat, t: seq<byte>): (r: seq<byte>)
    requires tail < |s| && |t| < |s|
    ensures |r| == |s|
  {
    var first := Min(|t|, |s| - tail);
    var s1 := Overwrite(s, tail, t[..first]);
    if |t| > first then Overwrite(s1, 0, t[first..]) else s1
  }

  lemma OverwriteAt(s: seq<byte>, at: nat, t: seq<byte>, j: nat)
    requires at + |t| <= |s| && j < |s|
    ensures Overwrite(s, at, t)[j] == if at <= j < at + |t| then t[j - at] else s[j]
  {
  }

  lemma WrittenAt(s: seq<byte>, tail: nat, t: seq<byte>, j: nat)
    requires tail < |s| && |t| < |s| && j < |s|
    ensures Written(s, tail, t)[j]
            == if tail <= j < tail + |t| then t[j - tail]
               else if j + |s| < tail + |t| then t[j + |s| - tail] else s[j]
  {
  }

  /** The one or two stretches a read copies to the front of `d`. */
  function Drained(s: seq<byte>, head: nat, n: nat, d: seq<byte>): (r: seq<byte>)
    requires head < |s| && n <= |s| && n <= |d|
    ensures |r| == |d|
  {
    var first := Min(n, |s| - head);
    var d1 := Overwrite(d, 0, s[head..head + first]);
    if n > first then Overwrite(d1, first, s[0..n - first]) else d1
  }

  lemma DrainedAt(s: seq<byte>, head: nat, n: nat, d: seq<byte>, j: nat)
    requires head < |s| && n <= |s| && n <= |d| && j < |d|
    ensures Drained(s, head, n, d)[j] == if j < n then s[Wrapped(head + j, |s|)] else d[j]
  {
    hide Overwrite;
    var first := Min(n, |s| - head);
    OverwriteAt(d, 0, s[head..head + first], j);
    if n > first { OverwriteAt(Overwrite(d, 0, s[head..head + first]), first, s[0..n - first], j); }
  }

  /** A read delivers a prefix of the span and leaves the rest of its destination. */
  lemma DrainedIs(s: seq<byte>, head: nat, tail: nat, n: nat, d: seq<byte>)
    requires head < |s| && tail < |s| && n <= |Span(s, head, tail)| && n <= |d|
    ensures n <= |s| && Drained(s, head, n, d) == Span(s, head, tail)[..n] + d[n..]
  {
    hide Drained, Span;
    var result := Span(s, head, tail)[..n] + d[n..];
    forall j | 0 <= j < |d| ensures Drained(s, head, n, d)[j] == result[j] {
      DrainedAt(s, head, n, d, j);
      if j < n { SpanAt(s, head, tail, j); }
    }
  }

  /** A write that leaves a free byte appends to the span. */
  lemma SpanAppend(s: seq<byte>, head: nat, tail: nat, t: seq<byte>)
    requires head < |s| && tail < |s| && |Span(s, head, tail)| + |t| < |s|
    ensures Span(Written(s, tail, t), head, Wrapped(tail + |t|, |s|)) == Span(s, head, tail) + t
  {
    hide Written, Span;
    var w := Written(s, tail, t);
    var after := Span(w, head, Wrapped(tail + |t|, |s|));
    var before := Span(s, head, tail);
    assert |after| == |before| + |t|;
    forall i | 0 <= i < |after| ensures after[i] == (before + t)[i] {
      SpanAt(w, head, Wrapped(tail + |t|, |s|), i);
      WrittenAt(s, tail, t, Wrapped(head + i, |s|));
      if i < |before| { SpanAt(s, head, tail, i); }
    }
  }

  // ----- the object -----

  /** `memcpy` between two arrays. */
  method CopyBytes(dst: array<byte>, at: nat, src: array<byte>, from: nat, n: nat)
    requires dst != src && at + n <= dst.Length && from + n <= src.Length
    modifies dst
    ensures dst[..] == Overwrite(old(dst[..]), at, src[..][from..from + n])
  {
    var i := 0;
    while i < n
      invariant 0 <= i <= n
      invariant forall j :: 0 <= j < dst.Length ==>
                  dst[j] == if at <= j < at + i then src[from + j - at] else old(dst[j])
    {
      dst[at + i] := src[from + i];
      i := i + 1;
    }
  }

  /** The copying part of `Read`: one stretch, or two when the bytes wrap. */
  method CopyOut(dst: array<byte>, src: array<byte>, head: nat, n: nat)
    requires dst != src && head < src.Length && n <= src.Length && n <= dst.Length
    modifies dst
    ensures dst[..] == Drained(src[..], head, n, old(dst[..]))
  {
    hide Overwrite;
    var first := Min(n, src.Length - head);
    CopyBytes(dst, 0, src, head, first);
    if n > first {
      CopyBytes(dst, first, src, 0, n - first);
    }
  }

  /** The copying part of `Write`. */
  method CopyIn(dst: array<byte>, tail: nat, src: array<byte>, length: nat)
    requires src != dst && length <= src.Length && tail < dst.Length && length < dst.Length
    modifies dst
    ensures dst[..] == Written(old(dst[..]), tail, src[..length])
  {
    hide Overwrite;
    var first := Min(length, dst.Length - tail);
    ghost var s, d := src[..], dst[..];
    StretchesOf(s, length, first);
    CopyBytes(dst, tail, src, 0, first);
    if length > first {
      CopyBytes(dst, 0, src, first, length - first);
    }
    assert s[..length] == src[..length];
  }

  lemma StretchesOf(s: seq<byte>, length: nat, first: nat)
    requires first <= length <= |s|
    ensures s[0..first] == s[..length][..first] && s[first..length] == s[..length][first..]
    ensures first + (length - first) == length
  {
  }

  /** A ring buffer is a bounded first-in first-out queue of `size - 1` bytes;
      equal indices mean empty. */
  class RingBuffer {
    var readHead: nat
    var readTail: nat
    const size: nat
    const buffer: array<byte>

    ghost predicate Valid()
      reads this
    {
      0 < size == buffer.Length < U64 && readHead < size && readTail < size
    }

    /** The bytes waiting, oldest first. */
    ghost function Contents(): seq<byte>
      reads this, buffer
      requires Valid()
    {
      Span(buffer[..], readHead, readTail)
    }

    constructor (size: nat)
      requires 0 < size < U64
      ensures Valid() && fresh(buffer) && Contents() == [] && this.size == size
    {
      this.size := size;
      buffer := new byte[size](i => 0);
      readHead, readTail := 0, 0;
    }

    method GetFreeSpace() returns (n: nat)
      requires Valid()
      ensures n + |Contents()| == size && 1 <= n
    {
      if readTail >= readHead {
        n := readHead + size - readTail;
      } else {
        n := readHead - readTail;
      }
    }

    method GetAvailableBytes() returns (n: nat)
      requires Valid()
      ensures n == |Contents()| < size
    {
      if readHead <= readTail {
        n := readTail - readHead;
      } else {
        // unsigned: the difference wraps and adding the size unwraps it
        n := (((readTail - readHead) % U64) + size) % U64;
      }
    }

    /** Hands over the longest available prefix up to `length` and keeps the rest. */
    method Read(dst: array<byte>, length: nat) returns (n: nat)
      requires Valid() && length <= dst.Length && dst != buffer
      modifies `readHead, dst
      ensures Valid() && n == Min(length, |old(Contents())|)
      ensures dst[..] == old(Contents())[..n] + old(dst[..])[n..]
      ensures Contents() == old(Contents())[n..]
    {
      hide Span, Drained;
      var available := GetAvailableBytes();
      n := Min(available, length);
      DrainedIs(buffer[..], readHead, readTail, n, dst[..]);
      CopyOut(dst, buffer, readHead, n);
      SpanDrop(buffer[..], readHead, readTail, n);
      WrappedIsMod(readHead + n, size);
      readHead := (readHead + n) % size;
    }

    /** Appends all of `src[..length]`, or nothing when it does not fit. */
    method Write(src: array<byte>, length: nat) returns (ok: bool)
      requires Valid() && length <= src.Length && src != buffer
      modifies `readTail, buffer
      ensures Valid() && ok == (|old(Contents())| + length < size)
      ensures Contents() == old(Contents()) + (if ok then src[..length] else [])
    {
      hide Span, Written;
      var rest := GetFreeSpace();
      if length < rest {
        SpanAppend(buffer[..], readHead, readTail, src[..length]);
        WrappedIsMod(readTail + length, size);
        CopyIn(buffer, readTail, src, length);
        readTail := (readTail + length) % size;
        return true;
      }
      return false;
    }
  }
}
