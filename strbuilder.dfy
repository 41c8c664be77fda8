/**
 * The growable string builder: a byte buffer whose write cursor `offset`
 * always sits on the terminator, grown in steps of `chunk` by reallocation.
 * An allocation outcome that the C code gets from malloc/realloc is a
 * `bool` parameter here, so that both the success and the failure path are
 * specified.  The failed state is the one the C code uses: `buffer == null`.
 */
module StrBuilder {
  import opened LibC
  import opened Ipv4

  /** The capacity `_resize` settles on: `size` plus as many `chunk`s as `desired` needs. */
  function GrownSize(size: nat, chunk: nat, desired: nat): nat
    requires chunk > 0
    decreases if size < desired then desired - size else 0
  {
    if size >= desired then size else GrownSize(size + chunk, chunk, desired)
  }

  /** A remainder is determined by any quotient-remainder decomposition. */
  lemma ModUnique(x: int, c: int, q: int, m: int)
    requires c > 0 && 0 <= m < c && x == q * c + m
    ensures x % c == m
  {
    var q', m' := x / c, x % c;
    var d := q - q';
    assert d * c == m' - m by {
      assert x == q' * c + m';
      assert q * c - q' * c == (q - q') * c;
    }
    MulSign(d, c);
  }

  lemma MulSign(d: int, c: int)
    requires c > 0
    ensures d >= 1 ==> d * c >= c
    ensures d <= -1 ==> d * c <= -c
  {
  }

  /** Adding one chunk keeps the remainder modulo the chunk. */
  lemma ModAddChunk(a: nat, c: nat)
    requires c > 0
    ensures (a + c) % c == a % c
  {
    assert a + c == (a / c + 1) * c + a % c;
    ModUnique(a + c, c, a / c + 1, a % c);
  }

  /** The grown capacity covers `desired`, never shrinks, differs from the old one by whole
      chunks, and is not a chunk larger than needed. */
  lemma {:induction false} GrownSizeCovers(size: nat, chunk: nat, desired: nat)
    requires chunk > 0
    ensures GrownSize(size, chunk, desired) >= desired
    ensures GrownSize(size, chunk, desired) >= size
    ensures (GrownSize(size, chunk, desired) - size) % chunk == 0
    ensures GrownSize(size, chunk, desired) > size ==> GrownSize(size, chunk, desired) - chunk < desired
    ensures size >= desired ==> GrownSize(size, chunk, desired) == size
    decreases if size < desired then desired - size else 0
  {
    if size < desired {
      var r := GrownSize(size + chunk, chunk, desired);
      GrownSizeCovers(size + chunk, chunk, desired);
      ModAddChunk(r - (size + chunk), chunk);
    }
  }

  /** No capacity reachable from `size` in whole chunks that covers `desired` is smaller. */
  lemma {:induction false} GrownSizeLeast(size: nat, chunk: nat, desired: nat, v: nat)
    requires chunk > 0
    requires v >= size && v >= desired && (v - size) % chunk == 0
    ensures GrownSize(size, chunk, desired) <= v
    decreases if size < desired then desired - size else 0
  {
    if size < desired {
      var q := (v - size) / chunk;
      assert v - size == q * chunk;
      assert q >= 1;
      assert v - size >= chunk;
      ModAddChunk(v - (size + chunk), chunk);
      GrownSizeLeast(size + chunk, chunk, desired, v);
    }
  }

  /** A whole number of chunks stays a whole number of chunks. */
  lemma {:induction false} GrownSizeMultiple(size: nat, chunk: nat, desired: nat)
    requires chunk > 0 && size % chunk == 0
    ensures GrownSize(size, chunk, desired) % chunk == 0
    decreases if size < desired then desired - size else 0
  {
    if size < desired {
      ModAddChunk(size, chunk);
      GrownSizeMultiple(size + chunk, chunk, desired);
    }
  }

  /** `str_builder_t`.  A freshly allocated object is the uninitialised struct. */
  class StrBuilder {
    var buffer: array?<char>
    var offset: nat
    var size: nat
    var chunk: nat
    /** Set by `Free`; C forbids every further use of the storage. */
    ghost var freed: bool

    /** The struct's invariant, in failed state too: the cursor is below the capacity, the
        capacity is a whole number of chunks, and live storage has the terminator at the cursor. */
    ghost predicate Valid()
      reads this, buffer
    {
      && chunk > 0
      && size >= chunk
      && size % chunk == 0
      && offset < size
      && (buffer != null ==> buffer.Length == size && buffer[offset] == NUL)
    }

    predicate Failed()
      reads this
    {
      buffer == null
    }

    /** What has been appended so far (nothing once storage is gone). */
    ghost function Contents(): seq<char>
      reads this, buffer
      requires Valid()
    {
      if buffer == null then [] else buffer[..offset]
    }

    /** Declares the struct (`str_builder_t cmd;`); nothing is usable before `Init`. */
    constructor ()
      ensures !freed
    {
      freed := false;
    }

    /** `str_builder_init`: capacity one chunk, cursor 0, a terminator at 0; -1 if malloc fails. */
    method Init(chunk: nat, allocOk: bool) returns (r: int)
      requires chunk > 0
      modifies this
      ensures Valid() && !freed
      ensures this.chunk == chunk && size == chunk && offset == 0
      ensures allocOk ==> r == 0 && buffer != null && fresh(buffer) && buffer[0] == NUL && Contents() == []
      ensures !allocOk ==> r == -1 && Failed()
    {
      size := chunk;
      this.chunk := chunk;
      offset := 0;
      freed := false;
      if !allocOk {
        buffer := null;
        return -1;
      }
      buffer := new char[chunk];
      buffer[offset] := NUL;
      return 0;
    }

    /** `_resize`: adds chunks until `desiredSize` fits, then reallocates, keeping every old
        byte; a failed realloc leaves the storage gone.  Does nothing once storage is gone. */
    method Resize(desiredSize: nat, reallocOk: bool)
      requires Valid()
      modifies this
      ensures Valid()
      ensures chunk == old(chunk) && offset == old(offset) && freed == old(freed)
      ensures old(buffer) == null ==> buffer == null && size == old(size)
      ensures old(buffer) != null ==> size == GrownSize(old(size), chunk, desiredSize) && size >= old(size)
      ensures old(buffer) != null && reallocOk ==>
                buffer != null && fresh(buffer) && buffer[..old(size)] == old(buffer[..])
      ensures old(buffer) != null && !reallocOk ==> buffer == null
    {
      if buffer == null {
        return;
      }
      ghost var oldSize := size;
      GrownSizeCovers(oldSize, chunk, desiredSize);
      while size < desiredSize
        invariant chunk == old(chunk) && offset == old(offset) && buffer == old(buffer) && freed == old(freed)
        invariant size >= oldSize && size % chunk == 0
        invariant GrownSize(size, chunk, desiredSize) == GrownSize(oldSize, chunk, desiredSize)
        decreases desiredSize - size
      {
        ModAddChunk(size, chunk);
        size := size + chunk;
      }
      if reallocOk {
        var grown := new char[size];
        forall i | 0 <= i < buffer.Length {
          grown[i] := buffer[i];
        }
        buffer := grown;
      } else {
        buffer := null;
      }
    }

    /** `_append`: copies `src[..len]` to the cursor, moves the cursor past it and rewrites the
        terminator, returning `len`; -1, writing nothing, when storage is or becomes gone. */
    method AppendRaw(src: seq<char>, len: nat, reallocOk: bool) returns (r: int)
      requires Valid() && !freed
      requires len <= |src|
      modifies this, buffer
      ensures Valid() && chunk == old(chunk) && freed == old(freed)
      ensures buffer != null ==> fresh(buffer)
      ensures old(buffer) == null ==> r == -1 && buffer == null && offset == old(offset) && size == old(size)
      ensures old(buffer) != null ==> size == GrownSize(old(size), chunk, old(offset) + len + 1)
      ensures old(buffer) != null && !reallocOk ==> r == -1 && buffer == null && offset == old(offset)
      ensures old(buffer) != null && reallocOk ==>
                r == len && buffer != null && fresh(buffer) &&
                offset == old(offset) + len && buffer[offset] == NUL &&
                Contents() == old(Contents()) + src[..len]
    {
      var desiredSize := offset + len + 1;
      Resize(desiredSize, reallocOk);
      if buffer == null {
        return -1;
      }
      GrownSizeCovers(old(size), chunk, desiredSize);
      WriteAt(src, len);
      return len;
    }

    /** The common tail of `_append` and the formatted append: the bytes at the cursor, the
        cursor moved, the terminator rewritten.  The storage already has room. */
    method WriteAt(src: seq<char>, len: nat)
      requires Valid() && buffer != null
      requires len <= |src| && offset + len < size
      modifies this`offset, buffer
      ensures Valid()
      ensures offset == old(offset) + len && buffer[offset] == NUL
      ensures Contents() == old(Contents()) + src[..len]
    {
      forall i | 0 <= i < len {
        buffer[offset + i] := src[i];
      }
      ghost var head := buffer[..offset];
      assert head == old(Contents());
      offset := offset + len;
      buffer[offset] := NUL;
      assert buffer[..offset] == head + src[..len];
    }

    /** `str_builder_append`: appends the bytes of `src` before its first terminator;
        -1, with nothing changed, for a NULL `src`. */
    method Append(src: CStr, reallocOk: bool) returns (r: int)
      requires Valid() && !freed
      requires src.Ptr? ==> Terminated(src.mem)
      modifies this, buffer
      ensures Valid() && chunk == old(chunk) && freed == old(freed)
      ensures buffer != null ==> buffer == old(buffer) || fresh(buffer)
      ensures src.Null? ==> r == -1 && unchanged(this) && Contents() == old(Contents())
      ensures src.Ptr? && old(buffer) == null ==> r == -1 && buffer == null && offset == old(offset) && size == old(size)
      ensures src.Ptr? && old(buffer) != null ==> size == GrownSize(old(size), chunk, old(offset) + Strlen(src.mem) + 1)
      ensures src.Ptr? && old(buffer) != null && !reallocOk ==> r == -1 && buffer == null && offset == old(offset)
      ensures src.Ptr? && old(buffer) != null && reallocOk ==>
                r == Strlen(src.mem) && offset == old(offset) + r && buffer != null && buffer[offset] == NUL &&
                Contents() == old(Contents()) + src.mem[..Strlen(src.mem)]
    {
      if src.Null? {
        return -1;
      }
      var len := Strlen(src.mem);
      r := AppendRaw(src.mem, len, reallocOk);
    }

    /** `str_builder_nappend`: like `Append`, but at most `limit` bytes are scanned and copied. */
    method NAppend(src: CStr, limit: nat, reallocOk: bool) returns (r: int)
      requires Valid() && !freed
      requires src.Ptr? ==> ReadableUpTo(src.mem, limit)
      modifies this, buffer
      ensures Valid() && chunk == old(chunk) && freed == old(freed)
      ensures buffer != null ==> buffer == old(buffer) || fresh(buffer)
      ensures src.Null? ==> r == -1 && unchanged(this) && Contents() == old(Contents())
      ensures src.Ptr? && old(buffer) == null ==> r == -1 && buffer == null && offset == old(offset) && size == old(size)
      ensures src.Ptr? && old(buffer) != null ==> size == GrownSize(old(size), chunk, old(offset) + Strnlen(src.mem, limit) + 1)
      ensures src.Ptr? && old(buffer) != null && !reallocOk ==> r == -1 && buffer == null && offset == old(offset)
      ensures src.Ptr? && old(buffer) != null && reallocOk ==>
                r == Strnlen(src.mem, limit) && r <= limit && offset == old(offset) + r &&
                buffer != null && buffer[offset] == NUL &&
                Contents() == old(Contents()) + src.mem[..Strnlen(src.mem, limit)]
    {
      if src.Null? {
        return -1;
      }
      var len := Strnlen(src.mem, limit);
      r := AppendRaw(src.mem, len, reallocOk);
    }

    /** `str_builder_sprintf`, with the formatting engine left abstract: `rendered` is the text
        `vsnprintf` measures and `vsprintf` writes for `format` and its arguments.  Grows for
        it, renders it at the cursor, rewrites the terminator, returns its length. */
    method Sprintf(format: CStr, rendered: seq<char>, reallocOk: bool) returns (r: int)
      requires Valid() && !freed
      requires format.Ptr? ==> Terminated(format.mem)
      modifies this, buffer
      ensures Valid() && chunk == old(chunk) && freed == old(freed)
      ensures buffer != null ==> buffer == old(buffer) || fresh(buffer)
      ensures format.Null? ==> r == -1 && unchanged(this) && Contents() == old(Contents())
      ensures format.Ptr? && old(buffer) == null ==> r == -1 && buffer == null && offset == old(offset) && size == old(size)
      ensures format.Ptr? && old(buffer) != null ==> size == GrownSize(old(size), chunk, old(offset) + |rendered| + 1)
      ensures format.Ptr? && old(buffer) != null && !reallocOk ==> r == -1 && buffer == null && offset == old(offset)
      ensures format.Ptr? && old(buffer) != null && reallocOk ==>
                r == |rendered| && offset == old(offset) + r && buffer != null && buffer[offset] == NUL &&
                Contents() == old(Contents()) + rendered
    {
      if format.Null? {
        return -1;
      }
      var len := |rendered|;
      var desiredSize := offset + len + 1;
      Resize(desiredSize, reallocOk);
      if buffer == null {
        return -1;
      }
      GrownSizeCovers(old(size), chunk, desiredSize);
      WriteAt(rendered, len);
      assert rendered[..len] == rendered;
      return len;
    }

    /** `str_builder_append_ip_be`: the address as a dotted quad, most significant octet first. */
    method AppendIpBe(ip: bv32, reallocOk: bool) returns (r: int)
      requires Valid() && !freed
      modifies this, buffer
      ensures Valid() && chunk == old(chunk) && freed == old(freed)
      ensures buffer != null ==> buffer == old(buffer) || fresh(buffer)
      ensures old(buffer) == null ==> r == -1 && buffer == null && offset == old(offset) && size == old(size)
      ensures old(buffer) != null ==> size == GrownSize(old(size), chunk, old(offset) + |BeText(ip)| + 1)
      ensures old(buffer) != null && !reallocOk ==> r == -1 && buffer == null && offset == old(offset)
      ensures old(buffer) != null && reallocOk ==>
                r == |BeText(ip)| && 7 <= r <= 15 && offset == old(offset) + r &&
                buffer != null && buffer[offset] == NUL &&
                Contents() == old(Contents()) + BeText(ip)
    {
      BeTextRoundTrip(ip);
      r := Sprintf(Ptr(IpFormat), BeText(ip), reallocOk);
    }

    /** `str_builder_append_ip_le` as written: the low octet, the second octet, then the top
        octet twice (see LeAsWrittenCollides). */
    method AppendIpLe(ip: bv32, reallocOk: bool) returns (r: int)
      requires Valid() && !freed
      modifies this, buffer
      ensures Valid() && chunk == old(chunk) && freed == old(freed)
      ensures buffer != null ==> buffer == old(buffer) || fresh(buffer)
      ensures old(buffer) == null ==> r == -1 && buffer == null && offset == old(offset) && size == old(size)
      ensures old(buffer) != null ==> size == GrownSize(old(size), chunk, old(offset) + |LeTextAsWritten(ip)| + 1)
      ensures old(buffer) != null && !reallocOk ==> r == -1 && buffer == null && offset == old(offset)
      ensures old(buffer) != null && reallocOk ==>
                r == |LeTextAsWritten(ip)| && 7 <= r <= 15 && offset == old(offset) + r &&
                buffer != null && buffer[offset] == NUL &&
                Contents() == old(Contents()) + LeTextAsWritten(ip)
    {
      Decimal.DottedQuadLength(AsNats(LeOctetsAsWritten(ip)));
      r := Sprintf(Ptr(IpFormat), LeTextAsWritten(ip), reallocOk);
    }

    /** `str_builder_append_ip_le` with the octet order it is meant to have: least significant
        octet first, the big-endian text reversed (see LeOctetsReverseBe). */
    method AppendIpLeCorrected(ip: bv32, reallocOk: bool) returns (r: int)
      requires Valid() && !freed
      modifies this, buffer
      ensures Valid() && chunk == old(chunk) && freed == old(freed)
      ensures buffer != null ==> buffer == old(buffer) || fresh(buffer)
      ensures old(buffer) == null ==> r == -1 && buffer == null && offset == old(offset) && size == old(size)
      ensures old(buffer) != null ==> size == GrownSize(old(size), chunk, old(offset) + |LeText(ip)| + 1)
      ensures old(buffer) != null && !reallocOk ==> r == -1 && buffer == null && offset == old(offset)
      ensures old(buffer) != null && reallocOk ==>
                r == |LeText(ip)| && 7 <= r <= 15 && offset == old(offset) + r &&
                buffer != null && buffer[offset] == NUL &&
                Contents() == old(Contents()) + LeText(ip)
    {
      Decimal.DottedQuadLength(AsNats(LeOctets(ip)));
      r := Sprintf(Ptr(IpFormat), LeText(ip), reallocOk);
    }

    /** `str_builder_get`: the storage, NULL in failed state; live storage reads as the contents
        followed by the terminator. */
    function Get(): (p: array?<char>)
      reads this, buffer
      requires Valid()
      ensures p == null <==> Failed()
      ensures p != null ==> offset < p.Length && p[..offset] == Contents() && p[offset] == NUL
    {
      buffer
    }

    /** `str_builder_size`: the number of bytes appended, or -1 in failed state. */
    function Size(): (r: int)
      reads this, buffer
      requires Valid()
      ensures r == -1 <==> Failed()
      ensures r != -1 ==> r == |Contents()| && r == offset
    {
      if buffer == null then -1 else offset
    }

    /** `str_builder_free`: releases the storage.  free(NULL) is harmless, so a failed builder may
        be released again; live storage may be released only once. */
    method Free()
      requires !freed || buffer == null
      modifies this
      ensures freed
      ensures buffer == old(buffer) && offset == old(offset) && size == old(size) && chunk == old(chunk)
    {
      freed := true;
    }
  }
}
