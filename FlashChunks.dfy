/**
 * How the SPI flash storage component cuts a request into library calls.
 * `storage_rpc_write` cuts `[offset, offset + size)` into pieces that never
 * cross a flash page; `storage_rpc_read` cuts it into pieces no longer than
 * the SPI driver's dataport less a command reserve. Each piece is a `Chunk`:
 * the position in the storage dataport the bytes come from or go to, and
 * the length; the flash offset handed to the library follows from the
 * position (`Offs`).
 */
module FlashChunks {
  import opened OsDataport

  /** The flash's page size (`page_sz` of the W25Q64 configuration); a power of two. */
  const PageSize: nat := 256

  /** Bytes of the SPI dataport reserved for the command and address of a read. */
  const CommandReserve: nat := 8

  /** A `size_t` value of an unbounded sum: `offset + size_already_written` wraps. */
  function SizeWrap(x: nat): nat
  {
    x % (SizeMax + 1)
  }

  function Min(a: nat, b: nat): nat
  {
    if a < b then a else b
  }

  /** One library call: `len` bytes at position `pos` of the dataport. */
  datatype Chunk = Chunk(pos: nat, len: nat)

  /** The flash offset a chunk of the request at `offset` is handed to the library with. */
  function Offs(offset: nat, c: Chunk): nat
  {
    SizeWrap(offset + c.pos)
  }

  /**
   * The chunks `storage_rpc_write`'s loop issues once `pos` bytes are done and
   * `left` remain, the next chunk starting `inPage` bytes into its page.
   */
  function PageChunks(offset: nat, pos: nat, left: nat, inPage: nat): seq<Chunk>
    requires inPage < PageSize
    decreases left
  {
    if left == 0 then []
    else
      var len := Min(PageSize - inPage, left);
      [Chunk(pos, len)] + PageChunks(offset, pos + len, left - len, 0)
  }

  /** The chunks of `storage_rpc_write(offset, size)`: `offset & (page_sz - 1)` is `offset % PageSize`. */
  function WriteChunks(offset: nat, size: nat): seq<Chunk>
  {
    PageChunks(offset, 0, size, offset % PageSize)
  }

  /** The chunks `storage_rpc_read`'s loop issues once `pos` bytes are done and `left` remain. */
  function LenChunks(offset: nat, pos: nat, left: nat, maxLen: nat): seq<Chunk>
    requires maxLen > 0
    decreases left
  {
    if left == 0 then []
    else
      var len := Min(maxLen, left);
      [Chunk(pos, len)] + LenChunks(offset, pos + len, left - len, maxLen)
  }

  /** The chunks of `storage_rpc_read(offset, size)` with an SPI dataport of `spiSize` bytes. */
  function ReadChunks(offset: nat, size: nat, spiSize: nat): seq<Chunk>
    requires spiSize > CommandReserve
  {
    LenChunks(offset, 0, size, spiSize - CommandReserve)
  }

  /**
   * `cs` tiles the dataport range `[from, to)` in ascending order with
   * non-empty chunks.
   */
  ghost predicate Contiguous(cs: seq<Chunk>, from: nat, to: nat)
  {
    && (forall i :: 0 <= i < |cs| ==> 0 < cs[i].len)
    && (forall i :: 0 < i < |cs| ==> cs[i - 1].pos + cs[i - 1].len == cs[i].pos)
    && (|cs| == 0 ==> from == to)
    && (|cs| > 0 ==> cs[0].pos == from && cs[|cs| - 1].pos + cs[|cs| - 1].len == to)
  }

  /** Every chunk of `cs` lies inside the first `n` bytes of the dataport. */
  ghost predicate Within(cs: seq<Chunk>, n: nat)
  {
    forall i :: 0 <= i < |cs| ==> cs[i].pos + cs[i].len <= n
  }

  /** Putting one chunk in front of a tiling of the rest of a range tiles the whole range. */
  lemma ContiguousCons(c: Chunk, rest: seq<Chunk>, to: nat)
    requires 0 < c.len
    requires Contiguous(rest, c.pos + c.len, to)
    ensures Contiguous([c] + rest, c.pos, to)
  {
    var cs := [c] + rest;
    forall i | 0 <= i < |cs|
      ensures 0 < cs[i].len
    {
      if i > 0 {
        assert cs[i] == rest[i - 1];
      }
    }
    forall i | 0 < i < |cs|
      ensures cs[i - 1].pos + cs[i - 1].len == cs[i].pos
    {
      assert cs[i] == rest[i - 1];
      if i > 1 {
        assert cs[i - 1] == rest[i - 2];
      }
    }
    if |rest| > 0 {
      assert cs[|cs| - 1] == rest[|rest| - 1];
    }
  }

  /** `cs` tiles `[from, to)`, stated chunk by chunk from the front. */
  ghost predicate Tiles(cs: seq<Chunk>, from: nat, to: nat)
    decreases |cs|
  {
    if cs == [] then from == to
    else 0 < cs[0].len && cs[0].pos == from && Tiles(cs[1..], from + cs[0].len, to)
  }

  lemma {:induction false} TilesContiguous(cs: seq<Chunk>, from: nat, to: nat)
    requires Tiles(cs, from, to)
    ensures Contiguous(cs, from, to)
    decreases |cs|
  {
    if cs != [] {
      TilesContiguous(cs[1..], from + cs[0].len, to);
      assert cs == [cs[0]] + cs[1..];
      ContiguousCons(cs[0], cs[1..], to);
    }
  }

  lemma {:induction false} PageChunksTile(offset: nat, pos: nat, left: nat, inPage: nat)
    requires inPage < PageSize
    ensures Tiles(PageChunks(offset, pos, left, inPage), pos, pos + left)
    decreases left
  {
    if left > 0 {
      var len := Min(PageSize - inPage, left);
      assert PageChunks(offset, pos, left, inPage)[1..] == PageChunks(offset, pos + len, left - len, 0);
      PageChunksTile(offset, pos + len, left - len, 0);
    }
  }

  lemma {:induction false} LenChunksTile(offset: nat, pos: nat, left: nat, maxLen: nat)
    requires maxLen > 0
    ensures Tiles(LenChunks(offset, pos, left, maxLen), pos, pos + left)
    decreases left
  {
    if left > 0 {
      var len := Min(maxLen, left);
      assert LenChunks(offset, pos, left, maxLen)[1..] == LenChunks(offset, pos + len, left - len, maxLen);
      LenChunksTile(offset, pos + len, left - len, maxLen);
    }
  }

  /** The page loop's chunks tile what is left of the request. */
  lemma PageChunksContiguous(offset: nat, pos: nat, left: nat, inPage: nat)
    requires inPage < PageSize
    ensures Contiguous(PageChunks(offset, pos, left, inPage), pos, pos + left)
  {
    PageChunksTile(offset, pos, left, inPage);
    TilesContiguous(PageChunks(offset, pos, left, inPage), pos, pos + left);
  }

  /** The read loop's chunks tile what is left of the request. */
  lemma LenChunksContiguous(offset: nat, pos: nat, left: nat, maxLen: nat)
    requires maxLen > 0
    ensures Contiguous(LenChunks(offset, pos, left, maxLen), pos, pos + left)
  {
    LenChunksTile(offset, pos, left, maxLen);
    TilesContiguous(LenChunks(offset, pos, left, maxLen), pos, pos + left);
  }

  /** Chunks of a tiling are ascending and do not overlap. */
  lemma {:induction false} ContiguousAscending(cs: seq<Chunk>, from: nat, to: nat, i: nat, j: nat)
    requires Contiguous(cs, from, to) && i < j < |cs|
    ensures cs[i].pos + cs[i].len <= cs[j].pos
    decreases j - i
  {
    if i + 1 < j {
      ContiguousAscending(cs, from, to, i + 1, j);
    }
  }

  /** A tiling of `[from, to)` lies inside `[from, to)`. */
  lemma ContiguousWithin(cs: seq<Chunk>, from: nat, to: nat)
    requires Contiguous(cs, from, to)
    ensures from <= to && Within(cs, to)
    ensures forall i :: 0 <= i < |cs| ==> from <= cs[i].pos
  {
    forall i | 0 <= i < |cs|
      ensures from <= cs[i].pos && cs[i].pos + cs[i].len <= to
    {
      if 0 < i {
        ContiguousAscending(cs, from, to, 0, i);
      }
      if i < |cs| - 1 {
        ContiguousAscending(cs, from, to, i, |cs| - 1);
      }
    }
  }

  /** Every byte of the range lies in some chunk of a tiling. */
  lemma {:induction false} ContiguousCovers(cs: seq<Chunk>, from: nat, to: nat, k: nat)
    requires Contiguous(cs, from, to) && from <= k < to
    ensures exists i :: 0 <= i < |cs| && cs[i].pos <= k < cs[i].pos + cs[i].len
    decreases |cs|
  {
    var last := cs[|cs| - 1];
    if k < last.pos {
      var init := cs[..|cs| - 1];
      assert forall i :: 0 <= i < |init| ==> init[i] == cs[i];
      assert Contiguous(init, from, last.pos);
      ContiguousCovers(init, from, last.pos, k);
      var i :| 0 <= i < |init| && init[i].pos <= k < init[i].pos + init[i].len;
      assert cs[i] == init[i];
    }
  }

  /** The number of bytes moved by the first `k` chunks of `cs`. */
  function Total(cs: seq<Chunk>, k: nat): nat
    requires k <= |cs|
  {
    if k == 0 then 0 else Total(cs, k - 1) + cs[k - 1].len
  }

  /** The first `k` chunks of a tiling of `[from, to)` move exactly the bytes before chunk `k`. */
  lemma {:induction false} TotalOfPrefix(cs: seq<Chunk>, from: nat, to: nat, k: nat)
    requires Contiguous(cs, from, to) && k <= |cs|
    ensures from + Total(cs, k) == if k < |cs| then cs[k].pos else to
  {
    if k > 0 {
      TotalOfPrefix(cs, from, to, k - 1);
    }
  }

  /** `(x mod 2^64) mod 256 == x mod 256`, since 256 divides 2^64. */
  lemma WrapKeepsPageOffset(x: nat)
    ensures SizeWrap(x) % PageSize == x % PageSize
  {
    var q := x / (SizeMax + 1);
    assert x == (SizeMax + 1) * q + SizeWrap(x);
    assert SizeMax + 1 == PageSize * 0x100_0000_0000_0000;
    ModMultiple(SizeWrap(x), 0x100_0000_0000_0000 * q);
  }

  lemma {:induction false} ModMultiple(r: nat, m: nat)
    ensures (r + PageSize * m) % PageSize == r % PageSize
    decreases m
  {
    if m > 0 {
      ModMultiple(r, m - 1);
      assert r + PageSize * m == (r + PageSize * (m - 1)) + PageSize;
    }
  }

  /**
   * The page property of the write chunks, given that the next chunk starts
   * `inPage` bytes into its page: no chunk crosses a page boundary, the first
   * is as long as the rest of its page or the request, and every later chunk
   * starts on a page boundary.
   */
  lemma {:induction false} PageChunksInPage(offset: nat, pos: nat, left: nat, inPage: nat)
    requires inPage == (offset + pos) % PageSize
    ensures var cs := PageChunks(offset, pos, left, inPage);
      && (forall i :: 0 <= i < |cs| ==> Offs(offset, cs[i]) % PageSize + cs[i].len <= PageSize)
      && (forall i :: 0 < i < |cs| ==> Offs(offset, cs[i]) % PageSize == 0)
      && (|cs| > 0 ==> cs[0].len == Min(PageSize - inPage, left))
    decreases left
  {
    var cs := PageChunks(offset, pos, left, inPage);
    if left > 0 {
      var len := Min(PageSize - inPage, left);
      WrapKeepsPageOffset(offset + pos);
      assert Offs(offset, cs[0]) % PageSize + cs[0].len <= PageSize;
      if left - len > 0 {
        var q := (offset + pos) / PageSize;
        assert offset + pos + len == PageSize * (q + 1);
        ModMultiple(0, q + 1);
        PageChunksInPage(offset, pos + len, left - len, 0);
        var rest := PageChunks(offset, pos + len, left - len, 0);
        assert forall i :: 0 < i < |cs| ==> cs[i] == rest[i - 1];
        assert Offs(offset, rest[0]) % PageSize == 0 by {
          WrapKeepsPageOffset(offset + pos + len);
        }
      }
    }
  }

  /**
   * The write chunks tile the request; each lies inside one page; the first
   * runs to the end of its page or of the request; the rest start on a page
   * boundary; a zero-length request makes no call.
   */
  lemma WriteChunksInPage(offset: nat, size: nat)
    ensures var cs := WriteChunks(offset, size);
      && Contiguous(cs, 0, size)
      && Within(cs, size)
      && (forall i :: 0 <= i < |cs| ==> Offs(offset, cs[i]) % PageSize + cs[i].len <= PageSize)
      && (forall i :: 0 < i < |cs| ==> Offs(offset, cs[i]) % PageSize == 0)
      && (size == 0 <==> cs == [])
      && (size > 0 ==> cs[0].len == Min(PageSize - offset % PageSize, size))
  {
    PageChunksContiguous(offset, 0, size, offset % PageSize);
    ContiguousWithin(WriteChunks(offset, size), 0, size);
    PageChunksInPage(offset, 0, size, offset % PageSize);
  }

  /** The write chunks lie inside the request. */
  lemma WriteChunksWithin(offset: nat, size: nat)
    ensures Within(WriteChunks(offset, size), size)
  {
    PageChunksContiguous(offset, 0, size, offset % PageSize);
    ContiguousWithin(WriteChunks(offset, size), 0, size);
  }

  /** The read chunks lie inside the request. */
  lemma ReadChunksWithin(offset: nat, size: nat, spiSize: nat)
    requires spiSize > CommandReserve
    ensures Within(ReadChunks(offset, size, spiSize), size)
  {
    LenChunksContiguous(offset, 0, size, spiSize - CommandReserve);
    ContiguousWithin(ReadChunks(offset, size, spiSize), 0, size);
  }

  /** No chunk of `cs` is longer than `maxLen`. */
  ghost predicate Bounded(cs: seq<Chunk>, maxLen: nat)
  {
    forall i :: 0 <= i < |cs| ==> cs[i].len <= maxLen
  }

  lemma {:induction false} LenChunksBounded(offset: nat, pos: nat, left: nat, maxLen: nat)
    requires maxLen > 0
    ensures Bounded(LenChunks(offset, pos, left, maxLen), maxLen)
    decreases left
  {
    if left > 0 {
      var len := Min(maxLen, left);
      var rest := LenChunks(offset, pos + len, left - len, maxLen);
      var cs := LenChunks(offset, pos, left, maxLen);
      assert cs == [Chunk(pos, len)] + rest;
      LenChunksBounded(offset, pos + len, left - len, maxLen);
      forall i | 0 < i < |cs|
        ensures cs[i].len <= maxLen
      {
        assert cs[i] == rest[i - 1];
      }
    }
  }

  /**
   * The read chunks tile the request and each fits the SPI dataport less the
   * command reserve; a zero-length request makes no call.
   */
  lemma ReadChunksBounded(offset: nat, size: nat, spiSize: nat)
    requires spiSize > CommandReserve
    ensures var cs := ReadChunks(offset, size, spiSize);
      && Contiguous(cs, 0, size)
      && Within(cs, size)
      && Bounded(cs, spiSize - CommandReserve)
      && (size == 0 <==> cs == [])
  {
    LenChunksContiguous(offset, 0, size, spiSize - CommandReserve);
    ContiguousWithin(ReadChunks(offset, size, spiSize), 0, size);
    LenChunksBounded(offset, 0, size, spiSize - CommandReserve);
  }

  /** How many chunks of `cs` the library accepts before it first rejects one. */
  function Accepted(offset: nat, cs: seq<Chunk>, reply: (nat, nat) -> int): (n: nat)
    ensures n <= |cs|
    ensures forall i :: 0 <= i < n ==> reply(Offs(offset, cs[i]), cs[i].len) >= 0
    ensures n < |cs| ==> reply(Offs(offset, cs[n]), cs[n].len) < 0
  {
    if cs == [] then 0
    else if reply(Offs(offset, cs[0]), cs[0].len) < 0 then 0
    else 1 + Accepted(offset, cs[1..], reply)
  }

  /** The library accepts each of the first `k` chunks of `cs`. */
  ghost predicate AllAccepted(offset: nat, cs: seq<Chunk>, reply: (nat, nat) -> int, k: nat)
  {
    forall i :: 0 <= i < k && i < |cs| ==> reply(Offs(offset, cs[i]), cs[i].len) >= 0
  }

  /** Once `k` chunks have been accepted, `Accepted` stops at `k` when chunk `k` is rejected or none are left. */
  lemma {:induction false} AcceptedStopsAt(offset: nat, cs: seq<Chunk>, reply: (nat, nat) -> int, k: nat)
    requires k <= |cs| && AllAccepted(offset, cs, reply, k)
    requires k < |cs| ==> reply(Offs(offset, cs[k]), cs[k].len) < 0
    ensures Accepted(offset, cs, reply) == k
  {
    if k > 0 {
      assert forall i :: 0 <= i < k - 1 ==> cs[1..][i] == cs[i + 1];
      AcceptedStopsAt(offset, cs[1..], reply, k - 1);
    }
  }

  /** Extending the accepted prefix by chunk `k = Chunk(pos, len)`, which the library accepts. */
  lemma AcceptedExtend(offset: nat, cs: seq<Chunk>, reply: (nat, nat) -> int, k: nat, pos: nat, len: nat)
    requires k < |cs| && cs[k] == Chunk(pos, len) && AllAccepted(offset, cs, reply, k)
    requires reply(SizeWrap(offset + pos), len) >= 0
    ensures AllAccepted(offset, cs, reply, k + 1)
  {
  }

  /** `Accepted` stops at chunk `k = Chunk(pos, len)` when the library rejects it. */
  lemma RejectedAt(offset: nat, cs: seq<Chunk>, reply: (nat, nat) -> int, k: nat, pos: nat, len: nat)
    requires k < |cs| && cs[k] == Chunk(pos, len) && AllAccepted(offset, cs, reply, k)
    requires reply(SizeWrap(offset + pos), len) < 0
    ensures Accepted(offset, cs, reply) == k && Issued(offset, cs, reply) == k + 1
  {
    AcceptedStopsAt(offset, cs, reply, k);
  }

  /** `Accepted` reaches the end when the library accepts every chunk. */
  lemma AcceptedAll(offset: nat, cs: seq<Chunk>, reply: (nat, nat) -> int)
    requires AllAccepted(offset, cs, reply, |cs|)
    ensures Accepted(offset, cs, reply) == |cs| && Issued(offset, cs, reply) == |cs|
  {
    AcceptedStopsAt(offset, cs, reply, |cs|);
  }

  /** How many chunks the library is asked about: the accepted ones and the first rejected one. */
  function Issued(offset: nat, cs: seq<Chunk>, reply: (nat, nat) -> int): (n: nat)
    ensures n <= |cs|
  {
    if Accepted(offset, cs, reply) < |cs| then Accepted(offset, cs, reply) + 1 else |cs|
  }

  /** A call into the SPI flash library. */
  datatype FlashCall =
    | FlashWrite(offs: nat, data: seq<uint8>)
    | FlashRead(offs: nat, len: nat)
    | FlashErase(offs: nat, size: nat)

  /** The `SPIFLASH_write` calls for the first `k` chunks of `cs`, taking bytes from `buf`. */
  function WriteCalls(offset: nat, cs: seq<Chunk>, k: nat, buf: seq<uint8>): seq<FlashCall>
    requires k <= |cs| && Within(cs, |buf|)
  {
    if k == 0 then []
    else
      var c := cs[k - 1];
      WriteCalls(offset, cs, k - 1, buf) + [FlashWrite(Offs(offset, c), buf[c.pos..c.pos + c.len])]
  }

  /** The `SPIFLASH_read` calls for the first `k` chunks of `cs`. */
  function ReadCalls(offset: nat, cs: seq<Chunk>, k: nat): seq<FlashCall>
    requires k <= |cs|
  {
    if k == 0 then [] else ReadCalls(offset, cs, k - 1) + [FlashRead(Offs(offset, cs[k - 1]), cs[k - 1].len)]
  }

  /** One step of the page loop: the next chunk is `Chunk(pos, len)` and the chunks after it start at `next`. */
  lemma PageChunksStep(offset: nat, cs: seq<Chunk>, k: nat, pos: nat, left: nat, inPage: nat, len: nat, next: nat)
    requires k <= |cs| && inPage < PageSize && left > 0
    requires cs[k..] == PageChunks(offset, pos, left, inPage)
    requires len == Min(PageSize - inPage, left) && next == pos + len
    ensures k < |cs| && cs[k] == Chunk(pos, len) && len <= left
    ensures cs[k + 1..] == PageChunks(offset, next, left - len, 0)
  {
    assert cs[k] == cs[k..][0];
    assert cs[k + 1..] == cs[k..][1..];
  }

  /** One step of the read loop: the next chunk is `Chunk(pos, len)` and the chunks after it start at `next`. */
  lemma LenChunksStep(offset: nat, cs: seq<Chunk>, k: nat, pos: nat, left: nat, maxLen: nat, len: nat, next: nat)
    requires k <= |cs| && left > 0 && maxLen > 0
    requires cs[k..] == LenChunks(offset, pos, left, maxLen)
    requires len == Min(maxLen, left) && next == pos + len
    ensures k < |cs| && cs[k] == Chunk(pos, len) && len <= left
    ensures cs[k + 1..] == LenChunks(offset, next, left - len, maxLen)
  {
    assert cs[k] == cs[k..][0];
    assert cs[k + 1..] == cs[k..][1..];
  }

  /** The log grows by the write of chunk `k`. */
  lemma WriteCallsStep(offset: nat, cs: seq<Chunk>, k: nat, buf: seq<uint8>, pos: nat, len: nat)
    requires k < |cs| && Within(cs, |buf|) && cs[k] == Chunk(pos, len)
    ensures pos + len <= |buf|
    ensures WriteCalls(offset, cs, k + 1, buf)
         == WriteCalls(offset, cs, k, buf) + [FlashWrite(SizeWrap(offset + pos), buf[pos..pos + len])]
  {
  }

  /** The log grows by the read of chunk `k`. */
  lemma ReadCallsStep(offset: nat, cs: seq<Chunk>, k: nat, pos: nat, len: nat)
    requires k < |cs| && cs[k] == Chunk(pos, len)
    ensures ReadCalls(offset, cs, k + 1) == ReadCalls(offset, cs, k) + [FlashRead(SizeWrap(offset + pos), len)]
  {
  }

  /** The dataport grows by the bytes of chunk `k`. */
  lemma FilledStep(buf: seq<uint8>, offset: nat, cs: seq<Chunk>, k: nat, flash: nat -> uint8, pos: nat, len: nat, cur: seq<uint8>)
    requires k < |cs| && Within(cs, |buf|) && cs[k] == Chunk(pos, len)
    requires cur == Filled(buf, offset, cs, k, flash)
    ensures pos + len <= |cur|
    ensures Filled(buf, offset, cs, k + 1, flash) == Overwrite(cur, pos, Fetched(flash, offset, Chunk(pos, len)))
  {
  }

  /** No chunks are left once the loop has consumed the whole request. */
  lemma ChunksExhausted(cs: seq<Chunk>, k: nat)
    requires k <= |cs| && cs[k..] == []
    ensures k == |cs| && cs[..k] == cs
  {
  }

  /**
   * Where the page loop over `data[..size]` stands after `k` chunks: they
   * cover the first `Total(cs, k)` bytes, the chunks still to come are the
   * page chunks from there to `size` (the first of them starting `inPage`
   * bytes into its page), and the first `k` chunks were accepted and logged.
   */
  ghost predicate WriteProgress(offset: nat, size: nat, data: seq<uint8>, reply: (nat, nat) -> int,
                                cs: seq<Chunk>, k: nat, inPage: nat, calls: seq<FlashCall>)
  {
    && k <= |cs| && inPage < PageSize && Within(cs, |data|) && Total(cs, k) <= size
    && cs[k..] == PageChunks(offset, Total(cs, k), size - Total(cs, k), inPage)
    && AllAccepted(offset, cs, reply, k)
    && calls == WriteCalls(offset, cs, k, data)
  }

  /** The page loop starts with no chunk done. */
  lemma WriteProgressStart(offset: nat, size: nat, data: seq<uint8>, reply: (nat, nat) -> int)
    requires size <= |data|
    ensures WriteProgress(offset, size, data, reply, WriteChunks(offset, size), 0, offset % PageSize, [])
  {
    WriteChunksWithin(offset, size);
  }

  /** An accepted page chunk, at `pos` and flash offset `offs`, moves the page loop on by its length. */
  lemma WriteProgressStep(offset: nat, size: nat, data: seq<uint8>, reply: (nat, nat) -> int,
                          cs: seq<Chunk>, k: nat, inPage: nat, calls: seq<FlashCall>, pos: nat, offs: nat, len: nat)
    requires WriteProgress(offset, size, data, reply, cs, k, inPage, calls)
    requires pos == Total(cs, k) < size && len == Min(PageSize - inPage, size - pos) && offs == SizeWrap(offset + pos)
    requires reply(offs, len) >= 0
    ensures k < |cs| && Total(cs, k + 1) == pos + len <= size && pos + len <= |data|
    ensures WriteProgress(offset, size, data, reply, cs, k + 1, 0, calls + [FlashWrite(offs, data[pos..pos + len])])
  {
    PageChunksStep(offset, cs, k, pos, size - pos, inPage, len, pos + len);
    WriteCallsStep(offset, cs, k, data, pos, len);
    AcceptedExtend(offset, cs, reply, k, pos, len);
  }

  /** A rejected page chunk, at `pos` and flash offset `offs`, ends the page loop: nothing more is accepted or asked for. */
  lemma WriteProgressReject(offset: nat, size: nat, data: seq<uint8>, reply: (nat, nat) -> int,
                            cs: seq<Chunk>, k: nat, inPage: nat, calls: seq<FlashCall>, pos: nat, offs: nat, len: nat)
    requires WriteProgress(offset, size, data, reply, cs, k, inPage, calls)
    requires pos == Total(cs, k) < size && len == Min(PageSize - inPage, size - pos) && offs == SizeWrap(offset + pos)
    requires reply(offs, len) < 0
    ensures k < |cs| && Accepted(offset, cs, reply) == k && Issued(offset, cs, reply) == k + 1
    ensures pos == cs[k].pos && pos + len <= |data|
    ensures calls + [FlashWrite(offs, data[pos..pos + len])] == WriteCalls(offset, cs, k + 1, data)
  {
    PageChunksStep(offset, cs, k, pos, size - pos, inPage, len, pos + len);
    WriteCallsStep(offset, cs, k, data, pos, len);
    RejectedAt(offset, cs, reply, k, pos, len);
  }

  /** A page loop that has reached `size` ends with every chunk accepted. */
  lemma WriteProgressDone(offset: nat, size: nat, data: seq<uint8>, reply: (nat, nat) -> int,
                          cs: seq<Chunk>, k: nat, inPage: nat, calls: seq<FlashCall>)
    requires WriteProgress(offset, size, data, reply, cs, k, inPage, calls) && Total(cs, k) == size
    ensures k == |cs| && Accepted(offset, cs, reply) == |cs| && Issued(offset, cs, reply) == |cs|
    ensures calls == WriteCalls(offset, cs, |cs|, data)
  {
    ChunksExhausted(cs, k);
    AcceptedAll(offset, cs, reply);
  }

  /** The page loop's end state, put together as `WriteOutcome`. */
  lemma WriteOutcomeOf(offset: nat, size: nat, data: seq<uint8>, reply: (nat, nat) -> int,
                       calls: seq<FlashCall>, written: nat, ok: bool, cs: seq<Chunk>, n: nat)
    requires cs == WriteChunks(offset, size) && Within(cs, |data|)
    requires n == Accepted(offset, cs, reply) && calls == WriteCalls(offset, cs, Issued(offset, cs, reply), data)
    requires written == Total(cs, n) && ok == (n == |cs|)
    requires n == |cs| ==> written == size
    requires n < |cs| ==> written == cs[n].pos
    ensures WriteOutcome(offset, size, data, reply, calls, written, ok)
  {
  }

  /**
   * Where the read loop stands after `k` chunks: they cover the first
   * `Total(cs, k)` bytes, the chunks still to come are those of at most
   * `maxLen` bytes from there to `size`, and the first `k` chunks were
   * accepted and logged.
   */
  ghost predicate ReadProgress(offset: nat, size: nat, maxLen: nat, reply: (nat, nat) -> int,
                               cs: seq<Chunk>, k: nat, calls: seq<FlashCall>)
  {
    && maxLen > 0 && k <= |cs| && Within(cs, size) && Total(cs, k) <= size
    && cs[k..] == LenChunks(offset, Total(cs, k), size - Total(cs, k), maxLen)
    && AllAccepted(offset, cs, reply, k)
    && calls == ReadCalls(offset, cs, k)
  }

  /** The read loop starts with no chunk done. */
  lemma ReadProgressStart(offset: nat, size: nat, maxLen: nat, reply: (nat, nat) -> int)
    requires maxLen > 0
    ensures ReadProgress(offset, size, maxLen, reply, LenChunks(offset, 0, size, maxLen), 0, [])
  {
    ReadChunksWithin(offset, size, maxLen + CommandReserve);
  }

  /** An accepted read chunk, at `pos` and flash offset `offs`, moves the read loop on by its length. */
  lemma ReadProgressStep(offset: nat, size: nat, maxLen: nat, reply: (nat, nat) -> int,
                         cs: seq<Chunk>, k: nat, calls: seq<FlashCall>, pos: nat, offs: nat, len: nat)
    requires ReadProgress(offset, size, maxLen, reply, cs, k, calls)
    requires pos == Total(cs, k) < size && len == Min(maxLen, size - pos) && offs == SizeWrap(offset + pos)
    requires reply(offs, len) >= 0
    ensures k < |cs| && cs[k] == Chunk(pos, len) && Total(cs, k + 1) == pos + len <= size
    ensures ReadProgress(offset, size, maxLen, reply, cs, k + 1, calls + [FlashRead(offs, len)])
  {
    LenChunksStep(offset, cs, k, pos, size - pos, maxLen, len, pos + len);
    ReadCallsStep(offset, cs, k, pos, len);
    AcceptedExtend(offset, cs, reply, k, pos, len);
  }

  /** A rejected read chunk, at `pos` and flash offset `offs`, ends the read loop: nothing more is accepted or asked for. */
  lemma ReadProgressReject(offset: nat, size: nat, maxLen: nat, reply: (nat, nat) -> int,
                           cs: seq<Chunk>, k: nat, calls: seq<FlashCall>, pos: nat, offs: nat, len: nat)
    requires ReadProgress(offset, size, maxLen, reply, cs, k, calls)
    requires pos == Total(cs, k) < size && len == Min(maxLen, size - pos) && offs == SizeWrap(offset + pos)
    requires reply(offs, len) < 0
    ensures k < |cs| && Accepted(offset, cs, reply) == k && Issued(offset, cs, reply) == k + 1
    ensures pos == cs[k].pos
    ensures calls + [FlashRead(offs, len)] == ReadCalls(offset, cs, k + 1)
  {
    LenChunksStep(offset, cs, k, pos, size - pos, maxLen, len, pos + len);
    ReadCallsStep(offset, cs, k, pos, len);
    RejectedAt(offset, cs, reply, k, pos, len);
  }

  /** A read loop that has reached `size` ends with every chunk accepted. */
  lemma ReadProgressDone(offset: nat, size: nat, maxLen: nat, reply: (nat, nat) -> int,
                         cs: seq<Chunk>, k: nat, calls: seq<FlashCall>)
    requires ReadProgress(offset, size, maxLen, reply, cs, k, calls) && Total(cs, k) == size
    ensures k == |cs| && Accepted(offset, cs, reply) == |cs| && Issued(offset, cs, reply) == |cs|
    ensures calls == ReadCalls(offset, cs, |cs|)
  {
    ChunksExhausted(cs, k);
    AcceptedAll(offset, cs, reply);
  }

  /** The read loop's end state, put together as `ReadOutcome`. */
  lemma ReadOutcomeOf(offset: nat, size: nat, maxLen: nat, reply: (nat, nat) -> int, flash: nat -> uint8,
                      before: seq<uint8>, after: seq<uint8>, calls: seq<FlashCall>, read: nat, ok: bool,
                      cs: seq<Chunk>, n: nat)
    requires maxLen > 0 && cs == LenChunks(offset, 0, size, maxLen) && Within(cs, |before|)
    requires n == Accepted(offset, cs, reply) && calls == ReadCalls(offset, cs, Issued(offset, cs, reply))
    requires after == Filled(before, offset, cs, n, flash) && read == Total(cs, n) && ok == (n == |cs|)
    requires n == |cs| ==> read == size
    requires n < |cs| ==> read == cs[n].pos
    ensures ReadOutcome(offset, size, maxLen, reply, flash, before, after, calls, read, ok)
  {
  }

  /** The bytes a read of chunk `c` fetches, `flash(a)` being the byte at flash address `a`. */
  function Fetched(flash: nat -> uint8, offset: nat, c: Chunk): (r: seq<uint8>)
    ensures |r| == c.len
  {
    seq(c.len, (t: int) requires 0 <= t => flash(Offs(offset, c) + t))
  }

  /** The dataport `buf` after the reads of the first `k` chunks of `cs`, in order. */
  function Filled(buf: seq<uint8>, offset: nat, cs: seq<Chunk>, k: nat, flash: nat -> uint8): (r: seq<uint8>)
    requires k <= |cs| && Within(cs, |buf|)
    ensures |r| == |buf|
  {
    if k == 0 then buf
    else Overwrite(Filled(buf, offset, cs, k - 1, flash), cs[k - 1].pos, Fetched(flash, offset, cs[k - 1]))
  }

  /**
   * What writing `data[..size]` to flash offset `offset` comes to: `calls`
   * are the library calls for the chunks up to and including the first one
   * the library rejects, `written` counts the bytes of the accepted chunks,
   * and `ok` says that every chunk was accepted, in which case `written` is
   * `size`; otherwise it is where the rejected chunk starts.
   */
  ghost predicate WriteOutcome(offset: nat, size: nat, data: seq<uint8>, reply: (nat, nat) -> int,
                               calls: seq<FlashCall>, written: nat, ok: bool)
  {
    var cs := WriteChunks(offset, size);
    var n := Accepted(offset, cs, reply);
    && Within(cs, |data|)
    && calls == WriteCalls(offset, cs, Issued(offset, cs, reply), data)
    && written == Total(cs, n)
    && ok == (n == |cs|)
    && (n == |cs| ==> written == size)
    && (n < |cs| ==> written == cs[n].pos)
  }

  /**
   * What reading `size` bytes from flash offset `offset` in pieces of at
   * most `maxLen` bytes into a dataport holding `before` comes to: `calls`
   * are the library calls for the chunks up to and including the first one
   * the library rejects, `after` is `before` with the accepted chunks
   * filled in, `read` counts their bytes, and `ok` says that every chunk
   * was accepted, in which case `read` is `size`; otherwise it is where
   * the rejected chunk starts.
   */
  ghost predicate ReadOutcome(offset: nat, size: nat, maxLen: nat, reply: (nat, nat) -> int, flash: nat -> uint8,
                              before: seq<uint8>, after: seq<uint8>, calls: seq<FlashCall>, read: nat, ok: bool)
  {
    && maxLen > 0
    && var cs := LenChunks(offset, 0, size, maxLen);
       var n := Accepted(offset, cs, reply);
       && Within(cs, |before|)
       && calls == ReadCalls(offset, cs, Issued(offset, cs, reply))
       && after == Filled(before, offset, cs, n, flash)
       && read == Total(cs, n)
       && ok == (n == |cs|)
       && (n == |cs| ==> read == size)
       && (n < |cs| ==> read == cs[n].pos)
  }

  /** `buf` with its first `n` bytes replaced by the flash bytes from `offset` on. */
  function Image(buf: seq<uint8>, offset: nat, n: nat, flash: nat -> uint8): seq<uint8>
  {
    seq(|buf|, (i: int) requires 0 <= i < |buf| => if i < n then flash(offset + i) else buf[i])
  }

  /** Reading the chunk right after the bytes already read extends the image by that chunk. */
  lemma ImageStep(buf: seq<uint8>, offset: nat, c: Chunk, flash: nat -> uint8)
    requires c.pos + c.len <= |buf| && offset + c.pos <= SizeMax
    ensures Overwrite(Image(buf, offset, c.pos, flash), c.pos, Fetched(flash, offset, c))
         == Image(buf, offset, c.pos + c.len, flash)
  {
    assert Offs(offset, c) == offset + c.pos;
    OverwriteProperties(Image(buf, offset, c.pos, flash), c.pos, Fetched(flash, offset, c));
  }

  /**
   * Reading the first `k` chunks of a tiling of `[0, size)` from a flash
   * offset that does not wrap puts flash bytes `offset, offset + 1, ...` into
   * the dataport's first `Total` bytes and leaves the rest as it was.
   */
  lemma {:induction false} FilledIsImage(buf: seq<uint8>, cs: seq<Chunk>, offset: nat, size: nat, flash: nat -> uint8, k: nat)
    requires Contiguous(cs, 0, size) && Within(cs, size) && size <= |buf| && offset + size <= SizeMax
    requires k <= |cs|
    ensures Within(cs, |buf|)
    ensures Filled(buf, offset, cs, k, flash) == Image(buf, offset, Total(cs, k), flash)
  {
    if k > 0 {
      FilledIsImage(buf, cs, offset, size, flash, k - 1);
      TotalOfPrefix(cs, 0, size, k - 1);
      ImageStep(buf, offset, cs[k - 1], flash);
    }
  }

  /** The first `n` bytes of an image are flash bytes, the rest those of `buf`. */
  lemma ImageSplit(buf: seq<uint8>, offset: nat, n: nat, flash: nat -> uint8)
    requires n <= |buf|
    ensures Image(buf, offset, n, flash)[..n] == seq(n, (i: int) requires 0 <= i => flash(offset + i))
    ensures Image(buf, offset, n, flash)[n..] == buf[n..]
  {
    var im := Image(buf, offset, n, flash);
    assert forall i :: 0 <= i < n ==> im[..n][i] == flash(offset + i);
    assert forall i :: 0 <= i < |buf| - n ==> im[n..][i] == buf[n..][i];
  }

  /** A read of a request that does not wrap, all of whose chunks succeed, yields flash bytes `offset .. offset + size`. */
  lemma ReadYieldsFlash(buf: seq<uint8>, offset: nat, size: nat, spiSize: nat, flash: nat -> uint8)
    requires spiSize > CommandReserve && size <= |buf| && offset + size <= SizeMax
    ensures var cs := ReadChunks(offset, size, spiSize);
      && Within(cs, |buf|)
      && Filled(buf, offset, cs, |cs|, flash)[..size] == seq(size, (i: int) requires 0 <= i => flash(offset + i))
      && Filled(buf, offset, cs, |cs|, flash)[size..] == buf[size..]
  {
    var cs := ReadChunks(offset, size, spiSize);
    LenChunksContiguous(offset, 0, size, spiSize - CommandReserve);
    ContiguousWithin(cs, 0, size);
    FilledIsImage(buf, cs, offset, size, flash, |cs|);
    TotalOfPrefix(cs, 0, size, |cs|);
    ImageSplit(buf, offset, size, flash);
  }
  lemma {:induction false} WriteCallsLength(offset: nat, cs: seq<Chunk>, k: nat, buf: seq<uint8>)
    requires k <= |cs| && Within(cs, |buf|)
    ensures |WriteCalls(offset, cs, k, buf)| == k
  {
    if k > 0 {
      WriteCallsLength(offset, cs, k - 1, buf);
    }
  }

  /** The `i`-th `SPIFLASH_write` call hands over the `i`-th chunk's bytes at the chunk's flash offset. */
  lemma {:induction false} WriteCallsAt(offset: nat, cs: seq<Chunk>, k: nat, buf: seq<uint8>, i: nat)
    requires k <= |cs| && Within(cs, |buf|) && i < k
    ensures |WriteCalls(offset, cs, k, buf)| == k
    ensures WriteCalls(offset, cs, k, buf)[i] == FlashWrite(Offs(offset, cs[i]), buf[cs[i].pos..cs[i].pos + cs[i].len])
  {
    WriteCallsLength(offset, cs, k, buf);
    if i < k - 1 {
      WriteCallsAt(offset, cs, k - 1, buf, i);
    } else {
      WriteCallsLength(offset, cs, k - 1, buf);
    }
  }

  lemma {:induction false} ReadCallsLength(offset: nat, cs: seq<Chunk>, k: nat)
    requires k <= |cs|
    ensures |ReadCalls(offset, cs, k)| == k
  {
    if k > 0 {
      ReadCallsLength(offset, cs, k - 1);
    }
  }

  /** The `i`-th `SPIFLASH_read` call asks for the `i`-th chunk at the chunk's flash offset. */
  lemma {:induction false} ReadCallsAt(offset: nat, cs: seq<Chunk>, k: nat, i: nat)
    requires k <= |cs| && i < k
    ensures |ReadCalls(offset, cs, k)| == k
    ensures ReadCalls(offset, cs, k)[i] == FlashRead(Offs(offset, cs[i]), cs[i].len)
  {
    ReadCallsLength(offset, cs, k);
    if i < k - 1 {
      ReadCallsAt(offset, cs, k - 1, i);
    } else {
      ReadCallsLength(offset, cs, k - 1);
    }
  }

  /** Every `SPIFLASH_write` call for the chunks of a write stays inside one flash page. */
  lemma WriteCallsInPage(offset: nat, size: nat, data: seq<uint8>, k: nat, calls: seq<FlashCall>)
    requires Within(WriteChunks(offset, size), |data|) && k <= |WriteChunks(offset, size)|
    requires calls == WriteCalls(offset, WriteChunks(offset, size), k, data)
    ensures forall i :: 0 <= i < |calls| ==>
      calls[i].FlashWrite? && calls[i].offs % PageSize + |calls[i].data| <= PageSize
  {
    var cs := WriteChunks(offset, size);
    WriteChunksInPage(offset, size);
    WriteCallsLength(offset, cs, k, data);
    forall i | 0 <= i < |calls|
      ensures calls[i].FlashWrite? && calls[i].offs % PageSize + |calls[i].data| <= PageSize
    {
      WriteCallsAt(offset, cs, k, data, i);
    }
  }

  /**
   * What a write outcome guarantees: every `SPIFLASH_write` call stays
   * inside one flash page, and the call succeeded exactly when every byte
   * was written; otherwise fewer bytes were.
   */
  lemma WriteOutcomeProperties(offset: nat, size: nat, data: seq<uint8>, reply: (nat, nat) -> int,
                               calls: seq<FlashCall>, written: nat, ok: bool)
    requires WriteOutcome(offset, size, data, reply, calls, written, ok)
    ensures written <= size && (ok <==> written == size)
    ensures forall i :: 0 <= i < |calls| ==>
      calls[i].FlashWrite? && calls[i].offs % PageSize + |calls[i].data| <= PageSize
  {
    var cs := WriteChunks(offset, size);
    PageChunksContiguous(offset, 0, size, offset % PageSize);
    TotalCounts(cs, size, Accepted(offset, cs, reply));
    WriteCallsInPage(offset, size, data, Issued(offset, cs, reply), calls);
  }

  /** Every `SPIFLASH_read` call for the chunks of a read asks for between 1 and `maxLen` bytes. */
  lemma ReadCallsBounded(offset: nat, size: nat, maxLen: nat, k: nat, calls: seq<FlashCall>)
    requires maxLen > 0 && k <= |LenChunks(offset, 0, size, maxLen)|
    requires calls == ReadCalls(offset, LenChunks(offset, 0, size, maxLen), k)
    ensures forall i :: 0 <= i < |calls| ==> calls[i].FlashRead? && 0 < calls[i].len <= maxLen
  {
    var cs := LenChunks(offset, 0, size, maxLen);
    LenChunksContiguous(offset, 0, size, maxLen);
    LenChunksBounded(offset, 0, size, maxLen);
    ReadCallsLength(offset, cs, k);
    forall i | 0 <= i < |calls|
      ensures calls[i].FlashRead? && 0 < calls[i].len <= maxLen
    {
      ReadCallsAt(offset, cs, k, i);
    }
  }

  /** The bytes counted by the first `n` chunks of a tiling of `[0, size)`: all of them exactly when `n` is all the chunks. */
  lemma TotalCounts(cs: seq<Chunk>, size: nat, n: nat)
    requires Contiguous(cs, 0, size) && n <= |cs|
    ensures Total(cs, n) <= size && (n == |cs| <==> Total(cs, n) == size)
  {
    TotalOfPrefix(cs, 0, size, n);
    ContiguousWithin(cs, 0, size);
  }

  /** The call and count facts of a read outcome, stated over its chunks `cs` and the accepted count `n`. */
  lemma ReadCallsOf(offset: nat, size: nat, maxLen: nat, calls: seq<FlashCall>, read: nat, ok: bool,
                    cs: seq<Chunk>, n: nat, k: nat)
    requires maxLen > 0 && cs == LenChunks(offset, 0, size, maxLen)
    requires n <= k <= |cs| && calls == ReadCalls(offset, cs, k)
    requires read == Total(cs, n) && ok == (n == |cs|)
    ensures read <= size && (ok <==> read == size)
    ensures forall i :: 0 <= i < |calls| ==> calls[i].FlashRead? && 0 < calls[i].len <= maxLen
  {
    LenChunksContiguous(offset, 0, size, maxLen);
    TotalCounts(cs, size, n);
    ReadCallsBounded(offset, size, maxLen, k, calls);
  }

  /**
   * Every `SPIFLASH_read` call of a read outcome asks for between 1 and
   * `maxLen` bytes, and the read succeeded exactly when every byte was
   * read; otherwise fewer bytes were.
   */
  lemma ReadOutcomeCalls(offset: nat, size: nat, maxLen: nat, reply: (nat, nat) -> int, flash: nat -> uint8,
                         before: seq<uint8>, after: seq<uint8>, calls: seq<FlashCall>, read: nat, ok: bool)
    requires ReadOutcome(offset, size, maxLen, reply, flash, before, after, calls, read, ok)
    ensures read <= size && (ok <==> read == size)
    ensures forall i :: 0 <= i < |calls| ==> calls[i].FlashRead? && 0 < calls[i].len <= maxLen
  {
    var cs := LenChunks(offset, 0, size, maxLen);
    ReadCallsOf(offset, size, maxLen, calls, read, ok, cs, Accepted(offset, cs, reply), Issued(offset, cs, reply));
  }

  /** After the reads of the first `n` chunks of a tiling of `[0, size)`, the dataport starts with the flash bytes read. */
  lemma FilledPrefix(before: seq<uint8>, cs: seq<Chunk>, offset: nat, size: nat, flash: nat -> uint8, n: nat)
    requires Contiguous(cs, 0, size) && Within(cs, size) && size <= |before| && offset + size <= SizeMax
    requires n <= |cs|
    ensures Within(cs, |before|) && Total(cs, n) <= size
    ensures var after := Filled(before, offset, cs, n, flash);
      && after[..Total(cs, n)] == seq(Total(cs, n), (i: int) requires 0 <= i => flash(offset + i))
      && after[Total(cs, n)..] == before[Total(cs, n)..]
  {
    TotalOfPrefix(cs, 0, size, n);
    FilledIsImage(before, cs, offset, size, flash, n);
    ImageSplit(before, offset, Total(cs, n), flash);
  }

  /** The dataport facts of a read outcome, stated over its chunks `cs` and the accepted count `n`. */
  lemma ReadBytesOf(offset: nat, size: nat, maxLen: nat, flash: nat -> uint8,
                    before: seq<uint8>, after: seq<uint8>, read: nat, cs: seq<Chunk>, n: nat)
    requires maxLen > 0 && cs == LenChunks(offset, 0, size, maxLen) && n <= |cs|
    requires size <= |before| && offset + size <= SizeMax && Within(cs, |before|)
    requires after == Filled(before, offset, cs, n, flash) && read == Total(cs, n)
    ensures read <= size && |after| == |before|
    ensures after[..read] == seq(read, (i: int) requires 0 <= i => flash(offset + i))
    ensures after[read..] == before[read..]
  {
    LenChunksContiguous(offset, 0, size, maxLen);
    ContiguousWithin(cs, 0, size);
    FilledPrefix(before, cs, offset, size, flash, n);
  }

  /**
   * A read outcome of a request that does not wrap puts the flash bytes from
   * `offset` on into the first `read` bytes of the dataport and leaves the
   * others as they were.
   */
  lemma ReadOutcomeBytes(offset: nat, size: nat, maxLen: nat, reply: (nat, nat) -> int, flash: nat -> uint8,
                         before: seq<uint8>, after: seq<uint8>, calls: seq<FlashCall>, read: nat, ok: bool)
    requires ReadOutcome(offset, size, maxLen, reply, flash, before, after, calls, read, ok)
    requires size <= |before| && offset + size <= SizeMax
    ensures read <= size && |after| == |before|
    ensures after[..read] == seq(read, (i: int) requires 0 <= i => flash(offset + i))
    ensures after[read..] == before[read..]
  {
    var cs := LenChunks(offset, 0, size, maxLen);
    ReadBytesOf(offset, size, maxLen, flash, before, after, read, cs, Accepted(offset, cs, reply));
  }
}
