/**
 * The `OS_Dataport_t` record: a reference to a shared-memory buffer and the
 * size recorded for it, plus the byte type and the two libc copies
 * (`memcpy`, `memset`) the component handlers perform on such buffers.
 */
module OsDataport {
  import opened Wrappers

  /** An unsigned byte (`uint8_t`, and `char` where the source uses it for bytes). */
  newtype uint8 = x: int | 0 <= x < 0x100

  /** The largest `size_t` of the 64-bit targets the SDK builds for. */
  const SizeMax: int := 0xFFFF_FFFF_FFFF_FFFF

  /** A dataport: the buffer it refers to (`io`, None for NULL) and the size recorded at assignment. */
  datatype Dataport = Dataport(io: Option<array<uint8>>, size: nat)

  /** `OS_DATAPORT_ASSIGN(p)`: refer to `p` and record `sizeof(*p)`, the buffer's length. */
  function Assign(p: array<uint8>): (dp: Dataport)
    ensures dp.io.Some? && dp.io.value == p
    ensures dp.size == p.Length
  {
    Dataport(Some(p), p.Length)
  }

  /** `OS_DATAPORT_NONE`: no buffer and size 0. */
  const NoDataport: Dataport := Dataport(None, 0)

  /** `OS_Dataport_getBuf`: the buffer referenced at assignment (NULL would be dereferenced). */
  function GetBuf(dp: Dataport): array<uint8>
    requires dp.io.Some?
  {
    dp.io.value
  }

  /** `OS_Dataport_getSize`: the recorded size. */
  function GetSize(dp: Dataport): nat
  {
    dp.size
  }

  /** A dataport built by one of the two macros: its size is its buffer's length, or 0 without one. */
  predicate Assigned(dp: Dataport)
  {
    match dp.io
    case Some(p) => dp.size == p.Length
    case None => dp.size == 0
  }

  /** The accessors give back what the macros recorded. */
  lemma AccessorsAfterAssign(p: array<uint8>)
    ensures Assigned(Assign(p)) && Assigned(NoDataport)
    ensures GetBuf(Assign(p)) == p && GetSize(Assign(p)) == p.Length
    ensures NoDataport.io.None? && GetSize(NoDataport) == 0
  {
  }

  /** `BIT(n)`, i.e. `1ul << n`. */
  function Bit(n: nat): nat
    requires n < 64
  {
    ((1 as bv64) << n) as nat
  }

  const PageBits4K: nat := 12
  const PageSize4K: nat := Bit(PageBits4K)

  /** `OS_DATAPORT_DEFAULT_SIZE`: one 4 KiB page. */
  const DefaultSize: nat := PageSize4K

  lemma DefaultSizeIs4096()
    ensures DefaultSize == 4096
  {
  }

  /** A `FakeDataport_t` as host tests use it: a buffer of exactly the default size. */
  method NewFakeDataport() returns (p: array<uint8>)
    ensures fresh(p) && p.Length == DefaultSize
    ensures Assign(p).size == 4096
  {
    p := new uint8[DefaultSize];
  }

  /** The contents of `s` after `d` is copied over it starting at index `at`. */
  function Overwrite(s: seq<uint8>, at: nat, d: seq<uint8>): seq<uint8>
    requires at + |d| <= |s|
  {
    s[..at] + d + s[at + |d|..]
  }

  /** The copied bytes read back, and no byte outside the copied range changes. */
  lemma {:induction false} OverwriteProperties(s: seq<uint8>, at: nat, d: seq<uint8>)
    requires at + |d| <= |s|
    ensures |Overwrite(s, at, d)| == |s|
    ensures Overwrite(s, at, d)[at..at + |d|] == d
    ensures forall i :: 0 <= i < |s| && !(at <= i < at + |d|) ==> Overwrite(s, at, d)[i] == s[i]
    ensures forall i :: at <= i < at + |d| ==> Overwrite(s, at, d)[i] == d[i - at]
  {
    var r := Overwrite(s, at, d);
    assert r[at..at + |d|] == d by {
      assert (s[..at] + d)[at..] == d;
    }
  }

  /** `memcpy(&dst[at], src, |src|)` for a source that does not overlap `dst`. */
  method Copy(dst: array<uint8>, at: nat, src: seq<uint8>)
    requires at + |src| <= dst.Length
    modifies dst
    ensures dst[..] == Overwrite(old(dst[..]), at, src)
  {
    forall i | 0 <= i < |src| {
      dst[at + i] := src[i];
    }
    assert dst[..] == Overwrite(old(dst[..]), at, src) by {
      OverwriteProperties(old(dst[..]), at, src);
    }
  }

  /** `memset(&dst[at], v, n)`. */
  method Fill(dst: array<uint8>, at: nat, n: nat, v: uint8)
    requires at + n <= dst.Length
    modifies dst
    ensures dst[..] == Overwrite(old(dst[..]), at, seq(n, _ => v))
  {
    forall i | at <= i < at + n {
      dst[i] := v;
    }
    assert dst[..] == Overwrite(old(dst[..]), at, seq(n, _ => v)) by {
      OverwriteProperties(old(dst[..]), at, seq(n, _ => v));
    }
  }
}
