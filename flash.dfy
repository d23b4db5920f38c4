/** The flash key/value log.  Records are appended from the storage start:
    a 6-byte header {magic, key, size, status, reserved, crc} followed by the
    value bytes, written as little-endian half-words with an odd final byte
    padded by 0xFF.  A record is found by walking headers with stride
    size + 6 while the magic byte matches; an update marks the previous
    valid record of the key DELETED and appends a new one.

    Flash is a byte array that extends past the storage end far enough for
    the reads and writes the code makes there (a header read at the end,
    the longest record written just before it).  Programming a half-word
    writes its two bytes; unlock, lock, the busy flag and the program-size
    bits are not modelled. */
module Flash {
  import opened Common
  import Util

  const FLASH_OK: int := 0
  const FLASH_ERR_NOT_FOUND: int := -1
  const FLASH_ERR_WRITE: int := -2
  const FLASH_ERR_ERASE: int := -3

  /** sizeof(FlashRecord_t). */
  const HEADER_SIZE: nat := 6
  /** The bytes past the storage end the code may touch: a record of the
      largest size starting just before the end. */
  const TAIL: nat := 262

  /** The storage constants the flash register header supplies. */
  datatype Layout = Layout(start: nat, end: nat, magic: bv8, valid: bv8, deleted: bv8)

  /** The magic byte is not the erased value 0xFF, and the two statuses differ. */
  predicate WellFormed(L: Layout)
  {
    L.start <= L.end && L.magic != 0xFF && L.valid != L.deleted
  }

  // ---------------------------------------------------------------------
  // Bytes and half-words

  /** The value bytes as programmed: an odd count gets a 0xFF pad byte. */
  function Padded(d: seq<bv8>): (p: seq<bv8>)
    ensures |p| == PaddedSize(|d|) && p[..|d|] == d
    ensures |d| % 2 == 1 ==> p[|d|] == 0xFF
  {
    if |d| % 2 == 0 then d else d + [0xFF]
  }

  /** The number of bytes programmed for `size` value bytes. */
  function PaddedSize(size: nat): nat
  {
    if size % 2 == 0 then size else size + 1
  }

  /** `padded_size` as written: the sum is stored in a uint8_t. */
  function PaddedSizeAsWritten(size: nat): nat
    requires size < 256
  {
    PaddedSize(size) % 256
  }

  /** For a 255-byte value the as-written count wraps to 0 and the loop
      programs nothing, though the call reports FLASH_OK; every other size
      is counted as intended. */
  lemma PaddedSizeWraps(size: nat)
    requires size < 256
    ensures PaddedSizeAsWritten(255) == 0
    ensures size < 255 ==> PaddedSizeAsWritten(size) == PaddedSize(size)
  {
  }

  /** `m` with the padded bytes of `d` programmed from address `a`. */
  function Programmed(m: seq<bv8>, a: nat, d: seq<bv8>): (r: seq<bv8>)
    requires a + PaddedSize(|d|) <= |m|
    ensures |r| == |m|
  {
    m[..a] + Padded(d) + m[a + PaddedSize(|d|)..]
  }

  /** The programmed bytes are those of the padded data, and the others are kept. */
  lemma ProgrammedAt(m: seq<bv8>, a: nat, d: seq<bv8>)
    requires a + PaddedSize(|d|) <= |m|
    ensures forall k :: 0 <= k < |m| ==>
              Programmed(m, a, d)[k] == if a <= k < a + PaddedSize(|d|) then Padded(d)[k - a] else m[k]
  {
  }

  /** What the as-written write programs: only the first
      PaddedSizeAsWritten(|d|) bytes. */
  function ProgrammedAsWritten(m: seq<bv8>, a: nat, d: seq<bv8>): seq<bv8>
    requires |d| < 256 && a + PaddedSize(|d|) <= |m|
  {
    var n := PaddedSizeAsWritten(|d|);
    m[..a] + Padded(d)[..n] + m[a + n..]
  }

  /** Round trip of the corrected write: the bytes at `a` read back as `d`
      whatever was there before, and nothing outside the padded range changes. */
  lemma WriteReadRoundTrip(m: seq<bv8>, a: nat, d: seq<bv8>)
    requires a + PaddedSize(|d|) <= |m|
    ensures Programmed(m, a, d)[a..a + |d|] == d
    ensures Programmed(m, a, d)[..a] == m[..a]
    ensures Programmed(m, a, d)[a + PaddedSize(|d|)..] == m[a + PaddedSize(|d|)..]
  {
    var r := Programmed(m, a, d);
    ProgrammedAt(m, a, d);
    assert forall k :: 0 <= k < |d| ==> r[a..a + |d|][k] == d[k];
  }

  /** As written, a 255-byte value is not programmed at all, so reading it
      back gives the old flash bytes: for erased flash and a value of zero
      bytes, 0xFF instead of 0. */
  lemma MaxOddValueLost(m: seq<bv8>, a: nat, d: seq<bv8>)
    requires |d| == 255 && a + 256 <= |m|
    ensures ProgrammedAsWritten(m, a, d) == m
    ensures (forall k :: a <= k < a + 256 ==> m[k] == 0xFF) && d[0] == 0 ==>
              ProgrammedAsWritten(m, a, d)[a..a + 255] != d
  {
    PaddedSizeWraps(255);
    assert m[..a] + m[a..] == m;
    if (forall k :: a <= k < a + 256 ==> m[k] == 0xFF) && d[0] == 0 {
      assert ProgrammedAsWritten(m, a, d)[a..a + 255][0] == 0xFF;
    }
  }

  /** The half-word programmed for two bytes: `(hi << 8) | lo`. */
  function HalfWord(lo: bv8, hi: bv8): bv16
  {
    ((hi as bv16) << 8) | (lo as bv16)
  }

  /** The bytes a half-word occupies in little-endian memory. */
  function Low(h: bv16): bv8
  {
    (h & 0xFF) as bv8
  }

  function High(h: bv16): bv8
  {
    ((h >> 8) & 0xFF) as bv8
  }

  lemma LowOfHalfWord(lo: bv8, hi: bv8)
    ensures Low(HalfWord(lo, hi)) == lo
  {
  }

  lemma HighOfHalfWord(lo: bv8, hi: bv8)
    ensures High(HalfWord(lo, hi)) == hi
  {
  }

  // ---------------------------------------------------------------------
  // Checksum

  /** The XOR of the bytes. */
  function Xor(s: seq<bv8>): bv8
  {
    if |s| == 0 then 0 else Xor(s[..|s| - 1]) ^ s[|s| - 1]
  }

  /** Changing one byte changes the XOR by exactly the difference. */
  lemma {:induction false} XorUpdate(s: seq<bv8>, i: nat, b: bv8)
    requires i < |s|
    ensures Xor(s[i := b]) == Xor(s) ^ s[i] ^ b
  {
    var t := s[i := b];
    var n := |s| - 1;
    if i == n {
      assert t[..n] == s[..n];
      XorSwap(Xor(s[..n]), s[n], b);
    } else {
      assert t[..n] == s[..n][i := b];
      XorUpdate(s[..n], i, b);
      XorRegroup(Xor(s[..n]), s[i], b, s[n]);
    }
  }

  lemma XorSwap(x: bv8, a: bv8, b: bv8)
    ensures x ^ b == x ^ a ^ a ^ b
  {
  }

  lemma XorRegroup(x: bv8, a: bv8, b: bv8, y: bv8)
    ensures x ^ a ^ b ^ y == x ^ y ^ a ^ b
  {
  }

  lemma XorCancel(x: bv8, a: bv8, b: bv8)
    requires b != a
    ensures x ^ a ^ b != x
  {
  }

  /** The checksum catches every single corrupted byte. */
  lemma XorDetects(s: seq<bv8>, i: nat, b: bv8)
    requires i < |s| && b != s[i]
    ensures Xor(s[i := b]) != Xor(s)
  {
    XorUpdate(s, i, b);
    XorCancel(Xor(s), s[i], b);
  }

  /** `_flash_calculate_crc_`: 0 for size 0, else value[0] xor-ed with the
      rest. */
  method Crc(value: array<bv8>, size: nat) returns (crc: bv8)
    requires size <= value.Length
    ensures crc == Xor(value[..size])
  {
    if size == 0 {
      return 0;
    }
    crc := value[0];
    assert value[..1][..0] == [];
    var i := 1;
    while i < size
      invariant 1 <= i <= size
      invariant crc == Xor(value[..i])
    {
      assert value[..i + 1][..i] == value[..i];
      crc := crc ^ value[i];
      i := i + 1;
    }
  }

  // ---------------------------------------------------------------------
  // The header walk

  /** A walk position whose header bytes are inside the flash array. */
  predicate InWalk(L: Layout, m: seq<bv8>, p: nat)
  {
    |m| >= L.end + TAIL && p <= L.end + 260
  }

  /** The walk goes on past `p`: a header with the magic byte below the end. */
  predicate Steps(L: Layout, m: seq<bv8>, p: nat)
    requires InWalk(L, m, p)
  {
    m[p] == L.magic && p < L.end
  }

  /** The stored size of the record at `p`. */
  function SizeAt(m: seq<bv8>, p: nat): (n: nat)
    requires p + 2 < |m|
    ensures n < 256
  {
    m[p + 2] as nat
  }

  /** The next header: stride size + 6, with no room for a pad byte. */
  function Next(m: seq<bv8>, p: nat): nat
    requires p + 2 < |m|
  {
    p + SizeAt(m, p) + HEADER_SIZE
  }

  /** Where the walk from `p` stops: the first header without the magic
      byte, or the first one at or past the end. */
  function FreeFrom(L: Layout, m: seq<bv8>, p: nat): (f: nat)
    requires InWalk(L, m, p)
    ensures p <= f && InWalk(L, m, f) && !Steps(L, m, f)
    decreases L.end - p
  {
    if Steps(L, m, p) then FreeFrom(L, m, Next(m, p)) else p
  }

  /** The first record on the walk from `p` with the key and status valid. */
  function FirstValid(L: Layout, m: seq<bv8>, p: nat, key: bv8): (r: Option<nat>)
    requires InWalk(L, m, p)
    ensures r.Some? ==> p <= r.value && InWalk(L, m, r.value) && Steps(L, m, r.value)
    ensures r.Some? ==> m[r.value + 1] == key && m[r.value + 3] == L.valid
    ensures r.Some? ==> Next(m, r.value) <= FreeFrom(L, m, p)
    decreases L.end - p
  {
    if Steps(L, m, p) then
      if m[p + 1] == key && m[p + 3] == L.valid then Some(p)
      else FirstValid(L, m, Next(m, p), key)
    else None
  }

  /** What `read_data_from_flash` returns FLASH_OK with: the value bytes of
      the first valid record of the key, when their XOR matches the stored
      crc byte. */
  function Lookup(L: Layout, m: seq<bv8>, key: bv8): Option<seq<bv8>>
    requires |m| >= L.end + TAIL && L.start <= L.end
  {
    match FirstValid(L, m, L.start, key)
    case None => None
    case Some(r) =>
      var v := m[r + HEADER_SIZE..Next(m, r)];
      if Xor(v) == m[r + 5] then Some(v) else None
  }

  /** The lookup through a known first valid record. */
  lemma LookupAt(L: Layout, m: seq<bv8>, key: bv8, r: nat)
    requires |m| >= L.end + TAIL && L.start <= L.end
    requires FirstValid(L, m, L.start, key) == Some(r)
    ensures Lookup(L, m, key) == if Xor(m[r + HEADER_SIZE..Next(m, r)]) == m[r + 5]
                                 then Some(m[r + HEADER_SIZE..Next(m, r)]) else None
  {
  }

  /** The lookup finds the value of a first valid record whose stored crc
      matches it. */
  lemma LookupRecord(L: Layout, m: seq<bv8>, key: bv8, r: nat, v: seq<bv8>)
    requires |m| >= L.end + TAIL && L.start <= L.end
    requires FirstValid(L, m, L.start, key) == Some(r)
    requires m[r + HEADER_SIZE..Next(m, r)] == v && m[r + 5] == Xor(v)
    ensures Lookup(L, m, key) == Some(v)
  {
    LookupAt(L, m, key, r);
  }

  /** At most one valid record of the key on the walk. */
  predicate Unique(L: Layout, m: seq<bv8>, key: bv8)
    requires |m| >= L.end + TAIL && L.start <= L.end
  {
    match FirstValid(L, m, L.start, key)
    case None => true
    case Some(r) => FirstValid(L, m, Next(m, r), key).None?
  }

  /** Every byte from the free slot on is erased. */
  predicate ErasedAfterFree(L: Layout, m: seq<bv8>)
    requires |m| >= L.end + TAIL && L.start <= L.end
  {
    forall i :: FreeFrom(L, m, L.start) <= i < |m| ==> m[i] == 0xFF
  }

  // ---------------------------------------------------------------------
  // The walk under changes

  /** Bytes at or past the free slot do not affect the walk up to it: it
      reaches the same slot and finds the same records before it. */
  lemma {:induction false} WalkFrame(L: Layout, m: seq<bv8>, m': seq<bv8>, p: nat, key: bv8)
    requires InWalk(L, m, p) && |m'| == |m|
    requires forall i :: 0 <= i < FreeFrom(L, m, p) ==> m'[i] == m[i]
    ensures FreeFrom(L, m', p) == FreeFrom(L, m', FreeFrom(L, m, p))
    ensures FirstValid(L, m', p, key)
            == if FirstValid(L, m, p, key).Some? then FirstValid(L, m, p, key)
               else FirstValid(L, m', FreeFrom(L, m, p), key)
    decreases L.end - p
  {
    if Steps(L, m, p) {
      var n := Next(m, p);
      assert FreeFrom(L, m, p) == FreeFrom(L, m, n);
      assert p + 3 < n <= FreeFrom(L, m, n);
      assert m'[p] == m[p] && m'[p + 1] == m[p + 1] && m'[p + 2] == m[p + 2] && m'[p + 3] == m[p + 3];
      assert Next(m', p) == n;
      WalkFrame(L, m, m', n, key);
    }
  }

  /** A change below the walk's start does not affect it. */
  lemma {:induction false} BelowFrame(L: Layout, m: seq<bv8>, p: nat, x: nat, b: bv8, key: bv8)
    requires InWalk(L, m, p) && x < p
    ensures FreeFrom(L, m[x := b], p) == FreeFrom(L, m, p)
    ensures FirstValid(L, m[x := b], p, key) == FirstValid(L, m, p, key)
    decreases L.end - p
  {
    var m' := m[x := b];
    assert m'[p] == m[p];
    if Steps(L, m, p) {
      var n := Next(m, p);
      assert m'[p + 1] == m[p + 1] && m'[p + 2] == m[p + 2] && m'[p + 3] == m[p + 3];
      assert Steps(L, m', p) && Next(m', p) == n;
      BelowFrame(L, m, n, x, b, key);
    } else {
      assert !Steps(L, m', p);
    }
  }

  /** Marking the first valid record of a key with another status leaves
      the walk's end in place, and the key's first valid record is then the
      next one after it. */
  lemma MarkFrame(L: Layout, m: seq<bv8>, p: nat, key: bv8, r: nat, b: bv8)
    requires InWalk(L, m, p) && FirstValid(L, m, p, key) == Some(r) && b != L.valid
    ensures FreeFrom(L, m[r + 3 := b], p) == FreeFrom(L, m, p)
    ensures FirstValid(L, m[r + 3 := b], p, key) == FirstValid(L, m, Next(m, r), key)
  {
    MarkFree(L, m, p, key, r, b);
    MarkFirst(L, m, p, key, r, b);
  }

  lemma {:induction false} MarkFree(L: Layout, m: seq<bv8>, p: nat, key: bv8, r: nat, b: bv8)
    requires InWalk(L, m, p) && FirstValid(L, m, p, key) == Some(r)
    ensures FreeFrom(L, m[r + 3 := b], p) == FreeFrom(L, m, p)
    decreases L.end - p
  {
    var m' := m[r + 3 := b];
    var n := Next(m, p);
    assert m'[p] == m[p] && m'[p + 2] == m[p + 2];
    assert Steps(L, m', p) && Next(m', p) == n;
    assert FreeFrom(L, m', p) == FreeFrom(L, m', n) && FreeFrom(L, m, p) == FreeFrom(L, m, n);
    if r == p {
      BelowFrame(L, m, n, r + 3, b, key);
    } else {
      assert FirstValid(L, m, n, key) == Some(r);
      MarkFree(L, m, n, key, r, b);
    }
  }

  lemma {:induction false} MarkFirst(L: Layout, m: seq<bv8>, p: nat, key: bv8, r: nat, b: bv8)
    requires InWalk(L, m, p) && FirstValid(L, m, p, key) == Some(r) && b != L.valid
    ensures FirstValid(L, m[r + 3 := b], p, key) == FirstValid(L, m, Next(m, r), key)
    decreases L.end - p
  {
    var m' := m[r + 3 := b];
    var n := Next(m, p);
    assert m'[p] == m[p] && m'[p + 2] == m[p + 2];
    assert Steps(L, m', p) && Next(m', p) == n;
    if r == p {
      assert FirstValid(L, m', p, key) == FirstValid(L, m', n, key);
      BelowFrame(L, m, n, r + 3, b, key);
    } else {
      assert FirstValid(L, m, n, key) == Some(r);
      assert m'[p + 1] == m[p + 1] && m'[p + 3] == m[p + 3];
      assert FirstValid(L, m', p, key) == FirstValid(L, m', n, key);
      MarkFirst(L, m, n, key, r, b);
    }
  }

  /** `x` is a step of the walk from `p`. */
  predicate OnWalk(L: Layout, m: seq<bv8>, p: nat, x: nat)
    requires InWalk(L, m, p)
    ensures OnWalk(L, m, p, x) ==> p <= x < L.end && InWalk(L, m, x) && Steps(L, m, x)
    decreases L.end - p
  {
    Steps(L, m, p) && (x == p || OnWalk(L, m, Next(m, p), x))
  }

  /** The first valid record of a key is a step of the walk. */
  lemma {:induction false} FirstValidOnWalk(L: Layout, m: seq<bv8>, p: nat, key: bv8)
    requires InWalk(L, m, p) && FirstValid(L, m, p, key).Some?
    ensures OnWalk(L, m, p, FirstValid(L, m, p, key).value)
    decreases L.end - p
  {
    if !(m[p + 1] == key && m[p + 3] == L.valid) {
      FirstValidOnWalk(L, m, Next(m, p), key);
    }
  }

  /** The walk goes on from past any of its steps to the same free slot. */
  lemma {:induction false} OnWalkFree(L: Layout, m: seq<bv8>, p: nat, x: nat)
    requires InWalk(L, m, p) && OnWalk(L, m, p, x)
    ensures FreeFrom(L, m, Next(m, x)) == FreeFrom(L, m, p)
    decreases L.end - p
  {
    if x != p {
      OnWalkFree(L, m, Next(m, p), x);
    }
  }

  /** Two steps of one walk do not overlap: the earlier record ends at or
      before the later one, which the walk then reaches from its end. */
  lemma {:induction false} OnWalkApart(L: Layout, m: seq<bv8>, p: nat, x: nat, y: nat)
    requires InWalk(L, m, p) && OnWalk(L, m, p, x) && OnWalk(L, m, p, y) && x < y
    ensures Next(m, x) <= y && OnWalk(L, m, Next(m, x), y)
    decreases L.end - p
  {
    if x != p {
      OnWalkApart(L, m, Next(m, p), x, y);
    }
  }

  /** Rewriting the status byte of a step whose key is not `k` leaves the
      walk's end and the first valid record of `k` where they were. */
  lemma {:induction false} StatusFrame(L: Layout, m: seq<bv8>, p: nat, x: nat, b: bv8, k: bv8)
    requires InWalk(L, m, p) && OnWalk(L, m, p, x) && m[x + 1] != k
    ensures FreeFrom(L, m[x + 3 := b], p) == FreeFrom(L, m, p)
    ensures FirstValid(L, m[x + 3 := b], p, k) == FirstValid(L, m, p, k)
    decreases L.end - p
  {
    var m' := m[x + 3 := b];
    var n := Next(m, p);
    assert m'[p] == m[p] && m'[p + 1] == m[p + 1] && m'[p + 2] == m[p + 2];
    assert Steps(L, m', p) && Next(m', p) == n;
    if x == p {
      BelowFrame(L, m, n, x + 3, b, k);
    } else {
      assert m'[p + 3] == m[p + 3];
      StatusFrame(L, m, n, x, b, k);
    }
  }

  // ---------------------------------------------------------------------
  // Saving

  /** The header bytes in the struct's field order. */
  function HeaderBytes(magic: bv8, key: bv8, size: bv8, status: bv8, reserved: bv8, crc: bv8): (h: seq<bv8>)
    ensures |h| == HEADER_SIZE
  {
    [magic, key, size, status, reserved, crc]
  }

  /** The flash after the first step of a save: the key's first valid
      record rewritten with status DELETED. */
  function Marked(L: Layout, m: seq<bv8>, key: bv8): (r: seq<bv8>)
    requires |m| >= L.end + TAIL && L.start <= L.end
    ensures |r| == |m|
  {
    match FirstValid(L, m, L.start, key)
    case None => m
    case Some(r) => Programmed(m, r, m[r..r + 3] + [L.deleted] + m[r + 4..r + 6])
  }

  /** A record appended at `f`: the header, then the value from f + 6. */
  function Appended(m: seq<bv8>, f: nat, hdr: seq<bv8>, v: seq<bv8>): (r: seq<bv8>)
    requires |hdr| == HEADER_SIZE && f + HEADER_SIZE + PaddedSize(|v|) <= |m|
    ensures |r| == |m|
  {
    Programmed(Programmed(m, f, hdr), f + HEADER_SIZE, v)
  }

  /** The flash after a save of `v` under `key` that found a free slot. */
  function Saved(L: Layout, m: seq<bv8>, key: bv8, v: seq<bv8>, reserved: bv8): (s: seq<bv8>)
    requires |m| >= L.end + TAIL && L.start <= L.end
    requires 1 <= |v| < 256 && FreeFrom(L, m, L.start) < L.end
    ensures |s| == |m|
  {
    var hdr := HeaderBytes(L.magic, key, SizeByte(|v|), L.valid, reserved, Xor(v));
    Appended(Marked(L, m, key), FreeFrom(L, m, L.start), hdr, v)
  }

  // The bytes of an appended record, one fact per lemma.

  lemma AppendedBelow(m: seq<bv8>, f: nat, hdr: seq<bv8>, v: seq<bv8>)
    requires |hdr| == HEADER_SIZE && f + HEADER_SIZE + PaddedSize(|v|) <= |m|
    ensures forall i :: 0 <= i < f ==> Appended(m, f, hdr, v)[i] == m[i]
  {
    ProgrammedAt(m, f, hdr);
    ProgrammedAt(Programmed(m, f, hdr), f + HEADER_SIZE, v);
  }

  lemma AppendedAbove(m: seq<bv8>, f: nat, hdr: seq<bv8>, v: seq<bv8>)
    requires |hdr| == HEADER_SIZE && f + HEADER_SIZE + PaddedSize(|v|) <= |m|
    ensures forall i :: f + HEADER_SIZE + PaddedSize(|v|) <= i < |m| ==> Appended(m, f, hdr, v)[i] == m[i]
  {
    ProgrammedAt(m, f, hdr);
    ProgrammedAt(Programmed(m, f, hdr), f + HEADER_SIZE, v);
  }

  lemma AppendedAboveAt(m: seq<bv8>, f: nat, hdr: seq<bv8>, v: seq<bv8>, i: nat)
    requires |hdr| == HEADER_SIZE && f + HEADER_SIZE + PaddedSize(|v|) <= i < |m|
    ensures Appended(m, f, hdr, v)[i] == m[i]
  {
    AppendedAbove(m, f, hdr, v);
  }

  lemma AppendedHeader(m: seq<bv8>, f: nat, hdr: seq<bv8>, v: seq<bv8>)
    requires |hdr| == HEADER_SIZE && f + HEADER_SIZE + PaddedSize(|v|) <= |m|
    ensures Appended(m, f, hdr, v)[f..f + HEADER_SIZE] == hdr
  {
    var s := Appended(m, f, hdr, v);
    var s1 := Programmed(m, f, hdr);
    ProgrammedAt(m, f, hdr);
    ProgrammedAt(s1, f + HEADER_SIZE, v);
    assert Padded(hdr) == hdr;
    assert forall k :: 0 <= k < HEADER_SIZE ==> s[f..f + HEADER_SIZE][k] == s1[f + k] == hdr[k];
  }

  lemma AppendedValue(m: seq<bv8>, f: nat, hdr: seq<bv8>, v: seq<bv8>)
    requires |hdr| == HEADER_SIZE && f + HEADER_SIZE + PaddedSize(|v|) <= |m|
    ensures Appended(m, f, hdr, v)[f + HEADER_SIZE..f + HEADER_SIZE + |v|] == v
  {
    var s := Appended(m, f, hdr, v);
    ProgrammedAt(Programmed(m, f, hdr), f + HEADER_SIZE, v);
    assert forall k :: 0 <= k < |v| ==> s[f + HEADER_SIZE..f + HEADER_SIZE + |v|][k] == Padded(v)[k] == v[k];
  }

  lemma AppendedPad(m: seq<bv8>, f: nat, hdr: seq<bv8>, v: seq<bv8>)
    requires |hdr| == HEADER_SIZE && f + HEADER_SIZE + PaddedSize(|v|) <= |m|
    requires |v| % 2 == 1
    ensures Appended(m, f, hdr, v)[f + HEADER_SIZE + |v|] == 0xFF
  {
    ProgrammedAt(Programmed(m, f, hdr), f + HEADER_SIZE, v);
  }

  /** Rewriting a header with one byte changed is that byte's update. */
  lemma RewriteStatus(m: seq<bv8>, r: nat, b: bv8)
    requires r + 6 <= |m|
    ensures Programmed(m, r, m[r..r + 3] + [b] + m[r + 4..r + 6]) == m[r + 3 := b]
  {
    var h := m[r..r + 3] + [b] + m[r + 4..r + 6];
    ProgrammedAt(m, r, h);
    assert |h| == 6 && Padded(h) == h;
    assert forall k :: 0 <= k < 6 ==> h[k] == m[r + 3 := b][r + k];
  }

  /** The first step changes only the marked record's status byte. */
  lemma MarkedIs(L: Layout, m: seq<bv8>, key: bv8, r: nat)
    requires WellFormed(L) && |m| >= L.end + TAIL
    requires FirstValid(L, m, L.start, key) == Some(r)
    ensures Marked(L, m, key) == m[r + 3 := L.deleted]
  {
    RewriteStatus(m, r, L.deleted);
  }

  /** The first step keeps every byte from the free slot on. */
  lemma MarkedAt(L: Layout, m: seq<bv8>, key: bv8, i: nat)
    requires WellFormed(L) && |m| >= L.end + TAIL
    requires FreeFrom(L, m, L.start) <= i < |m|
    ensures Marked(L, m, key)[i] == m[i]
  {
    match FirstValid(L, m, L.start, key)
    case None =>
    case Some(r) =>
      MarkedIs(L, m, key, r);
  }

  /** The first step keeps the walk's end and every byte from it on; the
      key's first valid record is then the one after the marked record. */
  lemma MarkedWalk(L: Layout, m: seq<bv8>, key: bv8)
    requires WellFormed(L) && |m| >= L.end + TAIL
    ensures FreeFrom(L, Marked(L, m, key), L.start) == FreeFrom(L, m, L.start)
    ensures FirstValid(L, Marked(L, m, key), L.start, key)
            == match FirstValid(L, m, L.start, key)
               case None => None
               case Some(r) => FirstValid(L, m, Next(m, r), key)
    ensures forall i :: FreeFrom(L, m, L.start) <= i < |m| ==> Marked(L, m, key)[i] == m[i]
  {
    match FirstValid(L, m, L.start, key)
    case None =>
    case Some(r) =>
      MarkedIs(L, m, key, r);
      MarkFrame(L, m, L.start, key, r, L.deleted);
  }

  /** The `uint8_t` size field of a value that fits it, counted up one by
      one so that each step's read-back is a small fact: it reads back as
      the value's length. */
  function SizeByte(n: nat): (b: bv8)
    requires n < 256
    ensures b as nat == n
  {
    if n == 0 then 0
    else
      var b := SizeByte(n - 1);
      ByteSucc(b);
      b + 1
  }

  /** A byte below 255 steps up without wrapping. */
  lemma ByteSucc(b: bv8)
    requires b as nat < 255
    ensures (b + 1) as nat == b as nat + 1
  {
  }

  /** The record a save appends sits at the old free slot, with the magic
      byte, the key, the status valid, the value's length, the value and
      its checksum. */
  lemma SavedRecord(L: Layout, m: seq<bv8>, key: bv8, v: seq<bv8>, reserved: bv8)
    requires WellFormed(L) && |m| >= L.end + TAIL
    requires 1 <= |v| < 256 && FreeFrom(L, m, L.start) < L.end
    ensures var f := FreeFrom(L, m, L.start);
            var s := Saved(L, m, key, v, reserved);
            && Steps(L, s, f) && s[f + 1] == key && s[f + 3] == L.valid && s[f + 5] == Xor(v)
            && SizeAt(s, f) == |v| && s[f + HEADER_SIZE..Next(s, f)] == v
  {
    SavedHeader(L, m, key, v, reserved);
    SavedValue(L, m, key, v, reserved);
    RecordAt(L, Saved(L, m, key, v, reserved), FreeFrom(L, m, L.start), key, v, reserved);
  }

  /** A record written at `f` below the end is a step of the walk whose
      fields and value read back. */
  lemma RecordAt(L: Layout, s: seq<bv8>, f: nat, key: bv8, v: seq<bv8>, reserved: bv8)
    requires |s| >= L.end + TAIL && f < L.end && |v| < 256
    requires s[f..f + HEADER_SIZE] == HeaderBytes(L.magic, key, SizeByte(|v|), L.valid, reserved, Xor(v))
    requires s[f + HEADER_SIZE..f + HEADER_SIZE + |v|] == v
    ensures Steps(L, s, f) && s[f + 1] == key && s[f + 3] == L.valid && s[f + 5] == Xor(v)
    ensures SizeAt(s, f) == |v| && s[f + HEADER_SIZE..Next(s, f)] == v
  {
    HeaderFields(s, f, L.magic, key, SizeByte(|v|), L.valid, reserved, Xor(v));
  }

  /** The header bytes a save writes at the old free slot. */
  lemma SavedHeader(L: Layout, m: seq<bv8>, key: bv8, v: seq<bv8>, reserved: bv8)
    requires WellFormed(L) && |m| >= L.end + TAIL
    requires 1 <= |v| < 256 && FreeFrom(L, m, L.start) < L.end
    ensures var f := FreeFrom(L, m, L.start);
            Saved(L, m, key, v, reserved)[f..f + HEADER_SIZE]
            == HeaderBytes(L.magic, key, SizeByte(|v|), L.valid, reserved, Xor(v))
  {
    var hdr := HeaderBytes(L.magic, key, SizeByte(|v|), L.valid, reserved, Xor(v));
    AppendedHeader(Marked(L, m, key), FreeFrom(L, m, L.start), hdr, v);
  }

  /** The fields of a header read back from its bytes. */
  lemma HeaderFields(s: seq<bv8>, f: nat, magic: bv8, key: bv8, size: bv8, status: bv8, reserved: bv8, crc: bv8)
    requires f + HEADER_SIZE <= |s|
    requires s[f..f + HEADER_SIZE] == HeaderBytes(magic, key, size, status, reserved, crc)
    ensures s[f] == magic && s[f + 1] == key && s[f + 2] == size
    ensures s[f + 3] == status && s[f + 4] == reserved && s[f + 5] == crc
  {
    var h := s[f..f + HEADER_SIZE];
    assert s[f] == h[0] && s[f + 1] == h[1] && s[f + 2] == h[2];
    assert s[f + 3] == h[3] && s[f + 4] == h[4] && s[f + 5] == h[5];
  }

  /** The value bytes a save writes after the header. */
  lemma SavedValue(L: Layout, m: seq<bv8>, key: bv8, v: seq<bv8>, reserved: bv8)
    requires WellFormed(L) && |m| >= L.end + TAIL
    requires 1 <= |v| < 256 && FreeFrom(L, m, L.start) < L.end
    ensures var f := FreeFrom(L, m, L.start);
            Saved(L, m, key, v, reserved)[f + HEADER_SIZE..f + HEADER_SIZE + |v|] == v
  {
    var hdr := HeaderBytes(L.magic, key, SizeByte(|v|), L.valid, reserved, Xor(v));
    AppendedValue(Marked(L, m, key), FreeFrom(L, m, L.start), hdr, v);
  }

  /** Below the old free slot a save leaves the marked flash as it is. */
  lemma SavedBelow(L: Layout, m: seq<bv8>, key: bv8, v: seq<bv8>, reserved: bv8)
    requires WellFormed(L) && |m| >= L.end + TAIL
    requires 1 <= |v| < 256 && FreeFrom(L, m, L.start) < L.end
    ensures |Saved(L, m, key, v, reserved)| == |m|
    ensures forall i :: 0 <= i < FreeFrom(L, m, L.start) ==> Saved(L, m, key, v, reserved)[i] == Marked(L, m, key)[i]
  {
    var hdr := HeaderBytes(L.magic, key, SizeByte(|v|), L.valid, reserved, Xor(v));
    AppendedBelow(Marked(L, m, key), FreeFrom(L, m, L.start), hdr, v);
  }

  /** With at most one valid record of the key before, the marked flash
      has none on the walk, which still ends at the same free slot. */
  lemma MarkedNone(L: Layout, m: seq<bv8>, key: bv8)
    requires WellFormed(L) && |m| >= L.end + TAIL
    requires Unique(L, m, key)
    ensures FreeFrom(L, Marked(L, m, key), L.start) == FreeFrom(L, m, L.start)
    ensures FirstValid(L, Marked(L, m, key), L.start, key) == None
  {
    MarkedWalk(L, m, key);
  }

  /** The walk of the saved flash up to the old free slot is that of the
      marked flash. */
  lemma SavedWalk(L: Layout, m: seq<bv8>, key: bv8, v: seq<bv8>, reserved: bv8)
    requires WellFormed(L) && |m| >= L.end + TAIL
    requires 1 <= |v| < 256 && FreeFrom(L, m, L.start) < L.end
    requires Unique(L, m, key)
    ensures FreeFrom(L, Saved(L, m, key, v, reserved), L.start)
            == FreeFrom(L, Saved(L, m, key, v, reserved), FreeFrom(L, m, L.start))
    ensures FirstValid(L, Saved(L, m, key, v, reserved), L.start, key)
            == FirstValid(L, Saved(L, m, key, v, reserved), FreeFrom(L, m, L.start), key)
  {
    var m1 := Marked(L, m, key);
    MarkedNone(L, m, key);
    SavedBelow(L, m, key, v, reserved);
    WalkFrame(L, m1, Saved(L, m, key, v, reserved), L.start, key);
  }

  /** After a save, the key's first valid record is the new one. */
  lemma SavedFirstValid(L: Layout, m: seq<bv8>, key: bv8, v: seq<bv8>, reserved: bv8)
    requires WellFormed(L) && |m| >= L.end + TAIL
    requires 1 <= |v| < 256 && FreeFrom(L, m, L.start) < L.end
    requires Unique(L, m, key)
    ensures FirstValid(L, Saved(L, m, key, v, reserved), L.start, key) == Some(FreeFrom(L, m, L.start))
  {
    SavedWalk(L, m, key, v, reserved);
    SavedRecord(L, m, key, v, reserved);
  }

  /** Read after save: after a save under `key` of a value of 1 to 255
      bytes, with a free slot and at most one valid record of the key
      before, the key's first valid record is the new one and the lookup
      of the key finds exactly the value saved. */
  lemma SaveThenLookup(L: Layout, m: seq<bv8>, key: bv8, v: seq<bv8>, reserved: bv8)
    requires WellFormed(L) && |m| >= L.end + TAIL
    requires 1 <= |v| < 256 && FreeFrom(L, m, L.start) < L.end
    requires Unique(L, m, key)
    ensures FirstValid(L, Saved(L, m, key, v, reserved), L.start, key) == Some(FreeFrom(L, m, L.start))
    ensures Lookup(L, Saved(L, m, key, v, reserved), key) == Some(v)
  {
    SavedFirstValid(L, m, key, v, reserved);
    SavedRecord(L, m, key, v, reserved);
    LookupRecord(L, Saved(L, m, key, v, reserved), key, FreeFrom(L, m, L.start), v);
  }

  /** A save over an erased tail leaves everything past the new value
      erased, the pad byte of an odd-length value included. */
  lemma SavedErasedFrom(L: Layout, m: seq<bv8>, key: bv8, v: seq<bv8>, reserved: bv8)
    requires WellFormed(L) && |m| >= L.end + TAIL
    requires 1 <= |v| < 256 && FreeFrom(L, m, L.start) < L.end
    requires ErasedAfterFree(L, m)
    ensures forall i :: FreeFrom(L, m, L.start) + HEADER_SIZE + |v| <= i < |m| ==> Saved(L, m, key, v, reserved)[i] == 0xFF
  {
    forall i | FreeFrom(L, m, L.start) + HEADER_SIZE + |v| <= i < |m|
      ensures Saved(L, m, key, v, reserved)[i] == 0xFF
    {
      SavedByteAbove(L, m, key, v, reserved, i);
    }
  }

  /** One erased byte past the new value stays erased. */
  lemma SavedByteAbove(L: Layout, m: seq<bv8>, key: bv8, v: seq<bv8>, reserved: bv8, i: nat)
    requires WellFormed(L) && |m| >= L.end + TAIL
    requires 1 <= |v| < 256 && FreeFrom(L, m, L.start) < L.end
    requires FreeFrom(L, m, L.start) + HEADER_SIZE + |v| <= i < |m| && m[i] == 0xFF
    ensures Saved(L, m, key, v, reserved)[i] == 0xFF
  {
    if i == FreeFrom(L, m, L.start) + HEADER_SIZE + |v| && |v| % 2 == 1 {
      SavedPad(L, m, key, v, reserved);
    } else {
      SavedBeyond(L, m, key, v, reserved, i);
    }
  }

  /** The pad byte of an odd-length value is 0xFF. */
  lemma SavedPad(L: Layout, m: seq<bv8>, key: bv8, v: seq<bv8>, reserved: bv8)
    requires WellFormed(L) && |m| >= L.end + TAIL
    requires 1 <= |v| < 256 && FreeFrom(L, m, L.start) < L.end && |v| % 2 == 1
    ensures Saved(L, m, key, v, reserved)[FreeFrom(L, m, L.start) + HEADER_SIZE + |v|] == 0xFF
  {
    var hdr := HeaderBytes(L.magic, key, SizeByte(|v|), L.valid, reserved, Xor(v));
    AppendedPad(Marked(L, m, key), FreeFrom(L, m, L.start), hdr, v);
  }

  /** Past the programmed bytes a save keeps the flash as it was. */
  lemma SavedBeyond(L: Layout, m: seq<bv8>, key: bv8, v: seq<bv8>, reserved: bv8, i: nat)
    requires WellFormed(L) && |m| >= L.end + TAIL
    requires 1 <= |v| < 256 && FreeFrom(L, m, L.start) < L.end
    requires FreeFrom(L, m, L.start) + HEADER_SIZE + PaddedSize(|v|) <= i < |m|
    ensures Saved(L, m, key, v, reserved)[i] == m[i]
  {
    var hdr := HeaderBytes(L.magic, key, SizeByte(|v|), L.valid, reserved, Xor(v));
    MarkedAt(L, m, key, i);
    AppendedAboveAt(Marked(L, m, key), FreeFrom(L, m, L.start), hdr, v, i);
  }

  /** The walk of the saved flash stops just past the new record. */
  lemma SavedFree(L: Layout, m: seq<bv8>, key: bv8, v: seq<bv8>, reserved: bv8)
    requires WellFormed(L) && |m| >= L.end + TAIL
    requires 1 <= |v| < 256 && FreeFrom(L, m, L.start) < L.end
    requires Unique(L, m, key) && ErasedAfterFree(L, m)
    ensures var s := Saved(L, m, key, v, reserved);
            var n := FreeFrom(L, m, L.start) + HEADER_SIZE + |v|;
            InWalk(L, s, n) && !Steps(L, s, n) && FreeFrom(L, s, L.start) == n
  {
    var s := Saved(L, m, key, v, reserved);
    var f := FreeFrom(L, m, L.start);
    var n := f + HEADER_SIZE + |v|;
    SavedWalk(L, m, key, v, reserved);
    SavedTail(L, m, key, v, reserved);
    StopsAfter(L, s, f, n);
  }

  /** The new record is a step of the walk with the saved key, and the
      byte after its value is erased. */
  lemma SavedTail(L: Layout, m: seq<bv8>, key: bv8, v: seq<bv8>, reserved: bv8)
    requires WellFormed(L) && |m| >= L.end + TAIL
    requires 1 <= |v| < 256 && FreeFrom(L, m, L.start) < L.end
    requires ErasedAfterFree(L, m)
    ensures var s := Saved(L, m, key, v, reserved);
            var f := FreeFrom(L, m, L.start);
            InWalk(L, s, f) && Steps(L, s, f) && s[f + 1] == key && Next(s, f) == f + HEADER_SIZE + |v|
            && f + HEADER_SIZE + |v| < |s| && s[f + HEADER_SIZE + |v|] == 0xFF
  {
    var n := FreeFrom(L, m, L.start) + HEADER_SIZE + |v|;
    SavedRecord(L, m, key, v, reserved);
    assert m[n] == 0xFF;
    SavedByteAbove(L, m, key, v, reserved, n);
  }

  /** A step whose successor holds an erased byte ends the walk there. */
  lemma StopsAfter(L: Layout, s: seq<bv8>, f: nat, n: nat)
    requires L.magic != 0xFF && InWalk(L, s, f) && Steps(L, s, f)
    requires n == Next(s, f) && n < |s| && s[n] == 0xFF
    ensures InWalk(L, s, n) && !Steps(L, s, n) && FreeFrom(L, s, f) == n
  {
  }

  /** A save keeps the log in shape: the free slot moves to just past the
      new record's value, everything from there on stays erased, and the
      key has exactly one valid record. */
  lemma SaveKeepsShape(L: Layout, m: seq<bv8>, key: bv8, v: seq<bv8>, reserved: bv8)
    requires WellFormed(L) && |m| >= L.end + TAIL
    requires 1 <= |v| < 256 && FreeFrom(L, m, L.start) < L.end
    requires Unique(L, m, key) && ErasedAfterFree(L, m)
    ensures FreeFrom(L, Saved(L, m, key, v, reserved), L.start) == FreeFrom(L, m, L.start) + HEADER_SIZE + |v|
    ensures ErasedAfterFree(L, Saved(L, m, key, v, reserved))
    ensures Unique(L, Saved(L, m, key, v, reserved), key)
  {
    SavedFree(L, m, key, v, reserved);
    SavedErasedFrom(L, m, key, v, reserved);
    SavedFirstValid(L, m, key, v, reserved);
    SavedRecord(L, m, key, v, reserved);
  }

  /** Marking the key's first valid record changes neither the walk's end
      nor the first valid record of another key, seen from any point that
      the marked record lies before or on the walk from. */
  lemma MarkedOthers(L: Layout, m: seq<bv8>, key: bv8, k2: bv8, p: nat)
    requires WellFormed(L) && |m| >= L.end + TAIL && InWalk(L, m, p) && k2 != key
    requires FirstValid(L, m, L.start, key).Some? ==>
               var r := FirstValid(L, m, L.start, key).value;
               r + 3 < p || OnWalk(L, m, p, r)
    ensures FreeFrom(L, Marked(L, m, key), p) == FreeFrom(L, m, p)
    ensures FirstValid(L, Marked(L, m, key), p, k2) == FirstValid(L, m, p, k2)
  {
    match FirstValid(L, m, L.start, key)
    case None =>
    case Some(r) =>
      MarkedIs(L, m, key, r);
      StatusKept(L, m, p, r, L.deleted, k2);
  }

  /** Rewriting the status byte of a record of another key that lies
      before `p` or on the walk from it keeps the walk from `p`. */
  lemma StatusKept(L: Layout, m: seq<bv8>, p: nat, x: nat, b: bv8, k: bv8)
    requires InWalk(L, m, p) && x + 3 < |m| && m[x + 1] != k
    requires x + 3 < p || OnWalk(L, m, p, x)
    ensures FreeFrom(L, m[x + 3 := b], p) == FreeFrom(L, m, p)
    ensures FirstValid(L, m[x + 3 := b], p, k) == FirstValid(L, m, p, k)
  {
    if x + 3 < p {
      BelowFrame(L, m, p, x + 3, b, k);
    } else {
      StatusFrame(L, m, p, x, b, k);
    }
  }

  /** Two distinct steps of one walk: the status byte of the one lies
      before the other, or the one lies on the walk past the other. */
  lemma StepsApart(L: Layout, m: seq<bv8>, p: nat, r: nat, r2: nat)
    requires InWalk(L, m, p) && OnWalk(L, m, p, r) && OnWalk(L, m, p, r2) && r != r2
    ensures r + 3 < r2 || (Next(m, r2) <= r && OnWalk(L, m, Next(m, r2), r))
  {
    if r < r2 {
      OnWalkApart(L, m, p, r, r2);
    } else {
      OnWalkApart(L, m, p, r2, r);
    }
  }

  /** The first valid record of another key keeps its bytes through the
      marking, and the marked record lies before it or on the walk after
      it. */
  lemma RecordKept(L: Layout, m: seq<bv8>, key: bv8, k2: bv8, r2: nat)
    requires WellFormed(L) && |m| >= L.end + TAIL && k2 != key
    requires FirstValid(L, m, L.start, k2) == Some(r2)
    ensures forall i :: r2 <= i < Next(m, r2) ==> Marked(L, m, key)[i] == m[i]
    ensures FirstValid(L, m, L.start, key).Some? ==>
              var r := FirstValid(L, m, L.start, key).value;
              r + 3 < Next(m, r2) || OnWalk(L, m, Next(m, r2), r)
  {
    match FirstValid(L, m, L.start, key)
    case None =>
    case Some(r) =>
      MarkedIs(L, m, key, r);
      RecordsApart(L, m, key, k2, r, r2);
      UpdateOutside(m, r + 3, L.deleted, r2, Next(m, r2));
  }

  /** The first valid records of two keys do not overlap: the status byte
      of the one lies before the other, or past its end on the walk. */
  lemma RecordsApart(L: Layout, m: seq<bv8>, key: bv8, k2: bv8, r: nat, r2: nat)
    requires WellFormed(L) && |m| >= L.end + TAIL && k2 != key
    requires FirstValid(L, m, L.start, key) == Some(r) && FirstValid(L, m, L.start, k2) == Some(r2)
    ensures r + 3 < r2 || (Next(m, r2) <= r && OnWalk(L, m, Next(m, r2), r))
  {
    FirstValidOnWalk(L, m, L.start, key);
    FirstValidOnWalk(L, m, L.start, k2);
    StepsApart(L, m, L.start, r, r2);
  }

  /** A one-byte update outside `[lo, hi)` keeps the bytes inside. */
  lemma UpdateOutside(m: seq<bv8>, x: nat, b: bv8, lo: nat, hi: nat)
    requires x < |m| && (x < lo || hi <= x)
    ensures forall i :: lo <= i < hi && i < |m| ==> m[x := b][i] == m[i]
  {
  }

  /** A walk that reaches `f` unchanged and then meets a record of another
      key followed by the walk's end finds the same first valid record of
      `k2` as before. */
  lemma AppendFrame(L: Layout, m1: seq<bv8>, s: seq<bv8>, p: nat, f: nat, n: nat, key: bv8, k2: bv8)
    requires InWalk(L, m1, p) && |s| == |m1| && FreeFrom(L, m1, p) == f && k2 != key
    requires forall i :: 0 <= i < f ==> s[i] == m1[i]
    requires InWalk(L, s, f) && Steps(L, s, f) && s[f + 1] == key && Next(s, f) == n
    requires InWalk(L, s, n) && !Steps(L, s, n)
    ensures FirstValid(L, s, p, k2) == FirstValid(L, m1, p, k2)
  {
    WalkFrame(L, m1, s, p, k2);
    assert FirstValid(L, s, f, k2) == FirstValid(L, s, n, k2) == None;
  }

  /** From a point whose walk in the marked flash ends at the old free
      slot, the saved flash has the same first valid record of another
      key: the new record carries the saved key and the walk stops after
      it. */
  lemma SavedOthersFrom(L: Layout, m: seq<bv8>, key: bv8, k2: bv8, v: seq<bv8>, reserved: bv8, p: nat)
    requires WellFormed(L) && |m| >= L.end + TAIL
    requires 1 <= |v| < 256 && FreeFrom(L, m, L.start) < L.end
    requires Unique(L, m, key) && ErasedAfterFree(L, m) && k2 != key
    requires InWalk(L, m, p) && FreeFrom(L, Marked(L, m, key), p) == FreeFrom(L, m, L.start)
    ensures FirstValid(L, Saved(L, m, key, v, reserved), p, k2) == FirstValid(L, Marked(L, m, key), p, k2)
  {
    var f := FreeFrom(L, m, L.start);
    SavedBelow(L, m, key, v, reserved);
    SavedTail(L, m, key, v, reserved);
    SavedFree(L, m, key, v, reserved);
    AppendFrame(L, Marked(L, m, key), Saved(L, m, key, v, reserved), p, f, f + HEADER_SIZE + |v|, key, k2);
  }

  /** Bytes kept through two changes are kept through both. */
  lemma KeptRecord(m: seq<bv8>, m1: seq<bv8>, s: seq<bv8>, r2: nat, n2: nat, f: nat)
    requires |s| == |m1| == |m| && r2 + HEADER_SIZE <= n2 <= f <= |m|
    requires forall i :: r2 <= i < n2 ==> m1[i] == m[i]
    requires forall i :: 0 <= i < f ==> s[i] == m1[i]
    ensures s[r2 + 2] == m[r2 + 2] && s[r2 + 5] == m[r2 + 5]
    ensures s[r2 + HEADER_SIZE..n2] == m[r2 + HEADER_SIZE..n2]
  {
    assert s[r2 + 2] == m1[r2 + 2] && s[r2 + 5] == m1[r2 + 5];
    assert forall i :: r2 + HEADER_SIZE <= i < n2 ==> s[i] == m1[i] == m[i];
  }

  /** A save under `key` keeps the first valid record of every other key. */
  lemma SavedOthersFirst(L: Layout, m: seq<bv8>, key: bv8, k2: bv8, v: seq<bv8>, reserved: bv8)
    requires WellFormed(L) && |m| >= L.end + TAIL
    requires 1 <= |v| < 256 && FreeFrom(L, m, L.start) < L.end
    requires Unique(L, m, key) && ErasedAfterFree(L, m) && k2 != key
    ensures FirstValid(L, Saved(L, m, key, v, reserved), L.start, k2) == FirstValid(L, m, L.start, k2)
  {
    if FirstValid(L, m, L.start, key).Some? {
      FirstValidOnWalk(L, m, L.start, key);
    }
    MarkedOthers(L, m, key, k2, L.start);
    SavedOthersFrom(L, m, key, k2, v, reserved, L.start);
  }

  /** The record that is the first valid one of another key keeps its
      bytes through a save, and the walk past it finds the same next valid
      record of that key. */
  lemma SavedOtherRecord(L: Layout, m: seq<bv8>, key: bv8, k2: bv8, v: seq<bv8>, reserved: bv8, r2: nat)
    requires WellFormed(L) && |m| >= L.end + TAIL
    requires 1 <= |v| < 256 && FreeFrom(L, m, L.start) < L.end
    requires Unique(L, m, key) && ErasedAfterFree(L, m) && k2 != key
    requires FirstValid(L, m, L.start, k2) == Some(r2)
    ensures var s := Saved(L, m, key, v, reserved);
            && Next(s, r2) == Next(m, r2) && s[r2 + 5] == m[r2 + 5]
            && s[r2 + HEADER_SIZE..Next(m, r2)] == m[r2 + HEADER_SIZE..Next(m, r2)]
            && FirstValid(L, s, Next(m, r2), k2) == FirstValid(L, m, Next(m, r2), k2)
  {
    var n2 := Next(m, r2);
    RecordKept(L, m, key, k2, r2);
    FirstValidOnWalk(L, m, L.start, k2);
    OnWalkFree(L, m, L.start, r2);
    MarkedOthers(L, m, key, k2, n2);
    SavedOthersFrom(L, m, key, k2, v, reserved, n2);
    SavedBelow(L, m, key, v, reserved);
    KeptRecord(m, Marked(L, m, key), Saved(L, m, key, v, reserved), r2, n2, FreeFrom(L, m, L.start));
  }

  /** A save under `key` leaves every other key as it was: its first valid
      record, its having at most one valid record, and what a read of it
      returns. */
  lemma SaveKeepsOthers(L: Layout, m: seq<bv8>, key: bv8, k2: bv8, v: seq<bv8>, reserved: bv8)
    requires WellFormed(L) && |m| >= L.end + TAIL
    requires 1 <= |v| < 256 && FreeFrom(L, m, L.start) < L.end
    requires Unique(L, m, key) && ErasedAfterFree(L, m) && k2 != key
    ensures FirstValid(L, Saved(L, m, key, v, reserved), L.start, k2) == FirstValid(L, m, L.start, k2)
    ensures Unique(L, m, k2) ==> Unique(L, Saved(L, m, key, v, reserved), k2)
    ensures Lookup(L, Saved(L, m, key, v, reserved), k2) == Lookup(L, m, k2)
  {
    SavedOthersFirst(L, m, key, k2, v, reserved);
    match FirstValid(L, m, L.start, k2)
    case None =>
    case Some(r2) =>
      SavedOtherRecord(L, m, key, k2, v, reserved, r2);
      LookupAt(L, m, k2, r2);
      LookupAt(L, Saved(L, m, key, v, reserved), k2, r2);
  }

  /** Two saves under different keys: the first value still reads back
      after the second save, and the second value reads back too. */
  lemma SaveTwiceLookup(L: Layout, m: seq<bv8>, key: bv8, v: seq<bv8>, key2: bv8, v2: seq<bv8>, reserved: bv8)
    requires WellFormed(L) && |m| >= L.end + TAIL
    requires 1 <= |v| < 256 && 1 <= |v2| < 256 && key != key2
    requires FreeFrom(L, m, L.start) < L.end
    requires Unique(L, m, key) && Unique(L, m, key2) && ErasedAfterFree(L, m)
    requires FreeFrom(L, Saved(L, m, key, v, reserved), L.start) < L.end
    ensures var m2 := Saved(L, m, key, v, reserved);
            && Lookup(L, Saved(L, m2, key2, v2, reserved), key) == Some(v)
            && Lookup(L, Saved(L, m2, key2, v2, reserved), key2) == Some(v2)
  {
    var m2 := Saved(L, m, key, v, reserved);
    SaveKeepsShape(L, m, key, v, reserved);
    SaveThenLookup(L, m, key, v, reserved);
    SaveKeepsOthers(L, m, key, key2, v, reserved);
    SaveKeepsOthers(L, m2, key2, key, v2, reserved);
    SaveThenLookup(L, m2, key2, v2, reserved);
  }

  // ---------------------------------------------------------------------
  // The flash device

  class Storage {
    const layout: Layout
    const mem: array<bv8>

    ghost predicate Valid()
      reads this
    {
      WellFormed(layout) && mem.Length >= layout.end + TAIL
    }

    /** Erased storage of the given layout. */
    constructor (L: Layout)
      requires WellFormed(L)
      ensures Valid() && layout == L && fresh(mem)
      ensures forall i :: 0 <= i < mem.Length ==> mem[i] == 0xFF
    {
      layout := L;
      mem := new bv8[L.end + TAIL](_ => 0xFF);
    }

    /** A half-word program: two bytes, little-endian. */
    method ProgramHalfWord(addr: nat, h: bv16)
      requires addr + 1 < mem.Length
      modifies mem
      ensures mem[..] == old(mem[..])[addr := Low(h)][addr + 1 := High(h)]
    {
      mem[addr] := Low(h);
      mem[addr + 1] := High(h);
    }

    /** `_flash_read_half_word_`. */
    function ReadHalfWord(addr: nat): (h: bv16)
      requires addr + 1 < mem.Length
      reads mem
      ensures Low(h) == mem[addr] && High(h) == mem[addr + 1]
    {
      LowOfHalfWord(mem[addr], mem[addr + 1]);
      HighOfHalfWord(mem[addr], mem[addr + 1]);
      HalfWord(mem[addr], mem[addr + 1])
    }

    /** `_flash_write_data_`: FLASH_ERR_WRITE for size 0; otherwise the
        bytes go in as half-words from `addr` up, the last one padded with
        0xFF when the size is odd. */
    method WriteData(addr: nat, data: array<bv8>, size: nat) returns (status: int)
      requires size < 256 && size <= data.Length && data != mem
      requires addr + PaddedSize(size) <= mem.Length
      modifies mem
      ensures size == 0 ==> status == FLASH_ERR_WRITE && mem[..] == old(mem[..])
      ensures size != 0 ==> status == FLASH_OK && mem[..] == Programmed(old(mem[..]), addr, data[..size])
    {
      if size == 0 {
        return FLASH_ERR_WRITE;
      }
      ghost var m0 := mem[..];
      ghost var d := data[..size];
      var padded := PaddedSize(size);
      var a := addr;
      var i := 0;
      while i < padded
        invariant i % 2 == 0 && i <= padded && a == addr + i
        invariant data[..size] == d
        invariant forall k :: 0 <= k < mem.Length ==>
                    mem[k] == if addr <= k < addr + i then Padded(d)[k - addr] else m0[k]
      {
        var hw: bv16;
        if i + 1 < size {
          hw := HalfWord(data[i], data[i + 1]);
          HighOfHalfWord(data[i], data[i + 1]);
        } else {
          hw := HalfWord(data[i], 0xFF);
          HighOfHalfWord(data[i], 0xFF);
        }
        LowOfHalfWord(data[i], if i + 1 < size then data[i + 1] else 0xFF);
        ProgramHalfWord(a, hw);
        a := a + 2;
        i := i + 2;
      }
      ProgrammedAt(m0, addr, d);
      assert mem[..] == Programmed(m0, addr, d);
      status := FLASH_OK;
    }

    /** `_flash_read_data_`: FLASH_ERR_NOT_FOUND for size 0; otherwise
        data[0..size) gets the bytes from `addr`, half-word by half-word,
        and data[size] is not written. */
    method ReadData(addr: nat, data: array<bv8>, size: nat) returns (status: int)
      requires size < 256 && size <= data.Length && data != mem
      requires addr + PaddedSize(size) <= mem.Length
      modifies data
      ensures size == 0 ==> status == FLASH_ERR_NOT_FOUND && data[..] == old(data[..])
      ensures size != 0 ==> status == FLASH_OK && data[..size] == mem[addr..addr + size]
      ensures data[size..] == old(data[size..])
    {
      if size == 0 {
        return FLASH_ERR_NOT_FOUND;
      }
      var padded := PaddedSize(size);
      var a := addr;
      var i := 0;
      while i < padded
        invariant i % 2 == 0 && i <= padded && a == addr + i
        invariant forall k :: 0 <= k < i && k < size ==> data[k] == mem[addr + k]
        invariant data[size..] == old(data[size..])
      {
        var hw := ReadHalfWord(a);
        if i + 1 < size {
          data[i] := Low(hw);
          data[i + 1] := High(hw);
        } else {
          data[i] := Low(hw);
        }
        a := a + 2;
        i := i + 2;
      }
      assert forall k :: 0 <= k < size ==> data[..size][k] == mem[addr..addr + size][k];
      status := FLASH_OK;
    }

    /** `_flash_find_next_free`: the walk's stopping slot, or None (NULL)
        when it is at or past the end. */
    method FindNextFree() returns (p: Option<nat>)
      requires Valid()
      ensures var f := FreeFrom(layout, mem[..], layout.start);
              p == if f >= layout.end then None else Some(f)
    {
      var ptr := layout.start;
      while mem[ptr] == layout.magic && ptr < layout.end
        invariant InWalk(layout, mem[..], ptr)
        invariant FreeFrom(layout, mem[..], ptr) == FreeFrom(layout, mem[..], layout.start)
        decreases layout.end - ptr
      {
        ptr := ptr + mem[ptr + 2] as nat + HEADER_SIZE;
      }
      if ptr >= layout.end {
        return None;
      }
      return Some(ptr);
    }

    /** `_flash_find_first_valid_entry_`. */
    method FindFirstValid(key: bv8) returns (r: Option<nat>)
      requires Valid()
      ensures r == FirstValid(layout, mem[..], layout.start, key)
    {
      var ptr := layout.start;
      while ptr < layout.end && mem[ptr] == layout.magic
        invariant InWalk(layout, mem[..], ptr)
        invariant FirstValid(layout, mem[..], ptr, key) == FirstValid(layout, mem[..], layout.start, key)
        decreases layout.end - ptr
      {
        if mem[ptr + 1] == key && mem[ptr + 3] == layout.valid {
          return Some(ptr);
        }
        ptr := ptr + mem[ptr + 2] as nat + HEADER_SIZE;
      }
      return None;
    }

    /** `save_data_to_flash`.  `reserved` is whatever the uninitialised
        header byte holds. */
    method Save(key: bv8, value: array<bv8>, size: nat, reserved: bv8) returns (status: int)
      requires Valid() && size < 256 && size <= value.Length && value != mem
      modifies mem
      ensures var f := FreeFrom(layout, old(mem[..]), layout.start);
              if f >= layout.end || size == 0 then status == FLASH_ERR_NOT_FOUND && mem[..] == old(mem[..])
              else status == FLASH_OK && mem[..] == Saved(layout, old(mem[..]), key, value[..size], reserved)
    {
      var free := FindNextFree();
      if free.None? || size == 0 {
        return FLASH_ERR_NOT_FOUND;
      }
      MarkLast(key);
      status := Append(free.value, key, value, size, reserved);
    }

    /** The first step of a save: the key's first valid record, if any,
        marked DELETED. */
    method MarkLast(key: bv8)
      requires Valid()
      modifies mem
      ensures mem[..] == Marked(layout, old(mem[..]), key)
    {
      var last := FindFirstValid(key);
      if last.Some? {
        MarkDeleted(last.value);
      }
    }

    /** The second step of a save: the new header at `f`, then the value
        at f + 6. */
    method Append(f: nat, key: bv8, value: array<bv8>, size: nat, reserved: bv8) returns (status: int)
      requires Valid() && 1 <= size < 256 && size <= value.Length && value != mem
      requires f < layout.end
      modifies mem
      ensures status == FLASH_OK
      ensures mem[..] == Appended(old(mem[..]), f, HeaderBytes(layout.magic, key, SizeByte(size), layout.valid, reserved, Xor(value[..size])), value[..size])
    {
      ghost var m0 := mem[..];
      ghost var v := value[..size];
      var rec := new bv8[6];
      rec[1] := key;
      rec[0] := layout.magic;
      rec[2] := SizeByte(size);
      rec[3] := layout.valid;
      rec[4] := reserved;
      rec[5] := Crc(value, size);
      ghost var hdr := HeaderBytes(layout.magic, key, SizeByte(size), layout.valid, reserved, Xor(v));
      assert rec[..] == hdr;
      status := WriteData(f, rec, 6);
      ghost var m1 := mem[..];
      assert m1 == Programmed(m0, f, hdr);
      assert value[..size] == v;
      status := WriteData(f + HEADER_SIZE, value, size);
      assert mem[..] == Programmed(m1, f + HEADER_SIZE, v);
    }

    /** The first step of a save: the header of record `r` copied out,
        its status set to DELETED and written back. */
    method MarkDeleted(r: nat)
      requires Valid() && r + HEADER_SIZE <= mem.Length
      modifies mem
      ensures mem[..] == Programmed(old(mem[..]), r, old(mem[..])[r..r + 3] + [layout.deleted] + old(mem[..])[r + 4..r + 6])
    {
      ghost var m := mem[..];
      var hdr := new bv8[6];
      Util.Memcpy(hdr, 0, mem, r, 6);
      assert hdr[..] == hdr[0..6] == m[r..r + 6];
      hdr[3] := layout.deleted;
      assert hdr[..] == m[r..r + 3] + [layout.deleted] + m[r + 4..r + 6];
      var st := WriteData(r, hdr, 6);
    }

    /** `read_data_from_flash`: `size` is None when *size is not written.
        The value is copied into the caller's buffer before the checksum is
        compared, so on a mismatch the buffer already holds the bytes. */
    method Read(key: bv8, value: array<bv8>) returns (status: int, size: Option<nat>)
      requires Valid() && value != mem
      requires match FirstValid(layout, mem[..], layout.start, key)
               case None => true
               case Some(r) => SizeAt(mem[..], r) <= value.Length
      modifies value
      ensures match FirstValid(layout, mem[..], layout.start, key)
              case None => status == FLASH_ERR_NOT_FOUND && size == None && value[..] == old(value[..])
              case Some(r) =>
                && size == Some(SizeAt(mem[..], r))
                && value[..SizeAt(mem[..], r)] == mem[..][r + HEADER_SIZE..Next(mem[..], r)]
                && value[SizeAt(mem[..], r)..] == old(value[SizeAt(mem[..], r)..])
      ensures status == FLASH_OK <==> Lookup(layout, mem[..], key).Some?
      ensures status == FLASH_OK ==> value[..size.value] == Lookup(layout, mem[..], key).value
    {
      var last := FindFirstValid(key);
      if last.None? {
        return FLASH_ERR_NOT_FOUND, None;
      }
      LookupAt(layout, mem[..], key, last.value);
      status, size := ReadRecord(last.value, value);
    }

    /** The record at `r` copied out: its size, its value bytes into the
        buffer, and FLASH_OK exactly when their XOR is the stored crc. */
    method ReadRecord(r: nat, value: array<bv8>) returns (status: int, size: Option<nat>)
      requires Valid() && value != mem && r < layout.end
      requires SizeAt(mem[..], r) <= value.Length
      modifies value
      ensures size == Some(SizeAt(mem[..], r))
      ensures value[..SizeAt(mem[..], r)] == mem[..][r + HEADER_SIZE..Next(mem[..], r)]
      ensures value[SizeAt(mem[..], r)..] == old(value[SizeAt(mem[..], r)..])
      ensures status == FLASH_OK <==> Xor(mem[..][r + HEADER_SIZE..Next(mem[..], r)]) == mem[r + 5]
      ensures status == FLASH_OK || status == FLASH_ERR_NOT_FOUND
    {
      ghost var m := mem[..];
      ghost var v0 := value[..];
      var n := mem[r + 2] as nat;
      assert n == SizeAt(m, r) && Next(m, r) == r + HEADER_SIZE + n;
      size := Some(n);
      Util.Memcpy(value, 0, mem, r + HEADER_SIZE, n);
      assert mem[..] == m;
      assert value[n..] == v0[n..];
      assert value[..n] == value[0..n] == m[r + HEADER_SIZE..Next(m, r)];
      var crc := Crc(value, n);
      assert crc == Xor(m[r + HEADER_SIZE..Next(m, r)]);
      if mem[r + 5] != crc {
        return FLASH_ERR_NOT_FOUND, size;
      }
      status := FLASH_OK;
    }
  }
}
