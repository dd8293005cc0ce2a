/**
 Packing a file number and an offset into a 128-bit block cache key. A 64-bit word is the sequence of its bits, lowest
 first, so that xor is pointwise and ReverseBits is reversal.
 */
module CacheKeys {
  import opened Powers

  type Word = w: seq<bool> | |w| == 64 witness Clear(64)

  const Zero: Word := Clear(64)

  /** n clear bits */
  function Clear(n: nat): (r: seq<bool>)
    ensures |r| == n && forall i :: 0 <= i < n ==> !r[i]
  {
    if n == 0 then [] else Clear(n - 1) + [false]
  }

  // ---------------------------------------------------------------- numbers and bits

  /** The number a sequence of bits denotes. */
  function Value(s: seq<bool>): nat
  {
    if s == [] then 0 else (if s[0] then 1 else 0) + 2 * Value(s[1..])
  }

  /** No bit at or above position k is set. */
  predicate Below(s: seq<bool>, k: nat)
  {
    forall i :: k <= i < |s| ==> !s[i]
  }

  lemma {:induction false} ValueBelow(s: seq<bool>, k: nat)
    ensures Value(s) < Pow2(k) <==> Below(s, k)
  {
    if k == 0 {
      ValueZero(s);
    } else if s != [] {
      ValueBelow(s[1..], k - 1);
      var t := s[1..];
      assert forall i :: 0 <= i < |t| ==> t[i] == s[i + 1];
      assert Below(t, k - 1) <==> Below(s, k) by {
        if Below(t, k - 1) {
          forall i | k <= i < |s| ensures !s[i] {
            assert t[i - 1] == s[i];
          }
        }
      }
    }
  }

  lemma {:induction false} ValueZero(s: seq<bool>)
    ensures Value(s) == 0 <==> Below(s, 0)
  {
    if s != [] {
      ValueZero(s[1..]);
      var t := s[1..];
      assert forall i :: 0 <= i < |t| ==> t[i] == s[i + 1];
      if Below(t, 0) && !s[0] {
        forall i | 0 <= i < |s| ensures !s[i] {
          if i > 0 {
            assert t[i - 1] == s[i];
          }
        }
      }
    }
  }

  /** Different words denote different numbers. */
  lemma {:induction false} ValueInjective(s: seq<bool>, t: seq<bool>)
    requires |s| == |t| && Value(s) == Value(t)
    ensures s == t
  {
    if s != [] {
      ValueInjective(s[1..], t[1..]);
      assert s == [s[0]] + s[1..] && t == [t[0]] + t[1..];
    }
  }

  // ---------------------------------------------------------------- word operations

  function Xor(a: Word, b: Word): (r: Word)
    ensures forall i :: 0 <= i < 64 ==> (r[i] <==> a[i] != b[i])
  {
    seq(64, i requires 0 <= i < 64 => a[i] != b[i])
  }

  function Or(a: Word, b: Word): (r: Word)
    ensures forall i :: 0 <= i < 64 ==> (r[i] <==> a[i] || b[i])
  {
    seq(64, i requires 0 <= i < 64 => a[i] || b[i])
  }

  /** a & ((1 << k) - 1) */
  function LowBits(a: Word, k: nat): (r: Word)
    ensures forall i :: 0 <= i < 64 ==> (r[i] <==> a[i] && i < k)
  {
    seq(64, i requires 0 <= i < 64 => a[i] && i < k)
  }

  function ShiftRight(a: Word, k: nat): (r: Word)
    ensures forall i :: 0 <= i < 64 ==> (r[i] <==> i + k < 64 && a[i + k])
  {
    seq(64, i requires 0 <= i < 64 => i + k < 64 && a[i + k])
  }

  function ShiftLeft(a: Word, k: nat): (r: Word)
    ensures forall i :: 0 <= i < 64 ==> (r[i] <==> i >= k && a[i - k])
  {
    seq(64, i requires 0 <= i < 64 => i >= k && a[i - k])
  }

  function ReverseBits(a: Word): (r: Word)
    ensures forall i :: 0 <= i < 64 ==> r[i] == a[63 - i]
  {
    seq(64, i requires 0 <= i < 64 => a[63 - i])
  }

  /** The word with the single bit k. */
  function Bit(k: nat): (r: Word)
    ensures forall i :: 0 <= i < 64 ==> (r[i] <==> i == k)
  {
    seq(64, i => i == k)
  }

  /** A two-bit number as a word. */
  function TwoBits(v: nat): (r: Word)
    requires v < 4
    ensures forall i :: 0 <= i < 64 ==> (r[i] <==> (i == 0 && v % 2 == 1) || (i == 1 && v >= 2))
  {
    seq(64, i => (i == 0 && v % 2 == 1) || (i == 1 && v >= 2))
  }

  /** Position of the highest bit set below n. */
  function TopBit(w: Word, n: nat): (r: nat)
    requires n <= 64 && exists i :: 0 <= i < n && w[i]
    ensures r < n && w[r] && forall i :: r < i < n ==> !w[i]
  {
    if w[n - 1] then n - 1 else TopBit(w, n - 1)
  }

  // ---------------------------------------------------------------- the key

  /** What the constructor derives from db_id and db_session_id: the decoded session id and the hash of the DB id. */
  datatype Session = Session(upper: Word, lower: Word, dbHash: Word)

  datatype CacheKey = CacheKey(session: Word, offset: Word)

  function FloorLog2(maxOffset: Word): (r: nat)
    ensures 32 <= r < 64 && Below(maxOffset, r + 1) && (r > 32 ==> maxOffset[r])
  {
    var w := Or(maxOffset, Bit(32));
    assert w[32];
    TopBit(w, 64)
  }

  /** How many bytes of the file number share offset_etc64_ with the offset. */
  function FileNumberBytes(maxOffset: Word): (r: nat)
    ensures r <= 3
  {
    (63 - FloorLog2(maxOffset)) / 8
  }

  function OffsetModifier(file: Word, bytes: nat): Word
  {
    ReverseBits(LowBits(file, 8 * bytes))
  }

  function SessionModifier(file: Word, bytes: nat): Word
    requires bytes <= 3
  {
    ReverseBits(Or(ShiftLeft(ShiftRight(file, 8 * bytes), 2), TwoBits(3 - bytes)))
  }

  /** session_etc64_ before the fix-up that keeps it from being zero. */
  function RawSession(s: Session, file: Word, maxOffset: Word): Word
  {
    Xor(s.lower, SessionModifier(file, FileNumberBytes(maxOffset)))
  }

  function FixUp(s: Session, raw: Word): Word
  {
    if raw == Zero then Or(s.upper, Bit(0)) else raw
  }

  /** The base key of a file. */
  function Offsetable(s: Session, file: Word, maxOffset: Word): CacheKey
  {
    CacheKey(FixUp(s, RawSession(s, file, maxOffset)), Xor(s.dbHash, OffsetModifier(file, FileNumberBytes(maxOffset))))
  }

  function WithOffset(base: CacheKey, offset: Word): CacheKey
  {
    CacheKey(base.session, Xor(base.offset, offset))
  }

  function Key(s: Session, file: Word, maxOffset: Word, offset: Word): CacheKey
  {
    WithOffset(Offsetable(s, file, maxOffset), offset)
  }

  /** A block: an offset within a file, at most the file's largest. */
  datatype Block = Block(file: Word, maxOffset: Word, offset: Word)

  predicate InFile(b: Block) { Value(b.offset) <= Value(b.maxOffset) }

  function KeyOf(s: Session, b: Block): CacheKey { Key(s, b.file, b.maxOffset, b.offset) }

  // ---------------------------------------------------------------- the encoding

  /** The number of bytes packed is the largest of 0..3 that leaves the offset its own bits. */
  lemma BytesLeaveRoom(m: Word)
    ensures var n := FileNumberBytes(m);
            && Value(m) < Pow2(64 - 8 * n)
            && (n < 3 ==> Value(m) >= Pow2(64 - 8 * (n + 1)))
  {
    var r := FloorLog2(m);
    var n := FileNumberBytes(m);
    ValueBelow(m, 64 - 8 * n);
    if n < 3 {
      ValueBelow(m, 64 - 8 * (n + 1));
      assert m[r];
    }
  }

  /** For any largest offset up to 0xffffffffff, and no other, the standard encoding with three bytes is used. */
  lemma StandardEncodingIff(m: Word)
    ensures Value(m) <= 0xff_ffff_ffff <==> FileNumberBytes(m) == 3
  {
    BytesLeaveRoom(m);
    Pow2Of40();
    var n := FileNumberBytes(m);
    if n < 3 {
      Pow2Monotone(40, 64 - 8 * (n + 1));
    }
  }

  lemma Pow2Of40()
    ensures Pow2(40) == 0x100_0000_0000
  {
    Pow2Of32();
    assert Pow2(8) == 0x100;
    Pow2Add(32, 8);
  }

  // ---------------------------------------------------------------- what each half of the key determines

  /** The file-dependent part of offset_etc64_, together with the offset. */
  function OffsetPart(b: Block): Word
  {
    Xor(OffsetModifier(b.file, FileNumberBytes(b.maxOffset)), b.offset)
  }

  /** The file numbers agree on every bit that the encoding with n bytes keeps: with n == 0 the top two are lost. */
  predicate SameFile(f: Word, g: Word, n: nat)
  {
    forall k :: 0 <= k < 64 && (k < 62 || n > 0) ==> f[k] == g[k]
  }

  lemma OffsetFits(b: Block)
    requires InFile(b)
    ensures Below(b.offset, 64 - 8 * FileNumberBytes(b.maxOffset))
  {
    BytesLeaveRoom(b.maxOffset);
    ValueBelow(b.offset, 64 - 8 * FileNumberBytes(b.maxOffset));
  }

  lemma OffsetPartIff(a: Block, b: Block)
    requires InFile(a) && InFile(b) && FileNumberBytes(a.maxOffset) == FileNumberBytes(b.maxOffset)
    ensures OffsetPart(a) == OffsetPart(b)
            <==> a.offset == b.offset
                 && forall k :: 0 <= k < 8 * FileNumberBytes(a.maxOffset) ==> a.file[k] == b.file[k]
  {
    var n := FileNumberBytes(a.maxOffset);
    OffsetFits(a);
    OffsetFits(b);
    assert forall i :: 0 <= i < 64 ==>
      (OffsetModifier(a.file, n)[i] <==> 63 - i < 8 * n && a.file[63 - i])
      && (OffsetModifier(b.file, n)[i] <==> 63 - i < 8 * n && b.file[63 - i]);
    if OffsetPart(a) == OffsetPart(b) {
      forall i | 0 <= i < 64 ensures a.offset[i] == b.offset[i] {
        assert OffsetPart(a)[i] == OffsetPart(b)[i];
      }
      forall k | 0 <= k < 8 * n ensures a.file[k] == b.file[k] {
        assert OffsetPart(a)[63 - k] == OffsetPart(b)[63 - k];
      }
    } else {
      var i :| 0 <= i < 64 && OffsetPart(a)[i] != OffsetPart(b)[i];
    }
  }

  /** Bit j of the session modifier: before reversal the two low bits are 3 - n and the others the file number from bit
      8n up. */
  predicate ModifierBit(f: Word, n: nat, j: nat)
    requires n <= 3 && j < 64
  {
    if j >= 62 then TwoBits(3 - n)[63 - j] else 61 - j + 8 * n < 64 && f[61 - j + 8 * n]
  }

  lemma SessionModifierBits(f: Word, n: nat)
    requires n <= 3
    ensures forall j :: 0 <= j < 64 ==> (SessionModifier(f, n)[j] <==> ModifierBit(f, n, j))
  {
  }

  lemma SessionModifierIff(f: Word, n: nat, g: Word, n': nat)
    requires n <= 3 && n' <= 3
    ensures SessionModifier(f, n) == SessionModifier(g, n')
            <==> n == n' && forall k :: 8 * n <= k < 64 && k < 62 + 8 * n ==> f[k] == g[k]
  {
    SessionModifierBits(f, n);
    SessionModifierBits(g, n');
    if SessionModifier(f, n) == SessionModifier(g, n') {
      assert SessionModifier(f, n)[63] == SessionModifier(g, n')[63];
      assert SessionModifier(f, n)[62] == SessionModifier(g, n')[62];
      assert n == n';
      forall k | 8 * n <= k < 64 && k < 62 + 8 * n ensures f[k] == g[k] {
        var j := 61 + 8 * n - k;
        assert SessionModifier(f, n)[j] == SessionModifier(g, n')[j];
      }
    } else {
      var j :| 0 <= j < 64 && SessionModifier(f, n)[j] != SessionModifier(g, n')[j];
    }
  }

  lemma XorCancels(w: Word, a: Word, b: Word)
    ensures Xor(w, a) == Xor(w, b) <==> a == b
  {
    if a != b {
      var i :| 0 <= i < 64 && a[i] != b[i];
      assert Xor(w, a)[i] != Xor(w, b)[i];
    }
  }

  lemma XorAssociative(a: Word, b: Word, c: Word)
    ensures Xor(Xor(a, b), c) == Xor(a, Xor(b, c))
  {
  }

  // ---------------------------------------------------------------- one session

  function RawOf(s: Session, b: Block): Word { RawSession(s, b.file, b.maxOffset) }

  /** The fix-up gives block a's file the session part that block b's file has anyway. */
  predicate FixUpMeets(s: Session, a: Block, b: Block)
  {
    RawOf(s, a) == Zero && RawOf(s, b) == Or(s.upper, Bit(0))
  }

  /** Same encoding, same file number as far as it is kept, same offset. */
  predicate SameBlock(a: Block, b: Block)
  {
    && FileNumberBytes(a.maxOffset) == FileNumberBytes(b.maxOffset)
    && SameFile(a.file, b.file, FileNumberBytes(a.maxOffset)) && a.offset == b.offset
  }

  lemma SameHalvesIff(a: Block, b: Block)
    requires InFile(a) && InFile(b)
    ensures SessionModifier(a.file, FileNumberBytes(a.maxOffset)) == SessionModifier(b.file, FileNumberBytes(b.maxOffset))
            && OffsetPart(a) == OffsetPart(b)
            <==> SameBlock(a, b)
  {
    var n := FileNumberBytes(a.maxOffset);
    SessionModifierIff(a.file, n, b.file, FileNumberBytes(b.maxOffset));
    if n == FileNumberBytes(b.maxOffset) {
      OffsetPartIff(a, b);
    }
  }

  lemma FixUpIff(s: Session, a: Word, b: Word)
    ensures FixUp(s, a) == FixUp(s, b)
            <==> a == b || (a == Zero && b == Or(s.upper, Bit(0))) || (b == Zero && a == Or(s.upper, Bit(0)))
  {
  }

  /** Exactly when two blocks of one session share a key, for every file number and offset. */
  lemma CollisionIff(s: Session, a: Block, b: Block)
    requires InFile(a) && InFile(b)
    ensures KeyOf(s, a) == KeyOf(s, b)
            <==> SameBlock(a, b)
                 || ((FixUpMeets(s, a, b) || FixUpMeets(s, b, a)) && OffsetPart(a) == OffsetPart(b))
  {
    var ma := SessionModifier(a.file, FileNumberBytes(a.maxOffset));
    var mb := SessionModifier(b.file, FileNumberBytes(b.maxOffset));
    XorCancels(s.lower, ma, mb);
    FixUpIff(s, RawOf(s, a), RawOf(s, b));
    XorAssociative(s.dbHash, OffsetModifier(a.file, FileNumberBytes(a.maxOffset)), a.offset);
    XorAssociative(s.dbHash, OffsetModifier(b.file, FileNumberBytes(b.maxOffset)), b.offset);
    XorCancels(s.dbHash, OffsetPart(a), OffsetPart(b));
    SameHalvesIff(a, b);
  }

  /** The fix-up can only meet another key if some file has bit 61 of its number set and no byte of it in the offset. */
  lemma FixUpNeedsHugeFile(s: Session, a: Block, b: Block)
    requires FixUpMeets(s, a, b)
    ensures (a.file[61] && FileNumberBytes(a.maxOffset) == 0) || (b.file[61] && FileNumberBytes(b.maxOffset) == 0)
  {
    SessionModifierBits(a.file, FileNumberBytes(a.maxOffset));
    SessionModifierBits(b.file, FileNumberBytes(b.maxOffset));
    assert !RawOf(s, a)[0];
    assert Or(s.upper, Bit(0))[0];
    assert RawOf(s, b)[0];
  }

  /** In one session, blocks of files numbered below 2^61 share a key only if they are the same block, whatever the
      largest offsets of their files and whether or not the fix-up is taken. */
  lemma UniqueInSession(s: Session, a: Block, b: Block)
    requires InFile(a) && InFile(b) && Value(a.file) < Pow2(61) && Value(b.file) < Pow2(61)
    ensures KeyOf(s, a) == KeyOf(s, b)
            <==> FileNumberBytes(a.maxOffset) == FileNumberBytes(b.maxOffset) && a.file == b.file && a.offset == b.offset
  {
    ValueBelow(a.file, 61);
    ValueBelow(b.file, 61);
    CollisionIff(s, a, b);
    if FixUpMeets(s, a, b) {
      FixUpNeedsHugeFile(s, a, b);
    }
    if FixUpMeets(s, b, a) {
      FixUpNeedsHugeFile(s, b, a);
    }
    if SameBlock(a, b) {
      assert a.file == b.file;
    }
  }

  /** Up to 2^62 the same holds for files whose session part needs no fix-up. */
  lemma UniqueWithoutFixUp(s: Session, a: Block, b: Block)
    requires InFile(a) && InFile(b) && Value(a.file) < Pow2(62) && Value(b.file) < Pow2(62)
    requires RawOf(s, a) != Zero && RawOf(s, b) != Zero
    ensures KeyOf(s, a) == KeyOf(s, b)
            <==> FileNumberBytes(a.maxOffset) == FileNumberBytes(b.maxOffset) && a.file == b.file && a.offset == b.offset
  {
    ValueBelow(a.file, 62);
    ValueBelow(b.file, 62);
    CollisionIff(s, a, b);
    if SameBlock(a, b) {
      assert a.file == b.file;
    }
  }

  lemma HugeOffset()
    ensures FileNumberBytes(Bit(63)) == 0 && Value(Zero) == 0
  {
    assert Or(Bit(63), Bit(32))[63];
    ValueZero(Zero);
  }

  /** A block of a file too large for any byte of its number to be packed. */
  function HugeBlock(file: Word): Block { Block(file, Bit(63), Zero) }

  lemma HugeModifier(f: Word, k: nat)
    requires 1 <= k < 64 && !f[k]
    ensures k >= 62 ==> SessionModifier(Or(f, Bit(k)), 0) == SessionModifier(f, 0)
    ensures k == 61 ==> SessionModifier(Or(f, Bit(k)), 0) == Xor(SessionModifier(f, 0), Bit(0))
    ensures SessionModifier(f, 0)[63]
  {
    SessionModifierBits(f, 0);
    SessionModifierBits(Or(f, Bit(k)), 0);
  }

  lemma NothingPacked(f: Word)
    ensures OffsetModifier(f, 0) == Zero
  {
  }

  /** Beyond that it fails: the shift drops the top two bits of the file number, whatever the session and the rest of it. */
  lemma TopBitsAreLost(s: Session, f: Word, k: nat)
    requires 62 <= k < 64 && !f[k]
    ensures InFile(HugeBlock(f)) && InFile(HugeBlock(Or(f, Bit(k)))) && f != Or(f, Bit(k))
    ensures RawOf(s, HugeBlock(f)) == RawOf(s, HugeBlock(Or(f, Bit(k))))
    ensures KeyOf(s, HugeBlock(f)) == KeyOf(s, HugeBlock(Or(f, Bit(k))))
  {
    HugeOffset();
    HugeModifier(f, k);
    NothingPacked(f);
    NothingPacked(Or(f, Bit(k)));
    assert Or(f, Bit(k))[k];
  }

  lemma RawParts(m: Word, z: Word)
    requires m == Xor(z, Bit(0))
    ensures Xor(m, m) == Zero && Xor(m, z) == Or(Zero, Bit(0)) != Zero
  {
    assert Or(Zero, Bit(0))[0];
  }

  /** And the fix-up does make two files of one session meet, for any file number whose bit 61 is not set. */
  lemma FixUpCollides(f: Word) returns (s: Session)
    requires !f[61]
    ensures s.lower != Zero && RawOf(s, HugeBlock(Or(f, Bit(61)))) == Zero
    ensures Value(f) < Pow2(62) ==> Value(Or(f, Bit(61))) < Pow2(62)
    ensures InFile(HugeBlock(f)) && InFile(HugeBlock(Or(f, Bit(61)))) && f != Or(f, Bit(61))
    ensures KeyOf(s, HugeBlock(f)) == KeyOf(s, HugeBlock(Or(f, Bit(61))))
  {
    var g := Or(f, Bit(61));
    HugeOffset();
    HugeModifier(f, 61);
    NothingPacked(f);
    NothingPacked(g);
    RawParts(SessionModifier(g, 0), SessionModifier(f, 0));
    s := Session(Zero, SessionModifier(g, 0), Zero);
    ValueBelow(f, 62);
    ValueBelow(g, 62);
    assert g[61] && s.lower[63];
  }

  /** The hash of the DB id is in every key: the same block of the same session has one key per hash. */
  lemma DbHashIff(s: Session, hash: Word, b: Block)
    ensures KeyOf(s, b) == KeyOf(s.(dbHash := hash), b) <==> s.dbHash == hash
  {
    var m := OffsetModifier(b.file, FileNumberBytes(b.maxOffset));
    XorAssociative(s.dbHash, m, b.offset);
    XorAssociative(hash, m, b.offset);
    XorCancelsRight(s.dbHash, hash, Xor(m, b.offset));
  }

  lemma XorCancelsRight(a: Word, b: Word, w: Word)
    ensures Xor(a, w) == Xor(b, w) <==> a == b
  {
    if Xor(a, w) == Xor(b, w) {
      forall i | 0 <= i < 64 ensures a[i] == b[i] {
        assert Xor(a, w)[i] == Xor(b, w)[i];
      }
    }
  }

  /** The base key is never empty. */
  lemma NeverEmpty(s: Session, file: Word, maxOffset: Word)
    ensures Offsetable(s, file, maxOffset).session != Zero
  {
    assert Or(s.upper, Bit(0))[0];
  }

  // ---------------------------------------------------------------- one process

  /** Session ids of one process share the upper word; the lower is the base xor a counter. */
  function SessionOf(upper: Word, base: Word, counter: Word, dbHash: Word): Session
  {
    Session(upper, Xor(base, counter), dbHash)
  }

  /** With file numbers below 2^(86-k) the standard encoding leaves the k low bits of the session part alone. */
  lemma CounterBitsFree(f: Word, k: nat)
    requires k <= 62 && Value(f) < Pow2(86 - k)
    ensures forall j :: 0 <= j < k ==> !SessionModifier(f, 3)[j]
  {
    ValueBelow(f, 86 - k);
    SessionModifierBits(f, 3);
  }

  lemma CountersDiffer(base: Word, c: Word, c': Word, m: Word, m': Word, k: nat)
    requires k <= 62 && Below(c, k) && Below(c', k) && c != c'
    requires forall j :: 0 <= j < k ==> !m[j] && !m'[j]
    ensures Xor(Xor(base, c), m) != Xor(Xor(base, c'), m')
  {
    var j :| 0 <= j < 64 && c[j] != c'[j];
    assert j < k;
    assert Xor(Xor(base, c), m)[j] != Xor(Xor(base, c'), m')[j];
  }

  /** The fix-up of one session's zero gives the other's session part. */
  predicate FixUpMeetsAcross(s: Session, a: Block, s': Session, b: Block)
  {
    RawOf(s, a) == Zero && RawOf(s', b) == Or(s.upper, Bit(0))
  }

  /** The session id counters fit k bits, and the file numbers the 86 - k bits the standard encoding leaves beside them. */
  predicate WithinLaw(k: nat, c: Word, b: Block)
  {
    && k <= 62 && Value(c) < Pow2(k)
    && InFile(b) && Value(b.file) < Pow2(86 - k) && Value(b.maxOffset) <= 0xff_ffff_ffff
  }

  lemma SessionsApart(upper: Word, base: Word, k: nat, c: Word, h: Word, a: Block, c': Word, h': Word, b: Block)
    requires WithinLaw(k, c, a) && WithinLaw(k, c', b) && c != c'
    ensures RawOf(SessionOf(upper, base, c, h), a) != RawOf(SessionOf(upper, base, c', h'), b)
  {
    StandardEncodingIff(a.maxOffset);
    StandardEncodingIff(b.maxOffset);
    ValueBelow(c, k);
    ValueBelow(c', k);
    CounterBitsFree(a.file, k);
    CounterBitsFree(b.file, k);
    CountersDiffer(base, c, c', SessionModifier(a.file, 3), SessionModifier(b.file, 3), k);
  }

  lemma SameSession(s: Session, a: Block, b: Block)
    requires InFile(a) && InFile(b) && Value(a.maxOffset) <= 0xff_ffff_ffff && Value(b.maxOffset) <= 0xff_ffff_ffff
    ensures KeyOf(s, a) == KeyOf(s, b) <==> a.file == b.file && a.offset == b.offset
  {
    StandardEncodingIff(a.maxOffset);
    StandardEncodingIff(b.maxOffset);
    CollisionIff(s, a, b);
    if FixUpMeets(s, a, b) {
      FixUpNeedsHugeFile(s, a, b);
    }
    if FixUpMeets(s, b, a) {
      FixUpNeedsHugeFile(s, b, a);
    }
    assert SameFile(a.file, b.file, 3) <==> a.file == b.file;
  }

  /**
   Exactly when blocks of files up to the standard-encoding bound written by one process share a key, as long as the
   number of session ids, 2^k, times the number of file numbers, 2^(86-k), stays within 2^86: they are the same block of
   one session, or the fix-up of one session's zero meets another session.
   */
  lemma ProcessCollisionIff(upper: Word, base: Word, k: nat, c: Word, h: Word, a: Block, c': Word, h': Word, b: Block)
    requires WithinLaw(k, c, a) && WithinLaw(k, c', b) && (c == c' ==> h == h')
    ensures var s, s' := SessionOf(upper, base, c, h), SessionOf(upper, base, c', h');
            KeyOf(s, a) == KeyOf(s', b)
            <==> (c == c' && a.file == b.file && a.offset == b.offset)
                 || (c != c' && (FixUpMeetsAcross(s, a, s', b) || FixUpMeetsAcross(s', b, s, a))
                     && KeyOf(s, a).offset == KeyOf(s', b).offset)
  {
    var s, s' := SessionOf(upper, base, c, h), SessionOf(upper, base, c', h');
    if c == c' {
      SameSession(s, a, b);
    } else {
      SessionsApart(upper, base, k, c, h, a, c', h', b);
      FixUpIff(s, RawOf(s, a), RawOf(s', b));
    }
  }

  /** So keys are unique in a process unless the fix-up is taken, which a process sees from the session part alone. */
  lemma UniqueInProcess(upper: Word, base: Word, k: nat, c: Word, h: Word, a: Block, c': Word, h': Word, b: Block)
    requires WithinLaw(k, c, a) && WithinLaw(k, c', b) && (c == c' ==> h == h')
    requires RawOf(SessionOf(upper, base, c, h), a) != Zero && RawOf(SessionOf(upper, base, c', h'), b) != Zero
    ensures KeyOf(SessionOf(upper, base, c, h), a) == KeyOf(SessionOf(upper, base, c', h'), b)
            <==> c == c' && a.file == b.file && a.offset == b.offset
  {
    ProcessCollisionIff(upper, base, k, c, h, a, c', h', b);
  }

  /** File number 2^24, the first of more than three bytes, changes a single bit of the session half. */
  lemma FourByteFile()
    ensures FileNumberBytes(Zero) == 3 && SessionModifier(Bit(24), 3) == Bit(61) && OffsetModifier(Bit(24), 3) == Zero
  {
    ValueZero(Zero);
    StandardEncodingIff(Zero);
    SessionModifierBits(Bit(24), 3);
  }

  lemma ExampleFits()
    ensures Value(Zero) == 0 && Value(Bit(0)) < Pow2(1) && Value(Bit(0)) < Pow2(39)
    ensures 0 < Value(Bit(24)) < Pow2(85) && Bit(0) != Zero
  {
    ValueZero(Zero);
    ValueBelow(Bit(0), 1);
    ValueBelow(Bit(0), 39);
    ValueBelow(Bit(24), 85);
    ValueZero(Bit(24));
    assert Bit(0)[0] && Bit(24)[24];
  }

  /** The session words of the example, and what its file makes of them. */
  lemma ExampleWords()
    ensures Xor(Bit(61), Zero) == Bit(61) != Zero && Xor(Bit(61), Bit(0)) != Zero
    ensures Xor(Bit(61), Bit(61)) == Zero && Xor(Xor(Bit(61), Bit(0)), Bit(61)) == Bit(0) && Or(Bit(0), Bit(0)) == Bit(0)
  {
    assert Bit(61)[61] && Xor(Bit(61), Bit(0))[0];
  }

  lemma ExampleRaw(upper: Word)
    ensures var b := Block(Bit(24), Zero, Zero);
            && RawOf(SessionOf(upper, Bit(61), Zero, Zero), b) == Zero
            && RawOf(SessionOf(upper, Bit(61), Bit(0), Zero), b) == Bit(0)
  {
    FourByteFile();
    ExampleWords();
  }

  /**
   And without that condition it fails: two sessions of one process, with nonzero lower words and an upper word of the
   39 bits that a session id keeps, share a key, both with their file number 2^24.
   */
  lemma FixUpCollidesInProcess() returns (upper: Word, base: Word, c: Word, c': Word, b: Block)
    ensures WithinLaw(1, c, b) && WithinLaw(1, c', b) && c != c' && Value(b.file) > 0
    ensures Xor(base, c) != Zero && Xor(base, c') != Zero && Value(upper) < Pow2(39)
    ensures KeyOf(SessionOf(upper, base, c, Zero), b) == KeyOf(SessionOf(upper, base, c', Zero), b)
  {
    upper, base, c, c', b := Bit(0), Bit(61), Zero, Bit(0), Block(Bit(24), Zero, Zero);
    ExampleFits();
    ExampleWords();
    ExampleRaw(upper);
  }

  // ---------------------------------------------------------------- keys from counters

  /** The n low bits of a number. */
  function Bits(v: nat, n: nat): (r: seq<bool>)
    ensures |r| == n
  {
    if n == 0 then [] else [v % 2 == 1] + Bits(v / 2, n - 1)
  }

  lemma {:induction false} BitsValue(v: nat, n: nat)
    requires v < Pow2(n)
    ensures Value(Bits(v, n)) == v
  {
    if n > 0 {
      BitsValue(v / 2, n - 1);
    }
  }

  /** All keys issued come from one of the counters, and from what it has counted so far. */
  ghost predicate Within(issued: set<CacheKey>, lastId: nat, counter: nat)
  {
    forall key :: key in issued ==>
      key.session == Zero && (2 <= Value(key.offset) <= lastId || counter < Value(key.offset) < Pow2(64))
  }

  lemma CountUp(issued: set<CacheKey>, lastId: nat, counter: nat, key: CacheKey)
    requires Within(issued, lastId, counter) && key.session == Zero && 2 <= Value(key.offset) == lastId + 1 <= counter
    ensures Within(issued + {key}, lastId + 1, counter) && key !in issued
  {
  }

  lemma CountDown(issued: set<CacheKey>, lastId: nat, counter: nat, key: CacheKey)
    requires Within(issued, lastId, counter) && key.session == Zero && lastId < Value(key.offset) == counter < Pow2(64)
    ensures Within(issued + {key}, lastId, counter - 1) && key !in issued
  {
  }

  /** The word that denotes a number. */
  function WordOf(v: nat): (w: Word)
    requires v < Pow2(64)
    ensures Value(w) == v
  {
    BitsValue(v, 64);
    Bits(v, 64)
  }

  /** The two counters behind the keys that belong to no file. Their keys are disjoint from each other, from the empty key
      and from every file's keys. */
  class KeySource {
    var lastId: nat
    var counter: nat
    ghost var issued: set<CacheKey>

    ghost predicate Valid()
      reads this
    {
      1 <= lastId < Pow2(63) && Pow2(63) - 1 <= counter < Pow2(64) && Within(issued, lastId, counter)
    }

    constructor ()
      ensures Valid() && issued == {}
    {
      lastId := 1;
      counter := Pow2(64) - 1;
      issued := {};
      new;
      assert Pow2(63) >= 4 by {
        Pow2Monotone(2, 63);
      }
    }

    /** CreateUniqueForCacheLifetime: NewId() + 1, counting up. */
    method ForCacheLifetime() returns (key: CacheKey)
      requires Valid() && lastId + 1 < Pow2(63)
      modifies this
      ensures Valid() && issued == old(issued) + {key} && key !in old(issued)
      ensures key.session == Zero && 0 < Value(key.offset) < Pow2(63)
    {
      var id := lastId + 1;
      Pow2Monotone(63, 64);
      key := CacheKey(Zero, WordOf(id));
      CountUp(issued, lastId, counter, key);
      lastId := lastId + 1;
      issued := issued + {key};
    }

    /** CreateUniqueForProcessLifetime: counting down. */
    method ForProcessLifetime() returns (key: CacheKey)
      requires Valid() && counter >= Pow2(63)
      modifies this
      ensures Valid() && issued == old(issued) + {key} && key !in old(issued)
      ensures key.session == Zero && Pow2(63) <= Value(key.offset) < Pow2(64)
    {
      key := CacheKey(Zero, WordOf(counter));
      CountDown(issued, lastId, counter, key);
      counter := counter - 1;
      issued := issued + {key};
    }

    /** No key of a file is ever issued by a counter, and none is empty. */
    lemma FileKeysApart(s: Session, b: Block)
      requires Valid()
      ensures KeyOf(s, b) !in issued && KeyOf(s, b) != CacheKey(Zero, Zero)
    {
      NeverEmpty(s, b.file, b.maxOffset);
    }
  }
}
