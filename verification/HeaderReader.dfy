/**
 The hand-written RLP reader of geth block headers and freezer metadata, over Go's
 64-bit signed int: arithmetic wraps, and an index outside a slice panics.
 */
module HeaderReader {
  import opened Basics
  import opened Rlp

  /** A Go call's outcome: its value, its error, or a run-time panic. */
  datatype Outcome<+T> = Ok(value: T) | Err | Panic

  type int64 = x: int | -TWO_63 <= x < TWO_63

  /** Two's complement: the int64 congruent to x modulo 2^64. */
  function Wrap(x: int): int64 {
    var r := x % TWO_64;
    if r < TWO_63 then r else r - TWO_64
  }

  function Unsigned(x: int64): nat {
    x % TWO_64
  }

  /** A slice any allocator can make: a header and a short payload fit past its end. */
  ghost predicate GoSlice(buf: Bytes) {
    |buf| + 64 < TWO_63
  }

  /** readBEUint: more than 8 bytes is an error; 8 bytes may come out negative. */
  function BEUint(b: Bytes): Outcome<int64> {
    if |b| > 8 then Err else Ok(Wrap(Value(b)))
  }

  lemma ValueBelow7(b: Bytes)
    requires |b| <= 7
    ensures Value(b) < 0x100_0000_0000_0000
  {
    ValueBelow(b, 7);
    Pow256Is();
  }

  lemma ValueBelow8(b: Bytes)
    requires |b| <= 8
    ensures Value(b) < TWO_64
  {
    ValueBelow(b, 8);
    Pow256Is();
  }

  /** One round of the loop, on at most 7 bytes read so far. */
  lemma ShiftWraps(before: nat, x: byte, after: nat)
    requires before < 0x100_0000_0000_0000 && after == before * 256 + x
    ensures -TWO_63 <= Wrap(before * 256) + x == Wrap(after) < TWO_63 && Wrap(before) == before
  {
    if before * 256 >= TWO_63 {
      assert Wrap(before * 256) == before * 256 - TWO_64 && Wrap(after) == after - TWO_64;
    }
  }

  method ReadBEUint(b: Bytes) returns (r: Outcome<int64>)
    ensures r == BEUint(b)
  {
    if |b| > 8 { return Err; }
    var v: int64 := 0;
    assert b[..0] == [];
    for i := 0 to |b|
      invariant v == Wrap(Value(b[..i]))
    {
      ValueBelow7(b[..i]);
      assert b[..i + 1][..i] == b[..i];
      ShiftWraps(Value(b[..i]), b[i], Value(b[..i + 1]));
      // The shift leaves a zero low byte, so or-ing the next byte in adds it.
      v := Wrap(v * 256) + b[i];
    }
    assert b[..|b|] == b;
    return Ok(v);
  }

  /** enterRLPList: the offset of the first item and the body length. */
  function EnterList(buf: Bytes, off: int64): Outcome<(int64, int64)>
    requires GoSlice(buf)
  {
    if off >= |buf| then Err
    else if off < 0 then Panic
    else
      var b := buf[off];
      if 0xc0 <= b <= 0xf7 then Ok((off + 1, b - 0xc0))
      else if b >= 0xf8 then
        var lenlen := b - 0xf7;
        if off + 1 + lenlen > |buf| then Err
        else
          match BEUint(buf[off + 1..off + 1 + lenlen])
          case Ok(bodyLen) => Ok((off + 1 + lenlen, bodyLen))
          case _ => Err
      else Err
  }

  /** skipRLPItem: the offset just past one item. */
  function SkipItem(buf: Bytes, off: int64): Outcome<int64>
    requires GoSlice(buf)
  {
    if off >= |buf| then Err
    else if off < 0 then Panic
    else
      var b := buf[off];
      if b <= 0x7f then Ok(off + 1)
      else if b <= 0xb7 then Ok(off + 1 + (b - 0x80))
      else if b <= 0xbf then SkipLong(buf, off, b - 0xb7)
      else if b <= 0xf7 then Ok(off + 1 + (b - 0xc0))
      else SkipLong(buf, off, b - 0xf7)
  }

  function SkipLong(buf: Bytes, off: int64, lenlen: nat): Outcome<int64>
    requires GoSlice(buf) && 0 <= off < |buf| && 1 <= lenlen <= 8
  {
    if off + 1 + lenlen > |buf| then Err
    else
      match BEUint(buf[off + 1..off + 1 + lenlen])
      case Ok(bodyLen) => Ok(Wrap(off + 1 + lenlen + bodyLen))
      case _ => Err
  }

  /** readRLPUint: an integer of at most 8 bytes and the offset after it. */
  function ReadUint(buf: Bytes, off: int64): Outcome<(nat, int64)>
    requires GoSlice(buf)
  {
    if off >= |buf| then Err
    else if off < 0 then Panic
    else
      var b := buf[off];
      if b == 0x80 then Ok((0, off + 1))
      else if b <= 0x7f then Ok((b, off + 1))
      else if b <= 0xb7 then
        var sLen := b - 0x80;
        if sLen > 8 then Err
        else if off + 1 + sLen > |buf| then Err
        else
          match BEUint(buf[off + 1..off + 1 + sLen])
          case Ok(v) => Ok((Unsigned(v), off + 1 + sLen))
          case _ => Err
      else Err
  }

  /** The offset after k items, from `off`. */
  function SkipItems(buf: Bytes, off: int64, k: nat): Outcome<int64>
    requires GoSlice(buf)
  {
    if k == 0 then Ok(off)
    else
      match SkipItems(buf, off, k - 1)
      case Ok(o) => SkipItem(buf, o)
      case e => e
  }

  /** The integer at index k of the list at the start of buf. */
  function FieldAt(buf: Bytes, k: nat): Outcome<nat>
    requires GoSlice(buf)
  {
    match EnterList(buf, 0)
    case Err => Err
    case Panic => Panic
    case Ok(entered) =>
      match SkipItems(buf, entered.0, k)
      case Err => Err
      case Panic => Panic
      case Ok(off) =>
        match ReadUint(buf, off)
        case Ok(read) => Ok(read.0)
        case Err => Err
        case Panic => Panic
  }

  /**
   A block header, its fields in the order of the Ethereum Yellow Paper, "The Block"; `later` are
   the fields that forks have added after these.
   */
  datatype BlockHeader = BlockHeader(
    parentHash: Bytes,
    ommersHash: Bytes,
    beneficiary: Bytes,
    stateRoot: Bytes,
    transactionsRoot: Bytes,
    receiptsRoot: Bytes,
    logsBloom: Bytes,
    difficulty: nat,
    number: nat,
    gasLimit: nat,
    gasUsed: nat,
    timestamp: nat,
    extraData: Bytes,
    mixHash: Bytes,
    nonce: Bytes,
    later: seq<Item>)

  function FieldsOf(h: BlockHeader): seq<Item> {
    [Str(h.parentHash), Str(h.ommersHash), Str(h.beneficiary), Str(h.stateRoot), Str(h.transactionsRoot),
     Str(h.receiptsRoot), Str(h.logsBloom), Str(BigEndian(h.difficulty)), Str(BigEndian(h.number)),
     Str(BigEndian(h.gasLimit)), Str(BigEndian(h.gasUsed)), Str(BigEndian(h.timestamp)), Str(h.extraData),
     Str(h.mixHash), Str(h.nonce)] + h.later
  }

  function EncodeBlockHeader(h: BlockHeader): Bytes {
    Encode(List(FieldsOf(h)))
  }

  const TIME_FIELD: nat := 11
  const TAIL_FIELD: nat := 1

  /** readHeaderTimestamp on the header's bytes: the timestamp of every block header, early or late. */
  method ReadHeaderTimestamp(header: Bytes) returns (r: Outcome<nat>)
    requires GoSlice(header)
    ensures r == FieldAt(header, TIME_FIELD)
    ensures forall h: BlockHeader | header == EncodeBlockHeader(h) ::
      r == if h.timestamp < TWO_64 then Ok(h.timestamp) else Err
  {
    forall h: BlockHeader | header == EncodeBlockHeader(h)
      ensures FieldAt(header, TIME_FIELD) == if h.timestamp < TWO_64 then Ok(h.timestamp) else Err
    {
      TimestampRoundTrip(h);
    }
    hide EncodeBlockHeader;
    var entered := EnterList(header, 0);
    if !entered.Ok? { return if entered.Err? then Err else Panic; }
    var off := entered.value.0;
    for i := 0 to 11
      invariant SkipItems(header, entered.value.0, i) == Ok(off)
    {
      var next := SkipItem(header, off);
      if !next.Ok? {
        SkipItemsStops(header, entered.value.0, i + 1, TIME_FIELD);
        return if next.Err? then Err else Panic;
      }
      off := next.value;
    }
    var read := ReadUint(header, off);
    return match read case Ok(v) => Ok(v.0) case Err => Err case Panic => Panic;
  }

  /** The parsing half of readFreezerMetaTail: skip Version, read Tail. */
  function FreezerTail(meta: Bytes): Outcome<nat>
    requires GoSlice(meta)
  {
    match EnterList(meta, 0)
    case Err => Err
    case Panic => Panic
    case Ok(entered) =>
      match SkipItem(meta, entered.0)
      case Err => Err
      case Panic => Panic
      case Ok(off) =>
        match ReadUint(meta, off)
        case Ok(read) => Ok(read.0)
        case Err => Err
        case Panic => Panic
  }

  lemma {:induction false} SkipItemsStops(buf: Bytes, off: int64, j: nat, k: nat)
    requires GoSlice(buf) && j <= k && !SkipItems(buf, off, j).Ok?
    ensures SkipItems(buf, off, k) == SkipItems(buf, off, j)
  {
    if j < k { SkipItemsStops(buf, off, j, k - 1); }
  }

  // -------------------------------------------------- arbitrary bytes: bounds

  /** The item at `off` has its whole length prefix inside the buffer. */
  predicate PrefixComplete(buf: Bytes, off: nat) {
    off < |buf| && off + 1 + LengthBytes(buf[off]) <= |buf|
  }

  function LengthBytes(b: byte): nat {
    if 0xb8 <= b <= 0xbf then b - 0xb7 else if 0xf8 <= b then b - 0xf7 else 0
  }

  /** Where the item at `off` says it ends, in unbounded arithmetic. */
  function DeclaredEnd(buf: Bytes, off: nat): nat
    requires PrefixComplete(buf, off)
  {
    var b, n := buf[off], LengthBytes(buf[off]);
    if b <= 0x7f then off + 1
    else if b <= 0xb7 then off + 1 + (b - 0x80)
    else if 0xc0 <= b <= 0xf7 then off + 1 + (b - 0xc0)
    else off + 1 + n + Value(buf[off + 1..off + 1 + n])
  }

  lemma WrapExactIff(x: nat)
    ensures Wrap(x) == x <==> x < TWO_63
  {
  }

  lemma WrapAbsorbs(a: nat, v: nat)
    requires v < TWO_64
    ensures Wrap(a + Wrap(v)) == Wrap(a + v)
  {
    if v >= TWO_63 {
      assert Wrap(v) == v - TWO_64;
      assert (a + v) % TWO_64 == (a + v - TWO_64) % TWO_64;
    }
  }

  lemma SkipLongLands(buf: Bytes, off: nat, n: nat)
    requires GoSlice(buf) && off < |buf| && 1 <= n <= 8 && off + 1 + n <= |buf|
    ensures SkipLong(buf, off, n) == Ok(Wrap(off + 1 + n + Value(buf[off + 1..off + 1 + n])))
  {
    var b := buf[off + 1..off + 1 + n];
    ValueBelow8(b);
    WrapAbsorbs(off + 1 + n, Value(b));
    hide Wrap, Value;
  }

  lemma SkipLandsAtDeclaredEnd(buf: Bytes, off: nat)
    requires GoSlice(buf) && PrefixComplete(buf, off)
    ensures SkipItem(buf, off) == Ok(Wrap(DeclaredEnd(buf, off)))
  {
    if LengthBytes(buf[off]) > 0 {
      SkipLongLands(buf, off, LengthBytes(buf[off]));
      hide Wrap, Value, SkipLong;
    } else {
      WrapExactIff(DeclaredEnd(buf, off));
      hide Value;
    }
  }

  lemma IncompletePrefixFails(buf: Bytes, off: nat)
    requires GoSlice(buf) && off < TWO_63 && !PrefixComplete(buf, off)
    ensures SkipItem(buf, off) == Err
  {
  }

  /**
   On arbitrary bytes a skip reads nothing out of bounds, succeeds exactly when the
   length prefix is complete, and lands where the item says it ends exactly when that
   is below 2^63.
   */
  lemma SkipItemExactIff(buf: Bytes, off: nat)
    requires GoSlice(buf) && off < TWO_63
    ensures SkipItem(buf, off) != Panic
    ensures SkipItem(buf, off).Ok? <==> PrefixComplete(buf, off)
    ensures PrefixComplete(buf, off) ==>
      && SkipItem(buf, off) == Ok(Wrap(DeclaredEnd(buf, off)))
      && (SkipItem(buf, off) == Ok(DeclaredEnd(buf, off)) <==> DeclaredEnd(buf, off) < TWO_63)
      && (DeclaredEnd(buf, off) < TWO_63 ==> off < SkipItem(buf, off).value)
  {
    if PrefixComplete(buf, off) {
      SkipLandsAtDeclaredEnd(buf, off);
      WrapExactIff(DeclaredEnd(buf, off));
    } else {
      IncompletePrefixFails(buf, off);
    }
  }

  /** A wrapped end makes the next read panic exactly when it comes out negative. */
  lemma NextReadPanicsIff(buf: Bytes, off: nat)
    requires GoSlice(buf) && PrefixComplete(buf, off)
    ensures SkipItem(buf, off).Ok?
    ensures SkipItem(buf, SkipItem(buf, off).value) == Panic <==> DeclaredEnd(buf, off) % TWO_64 >= TWO_63
    ensures ReadUint(buf, SkipItem(buf, off).value) == Panic <==> DeclaredEnd(buf, off) % TWO_64 >= TWO_63
  {
    SkipItemExactIff(buf, off);
    var end := DeclaredEnd(buf, off);
    WrapNegativeIff(end);
    PanicsIffNegative(buf, Wrap(end));
  }

  lemma WrapNegativeIff(x: nat)
    ensures Wrap(x) < 0 <==> x % TWO_64 >= TWO_63
  {
  }

  lemma PanicsIffNegative(buf: Bytes, off: int64)
    requires GoSlice(buf)
    ensures SkipItem(buf, off) == Panic <==> off < 0
    ensures ReadUint(buf, off) == Panic <==> off < 0
  {
    if off >= 0 { SkipItemExactIff(buf, off); }
  }

  /** The item the reader meets after i others ends, modulo 2^64, at or past 2^63. */
  predicate WrapsNegative(buf: Bytes, start: int64, i: nat)
    requires GoSlice(buf)
  {
    var at := SkipItems(buf, start, i);
    at.Ok? && at.value >= 0 && PrefixComplete(buf, at.value) && DeclaredEnd(buf, at.value) % TWO_64 >= TWO_63
  }

  /** After k items the reader has read out of bounds, or is about to. */
  predicate OutOfBounds(buf: Bytes, start: int64, k: nat)
    requires GoSlice(buf)
  {
    var at := SkipItems(buf, start, k);
    at == Panic || (at.Ok? && at.value < 0)
  }

  lemma OutOfBoundsStep(buf: Bytes, start: int64, k: nat)
    requires GoSlice(buf)
    ensures OutOfBounds(buf, start, k + 1) <==> OutOfBounds(buf, start, k) || WrapsNegative(buf, start, k)
  {
    var before := SkipItems(buf, start, k);
    if before.Ok? {
      PanicsIffNegative(buf, before.value);
      if before.value >= 0 {
        SkipItemExactIff(buf, before.value);
        if PrefixComplete(buf, before.value) { WrapNegativeIff(DeclaredEnd(buf, before.value)); }
      }
    }
    hide SkipItem, DeclaredEnd, Wrap, PrefixComplete;
  }

  lemma {:induction false} SkipItemsPanicIff(buf: Bytes, start: int64, k: nat)
    requires GoSlice(buf) && start >= 0
    ensures OutOfBounds(buf, start, k) <==> exists i: nat :: i < k && WrapsNegative(buf, start, i)
  {
    if k > 0 {
      SkipItemsPanicIff(buf, start, k - 1);
      OutOfBoundsStep(buf, start, k - 1);
      hide OutOfBounds, WrapsNegative;
    }
  }

  /**
   Reader safety on arbitrary bytes, exactly: reading field k goes out of bounds if and
   only if the list header is readable and one of the k items skipped on the way there
   declares an end that comes out negative in 64 bits.
   */
  lemma FieldAtPanicsIff(buf: Bytes, k: nat)
    requires GoSlice(buf)
    ensures FieldAt(buf, k) == Panic <==>
      EnterList(buf, 0).Ok? && exists i: nat :: i < k && WrapsNegative(buf, EnterList(buf, 0).value.0, i)
  {
    if EnterList(buf, 0).Ok? {
      var start := EnterList(buf, 0).value.0;
      SkipItemsPanicIff(buf, start, k);
      if SkipItems(buf, start, k).Ok? { PanicsIffNegative(buf, SkipItems(buf, start, k).value); }
    }
  }

  /** Each of the first k items that the reader meets declares an end below 2^63. */
  predicate ShortItems(buf: Bytes, start: int64, k: nat)
    requires GoSlice(buf)
  {
    forall i: nat | i < k ::
      var at := SkipItems(buf, start, i);
      at.Ok? && at.value >= 0 && PrefixComplete(buf, at.value) ==> DeclaredEnd(buf, at.value) < TWO_63
  }

  /** Then nothing panics and every skip moves forward. */
  lemma {:induction false} SkipItemsAdvances(buf: Bytes, start: int64, k: nat)
    requires GoSlice(buf) && start >= 0 && ShortItems(buf, start, k)
    ensures SkipItems(buf, start, k) != Panic
    ensures SkipItems(buf, start, k).Ok? ==> SkipItems(buf, start, k).value >= start + k
  {
    if k > 0 {
      SkipItemsAdvances(buf, start, k - 1);
      if SkipItems(buf, start, k - 1).Ok? { SkipItemExactIff(buf, SkipItems(buf, start, k - 1).value); }
    }
  }

  lemma FieldAtNeverPanics(buf: Bytes, k: nat)
    requires GoSlice(buf) && (EnterList(buf, 0).Ok? ==> ShortItems(buf, EnterList(buf, 0).value.0, k))
    ensures FieldAt(buf, k) != Panic
    ensures EnterList(buf, 0).Ok? && SkipItems(buf, EnterList(buf, 0).value.0, k).Ok? ==>
      SkipItems(buf, EnterList(buf, 0).value.0, k).value >= EnterList(buf, 0).value.0 + k
  {
    FieldAtPanicsIff(buf, k);
    if EnterList(buf, 0).Ok? {
      SkipItemsAdvances(buf, EnterList(buf, 0).value.0, k);
    }
  }

  /** The exclusion is needed: a length with its top bit set panics the reader of any later field. */
  lemma HugeLengthPanics(k: nat)
    requires k >= 2
    ensures FieldAt([0xc9, 0xbf, 0x80, 0, 0, 0, 0, 0, 0, 0], k) == Panic
  {
    var buf: Bytes := [0xc9, 0xbf, 0x80, 0, 0, 0, 0, 0, 0, 0];
    var len: Bytes := [0x80, 0, 0, 0, 0, 0, 0, 0];
    assert buf[2..10] == len;
    TopBitValue();
    assert DeclaredEnd(buf, 1) == 10 + TWO_63;
    NextReadPanicsIff(buf, 1);
    SkipItemsTwo(buf, 1);
    SkipItemsStops(buf, 1, 2, k);
  }

  lemma TopBitValue()
    ensures Value([0x80, 0, 0, 0, 0, 0, 0, 0]) == TWO_63
  {
    var b: Bytes := [0x80, 0, 0, 0, 0, 0, 0, 0];
    assert b[..7][..6] == b[..6] && b[..6][..5] == b[..5] && b[..5][..4] == b[..4];
    assert b[..4][..3] == b[..3] && b[..3][..2] == b[..2] && b[..2][..1] == b[..1];
    assert Value(b[..1]) == 0x80;
    assert Value(b[..2]) == 0x8000;
    assert Value(b[..3]) == 0x80_0000;
    assert Value(b[..4]) == 0x8000_0000;
    assert Value(b[..5]) == 0x80_0000_0000;
    assert Value(b[..6]) == 0x8000_0000_0000;
    assert Value(b[..7]) == 0x80_0000_0000_0000;
  }

  lemma SkipItemsTwo(buf: Bytes, off: int64)
    requires GoSlice(buf) && SkipItem(buf, off).Ok?
    ensures SkipItems(buf, off, 2) == SkipItem(buf, SkipItem(buf, off).value)
  {
    assert SkipItems(buf, off, 1) == SkipItem(buf, off);
  }

  // ----------------------------------------------------- well-formed encodings

  /** `e` stands at offset `off` of `buf`. */
  ghost predicate Holds(buf: Bytes, off: nat, e: Bytes) {
    off + |e| <= |buf| && buf[off..off + |e|] == e
  }

  lemma HoldsByte(buf: Bytes, off: nat, e: Bytes, i: nat)
    requires Holds(buf, off, e) && i < |e|
    ensures buf[off + i] == e[i]
  {
    assert buf[off..off + |e|][i] == e[i];
  }

  lemma HoldsPart(buf: Bytes, off: nat, e: Bytes, lo: nat, hi: nat)
    requires Holds(buf, off, e) && lo <= hi <= |e|
    ensures Holds(buf, off + lo, e[lo..hi])
  {
    var part := buf[off + lo..off + hi];
    forall i | 0 <= i < hi - lo ensures part[i] == e[lo..hi][i] {
      HoldsByte(buf, off, e, lo + i);
    }
    assert part == e[lo..hi];
  }

  lemma HoldsBoth(buf: Bytes, off: nat, a: Bytes, b: Bytes)
    requires Holds(buf, off, a + b)
    ensures Holds(buf, off, a) && Holds(buf, off + |a|, b)
  {
    HoldsPart(buf, off, a + b, 0, |a|);
    HoldsPart(buf, off, a + b, |a|, |a + b|);
    assert (a + b)[0..|a|] == a && (a + b)[|a|..|a + b|] == b;
  }

  /** A header of either kind declares the end of its payload. */
  lemma HeaderDeclares(buf: Bytes, off: nat, short: byte, payload: Bytes)
    requires (short == 0x80 || short == 0xc0) && |payload| < TWO_64
    requires Holds(buf, off, Header(short, |payload|) + payload)
    ensures PrefixComplete(buf, off) && DeclaredEnd(buf, off) == off + HeaderSize(|payload|) + |payload|
    ensures Holds(buf, off + HeaderSize(|payload|), payload)
  {
    var h := Header(short, |payload|);
    HoldsBoth(buf, off, h, payload);
    hide *;
    HeaderStands(buf, off, short, |payload|);
    assert |h| == HeaderSize(|payload|);
  }

  /** The first byte of a header. */
  function FirstByte(short: byte, len: nat): nat {
    if len <= 55 then short + len else short + 55 + |BigEndian(len)|
  }

  lemma LongHeader(short: byte, len: nat)
    requires (short == 0x80 || short == 0xc0) && 55 < len < TWO_64
    ensures 1 <= |BigEndian(len)| <= 8 && FirstByte(short, len) < 256
    ensures Header(short, len) == [FirstByte(short, len)] + BigEndian(len)
  {
    BigEndianNonEmpty(len);
    hide BigEndian;
    var n := |BigEndian(len)|;
    assert FirstByte(short, len) == short + 55 + n <= 0xc0 + 55 + 8;
    assert FirstByte(short, len) % 256 == FirstByte(short, len);
  }

  lemma HeaderStands(buf: Bytes, off: nat, short: byte, len: nat)
    requires (short == 0x80 || short == 0xc0) && len < TWO_64 && Holds(buf, off, Header(short, len))
    ensures PrefixComplete(buf, off) && DeclaredEnd(buf, off) == off + HeaderSize(len) + len
    ensures buf[off] == FirstByte(short, len)
    ensures len > 55 ==> 1 <= |BigEndian(len)| <= 8 && buf[off + 1..off + 1 + |BigEndian(len)|] == BigEndian(len)
  {
    if len > 55 { LongHeaderStands(buf, off, short, len); } else { ShortHeaderStands(buf, off, short, len); }
    hide Header, Holds, PrefixComplete, DeclaredEnd;
  }

  lemma LongHeaderStands(buf: Bytes, off: nat, short: byte, len: nat)
    requires (short == 0x80 || short == 0xc0) && 55 < len < TWO_64 && Holds(buf, off, Header(short, len))
    ensures PrefixComplete(buf, off) && DeclaredEnd(buf, off) == off + 1 + |BigEndian(len)| + len
    ensures buf[off] == FirstByte(short, len)
    ensures 1 <= |BigEndian(len)| <= 8 && buf[off + 1..off + 1 + |BigEndian(len)|] == BigEndian(len)
  {
    LongHeader(short, len);
    ValueOfBigEndian(len);
    hide BigEndian, Value, Header;
    var be, first := BigEndian(len), FirstByte(short, len);
    HoldsBoth(buf, off, [first], be);
    HoldsByte(buf, off, [first], 0);
    assert Holds(buf, off + 1, be);
    LongStands(buf, off, short, be);
  }

  lemma ShortHeaderStands(buf: Bytes, off: nat, short: byte, len: nat)
    requires (short == 0x80 || short == 0xc0) && len <= 55 && Holds(buf, off, Header(short, len))
    ensures PrefixComplete(buf, off) && DeclaredEnd(buf, off) == off + 1 + len
    ensures buf[off] == FirstByte(short, len)
  {
    HoldsByte(buf, off, Header(short, len), 0);
    hide BigEndian;
    ShortStands(buf, off, short, len);
  }

  /** A length prefix of |be| bytes after its first byte. */
  lemma LongStands(buf: Bytes, off: nat, short: byte, be: Bytes)
    requires (short == 0x80 || short == 0xc0) && 1 <= |be| <= 8 && off + 1 + |be| <= |buf|
    requires buf[off] == short + 55 + |be| && buf[off + 1..off + 1 + |be|] == be
    ensures PrefixComplete(buf, off) && DeclaredEnd(buf, off) == off + 1 + |be| + Value(be)
  {
    hide Value;
    assert LengthBytes(buf[off]) == |be|;
  }

  lemma ShortStands(buf: Bytes, off: nat, short: byte, len: nat)
    requires (short == 0x80 || short == 0xc0) && len <= 55 && off < |buf| && buf[off] == short + len
    ensures PrefixComplete(buf, off) && DeclaredEnd(buf, off) == off + 1 + len
  {
    hide Value;
    assert LengthBytes(buf[off]) == 0;
  }

  lemma EncodingDeclares(buf: Bytes, off: nat, item: Item)
    requires GoSlice(buf) && Holds(buf, off, Encode(item))
    ensures PrefixComplete(buf, off) && DeclaredEnd(buf, off) == off + |Encode(item)|
  {
    match item
    case Str(b) =>
      if |b| == 1 && b[0] < 0x80 {
        HoldsByte(buf, off, b, 0);
      } else {
        HeaderDeclares(buf, off, 0x80, b);
      }
    case List(items) => HeaderDeclares(buf, off, 0xc0, EncodeAll(items));
  }

  /** Skipping is exact on every nested item, wherever its encoding stands. */
  lemma SkipEncoded(buf: Bytes, off: nat, item: Item)
    requires GoSlice(buf) && Holds(buf, off, Encode(item))
    ensures SkipItem(buf, off) == Ok(off + |Encode(item)|)
  {
    EncodingDeclares(buf, off, item);
    SkipItemExactIff(buf, off);
  }

  lemma FirstAndRestStand(buf: Bytes, off: nat, items: seq<Item>)
    requires items != [] && Holds(buf, off, EncodeAll(items))
    ensures Holds(buf, off, Encode(items[0]))
    ensures Holds(buf, off + |Encode(items[0])|, EncodeAll(items[1..]))
  {
    hide Encode, Holds;
    HoldsBoth(buf, off, Encode(items[0]), EncodeAll(items[1..]));
  }

  /** Item k of a list stands after the items before it. */
  lemma {:induction false} ItemStands(buf: Bytes, off: nat, items: seq<Item>, k: nat)
    requires Holds(buf, off, EncodeAll(items)) && k < |items|
    ensures Holds(buf, off + |EncodeAll(items[..k])|, Encode(items[k]))
    decreases k
  {
    FirstAndRestStand(buf, off, items);
    if k > 0 {
      ItemStands(buf, off + |Encode(items[0])|, items[1..], k - 1);
      assert items[..k][0] == items[0] && items[..k][1..] == items[1..][..k - 1];
    }
  }

  lemma {:induction false} EncodeAllSnoc(items: seq<Item>, k: nat)
    requires k < |items|
    ensures EncodeAll(items[..k + 1]) == EncodeAll(items[..k]) + Encode(items[k])
  {
    if k > 0 {
      EncodeAllSnoc(items[1..], k - 1);
      assert items[..k + 1][1..] == items[1..][..k] && items[..k][1..] == items[1..][..k - 1];
    } else {
      assert items[..1][1..] == [];
    }
  }

  lemma SkipItemsSnoc(buf: Bytes, off: int64, k: nat, o: int64)
    requires GoSlice(buf) && SkipItems(buf, off, k) == Ok(o)
    ensures SkipItems(buf, off, k + 1) == SkipItem(buf, o)
  {
  }

  /** Skips that lead from each offset to the next add up. */
  lemma {:induction false} SkipItemsAlong(buf: Bytes, offs: seq<int64>, k: nat)
    requires GoSlice(buf) && k < |offs|
    requires forall i :: 0 <= i < k ==> SkipItem(buf, offs[i]) == Ok(offs[i + 1])
    ensures SkipItems(buf, offs[0], k) == Ok(offs[k])
  {
    if k > 0 {
      SkipItemsAlong(buf, offs, k - 1);
      SkipItemsSnoc(buf, offs[0], k - 1, offs[k - 1]);
    }
  }

  lemma {:induction false} SkipOneOfList(buf: Bytes, off: nat, items: seq<Item>, k: nat)
    requires GoSlice(buf) && Holds(buf, off, EncodeAll(items)) && k < |items|
    ensures off + |EncodeAll(items[..k])| <= |buf|
    ensures SkipItem(buf, off + |EncodeAll(items[..k])|) == Ok(off + |EncodeAll(items[..k + 1])|)
  {
    hide *;
    var o := off + |EncodeAll(items[..k])|;
    ItemStands(buf, off, items, k);
    HoldsBounds(buf, o, Encode(items[k]));
    EncodeAllSnoc(items, k);
    SkipEncoded(buf, o, items[k]);
  }

  lemma HoldsBounds(buf: Bytes, off: nat, e: Bytes)
    requires Holds(buf, off, e)
    ensures off + |e| <= |buf|
  {
  }

  lemma SkipItemsEncoded(buf: Bytes, off: nat, items: seq<Item>, k: nat)
    requires GoSlice(buf) && Holds(buf, off, EncodeAll(items)) && k <= |items|
    ensures SkipItems(buf, off, k) == Ok(off + |EncodeAll(items[..k])|)
  {
    hide SkipItem, SkipItems, Encode, Holds;
    assert items[..0] == [] && items[..|items|] == items;
    forall i | 0 <= i <= k ensures off + |EncodeAll(items[..i])| <= |buf| {
      if i < |items| { SkipOneOfList(buf, off, items, i); } else { HoldsBounds(buf, off, EncodeAll(items)); }
    }
    var offs: seq<int64> := seq(k + 1, i requires 0 <= i <= k => off + |EncodeAll(items[..i])|);
    forall i | 0 <= i < k ensures SkipItem(buf, offs[i]) == Ok(offs[i + 1]) {
      SkipOneOfList(buf, off, items, i);
    }
    SkipItemsAlong(buf, offs, k);
  }

  /** What the reader makes of one encoded item: strings of at most 8 bytes are numbers. */
  function Expected(item: Item): Outcome<nat> {
    match item
    case Str(b) => if |b| <= 8 then Ok(Value(b)) else Err
    case List(_) => Err
  }

  lemma ReadUintSingle(buf: Bytes, off: nat, b: Bytes)
    requires GoSlice(buf) && |b| == 1 && b[0] < 0x80 && Holds(buf, off, b)
    ensures ReadUint(buf, off) == Ok((Value(b), off + 1))
  {
    HoldsByte(buf, off, b, 0);
    assert b[..0] == [] && Value(b) == Value(b[..0]) * 256 + b[0];
  }

  lemma BEUintUnsigned(b: Bytes)
    requires |b| <= 8
    ensures BEUint(b).Ok? && Unsigned(BEUint(b).value) == Value(b)
  {
    ValueBelow8(b);
    UnsignedUndoesWrap(Value(b));
  }

  lemma ReadUintShort(buf: Bytes, off: nat, b: Bytes)
    requires GoSlice(buf) && |b| <= 8 && off + 1 + |b| <= |buf|
    requires buf[off] == 0x80 + |b| && buf[off + 1..off + 1 + |b|] == b
    ensures ReadUint(buf, off) == Ok((Value(b), off + 1 + |b|))
  {
    BEUintUnsigned(b);
  }

  /** uint64(int(v)): values at or above 2^63 pass through negative ints unharmed. */
  lemma UnsignedUndoesWrap(v: nat)
    requires v < TWO_64
    ensures Unsigned(Wrap(v)) == v
  {
    if v >= TWO_63 { assert Wrap(v) == v - TWO_64; }
  }

  lemma ReadUintRefuses(buf: Bytes, off: nat, short: byte, payload: Bytes)
    requires GoSlice(buf) && |payload| < TWO_64 && (short == 0xc0 || (short == 0x80 && |payload| > 8))
    requires Holds(buf, off, Header(short, |payload|) + payload)
    ensures ReadUint(buf, off) == Err
  {
    HeaderDeclares(buf, off, short, payload);
    HoldsBoth(buf, off, Header(short, |payload|), payload);
    HeaderStands(buf, off, short, |payload|);
  }

  lemma ReadUintEncoded(buf: Bytes, off: nat, item: Item)
    requires GoSlice(buf) && Holds(buf, off, Encode(item))
    ensures match Expected(item)
            case Ok(v) => ReadUint(buf, off) == Ok((v, off + |Encode(item)|))
            case _ => ReadUint(buf, off) == Err
  {
    match item
    case Str(b) =>
      if |b| == 1 && b[0] < 0x80 {
        ReadUintSingle(buf, off, b);
      } else if |b| <= 8 {
        HoldsBoth(buf, off, [0x80 + |b|], b);
        HoldsByte(buf, off, [0x80 + |b|], 0);
        ReadUintShort(buf, off, b);
      } else {
        ReadUintRefuses(buf, off, 0x80, b);
      }
    case List(items) => ReadUintRefuses(buf, off, 0xc0, EncodeAll(items));
  }

  lemma EnterHeader(buf: Bytes, payload: Bytes)
    requires |payload| < TWO_64 && GoSlice(buf) && buf == Header(0xc0, |payload|) + payload
    ensures EnterList(buf, 0) == Ok((HeaderSize(|payload|), |payload|))
    ensures Holds(buf, HeaderSize(|payload|), payload)
  {
    hide BigEndian, Value, Holds, Wrap, Header, DeclaredEnd;
    HoldsAtZero(buf);
    HoldsBoth(buf, 0, Header(0xc0, |payload|), payload);
    HeaderStands(buf, 0, 0xc0, |payload|);
    ValueOfBigEndian(|payload|);
    WrapExactIff(|payload|);
  }

  lemma HoldsAtZero(buf: Bytes)
    ensures Holds(buf, 0, buf)
  {
    assert buf[0..0 + |buf|] == buf;
  }

  /**
   The field reader on the encoding of any list: field k decoded when it is a string
   of at most 8 bytes, an error when it is missing, longer or a list; never a panic.
   */
  lemma FieldAtEncoded(items: seq<Item>, k: nat)
    requires GoSlice(Encode(List(items)))
    ensures FieldAt(Encode(List(items)), k) == if k < |items| then Expected(items[k]) else Err
  {
    var buf, body := Encode(List(items)), EncodeAll(items);
    EnterHeader(buf, body);
    FieldAfterSkips(buf, HeaderSize(|body|), items, k);
  }

  lemma FieldAfterSkips(buf: Bytes, start: nat, items: seq<Item>, k: nat)
    requires GoSlice(buf) && Holds(buf, start, EncodeAll(items)) && |buf| == start + |EncodeAll(items)|
    requires EnterList(buf, 0).Ok? && EnterList(buf, 0).value.0 == start
    ensures FieldAt(buf, k) == if k < |items| then Expected(items[k]) else Err
  {
    if k < |items| {
      PresentField(buf, start, items, k);
    } else {
      MissingField(buf, start, items, k);
    }
  }

  /** The outcome of reading a field, without the offset after it. */
  predicate ReadsAs(read: Outcome<(nat, int64)>, field: Outcome<nat>) {
    match field
    case Ok(v) => read.Ok? && read.value.0 == v
    case Err => read.Err?
    case Panic => read.Panic?
  }

  lemma FieldAtIs(buf: Bytes, start: int64, off: int64, k: nat, field: Outcome<nat>)
    requires GoSlice(buf) && EnterList(buf, 0).Ok? && EnterList(buf, 0).value.0 == start
    requires SkipItems(buf, start, k) == Ok(off) && ReadsAs(ReadUint(buf, off), field)
    ensures FieldAt(buf, k) == field
  {
  }

  lemma ReadOneOfList(buf: Bytes, off: nat, items: seq<Item>, k: nat)
    requires GoSlice(buf) && Holds(buf, off, EncodeAll(items)) && k < |items|
    ensures off + |EncodeAll(items[..k])| <= |buf|
    ensures ReadsAs(ReadUint(buf, off + |EncodeAll(items[..k])|), Expected(items[k]))
  {
    hide Encode, EncodeAll, Value, ReadUint, Holds;
    var o := off + |EncodeAll(items[..k])|;
    ItemStands(buf, off, items, k);
    HoldsBounds(buf, o, Encode(items[k]));
    ReadUintEncoded(buf, o, items[k]);
  }

  lemma PresentField(buf: Bytes, start: nat, items: seq<Item>, k: nat)
    requires GoSlice(buf) && Holds(buf, start, EncodeAll(items)) && k < |items|
    requires EnterList(buf, 0).Ok? && EnterList(buf, 0).value.0 == start
    ensures FieldAt(buf, k) == Expected(items[k])
  {
    hide *;
    ReadOneOfList(buf, start, items, k);
    SkipItemsEncoded(buf, start, items, k);
    FieldAtIs(buf, start, start + |EncodeAll(items[..k])|, k, Expected(items[k]));
  }

  lemma MissingField(buf: Bytes, start: nat, items: seq<Item>, k: nat)
    requires GoSlice(buf) && Holds(buf, start, EncodeAll(items)) && |buf| == start + |EncodeAll(items)|
    requires EnterList(buf, 0).Ok? && EnterList(buf, 0).value.0 == start && |items| <= k
    ensures FieldAt(buf, k) == Err
  {
    var n := |items|;
    SkipItemsEncoded(buf, start, items, n);
    assert items[..n] == items;
    assert SkipItem(buf, |buf|) == Err && ReadUint(buf, |buf|) == Err;
    if n == k {
      FieldAtIs(buf, start, |buf|, k, Err);
    } else {
      SkipItemsSnoc(buf, start, n, |buf|);
      SkipItemsStops(buf, start, n + 1, k);
    }
  }

  lemma CanonicalUintFits(v: nat)
    requires v < TWO_64
    ensures Expected(Str(BigEndian(v))) == Ok(v)
  {
    Pow256Is();
    BigEndianLength(v, 8);
    ValueOfBigEndian(v);
  }

  /** Every uint64 round-trips through its canonical encoding, wherever it stands. */
  lemma UintRoundTrip(buf: Bytes, off: nat, item: Item, v: nat)
    requires GoSlice(buf) && v < TWO_64 && item == Str(BigEndian(v)) && Holds(buf, off, Encode(item))
    ensures ReadUint(buf, off) == Ok((v, off + |Encode(item)|))
  {
    CanonicalUintFits(v);
    ReadUintEncoded(buf, off, item);
  }

  /** A number whose canonical bytes are at most 8 is a uint64. */
  lemma WideUintRefused(v: nat)
    requires v >= TWO_64
    ensures Expected(Str(BigEndian(v))) == Err
  {
    ValueOfBigEndian(v);
    if |BigEndian(v)| <= 8 { ValueBelow8(BigEndian(v)); }
  }

  /** Every header reads back its timestamp if that is a uint64, and any other is refused. */
  lemma TimestampRoundTrip(h: BlockHeader)
    requires GoSlice(EncodeBlockHeader(h))
    ensures FieldAt(EncodeBlockHeader(h), TIME_FIELD) == if h.timestamp < TWO_64 then Ok(h.timestamp) else Err
  {
    FieldAtEncoded(FieldsOf(h), TIME_FIELD);
    TimestampIsAmong(h);
    if h.timestamp < TWO_64 { CanonicalUintFits(h.timestamp); } else { WideUintRefused(h.timestamp); }
    hide *;
  }

  lemma TimestampIsAmong(h: BlockHeader)
    ensures |FieldsOf(h)| > TIME_FIELD && FieldsOf(h)[TIME_FIELD] == Str(BigEndian(h.timestamp))
    ensures EncodeBlockHeader(h) == Encode(List(FieldsOf(h)))
  {
    hide BigEndian, Encode;
  }

  /** Both freezer metadata layouts, [version, tail] and [version, tail, offset], read back the tail. */
  lemma FreezerTailRoundTrip(version: Item, tail: nat, rest: seq<Item>)
    requires tail < TWO_64 && GoSlice(Encode(List([version, Str(BigEndian(tail))] + rest)))
    ensures FreezerTail(Encode(List([version, Str(BigEndian(tail))] + rest))) == Ok(tail)
  {
    var meta := Encode(List([version, Str(BigEndian(tail))] + rest));
    FieldAtEncoded([version, Str(BigEndian(tail))] + rest, TAIL_FIELD);
    FreezerTailIsFieldOne(meta);
    CanonicalUintFits(tail);
  }

  lemma FreezerTailIsFieldOne(meta: Bytes)
    requires GoSlice(meta)
    ensures FreezerTail(meta) == FieldAt(meta, TAIL_FIELD)
  {
    if EnterList(meta, 0).Ok? {
      var off := EnterList(meta, 0).value.0;
      assert SkipItems(meta, off, 0) == Ok(off);
    }
  }
}
