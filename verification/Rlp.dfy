/**
 RLP as Appendix B of the Ethereum Yellow Paper defines it: the encoding of nested
 byte strings and lists, and big-endian integers without leading zeros.
 */
module Rlp {
  import opened Basics

  datatype Item = Str(bytes: Bytes) | List(items: seq<Item>)

  /** Big-endian bytes of n, no leading zero byte; zero is the empty string. */
  function BigEndian(n: nat): Bytes {
    if n == 0 then [] else BigEndian(n / 256) + [n % 256]
  }

  /** The number a big-endian byte string stands for, leading zeros allowed. */
  function Value(b: Bytes): nat {
    if b == [] then 0 else Value(b[..|b| - 1]) * 256 + b[|b| - 1]
  }

  function HeaderSize(len: nat): nat {
    if len <= 55 then 1 else 1 + |BigEndian(len)|
  }

  /**
   The prefix of a string (short = 0x80) or list (short = 0xc0) of `len` payload bytes.
   A payload of 2^64 bytes or more has no encoding; for it the first byte means nothing.
   */
  function Header(short: byte, len: nat): (h: Bytes)
    requires short == 0x80 || short == 0xc0
    ensures |h| == HeaderSize(len)
  {
    if len <= 55 then [short + len] else [(short + 55 + |BigEndian(len)|) % 256] + BigEndian(len)
  }

  function Encode(item: Item): Bytes
    decreases item
  {
    match item
    case Str(b) => if |b| == 1 && b[0] < 0x80 then b else Header(0x80, |b|) + b
    case List(items) => Header(0xc0, |EncodeAll(items)|) + EncodeAll(items)
  }

  function EncodeAll(items: seq<Item>): Bytes
    decreases items
  {
    if items == [] then [] else Encode(items[0]) + EncodeAll(items[1..])
  }

  function Pow256(k: nat): nat {
    if k == 0 then 1 else 256 * Pow256(k - 1)
  }

  lemma {:induction false} BigEndianLength(n: nat, k: nat)
    requires n < Pow256(k)
    ensures |BigEndian(n)| <= k
  {
    if n != 0 {
      BigEndianLength(n / 256, k - 1);
    }
  }

  lemma {:induction false} ValueBelow(b: Bytes, k: nat)
    requires |b| <= k
    ensures Value(b) < Pow256(k)
  {
    if b != [] {
      ValueBelow(b[..|b| - 1], k - 1);
    } else if k > 0 {
      ValueBelow(b, k - 1);
    }
  }

  lemma Pow256Is()
    ensures Pow256(8) == TWO_64 && Pow256(7) * 256 == TWO_64 && Pow256(7) == 0x100_0000_0000_0000
  {
    assert Pow256(2) == 65536;
    assert Pow256(4) == 0x1_0000_0000;
    assert Pow256(6) == 0x1_0000_0000_0000;
  }

  /** Decoding a number's canonical bytes gives the number back. */
  lemma {:induction false} ValueOfBigEndian(n: nat)
    ensures Value(BigEndian(n)) == n
  {
    if n != 0 {
      ValueOfBigEndian(n / 256);
      assert BigEndian(n)[..|BigEndian(n)| - 1] == BigEndian(n / 256);
    }
  }

  lemma BigEndianNonEmpty(n: nat)
    requires 55 < n < TWO_64
    ensures 1 <= |BigEndian(n)| <= 8
  {
    Pow256Is();
    BigEndianLength(n, 8);
  }
}
