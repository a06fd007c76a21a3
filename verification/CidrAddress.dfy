/** Addresses and CIDR blocks as `net.IP` and `net.IPNet` hold them, and what it means for a
    block to contain an address: the numeric reading of section 3.1 of RFC 4632. */
module CidrAddress {
  import opened Wrappers

  type Byte = b: int | 0 <= b < 256

  datatype Family = V4 | V6

  /** A parsed block: the address with its host bits cleared, and the number of leading ones of its mask. */
  datatype IPNet = IPNet(ip: seq<Byte>, ones: nat)

  /** Go's `net.IP` is four bytes or sixteen. */
  predicate IsIP(ip: seq<Byte>) {
    |ip| == 4 || |ip| == 16
  }

  /** `To4`: a four-byte address, or the tail of an IPv4-mapped sixteen-byte one. */
  function To4(ip: seq<Byte>): (r: Option<seq<Byte>>)
    ensures r.Some? ==> |r.value| == 4
  {
    if |ip| == 4 then Some(ip)
    else if |ip| == 16 && (forall i :: 0 <= i < 10 ==> ip[i] == 0) && ip[10] == 255 && ip[11] == 255 then Some(ip[12..])
    else None
  }

  function FamilyOf(ip: seq<Byte>): Family {
    if To4(ip).Some? then V4 else V6
  }

  /** The bytes the trie walks over. */
  function Canonical(ip: seq<Byte>): seq<Byte> {
    if To4(ip).Some? then To4(ip).value else ip
  }

  function Pow2(n: nat): (r: nat)
    ensures r > 0
  {
    if n == 0 then 1 else 2 * Pow2(n - 1)
  }

  /** `b >> k` on an unsigned byte. */
  function Shr(b: nat, k: nat): nat {
    if k == 0 then b else Shr(b, k - 1) / 2
  }

  /** Bit `i` of the address, most significant first: `(ip[i/8] >> (7 - i%8)) & 1`. */
  function Bit(ip: seq<Byte>, i: nat): bool
    requires i / 8 < |ip|
  {
    Shr(ip[i / 8], 7 - i % 8) % 2 == 1
  }

  function Bits(ip: seq<Byte>): (r: seq<bool>)
    ensures |r| == 8 * |ip|
  {
    seq(8 * |ip|, i requires 0 <= i < 8 * |ip| => Bit(ip, i))
  }

  /** The number a bit string denotes, most significant bit first. */
  function Value(bits: seq<bool>): nat {
    if bits == [] then 0 else 2 * Value(bits[..|bits| - 1]) + (if bits[|bits| - 1] then 1 else 0)
  }

  /** The number an address denotes, in network byte order. */
  function AddressValue(ip: seq<Byte>): nat {
    if ip == [] then 0 else 256 * AddressValue(ip[..|ip| - 1]) + ip[|ip| - 1]
  }

  /** The block is the `2^(width-ones)` consecutive addresses that start at its own address. */
  ghost predicate Contains(net: IPNet, ip: seq<Byte>)
    requires net.ones <= 8 * |net.ip|
  {
    && |net.ip| == |ip|
    && AddressValue(net.ip) <= AddressValue(ip) < AddressValue(net.ip) + Pow2(8 * |net.ip| - net.ones)
  }

  /** `ParseCIDR` clears the host bits. */
  predicate HostBitsClear(net: IPNet)
    requires net.ones <= 8 * |net.ip|
  {
    forall i :: net.ones <= i < 8 * |net.ip| ==> !Bits(net.ip)[i]
  }

  lemma {:induction false} ValueConcat(a: seq<bool>, b: seq<bool>)
    ensures Value(a + b) == Value(a) * Pow2(|b|) + Value(b)
  {
    if b == [] {
      assert a + b == a;
    } else {
      var b' := b[..|b| - 1];
      assert (a + b)[..|a + b| - 1] == a + b';
      ValueConcat(a, b');
      assert Value(a) * Pow2(|b|) == 2 * (Value(a) * Pow2(|b'|));
    }
  }

  lemma {:induction false} ValueBound(a: seq<bool>)
    ensures Value(a) < Pow2(|a|)
  {
    if a != [] {
      ValueBound(a[..|a| - 1]);
    }
  }

  lemma {:induction false} ValueInjective(a: seq<bool>, b: seq<bool>)
    requires |a| == |b| && Value(a) == Value(b)
    ensures a == b
  {
    if a != [] {
      ValueInjective(a[..|a| - 1], b[..|b| - 1]);
      assert a == a[..|a| - 1] + [a[|a| - 1]];
      assert b == b[..|b| - 1] + [b[|b| - 1]];
    }
  }

  lemma {:induction false} ValueOfClear(a: seq<bool>)
    requires forall i :: 0 <= i < |a| ==> !a[i]
    ensures Value(a) == 0
  {
    if a != [] {
      ValueOfClear(a[..|a| - 1]);
    }
  }

  lemma {:induction false} ShrBound(b: nat, k: nat)
    ensures Shr(b, k) * Pow2(k) <= b
  {
    if k > 0 {
      ShrBound(b, k - 1);
    }
  }

  lemma {:induction false} ValueOfByte(bits: seq<bool>, b: Byte, n: nat)
    requires |bits| == 8 && n <= 8
    requires forall i :: 0 <= i < 8 ==> bits[i] == (Shr(b, 7 - i) % 2 == 1)
    ensures Value(bits[..n]) == Shr(b, 8 - n)
  {
    if n == 0 {
      Pow2OfByte();
      ShrBound(b, 8);
    } else {
      ValueOfByte(bits, b, n - 1);
      assert bits[..n][..n - 1] == bits[..n - 1];
    }
  }

  /** The bits of all but the last byte are the leading bits. */
  lemma BitsSplit(ip: seq<Byte>)
    requires ip != []
    ensures Bits(ip)[..8 * (|ip| - 1)] == Bits(ip[..|ip| - 1])
  {
    forall i | 0 <= i < 8 * (|ip| - 1) ensures Bits(ip)[i] == Bits(ip[..|ip| - 1])[i] {
      assert ip[i / 8] == ip[..|ip| - 1][i / 8];
    }
  }

  lemma LastByteDenotes(ip: seq<Byte>)
    requires ip != []
    ensures Value(Bits(ip)[8 * (|ip| - 1)..]) == ip[|ip| - 1]
  {
    var n := |ip| - 1;
    var low := Bits(ip)[8 * n..];
    forall i | 0 <= i < 8 ensures low[i] == (Shr(ip[n], 7 - i) % 2 == 1) {
      assert (8 * n + i) / 8 == n && (8 * n + i) % 8 == i;
    }
    ValueOfByte(low, ip[n], 8);
    assert low[..8] == low;
  }

  lemma Pow2OfByte()
    ensures Pow2(8) == 256
  {
    assert Pow2(4) == 16;
  }

  /** The bits the trie reads off an address denote the address. */
  lemma {:induction false} BitsDenoteAddress(ip: seq<Byte>)
    ensures Value(Bits(ip)) == AddressValue(ip)
  {
    if ip != [] {
      var n := |ip| - 1;
      BitsDenoteAddress(ip[..n]);
      BitsSplit(ip);
      LastByteDenotes(ip);
      Pow2OfByte();
      ValueConcat(Bits(ip)[..8 * n], Bits(ip)[8 * n..]);
      assert Bits(ip)[..8 * n] + Bits(ip)[8 * n..] == Bits(ip);
    }
  }

  lemma {:induction false} QuotientUnique(q: nat, q': nat, r: nat, s: nat)
    requires s > 0 && r < s
    ensures q * s <= q' * s + r < q * s + s <==> q == q'
  {
    if q < q' {
      assert (q + 1) * s <= q' * s;
    } else if q' < q {
      assert (q' + 1) * s <= q * s;
    }
  }

  lemma ValueOfBlock(a: seq<bool>, n: nat)
    requires n <= |a| && forall i :: n <= i < |a| ==> !a[i]
    ensures Value(a) == Value(a[..n]) * Pow2(|a| - n)
  {
    ValueConcat(a[..n], a[n..]);
    ValueOfClear(a[n..]);
    assert a == a[..n] + a[n..];
  }

  lemma ValueOfMember(b: seq<bool>, n: nat) returns (rest: nat)
    requires n <= |b|
    ensures Value(b) == Value(b[..n]) * Pow2(|b| - n) + rest && rest < Pow2(|b| - n)
  {
    ValueConcat(b[..n], b[n..]);
    ValueBound(b[n..]);
    assert b == b[..n] + b[n..];
    rest := Value(b[n..]);
  }

  lemma RangeIffPrefix(a: seq<bool>, b: seq<bool>, n: nat)
    requires n <= |a| == |b| && forall i :: n <= i < |a| ==> !a[i]
    ensures Value(a) <= Value(b) < Value(a) + Pow2(|a| - n) <==> a[..n] == b[..n]
  {
    ValueOfBlock(a, n);
    var rest := ValueOfMember(b, n);
    QuotientUnique(Value(a[..n]), Value(b[..n]), rest, Pow2(|a| - n));
    if Value(a[..n]) == Value(b[..n]) {
      ValueInjective(a[..n], b[..n]);
    }
  }

  /** Sharing the block's leading bits is the same as lying in its range of addresses. */
  lemma ContainsIffPrefix(net: IPNet, ip: seq<Byte>)
    requires net.ones <= 8 * |net.ip| && HostBitsClear(net)
    requires |net.ip| == |ip|
    ensures Contains(net, ip) <==> Bits(net.ip)[..net.ones] == Bits(ip)[..net.ones]
  {
    BitsDenoteAddress(net.ip);
    BitsDenoteAddress(ip);
    RangeIffPrefix(Bits(net.ip), Bits(ip), net.ones);
  }
}
