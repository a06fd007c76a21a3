/** Which tree an address is looked up in, said on its bytes: four-byte addresses and the IPv4-mapped ones of
    section 2.5.5.2 of RFC 4291 in the IPv4 tree, all other sixteen-byte addresses whole in the IPv6 tree. */
module AddressForms {
  import opened CidrAddress
  import opened IpTrie
  import opened LongestMatch
  import opened Wrappers

  /** The first twelve bytes of an IPv4-mapped address. */
  const MAPPED: seq<Byte> := [0, 0, 0, 0, 0, 0, 0, 0, 0, 0, 255, 255]

  /** The path from a root along the first `n` bits of the bytes as they stand. */
  function Walk(root: Family, bytes: seq<Byte>, n: nat): Path
    requires n <= 8 * |bytes|
  {
    if n == 0 then Root(root) else Down(Walk(root, bytes, n - 1), Bit(bytes, n - 1))
  }

  lemma {:induction false} FourBytesWalk(a: seq<Byte>, n: nat)
    requires |a| == 4 && n <= 32
    ensures Canonical(a) == a && Prefix(a, n) == Walk(V4, a, n)
  {
    if n > 0 {
      FourBytesWalk(a, n - 1);
    }
  }

  lemma MappedIsTail(a: seq<Byte>)
    requires |a| == 4
    ensures To4(MAPPED + a) == Some(a)
  {
    var ip := MAPPED + a;
    assert forall i :: 0 <= i < 12 ==> ip[i] == MAPPED[i];
    assert ip[12..] == a;
  }

  lemma {:induction false} MappedWalk(a: seq<Byte>, n: nat)
    requires |a| == 4 && n <= 32
    ensures Canonical(MAPPED + a) == a && Prefix(MAPPED + a, n) == Walk(V4, a, n)
  {
    MappedIsTail(a);
    if n > 0 {
      MappedWalk(a, n - 1);
    }
  }

  lemma TailOnlyOfMapped(ip: seq<Byte>)
    requires |ip| == 16
    ensures To4(ip).Some? ==> ip[..12] == MAPPED
  {
    if To4(ip).Some? {
      assert forall i :: 0 <= i < 12 ==> ip[..12][i] == ip[i];
    }
  }

  lemma {:induction false} OtherWalk(ip: seq<Byte>, n: nat)
    requires |ip| == 16 && ip[..12] != MAPPED && n <= 128
    ensures Canonical(ip) == ip && Prefix(ip, n) == Walk(V6, ip, n)
  {
    TailOnlyOfMapped(ip);
    if n > 0 {
      OtherWalk(ip, n - 1);
    }
  }

  // ----- looking up

  /** A four-byte address is walked from the IPv4 root over all of its 32 bits, and its IPv4-mapped form, which
      is what parsing an address yields, has the same route in every table. */
  lemma IPv4Route(t: Table, a: seq<Byte>)
    requires |a| == 4
    ensures Route(t, a) == Longest(t, Walk(V4, a, 32))
    ensures Route(t, MAPPED + a) == Longest(t, Walk(V4, a, 32))
  {
    FourBytesWalk(a, 32);
    MappedWalk(a, 32);
  }

  /** A sixteen-byte address of any other form is walked from the IPv6 root over all of its 128 bits. */
  lemma IPv6Route(t: Table, ip: seq<Byte>)
    requires |ip| == 16 && ip[..12] != MAPPED
    ensures Route(t, ip) == Longest(t, Walk(V6, ip, 128))
  {
    OtherWalk(ip, 128);
  }

  // ----- inserting

  /** A block of a four-byte or mapped address is stored in the IPv4 tree when its mask has at most 32 ones. */
  lemma IPv4BlockStored(a: seq<Byte>, ones: nat, value: string)
    requires |a| == 4
    ensures var e, m := Entry(Some(IPNet(a, ones)), value), Entry(Some(IPNet(MAPPED + a, ones)), value);
            && (Stores(e) <==> ones <= 32) && (Stores(m) <==> ones <= 32)
            && (ones <= 32 ==> PathOf(e) == Walk(V4, a, ones) && PathOf(m) == Walk(V4, a, ones))
  {
    FourBytesWalk(a, 0);
    MappedWalk(a, 0);
    if ones <= 32 {
      FourBytesWalk(a, ones);
      MappedWalk(a, ones);
    }
  }

  lemma IPv6BlockStored(ip: seq<Byte>, ones: nat, value: string)
    requires |ip| == 16 && ip[..12] != MAPPED
    ensures var e := Entry(Some(IPNet(ip, ones)), value);
            (Stores(e) <==> ones <= 128) && (ones <= 128 ==> PathOf(e) == Walk(V6, ip, ones))
  {
    OtherWalk(ip, 0);
    if ones <= 128 {
      OtherWalk(ip, ones);
    }
  }

  /** A mapped block counts 128 mask bits over four bytes: inserting it runs out of the bytes exactly when its mask
      has more than 32 ones, which every block inside the mapped range has. */
  lemma MappedBlockPanicsIff(a: seq<Byte>, ones: nat, value: string)
    requires |a| == 4
    ensures OutOfRange(Entry(Some(IPNet(MAPPED + a, ones)), value)) <==> ones > 32
  {
    IPv4BlockStored(a, ones, value);
  }

  // ----- what is covered

  /** An IPv4 block covers an address in either form exactly when the address lies in the block's range. */
  lemma IPv4Covers(net: seq<Byte>, ones: nat, value: string, a: seq<Byte>)
    requires |net| == 4 && |a| == 4 && ones <= 32
    ensures var e := Entry(Some(IPNet(net, ones)), value);
            && (Covers(e, a) <==> AddressValue(net) <= AddressValue(a) < AddressValue(net) + Pow2(32 - ones))
            && (Covers(e, MAPPED + a) <==> AddressValue(net) <= AddressValue(a) < AddressValue(net) + Pow2(32 - ones))
  {
    FourBytesWalk(net, 0);
    FourBytesWalk(a, 0);
    MappedWalk(a, 0);
  }

  /** An IPv6 block covers an address of the same kind exactly when the address lies in its range, and never an
      IPv4 address in either form; nor does an IPv4 block cover an IPv6 address. */
  lemma IPv6Covers(net: seq<Byte>, ones: nat, value: string, ip: seq<Byte>, a: seq<Byte>)
    requires |net| == |ip| == 16 && net[..12] != MAPPED && ip[..12] != MAPPED && |a| == 4 && ones <= 128
    ensures var e := Entry(Some(IPNet(net, ones)), value);
            && (Covers(e, ip) <==> AddressValue(net) <= AddressValue(ip) < AddressValue(net) + Pow2(128 - ones))
            && !Covers(e, a) && !Covers(e, MAPPED + a)
            && !Covers(Entry(Some(IPNet(a, ones)), value), ip)
  {
    OtherWalk(net, 0);
    OtherWalk(ip, 0);
    FourBytesWalk(a, 0);
    MappedWalk(a, 0);
  }

  const GOOGLE := Entry(Some(IPNet([8, 8, 8, 0], 24)), "Google")

  /** The block 8.8.8.0/24 answers for 8.8.8.8 in the form that parsing yields. */
  lemma MappedLookupExample(ip: seq<Byte>)
    requires ip == [0, 0, 0, 0, 0, 0, 0, 0, 0, 0, 255, 255, 8, 8, 8, 8]
    ensures Route(TableOf([GOOGLE]), ip) == Some("Google")
  {
    var a: seq<Byte> := [8, 8, 8, 8];
    assert ip == MAPPED + a;
    IPv4BlockStored([8, 8, 8, 0], 24, "Google");
    IPv4Route(TableOf([GOOGLE]), a);
    SameWalk([8, 8, 8, 0], a, 3, 24);
    TableSnoc([], GOOGLE);
    assert [] + [GOOGLE] == [GOOGLE];
    OneBlockAnswers(Walk(V4, a, 24), "Google", a, 32);
  }

  lemma {:induction false} SameWalk(a: seq<Byte>, b: seq<Byte>, k: nat, n: nat)
    requires k <= |a| == |b| && n <= 8 * k && a[..k] == b[..k]
    ensures Walk(V4, a, n) == Walk(V4, b, n)
  {
    if n > 0 {
      SameWalk(a, b, k, n - 1);
      assert a[..k][(n - 1) / 8] == b[..k][(n - 1) / 8];
    }
  }

  lemma {:induction false} OneBlockAnswers(p: Path, value: string, a: seq<Byte>, n: nat)
    requires |a| == 4 && 24 <= n <= 32 && p == Walk(V4, a, 24)
    ensures Longest(map[p := value], Walk(V4, a, n)) == Some(value)
  {
    if n > 24 && Walk(V4, a, n) != p {
      OneBlockAnswers(p, value, a, n - 1);
    }
  }
}
