/** What the trie answers, said without the trie: the longest-match rule of section 5.1 of RFC 4632
    over the list of blocks given to `Insert`. */
module LongestMatch {
  import opened CidrAddress
  import opened IpTrie
  import opened Wrappers

  /** One call of `Insert`; a string that is not a CIDR block parses to `None`. */
  datatype Entry = Entry(parsed: Option<IPNet>, value: string)

  /** The calls `net.ParseCIDR` can give rise to. */
  ghost predicate WellFormed(e: Entry) {
    e.parsed.Some? ==>
      && IsIP(e.parsed.value.ip)
      && (Walkable(e.parsed.value) ==> HostBitsClear(Block(e.parsed.value)))
  }

  function Block(net: IPNet): IPNet {
    net.(ip := Canonical(net.ip))
  }

  predicate Stores(e: Entry) {
    e.parsed.Some? && Walkable(e.parsed.value)
  }

  function PathOf(e: Entry): Path
    requires Stores(e)
  {
    Prefix(e.parsed.value.ip, e.parsed.value.ones)
  }

  /** The routing table after a sequence of calls. */
  function TableOf(h: seq<Entry>): Table {
    if h == [] then map[]
    else
      var e := h[|h| - 1];
      if Stores(e) then Stored(TableOf(h[..|h| - 1]), PathOf(e), e.value) else TableOf(h[..|h| - 1])
  }

  /** The block of a storing call contains the address. */
  ghost predicate Covers(e: Entry, ip: seq<Byte>) {
    Stores(e) && Contains(Block(e.parsed.value), Canonical(ip))
  }

  ghost predicate SameBlock(e: Entry, e': Entry) {
    Stores(e) && Stores(e') && Block(e.parsed.value) == Block(e'.parsed.value)
  }

  /** The call still counts: it stored a value and no later call was for the same block. */
  ghost predicate Live(h: seq<Entry>, i: int) {
    && 0 <= i < |h|
    && Stores(h[i]) && h[i].value != ""
    && (forall j :: i < j < |h| ==> !SameBlock(h[i], h[j]))
  }

  /** Call `i` is live, contains the address, and no live call that does has a longer mask. */
  ghost predicate Wins(h: seq<Entry>, ip: seq<Byte>, i: int) {
    && Live(h, i) && Covers(h[i], ip)
    && (forall j :: Live(h, j) && Covers(h[j], ip) ==> h[j].parsed.value.ones <= h[i].parsed.value.ones)
  }

  /** A plain scan of all calls that keeps the match with the longest mask, the later one on a tie. */
  ghost function Scan(h: seq<Entry>, ip: seq<Byte>): Option<Entry> {
    if h == [] then None
    else
      var e, best := h[|h| - 1], Scan(h[..|h| - 1], ip);
      if Covers(e, ip) && (best.None? || (best.value.parsed.Some? && best.value.parsed.value.ones <= e.parsed.value.ones))
      then Some(e) else best
  }

  // ----- paths, bits and blocks

  function Depth(p: Path): nat {
    if p.Root? then 0 else Depth(p.up) + 1
  }

  lemma {:induction false} DepthOfPrefix(ip: seq<Byte>, n: nat)
    requires n <= 8 * |Canonical(ip)|
    ensures Depth(Prefix(ip, n)) == n
  {
    if n > 0 {
      DepthOfPrefix(ip, n - 1);
    }
  }

  lemma LastBitSplits(x: seq<bool>, y: seq<bool>, n: nat)
    requires 0 < n <= |x| && n <= |y|
    ensures x[..n] == y[..n] <==> x[..n - 1] == y[..n - 1] && x[n - 1] == y[n - 1]
  {
    assert x[..n] == x[..n - 1] + [x[n - 1]];
    assert y[..n] == y[..n - 1] + [y[n - 1]];
  }

  lemma {:induction false} PrefixesAgree(a: seq<Byte>, b: seq<Byte>, n: nat, m: nat)
    requires n <= 8 * |Canonical(a)| && m <= 8 * |Canonical(b)|
    ensures Prefix(a, n) == Prefix(b, m) <==>
            n == m && FamilyOf(a) == FamilyOf(b) && Bits(Canonical(a))[..n] == Bits(Canonical(b))[..m]
  {
    if n != m {
      DepthOfPrefix(a, n);
      DepthOfPrefix(b, m);
    } else if n > 0 {
      PrefixesAgree(a, b, n - 1, n - 1);
      LastBitSplits(Bits(Canonical(a)), Bits(Canonical(b)), n);
    }
  }

  /** A block contains an address exactly when its path is a prefix of the address's path. */
  lemma CoversIffPrefix(e: Entry, ip: seq<Byte>)
    requires WellFormed(e) && Stores(e) && IsIP(ip)
    ensures Covers(e, ip) <==>
            e.parsed.value.ones <= 8 * |Canonical(ip)| && PathOf(e) == Prefix(ip, e.parsed.value.ones)
  {
    var net := e.parsed.value;
    if |Canonical(net.ip)| == |Canonical(ip)| {
      ContainsIffPrefix(Block(net), Canonical(ip));
      PrefixesAgree(net.ip, ip, net.ones, net.ones);
    } else if net.ones <= 8 * |Canonical(ip)| {
      PrefixesAgree(net.ip, ip, net.ones, net.ones);
    }
  }

  lemma SameBlockIffSamePath(e: Entry, e': Entry)
    requires WellFormed(e) && WellFormed(e') && Stores(e) && Stores(e')
    ensures SameBlock(e, e') <==> PathOf(e) == PathOf(e')
  {
    var a, b := e.parsed.value, e'.parsed.value;
    PrefixesAgree(a.ip, b.ip, a.ones, b.ones);
    if PathOf(e) == PathOf(e') {
      var x, y := Bits(Canonical(a.ip)), Bits(Canonical(b.ip));
      assert forall i :: 0 <= i < a.ones ==> x[i] == x[..a.ones][i] && y[i] == y[..a.ones][i];
      assert x == y;
      BitsDenoteAddress(Canonical(a.ip));
      BitsDenoteAddress(Canonical(b.ip));
      AddressInjective(Canonical(a.ip), Canonical(b.ip));
    }
  }

  lemma {:induction false} AddressInjective(a: seq<Byte>, b: seq<Byte>)
    requires |a| == |b| && AddressValue(a) == AddressValue(b)
    ensures a == b
  {
    if a != [] {
      var n := |a| - 1;
      assert AddressValue(a[..n]) == AddressValue(b[..n]) && a[n] == b[n];
      AddressInjective(a[..n], b[..n]);
      assert a == a[..n] + [a[n]] && b == b[..n] + [b[n]];
    }
  }

  // ----- the table holds the live calls

  lemma {:induction false} LiveExtends(h: seq<Entry>, i: nat)
    requires h != [] && i < |h| - 1
    ensures Live(h, i) <==> Live(h[..|h| - 1], i) && !SameBlock(h[i], h[|h| - 1])
  {
    var h' := h[..|h| - 1];
    assert h'[i] == h[i];
    if Live(h', i) && !SameBlock(h[i], h[|h| - 1]) {
      forall j | i < j < |h| ensures !SameBlock(h[i], h[j]) {
        if j < |h| - 1 {
          assert !SameBlock(h'[i], h'[j]);
        }
      }
    }
    if Live(h, i) {
      forall j | i < j < |h'| ensures !SameBlock(h'[i], h'[j]) {
        assert !SameBlock(h[i], h[j]);
      }
    }
  }

  lemma {:induction false} LiveIsStored(h: seq<Entry>, i: nat)
    requires forall e | e in h :: WellFormed(e)
    requires Live(h, i)
    ensures PathOf(h[i]) in TableOf(h) && TableOf(h)[PathOf(h[i])] == h[i].value
  {
    var last := |h| - 1;
    if i < last {
      LiveExtends(h, i);
      LiveIsStored(h[..last], i);
      if Stores(h[last]) {
        SameBlockIffSamePath(h[i], h[last]);
      }
    }
  }

  lemma {:induction false} StoredIsLive(h: seq<Entry>, p: Path) returns (i: nat)
    requires forall e | e in h :: WellFormed(e)
    requires p in TableOf(h)
    ensures Live(h, i) && PathOf(h[i]) == p && h[i].value == TableOf(h)[p]
  {
    var last := |h| - 1;
    if Stores(h[last]) && PathOf(h[last]) == p {
      i := last;
    } else {
      i := StoredIsLive(h[..last], p);
      if Stores(h[last]) {
        SameBlockIffSamePath(h[i], h[last]);
      }
      LiveExtends(h, i);
    }
  }

  // ----- the lookup finds the longest stored prefix

  lemma {:induction false} LongestIsAPrefix(t: Table, ip: seq<Byte>, n: nat) returns (m: nat)
    requires n <= 8 * |Canonical(ip)|
    ensures m <= n
    ensures Longest(t, Prefix(ip, n)).Some? ==>
              Prefix(ip, m) in t && Longest(t, Prefix(ip, n)).value == t[Prefix(ip, m)]
    ensures forall k :: (if Longest(t, Prefix(ip, n)).Some? then m else -1) < k <= n ==> Prefix(ip, k) !in t
  {
    if Prefix(ip, n) in t || n == 0 {
      m := n;
    } else {
      m := LongestIsAPrefix(t, ip, n - 1);
    }
  }

  lemma LiveCoverIsAPrefix(h: seq<Entry>, ip: seq<Byte>, j: nat)
    requires IsIP(ip) && (forall e | e in h :: WellFormed(e))
    requires Live(h, j) && Covers(h[j], ip)
    ensures h[j].parsed.value.ones <= 8 * |Canonical(ip)|
    ensures Prefix(ip, h[j].parsed.value.ones) == PathOf(h[j])
    ensures Prefix(ip, h[j].parsed.value.ones) in TableOf(h)
  {
    CoversIffPrefix(h[j], ip);
    LiveIsStored(h, j);
  }

  lemma StoredPrefixWins(h: seq<Entry>, ip: seq<Byte>, m: nat) returns (i: nat)
    requires IsIP(ip) && (forall e | e in h :: WellFormed(e))
    requires m <= 8 * |Canonical(ip)| && Prefix(ip, m) in TableOf(h)
    requires forall j :: Live(h, j) && Covers(h[j], ip) ==> h[j].parsed.value.ones <= m
    ensures Wins(h, ip, i) && h[i].value == TableOf(h)[Prefix(ip, m)]
  {
    i := StoredIsLive(h, Prefix(ip, m));
    PrefixesAgree(h[i].parsed.value.ip, ip, h[i].parsed.value.ones, m);
    CoversIffPrefix(h[i], ip);
  }

  lemma RouteHasWinner(h: seq<Entry>, ip: seq<Byte>) returns (i: nat)
    requires IsIP(ip) && (forall e | e in h :: WellFormed(e))
    ensures Route(TableOf(h), ip).None? ==> forall j :: Live(h, j) ==> !Covers(h[j], ip)
    ensures Route(TableOf(h), ip).Some? ==> Wins(h, ip, i) && h[i].value == Route(TableOf(h), ip).value
  {
    var t, width := TableOf(h), 8 * |Canonical(ip)|;
    var m := LongestIsAPrefix(t, ip, width);
    forall j | Live(h, j) && Covers(h[j], ip)
      ensures Route(t, ip).Some? && h[j].parsed.value.ones <= m
    {
      LiveCoverIsAPrefix(h, ip, j);
    }
    i := 0;
    if Route(t, ip).Some? {
      i := StoredPrefixWins(h, ip, m);
    }
  }

  lemma WinnersAgree(h: seq<Entry>, ip: seq<Byte>, i: nat, j: nat)
    requires IsIP(ip) && (forall e | e in h :: WellFormed(e))
    requires Wins(h, ip, i) && Wins(h, ip, j)
    ensures h[i].value == h[j].value
  {
    LiveCoverIsAPrefix(h, ip, i);
    LiveCoverIsAPrefix(h, ip, j);
    LiveIsStored(h, i);
    LiveIsStored(h, j);
  }

  /** After any sequence of calls, the route of an address is the value of the live block with the
      longest mask that contains it, and there is none exactly when no live block contains it. */
  lemma RouteIsLongestMatch(h: seq<Entry>, ip: seq<Byte>)
    requires IsIP(ip) && (forall e | e in h :: WellFormed(e))
    ensures Route(TableOf(h), ip).None? <==> (forall j :: Live(h, j) ==> !Covers(h[j], ip))
    ensures forall v :: Route(TableOf(h), ip) == Some(v) <==> exists i :: Wins(h, ip, i) && h[i].value == v
  {
    var i := RouteHasWinner(h, ip);
    forall i' | Wins(h, ip, i') ensures Route(TableOf(h), ip) == Some(h[i'].value) {
      assert Live(h, i') && Covers(h[i'], ip);
      WinnersAgree(h, ip, i, i');
    }
  }

  // ----- the trie refines the linear scan

  /** The best call so far stays the best after a call that does not contain the address, or has a shorter mask. */
  lemma WinnerKept(h: seq<Entry>, ip: seq<Byte>, i: int)
    requires h != [] && Wins(h[..|h| - 1], ip, i)
    requires Covers(h[|h| - 1], ip) ==> h[|h| - 1].parsed.value.ones < h[i].parsed.value.ones
    ensures Wins(h, ip, i)
  {
    LiveExtends(h, i);
    forall j | Live(h, j) && Covers(h[j], ip) ensures h[j].parsed.value.ones <= h[i].parsed.value.ones {
      if j < |h| - 1 {
        LiveExtends(h, j);
      }
    }
  }

  /** A call that contains the address, with a mask no shorter than the best so far, becomes the best. */
  lemma WinnerReplaced(h: seq<Entry>, ip: seq<Byte>, i: int)
    requires h != [] && h[|h| - 1].value != "" && Covers(h[|h| - 1], ip)
    requires Wins(h[..|h| - 1], ip, i) ==> h[i].parsed.value.ones <= h[|h| - 1].parsed.value.ones
    requires Wins(h[..|h| - 1], ip, i) || forall j :: 0 <= j < |h| - 1 ==> !Covers(h[j], ip)
    ensures Wins(h, ip, |h| - 1)
  {
    forall j | Live(h, j) && Covers(h[j], ip) && j < |h| - 1
      ensures h[j].parsed.value.ones <= h[|h| - 1].parsed.value.ones
    {
      LiveExtends(h, j);
    }
  }

  lemma {:induction false} ScanWins(h: seq<Entry>, ip: seq<Byte>) returns (i: int)
    requires forall e | e in h :: e.value != ""
    ensures Scan(h, ip).None? ==> forall j :: 0 <= j < |h| ==> !Covers(h[j], ip)
    ensures Scan(h, ip).Some? ==> Wins(h, ip, i) && h[i] == Scan(h, ip).value
  {
    i := 0;
    if h != [] {
      var last := |h| - 1;
      i := ScanWins(h[..last], ip);
      assert forall j :: 0 <= j < last ==> h[..last][j] == h[j];
      if Scan(h, ip) == Scan(h[..last], ip) && !(Covers(h[last], ip) && Scan(h[..last], ip) == Some(h[last])) {
        if Scan(h, ip).Some? {
          WinnerKept(h, ip, i);
        }
      } else {
        WinnerReplaced(h, ip, i);
        i := last;
      }
    }
  }

  /** When every call carries a value, the trie and the plain scan of the calls agree. */
  lemma RouteRefinesScan(h: seq<Entry>, ip: seq<Byte>)
    requires IsIP(ip) && (forall e | e in h :: WellFormed(e))
    requires forall e | e in h :: e.value != ""
    ensures Route(TableOf(h), ip) == match Scan(h, ip) case None => None case Some(e) => Some(e.value)
  {
    RouteIsLongestMatch(h, ip);
    var i := ScanWins(h, ip);
    if Scan(h, ip).None? {
      assert forall j :: Live(h, j) ==> !Covers(h[j], ip);
    } else {
      assert Wins(h, ip, i) && h[i].value == Scan(h, ip).value.value;
    }
  }

  // ----- independence of calls

  /** A call only changes the route of addresses inside its block; in particular the IPv4 and the
      IPv6 trie never interfere. */
  lemma OnlyCoveredAddressesChange(t: Table, e: Entry, ip: seq<Byte>)
    requires IsIP(ip) && WellFormed(e) && Stores(e) && !Covers(e, ip)
    ensures Route(Stored(t, PathOf(e), e.value), ip) == Route(t, ip)
  {
    LongestIgnores(t, PathOf(e), e.value, ip, 8 * |Canonical(ip)|, e);
  }

  lemma {:induction false} LongestIgnores(t: Table, p: Path, v: string, ip: seq<Byte>, n: nat, e: Entry)
    requires IsIP(ip) && n <= 8 * |Canonical(ip)|
    requires WellFormed(e) && Stores(e) && !Covers(e, ip) && p == PathOf(e)
    ensures Longest(Stored(t, p, v), Prefix(ip, n)) == Longest(t, Prefix(ip, n))
  {
    CoversIffPrefix(e, ip);
    PrefixesAgree(e.parsed.value.ip, ip, e.parsed.value.ones, n);
    if n > 0 {
      LongestIgnores(t, p, v, ip, n - 1, e);
    }
  }

  function TableAfter(t: Table, e: Entry): Table {
    if Stores(e) then Stored(t, PathOf(e), e.value) else t
  }

  lemma {:induction false} TableSnoc(h: seq<Entry>, e: Entry)
    ensures TableOf(h + [e]) == TableAfter(TableOf(h), e)
  {
    assert (h + [e])[..|h|] == h;
  }

  lemma StoredCommute(t: Table, p: Path, v: string, q: Path, w: string)
    requires p != q
    ensures Stored(Stored(t, p, v), q, w) == Stored(Stored(t, q, w), p, v)
  {
  }

  lemma AdjacentInsertsCommute(h: seq<Entry>, a: Entry, b: Entry)
    requires WellFormed(a) && WellFormed(b) && !SameBlock(a, b)
    ensures TableOf(h + [a] + [b]) == TableOf(h + [b] + [a])
  {
    TableSnoc(h, a);
    TableSnoc(h, b);
    TableSnoc(h + [a], b);
    TableSnoc(h + [b], a);
    if Stores(a) && Stores(b) {
      SameBlockIffSamePath(a, b);
      StoredCommute(TableOf(h), PathOf(a), a.value, PathOf(b), b.value);
    }
  }

  /** Calls for distinct blocks can be swapped anywhere in the sequence. */
  lemma {:induction false} DistinctInsertsCommute(h: seq<Entry>, a: Entry, b: Entry, rest: seq<Entry>)
    requires WellFormed(a) && WellFormed(b) && !SameBlock(a, b)
    ensures TableOf(h + [a, b] + rest) == TableOf(h + [b, a] + rest)
  {
    if rest == [] {
      AdjacentInsertsCommute(h, a, b);
      assert h + [a, b] + rest == h + [a] + [b] && h + [b, a] + rest == h + [b] + [a];
    } else {
      var r := rest[..|rest| - 1];
      DistinctInsertsCommute(h, a, b, r);
      assert (h + [a, b] + rest)[..|h| + 1 + |rest|] == h + [a, b] + r;
      assert (h + [b, a] + rest)[..|h| + 1 + |rest|] == h + [b, a] + r;
    }
  }

  // ----- loading the provider lists

  predicate OutOfRange(e: Entry) {
    e.parsed.Some? && !Walkable(e.parsed.value)
  }

  /** The provider lists are inserted one by one; parse errors are skipped, a panic ends the loading. */
  method LoadProviders(calls: seq<Entry>) returns (t: IPTrie, panicked: bool)
    requires forall e | e in calls :: WellFormed(e)
    ensures t.Valid() && fresh(t) && fresh(t.repr)
    ensures panicked <==> exists i :: 0 <= i < |calls| && OutOfRange(calls[i])
    ensures !panicked ==> t.Table() == TableOf(calls)
  {
    t := new IPTrie();
    panicked := false;
    for i := 0 to |calls|
      invariant t.Valid() && fresh(t) && fresh(t.repr)
      invariant t.Table() == TableOf(calls[..i])
      invariant forall j :: 0 <= j < i ==> !OutOfRange(calls[j])
    {
      assert calls[i] in calls;
      var r := t.Insert(calls[i].parsed, calls[i].value);
      if r == IndexPanic {
        panicked := true;
        return;
      }
      assert calls[..i + 1][..i] == calls[..i];
    }
    assert calls[..|calls|] == calls;
  }
}
