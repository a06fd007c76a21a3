/** The binary trie that maps CIDR blocks to provider names (`IPTrie`). The heap structure is
    described by a ghost index from bit paths to nodes; `Table` is the routing table it stands for. */
module IpTrie {
  import opened CidrAddress
  import opened Wrappers

  /** A bit path from one of the two roots. */
  datatype Path = Root(family: Family) | Down(up: Path, bit: bool)

  type Table = map<Path, string>

  /** What `Insert` does: store, return the parse error, or stop with an index out of range. */
  datatype InsertResult = Inserted | ParseError | IndexPanic

  /** The mask stays inside the bytes that are walked. It does not for an IPv4-mapped IPv6
      block: its mask counts 128 bits while its address is cut to four bytes. */
  predicate Walkable(net: IPNet) {
    net.ones <= 8 * |Canonical(net.ip)|
  }

  /** The path along the first `n` bits of an address. */
  function Prefix(ip: seq<Byte>, n: nat): (p: Path)
    requires n <= 8 * |Canonical(ip)|
  {
    if n == 0 then Root(FamilyOf(ip)) else Down(Prefix(ip, n - 1), Bit(Canonical(ip), n - 1))
  }

  /** The empty string marks a node without value, so storing it removes the block. */
  function Stored(t: Table, p: Path, value: string): Table {
    if value == "" then t - {p} else t[p := value]
  }

  /** The value of the longest stored prefix of a path. */
  function Longest(t: Table, p: Path): (r: Option<string>) {
    if p in t then Some(t[p])
    else if p.Root? then None
    else Longest(t, p.up)
  }

  function Route(t: Table, ip: seq<Byte>): Option<string> {
    Longest(t, Prefix(ip, 8 * |Canonical(ip)|))
  }

  class TrieNode {
    var zero: TrieNode?
    var one: TrieNode?
    var value: string
    ghost const path: Path

    constructor (ghost path: Path)
      ensures zero == null && one == null && value == "" && this.path == path
    {
      zero, one, value := null, null, "";
      this.path := path;
    }

    function Child(bit: bool): TrieNode?
      reads this
    {
      if bit then one else zero
    }

    method SetChild(bit: bool, child: TrieNode)
      modifies this
      ensures Child(bit) == child && Child(!bit) == old(Child(!bit))
      ensures value == old(value)
    {
      if bit {
        one := child;
      } else {
        zero := child;
      }
    }
  }

  class IPTrie {
    const v4Root: TrieNode
    const v6Root: TrieNode
    ghost var nodes: map<Path, TrieNode>
    ghost var repr: set<TrieNode>

    ghost function At(p: Path): TrieNode?
      reads this
    {
      if p in nodes then nodes[p] else null
    }

    /** The node sits at this path, its children one bit further, and its parent is in the trie. */
    ghost predicate Placed(p: Path)
      requires p in nodes
      reads this, repr
    {
      && nodes[p] in repr
      && nodes[p].path == p
      && nodes[p].zero == At(Down(p, false))
      && nodes[p].one == At(Down(p, true))
      && (p.Down? ==> p.up in nodes)
    }

    ghost predicate Valid()
      reads this, repr
    {
      && At(Root(V4)) == v4Root
      && At(Root(V6)) == v6Root
      && (forall p {:trigger Placed(p)} | p in nodes :: Placed(p))
    }

    ghost function Table(): Table
      requires Valid()
      reads this, repr
    {
      map p | p in nodes && Placed(p) && nodes[p].value != "" :: nodes[p].value
    }

    constructor ()
      ensures Valid() && fresh(repr)
      ensures Table() == map[]
    {
      var r4 := new TrieNode(Root(V4));
      var r6 := new TrieNode(Root(V6));
      v4Root, v6Root := r4, r6;
      nodes := map[Root(V4) := r4, Root(V6) := r6];
      repr := {r4, r6};
    }

    /** Links a node without a value or children below `curr`. */
    method Link(curr: TrieNode, bit: bool, child: TrieNode, ghost p: Path)
      requires Valid() && At(p) == curr && Down(p, bit) !in nodes
      requires child !in repr && child.zero == null && child.one == null && child.value == ""
      requires child.path == Down(p, bit)
      modifies `nodes, `repr, curr
      ensures Valid() && At(Down(p, bit)) == child && repr == old(repr) + {child}
      ensures Table() == old(Table())
    {
      assert Placed(p);
      ghost var at := Down(p, bit);
      assert forall c :: Down(at, c) in nodes ==> Placed(Down(at, c));
      curr.SetChild(bit, child);
      nodes := nodes[at := child];
      repr := repr + {child};
      forall q | q in nodes ensures Placed(q) {
        if q in old(nodes) {
          assert old(Placed(q));
        }
      }
      forall q | q in old(nodes) ensures nodes[q].value == old(nodes[q].value) {
        assert old(Placed(q));
      }
    }

    /** The child of `curr` along `bit`, made when missing. */
    method Descend(curr: TrieNode, bit: bool, ghost p: Path) returns (child: TrieNode)
      requires Valid() && At(p) == curr
      modifies `nodes, `repr, curr
      ensures Valid() && At(Down(p, bit)) == child
      ensures fresh(repr - old(repr))
      ensures Table() == old(Table())
    {
      assert Placed(p);
      if curr.Child(bit) != null {
        child := curr.Child(bit);
      } else {
        child := new TrieNode(Down(p, bit));
        Link(curr, bit, child, p);
      }
    }

    method Insert(parsed: Option<IPNet>, value: string) returns (r: InsertResult)
      requires Valid()
      requires parsed.Some? ==> IsIP(parsed.value.ip)
      modifies `nodes, `repr, repr
      ensures Valid() && fresh(repr - old(repr))
      ensures parsed.None? ==> r == ParseError && Table() == old(Table())
      ensures parsed.Some? && !Walkable(parsed.value) ==> r == IndexPanic && Table() == old(Table())
      ensures parsed.Some? && Walkable(parsed.value) ==>
                r == Inserted && Table() == Stored(old(Table()), Prefix(parsed.value.ip, parsed.value.ones), value)
    {
      if parsed.None? {
        return ParseError;
      }
      var ones, ip := parsed.value.ones, parsed.value.ip;
      var curr: TrieNode := v6Root;
      if To4(ip).Some? {
        curr := v4Root;
        ip := To4(ip).value;
      }
      for i := 0 to ones
        invariant Valid() && fresh(repr - old(repr))
        invariant i <= 8 * |ip| && At(Prefix(parsed.value.ip, i)) == curr
        invariant Table() == old(Table())
      {
        if i / 8 >= |ip| {
          return IndexPanic;
        }
        assert Placed(Prefix(parsed.value.ip, i));
        curr := Descend(curr, Bit(ip, i), Prefix(parsed.value.ip, i));
      }
      assert Placed(Prefix(parsed.value.ip, ones));
      SetValue(curr, value, Prefix(parsed.value.ip, ones));
      return Inserted;
    }

    method SetValue(curr: TrieNode, value: string, ghost p: Path)
      requires Valid() && At(p) == curr
      modifies curr`value
      ensures Valid() && Table() == Stored(old(Table()), p, value)
    {
      assert Placed(p);
      curr.value := value;
      forall q | q in nodes ensures Placed(q) {
        assert old(Placed(q));
      }
    }

    method Lookup(ip: seq<Byte>) returns (best: string, found: bool)
      requires Valid() && IsIP(ip)
      ensures Route(Table(), ip) == if found then Some(best) else None
      ensures !found ==> best == ""
    {
      var curr: TrieNode, walked := v6Root, ip;
      if To4(ip).Some? {
        curr, walked := v4Root, To4(ip).value;
      }
      best, found := "", false;
      var i := 0;
      while i < 8 * |walked|
        invariant i <= 8 * |walked| && At(Prefix(ip, i)) == curr
        invariant Prefix(ip, i) !in Table() ==> Longest(Table(), Prefix(ip, i)) == if found then Some(best) else None
        invariant !found ==> best == ""
      {
        assert Placed(Prefix(ip, i));
        if curr.value != "" {
          best, found := curr.value, true;
        }
        var bit := Bit(walked, i);
        if curr.Child(bit) == null {
          NothingBelow(ip, i + 1, 8 * |walked|);
          return;
        }
        curr := curr.Child(bit);
        i := i + 1;
      }
      assert Placed(Prefix(ip, i));
      if curr.value != "" {
        best, found := curr.value, true;
      }
    }

    lemma ParentInTrie(p: Path)
      requires Valid()
      ensures p in nodes && p.Down? ==> p.up in nodes
    {
      if p in nodes {
        assert Placed(p);
      }
    }

    /** A missing node ends the trie: no longer prefix of the address is stored. */
    lemma {:induction false} NothingBelow(ip: seq<Byte>, i: nat, n: nat)
      requires Valid() && 0 < i <= n <= 8 * |Canonical(ip)| && Prefix(ip, i) !in nodes
      ensures Prefix(ip, n) !in nodes
      ensures Longest(Table(), Prefix(ip, n)) == Longest(Table(), Prefix(ip, i - 1))
    {
      if i < n {
        NothingBelow(ip, i, n - 1);
        ParentInTrie(Prefix(ip, n));
      }
    }
  }
}
