/**
The IPv4 pool: a generator that walks a subnet with a wrapping 32-bit counter,
and an allocator that draws from it until it meets a free address.
*/
module IpPool {
  import opened Common
  import opened Bits
  import opened Text

  datatype IPv4 = IPv4(b0: nat, b1: nat, b2: nat, b3: nat)

  const TWO32: nat := 0x1_0000_0000

  predicate Octets(ip: IPv4) { ip.b0 < 256 && ip.b1 < 256 && ip.b2 < 256 && ip.b3 < 256 }

  /** The number that bytes make, most significant first. */
  function Number256(bytes: seq<nat>): nat {
    if bytes == [] then 0 else 256 * Number256(bytes[..|bytes| - 1]) + bytes[|bytes| - 1]
  }

  function Value(ip: IPv4): nat { Number256([ip.b0, ip.b1, ip.b2, ip.b3]) }

  lemma ValueOfBytes(ip: IPv4)
    ensures Value(ip) == 0x100_0000 * ip.b0 + 0x1_0000 * ip.b1 + 0x100 * ip.b2 + ip.b3
  {
    var s := [ip.b0, ip.b1, ip.b2, ip.b3];
    assert s[..3] == [ip.b0, ip.b1, ip.b2] && s[..3][..2] == [ip.b0, ip.b1] && s[..3][..2][..1] == [ip.b0];
    assert Number256([ip.b0]) == ip.b0;
    assert Number256([ip.b0, ip.b1]) == 256 * ip.b0 + ip.b1;
    assert Number256([ip.b0, ip.b1, ip.b2]) == 256 * (256 * ip.b0 + ip.b1) + ip.b2;
  }

  /** A subnet with `h` host bits: the address the CIDR parser returns has them cleared. */
  ghost predicate IsNetwork(ip: IPv4, h: nat) {
    Octets(ip) && h <= 32 && Aligned(Value(ip), h)
  }

  lemma LastDigit(x: nat, i: nat, y: nat, j: nat)
    requires i < 256 && j < 256 && 256 * x + i == 256 * y + j
    ensures x == y && i == j
  {
  }

  lemma ValueInjective(a: IPv4, b: IPv4)
    requires Octets(a) && Octets(b) && Value(a) == Value(b)
    ensures a == b
  {
    ValueOfBytes(a);
    ValueOfBytes(b);
    var x, y := 0x1_0000 * a.b0 + 0x100 * a.b1 + a.b2, 0x1_0000 * b.b0 + 0x100 * b.b1 + b.b2;
    LastDigit(x, a.b3, y, b.b3);
    LastDigit(256 * a.b0 + a.b1, a.b2, 256 * b.b0 + b.b1, b.b2);
    LastDigit(a.b0, a.b1, b.b0, b.b1);
  }

  // ---------------------------------------------------------------- bit arithmetic

  /** One byte of the result of NextIP: the network byte or-ed with the masked and shifted counter. */
  function HostByte(netByte: nat, counterBits: nat, k: nat): nat {
    Or(netByte, Shr(And(counterBits, 255 * Pow2(k)), k)) % 256
  }

  /** The address NextIP builds from the counter before its increment. */
  function Draw(net: IPv4, mask: nat, counter: nat): IPv4 {
    var bits := And(counter, mask);
    IPv4(HostByte(net.b0, bits, 24), HostByte(net.b1, bits, 16), HostByte(net.b2, bits, 8), HostByte(net.b3, bits, 0))
  }

  function BroadcastByte(netByte: nat, mask: nat, k: nat): nat { Or(netByte, Shr(mask, k)) % 256 }

  function Broadcast(net: IPv4, mask: nat): IPv4 {
    IPv4(BroadcastByte(net.b0, mask, 24), BroadcastByte(net.b1, mask, 16),
         BroadcastByte(net.b2, mask, 8), BroadcastByte(net.b3, mask, 0))
  }

  /** The byte `k` bits up. */
  function ByteAt(v: nat, k: nat): (b: nat)
    ensures b < 256
  {
    Shr(v, k) % 256
  }

  lemma Peel(v: nat, k: nat)
    ensures Shr(v, k) == 256 * Shr(v, k + 8) + ByteAt(v, k)
  {
    ShrShr(v, k, 8);
    ShrByte(Shr(v, k));
  }

  /** A 32-bit number is made of its four bytes. */
  lemma FourBytes(v: nat)
    requires v < TWO32
    ensures Value(IPv4(ByteAt(v, 24), ByteAt(v, 16), ByteAt(v, 8), ByteAt(v, 0))) == v
  {
    Peel(v, 0);
    Peel(v, 8);
    Peel(v, 16);
    Peel(v, 24);
    FourDigits(v, Shr(v, 8), Shr(v, 16), Shr(v, 24), Shr(v, 32), ByteAt(v, 24), ByteAt(v, 16), ByteAt(v, 8), ByteAt(v, 0));
  }

  lemma FourDigits(v: nat, v8: nat, v16: nat, v24: nat, v32: nat, b0: nat, b1: nat, b2: nat, b3: nat)
    requires v == 256 * v8 + b3 && v8 == 256 * v16 + b2 && v16 == 256 * v24 + b1 && v24 == 256 * v32 + b0 && v < TWO32
    ensures Value(IPv4(b0, b1, b2, b3)) == v
  {
    assert v8 < 0x100_0000 && v16 < 0x1_0000 && v24 < 0x100 && v32 == 0;
    ValueOfBytes(IPv4(b0, b1, b2, b3));
  }

  lemma BytesOfAddress(ip: IPv4)
    requires Octets(ip)
    ensures Value(ip) < TWO32
    ensures ip == IPv4(ByteAt(Value(ip), 24), ByteAt(Value(ip), 16), ByteAt(Value(ip), 8), ByteAt(Value(ip), 0))
  {
    ValueOfBytes(ip);
    FourBytes(Value(ip));
    var v := Value(ip);
    ValueInjective(ip, IPv4(ByteAt(v, 24), ByteAt(v, 16), ByteAt(v, 8), ByteAt(v, 0)));
  }

  lemma SumByte(v: nat, bits: nat, h: nat, k: nat)
    requires Aligned(v, h) && bits < Pow2(h)
    ensures Or(ByteAt(v, k), ByteAt(bits, k)) == ByteAt(v + bits, k)
  {
    OrDisjoint(v, bits, h);
    OrShr(v, bits, k);
    OrByte(Shr(v, k), Shr(bits, k));
  }

  lemma HostByteIsSum(v: nat, bits: nat, h: nat, k: nat)
    requires Aligned(v, h) && bits < Pow2(h)
    ensures HostByte(ByteAt(v, k), bits, k) == ByteAt(v + bits, k)
  {
    AndByte(bits, k);
    SumByte(v, bits, h, k);
    SmallByte(ByteAt(v + bits, k));
  }

  lemma BroadcastByteIsSum(v: nat, bits: nat, h: nat, k: nat)
    requires Aligned(v, h) && bits < Pow2(h)
    ensures BroadcastByte(ByteAt(v, k), bits, k) == ByteAt(v + bits, k)
  {
    SumByte(v, bits, h, k);
    OrByte(ByteAt(v, k), Shr(bits, k));
    SmallByte(ByteAt(v, k));
  }

  lemma SmallByte(b: nat)
    requires b < 256
    ensures b % 256 == b
  {
  }

  /** The mask the generator is built with is `h` ones. */
  lemma MaskIsOnes(h: nat)
    requires h <= 32
    ensures Shr(0xFFFF_FFFF, 32 - h) == Pow2(h) - 1
  {
    Pow2Values();
    ShrOnes(h, 32 - h);
  }

  /** Host bits among the first four bytes, all that the generator uses, also of an IPv6 network. */
  function HostBits(maskbit: nat): (h: nat)
    ensures h <= 32
  {
    if maskbit <= 32 then 32 - maskbit else 0
  }

  lemma {:induction false} ShrOfZero(k: nat)
    ensures Shr(0, k) == 0
  {
    if k > 0 {
      ShrOfZero(k - 1);
    }
  }

  lemma MaskOfPrefix(maskbit: nat)
    ensures Shr(0xFFFF_FFFF, maskbit) == Pow2(HostBits(maskbit)) - 1
  {
    if maskbit <= 32 {
      MaskIsOnes(32 - maskbit);
    } else {
      MaskIsOnes(0);
      ShrShr(0xFFFF_FFFF, 32, maskbit - 32);
      ShrOfZero(maskbit - 32);
    }
  }

  /**
  A parsed network: its first four bytes and its prefix length. The text of an
  IPv6 network is that of all sixteen bytes.
  */
  datatype Cidr = Cidr(net: IPv4, maskbit: nat, v6: Option<string>)

  ghost predicate Parsed(c: Cidr) {
    c.maskbit <= (if c.v6.Some? then 128 else 32) && IsNetwork(c.net, HostBits(c.maskbit))
  }

  /** Adding less than the size of the subnet stays within 32 bits. */
  lemma SubnetFits(net: IPv4, h: nat, bits: nat)
    requires IsNetwork(net, h) && bits < Pow2(h)
    ensures Value(net) + bits < TWO32
  {
    BytesOfAddress(net);
    Pow2Values();
    AlignedFits(Value(net), bits, h, 32);
  }

  lemma HostBytes(net: IPv4, h: nat, bits: nat)
    requires IsNetwork(net, h) && bits < Pow2(h)
    ensures var v := Value(net) + bits;
            && HostByte(net.b0, bits, 24) == ByteAt(v, 24) && HostByte(net.b1, bits, 16) == ByteAt(v, 16)
            && HostByte(net.b2, bits, 8) == ByteAt(v, 8) && HostByte(net.b3, bits, 0) == ByteAt(v, 0)
  {
    var v := Value(net);
    BytesOfAddress(net);
    HostByteIsSum(v, bits, h, 24);
    HostByteIsSum(v, bits, h, 16);
    HostByteIsSum(v, bits, h, 8);
    HostByteIsSum(v, bits, h, 0);
  }

  /** A draw is the network address plus the counter modulo the size of the subnet. */
  lemma DrawIsOffset(net: IPv4, h: nat, counter: nat)
    requires IsNetwork(net, h)
    ensures var ip := Draw(net, Pow2(h) - 1, counter);
            Octets(ip) && Value(ip) == Value(net) + Rem(counter, Pow2(h))
  {
    var bits := Rem(counter, Pow2(h));
    AndMask(counter, h);
    HostBytes(net, h, bits);
    assert Value(net) + bits < TWO32 by {
      SubnetFits(net, h, bits);
    }
    FourBytes(Value(net) + bits);
  }

  lemma BroadcastBytes(net: IPv4, h: nat)
    requires IsNetwork(net, h)
    ensures var v, mask := Value(net) + (Pow2(h) - 1), Pow2(h) - 1;
            && BroadcastByte(net.b0, mask, 24) == ByteAt(v, 24) && BroadcastByte(net.b1, mask, 16) == ByteAt(v, 16)
            && BroadcastByte(net.b2, mask, 8) == ByteAt(v, 8) && BroadcastByte(net.b3, mask, 0) == ByteAt(v, 0)
  {
    var v, mask := Value(net), Pow2(h) - 1;
    BytesOfAddress(net);
    BroadcastByteIsSum(v, mask, h, 24);
    BroadcastByteIsSum(v, mask, h, 16);
    BroadcastByteIsSum(v, mask, h, 8);
    BroadcastByteIsSum(v, mask, h, 0);
  }

  /** The broadcast address is the last of the subnet. */
  lemma BroadcastIsLast(net: IPv4, h: nat)
    requires IsNetwork(net, h)
    ensures var ip := Broadcast(net, Pow2(h) - 1);
            Octets(ip) && Value(ip) == Value(net) + Pow2(h) - 1
  {
    var v := Value(net) + (Pow2(h) - 1);
    BroadcastBytes(net, h);
    assert v < TWO32 by {
      SubnetFits(net, h, Pow2(h) - 1);
    }
    FourBytes(v);
  }

  // ------------------------------------------------------------------ dotted form

  function Dotted(ip: IPv4): string {
    Join([Decimal(ip.b0), Decimal(ip.b1), Decimal(ip.b2), Decimal(ip.b3)], '.')
  }

  /** The printed form names one address, so the pool can be keyed by it. */
  lemma DottedInjective(a: IPv4, b: IPv4)
    requires Dotted(a) == Dotted(b)
    ensures a == b
  {
    var p, q := [Decimal(a.b0), Decimal(a.b1), Decimal(a.b2), Decimal(a.b3)],
                [Decimal(b.b0), Decimal(b.b1), Decimal(b.b2), Decimal(b.b3)];
    SplitJoin(p, '.');
    SplitJoin(q, '.');
    assert p[0] == q[0] && p[1] == q[1] && p[2] == q[2] && p[3] == q[3];
    NumberDecimal(a.b0); NumberDecimal(b.b0);
    NumberDecimal(a.b1); NumberDecimal(b.b1);
    NumberDecimal(a.b2); NumberDecimal(b.b2);
    NumberDecimal(a.b3); NumberDecimal(b.b3);
  }

  // --------------------------------------------------------------------- the pool

  /** A key of the pool: the printed form of an address, given by its value, or any other text. */
  datatype Key = Address(value: nat) | Text(text: string)

  predicate Full(base: nat, n: nat, pool: set<Key>) {
    forall v :: base <= v < base + n ==> Address(v) in pool
  }

  /** The value of the address `j` draws after counter `c` in the subnet of `n` addresses at `base`. */
  function Nth(base: nat, n: nat, c: nat, j: nat): nat
    requires n > 0
  {
    base + Rem(c + j, n)
  }

  /** The counter's wrap at 2^32 does not disturb the walk through the subnet. */
  lemma WrapIsInvisible(x: nat, h: nat)
    requires h <= 32
    ensures Rem(Rem(x, TWO32), Pow2(h)) == Rem(x, Pow2(h))
  {
    Pow2Values();
    RemRem(x, h, 32);
  }

  lemma CycleReaches(c: nat, n: nat, k: nat) returns (j: nat)
    requires k < n
    ensures j < n && Rem(c + j, n) == k
  {
    var start := Rem(c, n);
    j := if k >= start then k - start else k + n - start;
    RemStep(c, j, n);
  }

  /** Every address of the subnet comes up within one cycle of draws. */
  lemma CycleCovers(base: nat, n: nat, c: nat, pool: set<Key>)
    requires n > 0 && Occupied(base, n, c, n, pool)
    ensures Full(base, n, pool)
  {
    forall v | base <= v < base + n ensures Address(v) in pool {
      var j := CycleReaches(c, n, v - base);
      assert Nth(base, n, c, j) == v;
    }
  }

  /** The first `d` draws after counter `c` are all in the pool. */
  predicate Occupied(base: nat, n: nat, c: nat, d: nat, pool: set<Key>)
    requires n > 0
  {
    forall j :: 0 <= j < d ==> Address(Nth(base, n, c, j)) in pool
  }

  lemma OccupiedMore(base: nat, n: nat, c: nat, d: nat, pool: set<Key>)
    requires n > 0 && Occupied(base, n, c, d, pool) && Address(Nth(base, n, c, d)) in pool
    ensures Occupied(base, n, c, d + 1, pool)
  {
  }

  /** One draw more: what comes up, and where the counter is left. */
  lemma DrawOn(base: nat, h: nat, c: nat, d: nat)
    requires h <= 32
    ensures Nth(base, Pow2(h), Rem(c + d, TWO32), 0) == Nth(base, Pow2(h), c, d)
    ensures Rem(c + d + 1, TWO32) == Next(Rem(c + d, TWO32))
  {
    WrapIsInvisible(c + d, h);
    RemSucc(c + d, TWO32);
  }

  /** The 32-bit increment. */
  function Next(counter: nat): nat { if counter + 1 == TWO32 then 0 else counter + 1 }

  /** Within one cycle the start does not come up again; after it, it does. */
  lemma StartReturns(base: nat, n: nat, c: nat, d: nat)
    requires 0 < d <= n
    ensures Nth(base, n, c, d) == Nth(base, n, c, 0) <==> d == n
  {
    if d == n {
      RemCycle(c, n);
    } else {
      RemStep(c, d, n);
    }
  }

  lemma StartAgain(start: IPv4, ip: IPv4, base: nat, n: nat, c: nat, d: nat)
    requires Octets(start) && Octets(ip) && 0 < d <= n
    requires Value(start) == Nth(base, n, c, 0) && Value(ip) == Nth(base, n, c, d)
    ensures start == ip <==> d == n
  {
    StartReturns(base, n, c, d);
    if Value(start) == Value(ip) {
      ValueInjective(start, ip);
    }
  }

  /** The draws of a generator are the addresses of its subnet, in order, over and over. */
  ghost predicate Walks(net: IPv4, mask: nat, base: nat, n: nat) {
    && n > 0
    && (forall c: nat :: Octets(Draw(net, mask, c)) && Value(Draw(net, mask, c)) == Nth(base, n, c, 0))
    && Octets(Broadcast(net, mask)) && Value(Broadcast(net, mask)) == base + n - 1
  }

  lemma NetworkWalks(net: IPv4, h: nat)
    requires IsNetwork(net, h)
    ensures Walks(net, Pow2(h) - 1, Value(net), Pow2(h))
  {
    BroadcastIsLast(net, h);
    forall c: nat
      ensures Octets(Draw(net, Pow2(h) - 1, c)) && Value(Draw(net, Pow2(h) - 1, c)) == Nth(Value(net), Pow2(h), c, 0)
    {
      DrawIsOffset(net, h, c);
    }
  }

  /**
  What an assignment does: within one cycle and one draw it takes the first free
  address from the counter on, and finds none exactly if the whole subnet is in
  the pool.
  */
  ghost predicate Assignment(base: nat, n: nat, c: nat, before: set<Key>, after: set<Key>, r: Option<IPv4>, draws: nat)
    requires n > 0
  {
    && 1 <= draws <= n + 1
    && (r.None? <==> Full(base, n, before))
    && (r.None? ==> after == before && draws == n + 1)
    && (r.Some? ==>
          && Octets(r.value) && Value(r.value) == Nth(base, n, c, draws - 1) && base <= Value(r.value) < base + n
          && Address(Value(r.value)) !in before && after == before + {Address(Value(r.value))}
          && Occupied(base, n, c, draws - 1, before))
  }

  lemma AssignsFree(base: nat, n: nat, c: nat, pool: set<Key>, ip: IPv4, draws: nat)
    requires n > 0 && 1 <= draws <= n + 1 && Octets(ip) && Value(ip) == Nth(base, n, c, draws - 1)
    requires Address(Value(ip)) !in pool && Occupied(base, n, c, draws - 1, pool)
    ensures Assignment(base, n, c, pool, pool + {Address(Value(ip))}, Some(ip), draws)
  {
    RemStep(c + draws - 1, 0, n);
  }

  lemma AssignsNone(base: nat, n: nat, c: nat, pool: set<Key>)
    requires n > 0 && Occupied(base, n, c, n, pool)
    ensures Assignment(base, n, c, pool, pool, None, n + 1)
  {
    CycleCovers(base, n, c, pool);
  }

  class IPSet {
    var ipaddress: set<Key>

    constructor ()
      ensures ipaddress == {}
    {
      ipaddress := {};
    }

    method Add(value: Key)
      modifies this
      ensures ipaddress == old(ipaddress) + {value}
    {
      ipaddress := ipaddress + {value};
    }

    method Remove(value: Key)
      modifies this
      ensures ipaddress == old(ipaddress) - {value}
    {
      ipaddress := ipaddress - {value};
    }

    method Contains(value: Key) returns (found: bool)
      ensures found <==> value in ipaddress
    {
      found := value in ipaddress;
    }
  }

  class IPGenerater {
    const net: IPv4
    const uintMaskBits: nat
    ghost const h: nat
    ghost const base: nat
    ghost const n: nat
    var counter: nat

    ghost predicate Valid()
      reads this
    {
      Walks(net, uintMaskBits, base, n) && n == Pow2(h) && h <= 32 && counter < TWO32
    }

    constructor (cidr: Cidr)
      requires Parsed(cidr)
      ensures Valid() && net == cidr.net && h == HostBits(cidr.maskbit) && base == Value(net) && counter == 0
    {
      net := cidr.net;
      h := HostBits(cidr.maskbit);
      base := Value(cidr.net);
      n := Pow2(HostBits(cidr.maskbit));
      uintMaskBits := Shr(0xFFFF_FFFF, cidr.maskbit);
      counter := 0;
      MaskOfPrefix(cidr.maskbit);
      NetworkWalks(cidr.net, HostBits(cidr.maskbit));
    }

    /** The compare-and-swap loop: take the counter and leave it one higher, wrapping at 2^32. */
    method NextIP() returns (ip: IPv4)
      requires Valid()
      modifies this
      ensures Valid() && counter == Next(old(counter)) == if old(counter) == 0xFFFF_FFFF then 0 else old(counter) + 1
      ensures n > 0 && Octets(ip) && Value(ip) == Nth(base, n, old(counter), 0)
    {
      ip := Draw(net, uintMaskBits, counter);
      counter := Next(counter);
    }

    method GetBroadcastIP() returns (ip: IPv4)
      requires Valid()
      ensures Octets(ip) && Value(ip) == base + n - 1
    {
      ip := Broadcast(net, uintMaskBits);
    }
  }

  /** The text of the network address. */
  function NetworkKey(cidr: Cidr): Key {
    if cidr.v6.Some? then Text(cidr.v6.value) else Address(Value(cidr.net))
  }

  /** The key a new pool adds for an IPv4 network is that of its first address. */
  lemma NetworkIsReserved(cidr: Cidr, n: nat)
    requires n > 0 && cidr.v6.None?
    ensures NetworkKey(cidr) in Reserved(Value(cidr.net), n) && NetworkKey(cidr) == Address(Value(cidr.net))
  {
  }

  /** The network and the broadcast address of a subnet. */
  function Reserved(base: nat, n: nat): set<Key>
    requires n > 0
  {
    {Address(base), Address(base + n - 1)}
  }

  /** An assignment from a subnet with only these taken is neither; from the start it is the address after the network's. */
  lemma AssignmentAvoidsReserved(base: nat, n: nat, c: nat, after: set<Key>, r: Option<IPv4>, draws: nat)
    requires n > 0 && Assignment(base, n, c, Reserved(base, n), after, r, draws)
    ensures r.Some? ==> base < Value(r.value) < base + n - 1
    ensures r.None? <==> n <= 2
    ensures r.Some? && c == 0 ==> Value(r.value) == base + 1 && draws == 2
  {
    if n > 2 {
      assert Address(base + 1) !in Reserved(base, n);
      assert !Full(base, n, Reserved(base, n));
      assert Nth(base, n, 0, 0) == base && Nth(base, n, 0, 1) == base + 1;
    } else {
      assert Full(base, n, Reserved(base, n));
    }
    if r.Some? && c == 0 {
      assert n > 2 && Address(Nth(base, n, 0, 1)) !in Reserved(base, n);
      assert Occupied(base, n, 0, draws - 1, Reserved(base, n)) ==> draws - 1 <= 1;
    }
  }

  /** The first address of a new pool for an IPv4 network: the one after the network's, if there is a host address. */
  method FirstAssignment(cidr: Cidr) returns (r: Option<IPv4>)
    requires Parsed(cidr) && cidr.v6.None?
    ensures r.None? <==> cidr.maskbit >= 31
    ensures r.Some? ==> Value(r.value) == Value(cidr.net) + 1
  {
    var p := new IPPool(cidr);
    var draws;
    r, draws := p.AssignNewIPv4();
    AssignmentAvoidsReserved(p.gen.base, p.gen.n, 0, p.pool.ipaddress, r, draws);
    SmallSubnets(cidr.maskbit);
  }

  lemma SmallSubnets(maskbit: nat)
    requires maskbit <= 32
    ensures Pow2(32 - maskbit) <= 2 <==> maskbit >= 31
  {
    if maskbit <= 30 {
      Pow2AtLeast(32 - maskbit);
    } else {
      assert Pow2(1) == 2 && Pow2(0) == 1;
    }
  }

  lemma {:induction false} Pow2AtLeast(h: nat)
    requires h >= 2
    ensures Pow2(h) >= 4
  {
    if h > 2 {
      Pow2AtLeast(h - 1);
    } else {
      assert Pow2(1) == 2;
    }
  }

  /** A pool for a network, or none if its text does not parse. */
  method NewIPPool(cidr: Option<Cidr>) returns (r: Option<IPPool>)
    requires cidr.Some? ==> Parsed(cidr.value)
    ensures r.Some? <==> cidr.Some?
    ensures r.Some? ==>
              && fresh(r.value) && fresh(r.value.gen) && fresh(r.value.pool) && r.value.gen.Valid()
              && r.value.gen.base == Value(cidr.value.net) && r.value.gen.counter == 0
              && r.value.gen.n == Pow2(HostBits(cidr.value.maskbit))
              && r.value.pool.ipaddress == {NetworkKey(cidr.value), Address(r.value.gen.base + r.value.gen.n - 1)}
    ensures r.Some? && cidr.value.v6.None? ==> r.value.pool.ipaddress == Reserved(Value(cidr.value.net), r.value.gen.n)
  {
    if cidr.None? {
      return None;
    }
    var p := new IPPool(cidr.value);
    return Some(p);
  }

  class IPPool {
    const gen: IPGenerater
    const pool: IPSet

    constructor (cidr: Cidr)
      requires Parsed(cidr)
      ensures fresh(gen) && fresh(pool) && gen.Valid() && gen.counter == 0
      ensures gen.h == HostBits(cidr.maskbit) && gen.base == Value(cidr.net)
      ensures pool.ipaddress == {NetworkKey(cidr), Address(gen.base + gen.n - 1)}
      ensures cidr.v6.None? ==> gen.n == Pow2(32 - cidr.maskbit) && pool.ipaddress == Reserved(Value(cidr.net), gen.n)
      ensures cidr.v6.Some? ==> pool.ipaddress == {Text(cidr.v6.value), Address(gen.base + gen.n - 1)}
    {
      gen := new IPGenerater(cidr);
      pool := new IPSet();
      new;
      pool.Add(NetworkKey(cidr));
      var last := gen.GetBroadcastIP();
      pool.Add(Address(Value(last)));
    }

    /** Draw number `d` after counter `c`: take the address if it is free. */
    method Draw(ghost c: nat, ghost d: nat) returns (ip: IPv4, free: bool)
      requires gen.Valid() && gen.counter == Rem(c + d, TWO32)
      modifies gen, pool
      ensures gen.Valid() && gen.counter == Rem(c + d + 1, TWO32)
      ensures Octets(ip) && gen.n > 0 && Value(ip) == Nth(gen.base, gen.n, c, d)
      ensures free <==> Address(Value(ip)) !in old(pool.ipaddress)
      ensures pool.ipaddress == old(pool.ipaddress) + {Address(Value(ip))}
    {
      DrawOn(gen.base, gen.h, c, d);
      ip := gen.NextIP();
      var found := pool.Contains(Address(Value(ip)));
      free := !found;
      if free {
        pool.Add(Address(Value(ip)));
      }
    }

    /**
    Draw until a free address comes up, at most one cycle of the subnet. The
    result is the first free address from the counter on, and there is none
    exactly if the whole subnet is in the pool.
    */
    method AssignNewIPv4() returns (r: Option<IPv4>, draws: nat)
      requires gen.Valid()
      modifies gen, pool
      ensures gen.Valid() && gen.counter == Rem(old(gen.counter) + draws, TWO32)
      ensures gen.n > 0 && Assignment(gen.base, gen.n, old(gen.counter), old(pool.ipaddress), pool.ipaddress, r, draws)
    {
      ghost var c := gen.counter;
      var start, free := Draw(c, 0);
      draws := 1;
      if free {
        AssignsFree(gen.base, gen.n, c, old(pool.ipaddress), start, draws);
        return Some(start), draws;
      }
      while true
        invariant Searching(c, draws, start) && pool.ipaddress == old(pool.ipaddress)
        decreases gen.n - draws
      {
        var done;
        r, done := DrawAgain(c, draws, start);
        draws := draws + 1;
        if done {
          return;
        }
      }
    }

    /** The first `draws` addresses from `start` on were all taken. */
    ghost predicate Searching(c: nat, draws: nat, start: IPv4)
      reads gen, pool
    {
      && gen.Valid() && gen.counter == Rem(c + draws, TWO32)
      && 1 <= draws <= gen.n && Octets(start) && Value(start) == Nth(gen.base, gen.n, c, 0)
      && Occupied(gen.base, gen.n, c, draws, pool.ipaddress)
    }

    /** One more draw: done with a free address, done at the start again, or to be continued. */
    method DrawAgain(ghost c: nat, ghost draws: nat, start: IPv4) returns (r: Option<IPv4>, done: bool)
      requires Searching(c, draws, start)
      modifies gen, pool
      ensures gen.Valid() && gen.n > 0 && gen.counter == Rem(c + draws + 1, TWO32)
      ensures done ==> Assignment(gen.base, gen.n, c, old(pool.ipaddress), pool.ipaddress, r, draws + 1)
      ensures !done ==> Searching(c, draws + 1, start) && pool.ipaddress == old(pool.ipaddress)
    {
      var newIP, free := Draw(c, draws);
      if free {
        AssignsFree(gen.base, gen.n, c, old(pool.ipaddress), newIP, draws + 1);
        return Some(newIP), true;
      }
      OccupiedMore(gen.base, gen.n, c, draws, pool.ipaddress);
      StartAgain(start, newIP, gen.base, gen.n, c, draws);
      if start == newIP {
        AssignsNone(gen.base, gen.n, c, pool.ipaddress);
        return None, true;
      }
      return None, false;
    }

    method RetrieveIPv4(ip: Key)
      modifies pool
      ensures pool.ipaddress == old(pool.ipaddress) - {ip}
    {
      var found := pool.Contains(ip);
      if found {
        pool.Remove(ip);
      }
    }

    method UpdateAllocateddIPv4(ip: Key)
      modifies pool
      ensures pool.ipaddress == old(pool.ipaddress) + {ip}
    {
      var found := pool.Contains(ip);
      if !found {
        pool.Add(ip);
      }
    }
  }
}
