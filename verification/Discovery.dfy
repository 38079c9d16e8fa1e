/** The addresses that the server scans for printers (`local_ipv4_candidates` in bambu-farm-server/src/main.rs). */
module Discovery {
  import opened Arithmetic

  /** An IPv4 address or netmask as its 32-bit number. */
  type Address = a: nat | a < TWO_32

  datatype Interface = Interface(ip: Address, netmask: Address)

  // ----- the bit operations -----

  function And(a: nat, b: nat): (r: nat)
    ensures r <= a
  {
    if a == 0 || b == 0 then 0 else (if a % 2 == 1 && b % 2 == 1 then 1 else 0) + 2 * And(a / 2, b / 2)
  }

  function Or(a: nat, b: nat): nat {
    if a == 0 && b == 0 then 0 else (if a % 2 == 1 || b % 2 == 1 then 1 else 0) + 2 * Or(a / 2, b / 2)
  }

  function Not(a: Address): Address {
    TWO_32 - 1 - a
  }

  function CountOnes(a: nat): nat {
    if a == 0 then 0 else a % 2 + CountOnes(a / 2)
  }

  // ----- the subnet of an interface -----

  predicate IsLoopback(ip: Address) {
    ip / 0x100_0000 == 127
  }

  /** The private ranges of section 3 of RFC 1918. */
  predicate IsPrivate(ip: Address) {
    ip / 0x100_0000 == 10 || ip / 0x10_0000 == 172 * 16 + 1 || ip / 0x1_0000 == 192 * 256 + 168
  }

  /** The same on the four octets of an address. */
  lemma OctetRanges(a: nat, b: nat, c: nat, d: nat)
    requires a < 256 && b < 256 && c < 256 && d < 256
    ensures var ip := 0x100_0000 * a + 0x1_0000 * b + 0x100 * c + d;
            && (IsPrivate(ip) <==> a == 10 || (a == 172 && 16 <= b <= 31) || (a == 192 && b == 168))
            && (IsLoopback(ip) <==> a == 127)
  {
    var ip := 0x100_0000 * a + 0x1_0000 * b + 0x100 * c + d;
    assert ip / 0x100_0000 == a;
    assert ip / 0x1_0000 == 256 * a + b;
    assert ip / 0x10_0000 == 16 * a + b / 16;
  }

  function EffectiveMask(netmask: Address): Address {
    if CountOnes(netmask) < 24 then 0xFFFF_FF00 else netmask
  }

  function Network(i: Interface): Address {
    And(i.ip, EffectiveMask(i.netmask))
  }

  function Broadcast(i: Interface): nat {
    Or(Network(i), Not(EffectiveMask(i.netmask)))
  }

  predicate Scanned(i: Interface) {
    !IsLoopback(i.ip) && IsPrivate(i.ip)
  }

  /** `host` is scanned on behalf of the interface. */
  predicate HostOf(i: Interface, host: int) {
    Scanned(i) && Network(i) < host < Broadcast(i) && host != i.ip
  }

  predicate Candidate(interfaces: seq<Interface>, host: int) {
    exists i | i in interfaces :: HostOf(i, host)
  }

  predicate Increasing(s: seq<nat>) {
    forall i, j | 0 <= i < j < |s| :: s[i] < s[j]
  }

  predicate Ordered(s: seq<nat>) {
    forall i, j | 0 <= i < j < |s| :: s[i] <= s[j]
  }

  /** How many addresses the interface adds: those between network and broadcast, without its own. */
  function Added(i: Interface): nat {
    if !Scanned(i) || Broadcast(i) <= Network(i) + 1 then 0
    else Broadcast(i) - Network(i) - 1 - if Network(i) < i.ip < Broadcast(i) then 1 else 0
  }

  function AllAdded(interfaces: seq<Interface>): nat {
    if interfaces == [] then 0 else AllAdded(interfaces[..|interfaces| - 1]) + Added(interfaces[|interfaces| - 1])
  }

  function Insert(r: seq<nat>, k: nat, x: nat): seq<nat>
    requires k <= |r|
  {
    r[..k] + [x] + r[k..]
  }

  lemma InsertAt(r: seq<nat>, k: nat, x: nat, i: nat)
    requires k <= |r| && i <= |r|
    ensures |Insert(r, k, x)| == |r| + 1
    ensures Insert(r, k, x)[i] == if i < k then r[i] else if i == k then x else r[i - 1]
  {
  }

  lemma InsertOrders(r: seq<nat>, k: nat, x: nat)
    requires Ordered(r) && k <= |r|
    requires (k > 0 ==> r[k - 1] <= x) && (k < |r| ==> x < r[k])
    ensures Ordered(Insert(r, k, x))
  {
    InsertAt(r, k, x, 0);
    hide Insert;
    assert forall i | 0 <= i < k :: r[i] <= x;
    assert forall j | k <= j < |r| :: x < r[j];
    var s := Insert(r, k, x);
    forall i, j | 0 <= i < j < |s| ensures s[i] <= s[j] {
      InsertAt(r, k, x, i);
      InsertAt(r, k, x, j);
    }
  }

  lemma InsertAdds(r: seq<nat>, k: nat, x: nat)
    requires k <= |r|
    ensures multiset(Insert(r, k, x)) == multiset(r) + multiset{x}
  {
    assert r == r[..k] + r[k..];
  }

  method InsertOrdered(r: seq<nat>, x: nat) returns (s: seq<nat>)
    requires Ordered(r)
    ensures Ordered(s) && multiset(s) == multiset(r) + multiset{x}
  {
    var k := |r|;
    while k > 0 && x < r[k - 1]
      invariant 0 <= k <= |r|
      invariant k < |r| ==> x < r[k]
    {
      k := k - 1;
    }
    InsertOrders(r, k, x);
    InsertAdds(r, k, x);
    s := Insert(r, k, x);
  }

  /** `sort_unstable` on addresses, which leaves one possible result. */
  method SortUnstable(s: seq<nat>) returns (r: seq<nat>)
    ensures Ordered(r) && multiset(r) == multiset(s)
  {
    r := [];
    assert Ordered(r);
    hide Ordered;
    for n := 0 to |s|
      invariant Ordered(r) && multiset(r) == multiset(s[..n])
    {
      assert s[..n + 1] == s[..n] + [s[n]];
      r := InsertOrdered(r, s[n]);
    }
    assert s[..|s|] == s;
  }

  /** `dedup`: drops every element equal to the one before it. */
  method Dedup(s: seq<nat>) returns (r: seq<nat>)
    requires Ordered(s)
    ensures Increasing(r) && |r| <= |s|
    ensures forall x :: x in r <==> x in s
  {
    r := [];
    for n := 0 to |s|
      invariant Increasing(r) && |r| <= n
      invariant forall x :: x in r <==> x in s[..n]
      invariant n > 0 ==> r != [] && r[|r| - 1] == s[n - 1]
    {
      assert s[..n + 1] == s[..n] + [s[n]];
      if n == 0 || s[n] != s[n - 1] {
        r := r + [s[n]];
      }
    }
    assert s[..|s|] == s;
  }

  method LocalIpv4Candidates(interfaces: seq<Interface>) returns (candidates: seq<nat>)
    ensures Increasing(candidates)
    ensures forall h :: h in candidates <==> Candidate(interfaces, h)
    ensures |candidates| <= AllAdded(interfaces)
  {
    hide Network, Broadcast, And, Or, CountOnes, IsPrivate, IsLoopback;
    candidates := [];
    for n := 0 to |interfaces|
      invariant forall h :: h in candidates <==> Candidate(interfaces[..n], h)
      invariant |candidates| <= AllAdded(interfaces[..n])
    {
      OneMore(interfaces, n);
      var i := interfaces[n];
      var more := [];
      if !IsLoopback(i.ip) && IsPrivate(i.ip) {
        var mask := if CountOnes(i.netmask) < 24 then 0xFFFF_FF00 else i.netmask;
        var network := And(i.ip, mask);
        var broadcast := Or(network, Not(mask));
        SubnetOf(i);
        NetworkFits(i);
        if broadcast > network + 1 {
          more := Hosts(i);
        }
      }
      candidates := candidates + more;
    }
    assert interfaces[..|interfaces|] == interfaces;
    var sorted := SortUnstable(candidates);
    assert forall h :: h in candidates <==> h in multiset(candidates);
    assert forall h :: h in sorted <==> h in multiset(sorted);
    assert |multiset(sorted)| == |multiset(candidates)|;
    candidates := Dedup(sorted);
  }

  lemma SubnetOf(i: Interface)
    ensures var mask := if CountOnes(i.netmask) < 24 then 0xFFFF_FF00 else i.netmask;
            Network(i) == And(i.ip, mask) && Broadcast(i) == Or(And(i.ip, mask), Not(mask))
  {
  }

  /** The inner loop: the hosts strictly between network and broadcast address, without the own one. */
  method Hosts(i: Interface) returns (hosts: seq<nat>)
    requires Scanned(i) && Network(i) < Broadcast(i)
    ensures forall h :: h in hosts <==> HostOf(i, h)
    ensures Increasing(hosts) && |hosts| == Added(i)
  {
    hide Network, Broadcast, Scanned;
    hosts := [];
    for host := Network(i) + 1 to Broadcast(i)
      invariant forall h :: h in hosts <==> Network(i) < h < host && h != i.ip
      invariant Increasing(hosts) && forall j | 0 <= j < |hosts| :: hosts[j] < host
      invariant |hosts| == host - Network(i) - 1 - if Network(i) < i.ip < host then 1 else 0
    {
      if host != i.ip {
        hosts := hosts + [host];
      }
    }
  }

  /** `network + 1` stays below 2^32 for every netmask. */
  lemma NetworkFits(i: Interface)
    requires Scanned(i)
    ensures Network(i) + 1 < TWO_32
  {
    hide CountOnes;
  }

  lemma OneMore(interfaces: seq<Interface>, n: nat)
    requires n < |interfaces|
    ensures forall h :: Candidate(interfaces[..n + 1], h) <==> Candidate(interfaces[..n], h) || HostOf(interfaces[n], h)
    ensures AllAdded(interfaces[..n + 1]) == AllAdded(interfaces[..n]) + Added(interfaces[n])
  {
    assert interfaces[..n + 1] == interfaces[..n] + [interfaces[n]];
    assert interfaces[..n + 1][..n] == interfaces[..n];
  }

  // ----- what that means for contiguous netmasks -----

  lemma {:induction false} PowerGrows(j: nat, k: nat)
    requires j <= k
    ensures Power2(j) <= Power2(k)
  {
    if j < k {
      PowerGrows(j, k - 1);
    }
  }

  /** `n - k` one bits above `k` zero bits. */
  function Ones(n: nat, k: nat): nat
    requires k <= n
  {
    PowerGrows(k, n);
    Power2(n) - Power2(k)
  }

  lemma OnesHalves(n: nat, k: nat)
    requires k <= n && n > 0
    ensures Ones(n, k) % 2 == (if k == 0 then 1 else 0)
    ensures Ones(n, k) / 2 == Ones(n - 1, if k == 0 then 0 else k - 1)
  {
    PowerGrows(k, n);
  }

  lemma {:induction false} CountOnesOf(n: nat, k: nat)
    requires k <= n
    ensures CountOnes(Ones(n, k)) == n - k
  {
    hide Power2;
    if n > 0 {
      OnesHalves(n, k);
      CountOnesOf(n - 1, if k == 0 then 0 else k - 1);
      Halves(Ones(n, k), 0);
      if k == n {
        assert Ones(n, k) == 0;
      }
    } else {
      assert Ones(n, k) == 0;
    }
  }

  lemma Multiples(d: int, m: nat)
    ensures d >= 1 ==> d * m >= m
    ensures d <= -1 ==> d * m + m <= 0
  {
  }

  lemma ModIs(a: nat, q: nat, m: nat, r: nat)
    requires a == q * m + r && r < m
    ensures a % m == r && a / m == q
  {
    var d := (a / m) as int - q as int;
    assert a == a / m * m + a % m;
    assert d * m == r - a % m;
    Multiples(d, m);
  }

  lemma ModHalves(a: nat, k: nat)
    requires k > 0
    ensures a % Power2(k) == a % 2 + 2 * (a / 2 % Power2(k - 1))
  {
    var m, h := Power2(k - 1), a / 2;
    assert h == h / m * m + h % m;
    assert a == h / m * (2 * m) + (a % 2 + 2 * (h % m)) by {
      assert h / m * (2 * m) == 2 * (h / m * m);
    }
    ModIs(a, h / m, 2 * m, a % 2 + 2 * (h % m));
  }

  /** The bit operations work on the lowest bits and on the halves. */
  lemma Halves(a: nat, b: nat)
    ensures CountOnes(a) == a % 2 + CountOnes(a / 2)
    ensures Or(a, b) == (if a % 2 == 1 || b % 2 == 1 then 1 else 0) + 2 * Or(a / 2, b / 2)
    ensures And(a, b) == (if a % 2 == 1 && b % 2 == 1 then 1 else 0) + 2 * And(a / 2, b / 2)
  {
  }

  lemma {:induction false} BitsOf(a: nat, b: nat, k: nat)
    ensures Bit(And(a, b), k) <==> Bit(a, k) && Bit(b, k)
    ensures Bit(Or(a, b), k) <==> Bit(a, k) || Bit(b, k)
  {
    hide And, Or, CountOnes;
    Halves(a, b);
    var x, y := And(a, b), Or(a, b);
    assert x / 2 == And(a / 2, b / 2) && (x % 2 == 1 <==> a % 2 == 1 && b % 2 == 1);
    assert y / 2 == Or(a / 2, b / 2) && (y % 2 == 1 <==> a % 2 == 1 || b % 2 == 1);
    if k > 0 {
      BitsOf(a / 2, b / 2, k - 1);
    }
  }

  /** Masking with ones above `k` zeros rounds down to a multiple of `2^k`. */
  lemma {:induction false} AndOnes(a: nat, n: nat, k: nat)
    requires k <= n && a < Power2(n)
    ensures And(a, Ones(n, k)) == a - a % Power2(k)
  {
    if n != 0 {
      hide And, Ones;
      var j := if k == 0 then 0 else k - 1;
      AndOnes(a / 2, n - 1, j);
      Halves(a, Ones(n, k));
      OnesHalves(n, k);
      if k > 0 {
        ModHalves(a, k);
      }
    }
  }

  lemma {:induction false} OrZero(a: nat)
    ensures Or(a, 0) == a
  {
    if a != 0 {
      OrZero(a / 2);
    }
  }

  lemma OrStep(a: nat, p: nat)
    requires p > 0 && a % 2 == 0 && Or(a / 2, p - 1) == a / 2 + p - 1
    ensures Or(a, 2 * p - 1) == a + 2 * p - 1
  {
    assert (2 * p - 1) / 2 == p - 1 && (2 * p - 1) % 2 == 1;
  }

  lemma {:induction false} OrOnes(a: nat, k: nat)
    requires a % Power2(k) == 0
    ensures Or(a, Power2(k) - 1) == a + Power2(k) - 1
  {
    hide Or;
    if k == 0 {
      OrZero(a);
    } else {
      ModHalves(a, k);
      assert Power2(k) == 2 * Power2(k - 1);
      hide Power2;
      OrOnes(a / 2, k - 1);
      OrStep(a, Power2(k - 1));
    }
  }

  lemma RoundedDown(a: nat, m: nat)
    requires m > 0
    ensures 0 <= a - a % m == a / m * m && (a - a % m) % m == 0
  {
    ModIs(a / m * m, a / m, m, 0);
  }

  /** A netmask of `32 - k` one bits. */
  predicate Contiguous(i: Interface, k: nat) {
    k <= 32 && i.netmask == Ones(32, k)
  }

  /** The subnet is that of the netmask, but never wider than a /24. */
  function HostBits(k: nat): nat {
    if k > 8 then 8 else k
  }

  lemma EffectiveOnes(i: Interface, k: nat)
    requires Contiguous(i, k)
    ensures EffectiveMask(i.netmask) == Ones(32, HostBits(k))
  {
    CountOnesOf(32, k);
    PowerWords();
  }

  lemma Subnet(i: Interface, k: nat)
    requires Contiguous(i, k)
    ensures var size := Power2(HostBits(k));
            Network(i) == i.ip - i.ip % size && Broadcast(i) == Network(i) + size - 1
  {
    hide And, Or, CountOnes;
    var e := HostBits(k);
    EffectiveOnes(i, k);
    PowerWords();
    AndOnes(i.ip, 32, e);
    RoundedDown(i.ip, Power2(e));
    assert Not(Ones(32, e)) == Power2(e) - 1;
    OrOnes(Network(i), e);
  }

  lemma PowerStep(e: nat, b: nat)
    requires e != 0
    ensures Power2(e) == 2 * Power2(e - 1) && Power2(e) * b == 2 * (Power2(e - 1) * b)
  {
  }

  lemma InBlock(ip: nat, size: nat, host: nat)
    requires size > 0
    ensures ip - ip % size < host < ip - ip % size + size - 1 <==> host / size == ip / size && 0 < host % size < size - 1
  {
    assert ip == ip / size * size + ip % size;
    assert host == host / size * size + host % size;
    if ip - ip % size <= host < ip - ip % size + size {
      ModIs(host, ip / size, size, host - (ip - ip % size));
    }
  }

  lemma PrivateBlock(ip: Address, host: nat)
    requires host / 256 == ip / 256
    ensures host < TWO_32 && (IsPrivate(host) <==> IsPrivate(ip))
  {
    assert host / 0x100_0000 == host / 256 / 0x1_0000 && ip / 0x100_0000 == ip / 256 / 0x1_0000;
    assert host / 0x10_0000 == host / 256 / 0x1000 && ip / 0x10_0000 == ip / 256 / 0x1000;
    assert host / 0x1_0000 == host / 256 / 256 && ip / 0x1_0000 == ip / 256 / 256;
  }

  // ----- what it means for every netmask -----

  /** Masking takes away what the complement would keep, and adding the complement's bits back in is a sum. */
  lemma {:induction false} MaskSums(a: nat, c: nat, n: nat)
    requires a < Power2(n) && c < Power2(n)
    ensures var kept := And(a, Power2(n) - 1 - c);
            kept == a - And(a, c) && Or(kept, c) == kept + c
  {
    if n == 0 {
      assert And(0, 0) == 0 && Or(0, 0) == 0;
    } else {
      assert Power2(n) == 2 * Power2(n - 1);
      hide And, Or, Power2;
      MaskSums(a / 2, c / 2, n - 1);
      MaskStep(a, c, Power2(n - 1));
    }
  }

  lemma MaskStep(a: nat, c: nat, p: nat)
    requires p > 0 && c / 2 < p
    requires And(a / 2, p - 1 - c / 2) == a / 2 - And(a / 2, c / 2)
    requires Or(And(a / 2, p - 1 - c / 2), c / 2) == And(a / 2, p - 1 - c / 2) + c / 2
    ensures var kept := And(a, 2 * p - 1 - c);
            kept == a - And(a, c) && Or(kept, c) == kept + c
  {
    var m := 2 * p - 1 - c;
    assert m / 2 == p - 1 - c / 2 && m % 2 == 1 - c % 2;
    hide And, Or, CountOnes;
    Halves(a, m);
    Halves(a, c);
    var kept := And(a, m);
    assert kept / 2 == And(a / 2, m / 2) && kept % 2 == if a % 2 == 1 && m % 2 == 1 then 1 else 0;
    Halves(kept, c);
  }

  /** A mask of the low bits keeps at most them, and filling them up stays below the block's end. */
  lemma {:induction false} LowBits(a: nat, c: nat, k: nat)
    requires c < Power2(k)
    ensures And(a, c) <= a % Power2(k) && a % Power2(k) - And(a, c) + c < Power2(k)
  {
    if k > 0 {
      ModHalves(a, k);
      Halves(a, c);
      assert Power2(k) == 2 * Power2(k - 1);
      hide Power2, And, Or, CountOnes;
      LowBits(a / 2, c / 2, k - 1);
    }
  }

  lemma Block(i: Interface)
    ensures var c := Not(EffectiveMask(i.netmask));
            && Network(i) == i.ip - And(i.ip, c) && Broadcast(i) == Network(i) + c
            && (c < 256 ==> i.ip - i.ip % 256 <= Network(i) && Broadcast(i) <= i.ip - i.ip % 256 + 255)
  {
    hide And, Or, CountOnes;
    var c := Not(EffectiveMask(i.netmask));
    PowerWords();
    MaskSums(i.ip, c, 32);
    if c < 256 {
      LowBits(i.ip, c, 8);
    }
  }

  /** The netmask's first 24 bits are set, or the code sets them. */
  predicate Narrow(i: Interface) {
    0xFFFF_FF00 <= EffectiveMask(i.netmask)
  }

  lemma {:induction false} OneBit(a: nat, k: nat)
    ensures And(a, Power2(k)) == 0 || And(a, Power2(k)) == Power2(k)
  {
    Halves(a, Power2(k));
    if k > 0 {
      OneBit(a / 2, k - 1);
    } else {
      assert And(a / 2, 0) == 0;
    }
  }

  /** For any netmask an interface adds at most 254 addresses exactly when it is not scanned or its mask is narrow. */
  lemma AddedIff(i: Interface)
    ensures Added(i) <= 254 <==> !Scanned(i) || Narrow(i)
  {
    PowerWords();
    OneBit(i.ip, 8);
    hide Network, Broadcast, Scanned, EffectiveMask, And, Power2;
    Block(i);
  }

  lemma {:induction false} CountLow(n: nat, k: nat)
    ensures Power2(k) * n + Power2(k) >= 1 && CountOnes(Power2(k) * n + Power2(k) - 1) == k + CountOnes(n)
  {
    if k > 0 {
      CountLow(n, k - 1);
      PowerStep(k, n);
      CountStep(Power2(k - 1) * n + Power2(k - 1) - 1);
    }
  }

  lemma CountStep(m: nat)
    ensures CountOnes(2 * m + 1) == 1 + CountOnes(m)
  {
    Halves(2 * m + 1, 0);
  }

  lemma WideMaskOnes()
    ensures CountOnes(0xFF00_FFFF) == 24
  {
    hide CountOnes, Power2;
    PowerWords();
    CountOnesOf(16, 8);
    CountLow(0xFF00, 16);
  }

  /** A mask with 24 ones need not be narrow: 255.0.255.255 makes an interface add more than 16 million addresses. */
  lemma WideMask()
    ensures CountOnes(0xFF00_FFFF) == 24
    ensures var i := Interface(0x0A00_0001, 0xFF00_FFFF);
            !Narrow(i) && Added(i) == 0xFE_FFFF
  {
    hide CountOnes, And, Or;
    WideMaskOnes();
    Block(Interface(0x0A00_0001, 0xFF00_FFFF));
    PowerWords();
    LowBits(0x0A00_0001, 0xFF_0000, 24);
    Halves(0x0A00_0001, 0xFF_0000);
  }

  lemma NarrowHosts(i: Interface, host: nat)
    requires Narrow(i) && HostOf(i, host)
    ensures host < TWO_32 && IsPrivate(host) && host / 256 == i.ip / 256
  {
    hide Network, Broadcast, IsPrivate, IsLoopback, EffectiveMask;
    Block(i);
    assert host / 256 == i.ip / 256;
    PrivateBlock(i.ip, host);
  }

  lemma PrefixNarrow(i: Interface, k: nat)
    requires Contiguous(i, k)
    ensures Narrow(i)
  {
    EffectiveOnes(i, k);
    PowerGrows(HostBits(k), 8);
    PowerWords();
  }

  /**
   With contiguous netmasks an address is scanned for an interface exactly when it lies strictly
   inside the interface's subnet, cut to a /24, and is not the interface's own.  All of those are
   private addresses of the same /24 block, and there are at most 254.
   */
  lemma HostsOfSubnet(i: Interface, k: nat, host: nat)
    requires Contiguous(i, k)
    ensures var size := Power2(HostBits(k));
            HostOf(i, host) <==> Scanned(i) && host != i.ip && host / size == i.ip / size && 0 < host % size < size - 1
    ensures HostOf(i, host) ==> host < TWO_32 && IsPrivate(host) && host / 256 == i.ip / 256
    ensures Added(i) <= 254
  {
    hide Network, Broadcast, IsPrivate, Power2, Contiguous, IsLoopback;
    Subnet(i, k);
    InBlock(i.ip, Power2(HostBits(k)), host);
    PrefixNarrow(i, k);
    AddedIff(i);
    if HostOf(i, host) {
      NarrowHosts(i, host);
    }
  }

  /** With narrow masks, as contiguous ones are, the list has private addresses only, at most 254 for each interface. */
  lemma {:induction false} FewCandidates(interfaces: seq<Interface>)
    requires forall i | i in interfaces && Scanned(i) :: Narrow(i)
    ensures AllAdded(interfaces) <= 254 * |interfaces|
    ensures forall h: nat | Candidate(interfaces, h) :: h < TWO_32 && IsPrivate(h)
  {
    hide Network, Broadcast, Narrow, IsPrivate, IsLoopback;
    forall i, h: nat | i in interfaces && HostOf(i, h) ensures h < TWO_32 && IsPrivate(h) {
      NarrowHosts(i, h);
    }
    if interfaces != [] {
      var n := |interfaces| - 1;
      FewCandidates(interfaces[..n]);
      assert interfaces[n] in interfaces;
      AddedIff(interfaces[n]);
    }
  }
}
