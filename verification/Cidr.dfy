/**
 SubnetCIDRInAnyRange of utils/util.go.  Addresses are bit sequences, most
 significant bit first, 32 or 128 long; parsing a CIDR text and the containment
 test of one address are Go's net package, which reads an IPv4-mapped IPv6
 address as the IPv4 address in it.
 */
module Cidr {
  import opened Common

  type Bits = seq<bool>

  /** A parsed CIDR: network address with its host bits cleared, and prefix length. */
  datatype Net = Net(ip: Bits, prefix: nat)

  predicate IsAddress(a: Bits) {
    |a| == 32 || |a| == 128
  }

  predicate ValidNet(n: Net) {
    && IsAddress(n.ip) && n.prefix <= |n.ip|
    && forall i :: n.prefix <= i < |n.ip| ==> !n.ip[i]
  }

  /** IP.To4: the address itself, the one inside an IPv4-mapped address, or nothing. */
  predicate Mapped(a: Bits) {
    |a| == 128 && forall i :: 0 <= i < 96 ==> (a[i] <==> i >= 80)
  }

  function Normal(a: Bits): Bits
    requires IsAddress(a)
  {
    if Mapped(a) then a[96..] else a
  }

  /** Eighty zeros and sixteen ones in front of an IPv4 address, the form of section 2.5.5.2 of RFC 4291. */
  function MappedForm(v4: Bits): Bits {
    seq(80, i => false) + seq(16, i => true) + v4
  }

  /** That form is read as the IPv4 address in it, and every other address as itself. */
  lemma NormalReadsMapped(a: Bits, v4: Bits)
    requires IsAddress(a) && |v4| == 32
    ensures a == MappedForm(v4) ==> Normal(a) == v4
    ensures Normal(a) == a || a == MappedForm(Normal(a))
  {
    if Mapped(a) {
      assert a == MappedForm(a[96..]);
    }
  }

  /** The block as Go's net package reads it: a mapped network is an IPv4 network. */
  function NormalNet(n: Net): (r: Net)
    requires ValidNet(n)
    ensures ValidNet(r) && r.ip == Normal(n.ip)
  {
    if Mapped(n.ip) then
      assert n.ip[95];
      Net(n.ip[96..], n.prefix - 96)
    else n
  }

  /** IPNet.Contains: same length, and equal under the mask. */
  predicate NetContains(n: Net, a: Bits)
    requires ValidNet(n) && IsAddress(a)
  {
    var net, x := NormalNet(n), Normal(a);
    |net.ip| == |x| && forall i :: 0 <= i < |x| ==> ((net.ip[i] && i < net.prefix) <==> (x[i] && i < net.prefix))
  }

  /** The address agrees with the network on the prefix. */
  predicate InBlock(n: Net, a: Bits)
    requires ValidNet(n)
  {
    |a| == |n.ip| && forall i :: 0 <= i < n.prefix ==> (a[i] <==> n.ip[i])
  }

  /** Every address of the subnet is an address of the range. */
  ghost predicate Covers(range: Net, subnet: Net)
    requires ValidNet(range) && ValidNet(subnet)
  {
    forall a: Bits :: InBlock(NormalNet(subnet), a) ==> InBlock(NormalNet(range), a)
  }

  /** The range's prefix is no longer than the subnet's, and they agree on it (section 3.1 of RFC 4632). */
  predicate PrefixCovers(range: Net, subnet: Net)
    requires ValidNet(range) && ValidNet(subnet)
  {
    var r, s := NormalNet(range), NormalNet(subnet);
    |r.ip| == |s.ip| && r.prefix <= s.prefix && InBlock(r, s.ip)
  }

  /** The last address of a block: every host bit set. */
  function LastAddress(n: Net): (last: Bits)
    requires ValidNet(n)
    ensures IsAddress(last)
  {
    seq(|n.ip|, i requires 0 <= i < |n.ip| => n.ip[i] || i >= n.prefix)
  }

  lemma EndsDiffer(n: Net)
    requires ValidNet(n)
    ensures n.prefix < |n.ip| ==> !n.ip[n.prefix] && LastAddress(n)[n.prefix]
  {
  }

  /** Endpoints already suffice: containment of all addresses is agreement of prefixes. */
  lemma CoversIsPrefixCovers(range: Net, subnet: Net)
    requires ValidNet(range) && ValidNet(subnet)
    ensures Covers(range, subnet) <==> PrefixCovers(range, subnet)
  {
    var r, s := NormalNet(range), NormalNet(subnet);
    if Covers(range, subnet) {
      assert InBlock(s, s.ip);
      assert InBlock(s, LastAddress(s));
      EndsDiffer(s);
    }
  }

  /**
   An IPv6 block whose first address is not IPv4-mapped but whose last one is,
   such as ::/80: the code reads its two ends as different families.
   */
  predicate Straddles(n: Net)
    requires ValidNet(n)
  {
    Mapped(LastAddress(n)) && !Mapped(n.ip)
  }

  /** Taking the last address and reading a mapped block as IPv4 commute. */
  lemma LastOfNormal(n: Net)
    requires ValidNet(n) && !Straddles(n)
    ensures Normal(LastAddress(n)) == LastAddress(NormalNet(n))
  {
    if Mapped(n.ip) {
      assert n.ip[95];
      assert Mapped(LastAddress(n));
    }
  }

  /** The two tests of the code, for one range. */
  lemma EndsDecideContainment(range: Net, subnet: Net)
    requires ValidNet(range) && ValidNet(subnet)
    ensures NetContains(range, subnet.ip) && NetContains(range, LastAddress(subnet))
            <==> Covers(range, subnet) && !Straddles(subnet)
  {
    CoversIsPrefixCovers(range, subnet);
    var r, s := NormalNet(range), NormalNet(subnet);
    if Straddles(subnet) {
      assert |Normal(subnet.ip)| == 128 && |Normal(LastAddress(subnet))| == 32;
    } else {
      LastOfNormal(subnet);
      EndsInPlainBlock(r, s);
    }
  }

  /** Equal under the mask, for networks that need no reading. */
  predicate MaskedEqual(n: Net, a: Bits)
    requires ValidNet(n)
  {
    |n.ip| == |a| && forall i :: 0 <= i < |a| ==> ((n.ip[i] && i < n.prefix) <==> (a[i] && i < n.prefix))
  }

  lemma EndsInPlainBlock(r: Net, s: Net)
    requires ValidNet(r) && ValidNet(s)
    ensures MaskedEqual(r, s.ip) && MaskedEqual(r, LastAddress(s))
            <==> |r.ip| == |s.ip| && r.prefix <= s.prefix && InBlock(r, s.ip)
  {
    EndsDiffer(s);
  }

  /** A straddling block is turned away by every range, even by one that covers it. */
  lemma StraddlingBlocksAreRejected(range: Net, subnet: Net)
    requires ValidNet(range) && ValidNet(subnet) && Straddles(subnet)
    ensures !(NetContains(range, subnet.ip) && NetContains(range, LastAddress(subnet)))
    ensures Covers(subnet, subnet)
  {
    EndsDecideContainment(range, subnet);
  }

  lemma StraddlingBlocksExist()
    ensures var n := Net(seq(128, i => false), 80); ValidNet(n) && Straddles(n)
  {
    var n := Net(seq(128, i => false), 80);
    assert !Mapped(n.ip) by { assert !n.ip[80]; }
  }

  /** None stands for a text that does not parse. */
  method SubnetCIDRInAnyRange(subnet: Option<Net>, ranges: seq<Option<Net>>) returns (found: bool)
    requires subnet.Some? ==> ValidNet(subnet.value)
    requires forall i :: 0 <= i < |ranges| && ranges[i].Some? ==> ValidNet(ranges[i].value)
    ensures found <==>
              && subnet.Some? && !Straddles(subnet.value)
              && exists i :: 0 <= i < |ranges| && ranges[i].Some? && Covers(ranges[i].value, subnet.value)
  {
    if subnet.None? {
      return false;
    }
    var subnetNet := subnet.value;
    var lastIP: Bits := [];
    for i := 0 to |subnetNet.ip|
      invariant |lastIP| == i
      invariant forall j :: 0 <= j < i ==> lastIP[j] == LastAddress(subnetNet)[j]
    {
      var maskBit := i < subnetNet.prefix;
      lastIP := lastIP + [subnetNet.ip[i] || !maskBit];
    }
    assert lastIP == LastAddress(subnetNet);
    for i := 0 to |ranges|
      invariant forall j :: 0 <= j < i && ranges[j].Some? ==>
                  !(Covers(ranges[j].value, subnetNet) && !Straddles(subnetNet))
    {
      if ranges[i].Some? {
        var rangeNet := ranges[i].value;
        EndsDecideContainment(rangeNet, subnetNet);
        if NetContains(rangeNet, subnetNet.ip) && NetContains(rangeNet, lastIP) {
          return true;
        }
      }
    }
    return false;
  }
}
