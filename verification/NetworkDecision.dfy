/** How the ingress guards decide which subnet to trust. */
module NetworkDecision {
  import opened Results
  import opened Netfilter
  import opened IngressKernel

  /** One line of the interface's address listing, stripped and read as an address. */
  datatype RawAddress = Blank | Unreadable | IPv6 | IPv4(address: nat, prefix: nat)

  datatype Reason =
    | InterfaceNotConnected | NoIPv4Address | InvalidIPv4State | AmbiguousIPv4Subnet | UniqueIPv4Subnet

  datatype Decision = Decision(trustedSubnet: Option<Subnet>, candidateNetworkCount: nat, reason: Reason)

  predicate Usable(a: RawAddress) {
    && a.IPv4?
    && a.address != 0
    && a.address / 0x100_0000 != 127
    && a.address / 0x1000_0000 != 14
    && a.address / 0x1_0000 != 0xA9FE
    && 1 <= a.prefix <= 32
  }

  function NetworkFor(a: RawAddress): (s: Subnet)
    requires Usable(a)
  {
    ClearTwice(a.address, HostBits(a.prefix));
    NetworkOf(Net(a.address, a.prefix))
  }

  function NonBlank(raw: seq<RawAddress>): seq<RawAddress> {
    if raw == [] then []
    else (if raw[0].Blank? then [] else [raw[0]]) + NonBlank(raw[1..])
  }

  lemma {:induction false} NonBlankContents(raw: seq<RawAddress>, a: RawAddress)
    ensures a in NonBlank(raw) <==> a in raw && !a.Blank?
  {
    if raw != [] {
      NonBlankContents(raw[1..], a);
    }
  }

  predicate AllUsable(addresses: seq<RawAddress>) {
    forall a | a in addresses :: Usable(a)
  }

  predicate AllOn(addresses: seq<RawAddress>, s: Subnet) {
    forall a | a in addresses :: Usable(a) && NetworkFor(a) == s
  }

  /** How many addresses there are before the first unusable one. */
  function UsableCount(addresses: seq<RawAddress>): (n: nat)
    ensures n <= |addresses| && AllUsable(addresses[..n])
    ensures n < |addresses| ==> !Usable(addresses[n])
  {
    if addresses == [] || !Usable(addresses[0]) then 0
    else
      var n := UsableCount(addresses[1..]);
      assert addresses[..n + 1] == [addresses[0]] + addresses[1..][..n];
      n + 1
  }

  lemma {:induction false} UsableCountIs(addresses: seq<RawAddress>, n: nat)
    requires n <= |addresses| && AllUsable(addresses[..n]) && (n < |addresses| ==> !Usable(addresses[n]))
    ensures UsableCount(addresses) == n
  {
    if n > 0 {
      assert addresses[..n][0] == addresses[0];
      assert forall a | a in addresses[1..][..n - 1] :: a in addresses[..n];
      UsableCountIs(addresses[1..], n - 1);
    }
  }

  /** The networks of the addresses up to the first unusable one. */
  function NetworksSeen(addresses: seq<RawAddress>): set<Subnet> {
    NetworksOf(addresses[..UsableCount(addresses)])
  }

  /** The networks of the addresses, stopping at the first unusable one. */
  method CollectNetworks(addresses: seq<RawAddress>) returns (usable: bool, networks: set<Subnet>)
    ensures usable == AllUsable(addresses)
    ensures networks == NetworksSeen(addresses)
    ensures usable ==> networks == NetworksOf(addresses)
  {
    networks := {};
    for i := 0 to |addresses|
      invariant AllUsable(addresses[..i])
      invariant networks == NetworksOf(addresses[..i])
    {
      if !Usable(addresses[i]) {
        assert addresses[i] in addresses;
        UsableCountIs(addresses, i);
        return false, networks;
      }
      assert addresses[..i + 1] == addresses[..i] + [addresses[i]];
      networks := networks + {NetworkFor(addresses[i])};
    }
    assert addresses[..|addresses|] == addresses;
    UsableCountIs(addresses, |addresses|);
    return true, networks;
  }

  /** A subnet is trusted exactly when the interface is connected, has an address, and
      every address is usable and lies on that one subnet. */
  method DecideTrustedSubnet(connected: bool, raw: seq<RawAddress>) returns (d: Decision)
    ensures var addresses := NonBlank(raw);
            && (d.reason == InterfaceNotConnected <==> !connected)
            && (d.reason == NoIPv4Address <==> connected && addresses == [])
            && (d.reason == InvalidIPv4State <==> connected && !AllUsable(addresses))
            && (d.reason == UniqueIPv4Subnet <==>
                  connected && addresses != [] && exists s: Subnet :: AllOn(addresses, s))
    ensures d.trustedSubnet.Some? <==> d.reason == UniqueIPv4Subnet
    ensures d.trustedSubnet.Some? ==> AllOn(NonBlank(raw), d.trustedSubnet.value) && d.candidateNetworkCount == 1
    ensures d.reason == AmbiguousIPv4Subnet ==> AllUsable(NonBlank(raw)) && d.candidateNetworkCount >= 2
    ensures d.candidateNetworkCount == if !connected then 0 else |NetworksSeen(NonBlank(raw))|
  {
    if !connected {
      return Decision(None, 0, InterfaceNotConnected);
    }
    var addresses := NonBlank(raw);
    if addresses == [] {
      return Decision(None, 0, NoIPv4Address);
    }
    var usable, networks := CollectNetworks(addresses);
    if !usable {
      return Decision(None, |networks|, InvalidIPv4State);
    }
    if |networks| != 1 {
      ManyNetworks(addresses);
      return Decision(None, |networks|, AmbiguousIPv4Subnet);
    }
    var subnet: Subnet :| subnet in networks;
    OnlyOne(networks, subnet);
    AllOnSingle(addresses, subnet);
    return Decision(Some(subnet), 1, UniqueIPv4Subnet);
  }

  function NetworksOf(addresses: seq<RawAddress>): set<Subnet>
    requires AllUsable(addresses)
  {
    set a | a in addresses :: NetworkFor(a)
  }

  /** Addresses lie on one subnet exactly when it is the only network they have. */
  lemma AllOnSingle(addresses: seq<RawAddress>, s: Subnet)
    requires AllUsable(addresses) && addresses != []
    ensures AllOn(addresses, s) <==> NetworksOf(addresses) == {s}
  {
    assert addresses[0] in addresses;
    assert NetworkFor(addresses[0]) in NetworksOf(addresses);
    forall a | a in addresses
      ensures NetworkFor(a) in NetworksOf(addresses)
    {
    }
    if AllOn(addresses, s) {
      assert forall n | n in NetworksOf(addresses) :: n == s;
    }
  }

  lemma ManyNetworks(addresses: seq<RawAddress>)
    requires AllUsable(addresses) && addresses != [] && |NetworksOf(addresses)| != 1
    ensures |NetworksOf(addresses)| >= 2
    ensures !exists s: Subnet :: AllOn(addresses, s)
  {
    assert addresses[0] in addresses;
    assert NetworkFor(addresses[0]) in NetworksOf(addresses);
    forall s: Subnet
      ensures !AllOn(addresses, s)
    {
      AllOnSingle(addresses, s);
    }
  }

  lemma OnlyOne(networks: set<Subnet>, s: Subnet)
    requires s in networks && |networks| == 1
    ensures networks == {s}
  {
    assert |networks - {s}| == 0;
  }
}
