/** The addresses and names that vms-manager derives from a VLAN and a VM's identifier in it, as
    the texts it prints, with an independent reading of those texts as CIDR blocks. */
module Addressing {
  import opened Text

  const FIRST_VLAN := 100
  const MAX_VLANS := 255
  const MAX_VMS_PER_VLAN := 253
  const FIRST_IP_IN_SUBNET := 1
  const SUBNET_MASK := 24
  const INTERFACE_ADDRESS_SECOND_OCTET := 1
  const INTERFACE_ADDRESS_SUBNET_MASK := 32
  const VLAN_TO_ROUTER_PORT_OFFSET := 20000

  predicate VlanInRange(vlan: int) { FIRST_VLAN <= vlan < FIRST_VLAN + MAX_VLANS }

  predicate IdentifierInRange(identifier: int) { 1 <= identifier <= MAX_VMS_PER_VLAN }

  // ----- The printers and the two functions that take a printed address apart

  function MapVlanToThirdIpOctet(vlan: int): int { vlan - FIRST_VLAN }

  /** The format `%s.%s.%s.%s`. */
  function Dotted(a: string, b: string, c: string, d: string): string {
    a + "." + b + "." + c + "." + d
  }

  function GetVlanGatewayIp(vlan: int): string {
    Dotted("10", "0", Itoa(MapVlanToThirdIpOctet(vlan)), Itoa(FIRST_IP_IN_SUBNET))
  }

  function GetVpnGatewayIp(vlan: int): string {
    Dotted("10", "1", Itoa(MapVlanToThirdIpOctet(vlan)), Itoa(FIRST_IP_IN_SUBNET))
  }

  function GetVlanNetworkIpWithSubnet(vlan: int): string {
    Dotted("10", "0", Itoa(MapVlanToThirdIpOctet(vlan)), "0/" + Itoa(SUBNET_MASK))
  }

  function GetIpAddWithSubnet(vlan: int, identifier: int): string {
    Dotted("10", "0", Itoa(MapVlanToThirdIpOctet(vlan)),
           Itoa(identifier + FIRST_IP_IN_SUBNET) + "/" + Itoa(SUBNET_MASK))
  }

  function GetVlanEtiquete(vlan: int, identifier: int): string {
    "vlan" + Itoa(vlan) + "-" + Itoa(identifier)
  }

  function GetVlanRouterPort(vlan: int): int { vlan + VLAN_TO_ROUTER_PORT_OFFSET }

  // A text with fewer than four dotted parts makes the source index out of range.
  function GetInterfaceAddressWithSubnet(address: string): string
    requires |Split(address, '.')| >= 4
  {
    var ipParts := Split(address, '.');
    Dotted(ipParts[0], Itoa(INTERFACE_ADDRESS_SECOND_OCTET), ipParts[2],
           Split(ipParts[3], '/')[0] + "/" + Itoa(INTERFACE_ADDRESS_SUBNET_MASK))
  }

  function GetNetworkAddressWithSubnet(address: string): string
    requires |Split(address, '.')| >= 3
  {
    var ipParts := Split(address, '.');
    Dotted(ipParts[0], ipParts[1], ipParts[2], "0/" + Itoa(SUBNET_MASK))
  }

  function GetPeerAllowedIps(address: string): seq<string>
    requires |Split(address, '.')| >= 4
    requires |Split(GetInterfaceAddressWithSubnet(address), '.')| >= 3
  {
    [GetNetworkAddressWithSubnet(address),
     GetNetworkAddressWithSubnet(GetInterfaceAddressWithSubnet(address))]
  }

  // ----- Reading a text as an address block, section 3.1 of RFC 4632

  datatype Cidr = NotCidr | Cidr(address: nat, prefix: nat)

  function Address(a: nat, b: nat, c: nat, d: nat): nat { ((a * 256 + b) * 256 + c) * 256 + d }

  predicate IsOctet(s: string) { IsNumeral(s) && Value(s) < 256 }

  function ParseCidr(s: string): Cidr {
    var halves := Split(s, '/');
    if |halves| != 2 || !IsNumeral(halves[1]) || Value(halves[1]) > 32 then NotCidr
    else
      var o := Split(halves[0], '.');
      if |o| != 4 || !IsOctet(o[0]) || !IsOctet(o[1]) || !IsOctet(o[2]) || !IsOctet(o[3]) then NotCidr
      else Cidr(Address(Value(o[0]), Value(o[1]), Value(o[2]), Value(o[3])), Value(halves[1]))
  }

  function BlockSize(prefix: nat): (size: nat)
    requires prefix <= 32
    ensures size > 0
    decreases 32 - prefix
  {
    if prefix == 32 then 1 else 2 * BlockSize(prefix + 1)
  }

  /** `address` lies in the block, that is, it shares the block's network bits. */
  predicate InBlock(address: nat, block: Cidr)
    requires block.Cidr? && block.prefix <= 32
  {
    address / BlockSize(block.prefix) == block.address / BlockSize(block.prefix)
  }

  // ----- How the printed texts split

  lemma SplitDotted(a: string, b: string, c: string, d: string)
    requires '.' !in a && '.' !in b && '.' !in c && '.' !in d
    ensures Split(Dotted(a, b, c, d), '.') == [a, b, c, d]
  {
    var cd := c + "." + d;
    var bcd := b + "." + cd;
    DottedRegrouped(a, b, c, d);
    SplitPrefix(a, '.', bcd);
    SplitPrefix(b, '.', cd);
    SplitPrefix(c, '.', d);
    SplitOne(d, '.');
  }

  lemma DottedRegrouped(a: string, b: string, c: string, d: string)
    ensures Dotted(a, b, c, d) == a + "." + (b + "." + (c + "." + d))
  {
  }

  lemma {:induction false} ParseDotted(a: nat, b: nat, c: nat, d: nat, m: nat)
    requires a < 256 && b < 256 && c < 256 && d < 256 && m <= 32
    ensures ParseCidr(Dotted(Itoa(a), Itoa(b), Itoa(c), Itoa(d) + "/" + Itoa(m))) == Cidr(Address(a, b, c, d), m)
  {
    hide Address;
    var host := Dotted(Itoa(a), Itoa(b), Itoa(c), Itoa(d));
    var whole := Dotted(Itoa(a), Itoa(b), Itoa(c), Itoa(d) + "/" + Itoa(m));
    assert whole == host + "/" + Itoa(m);
    assert '/' !in host;
    SplitPrefix(host, '/', Itoa(m));
    SplitOne(Itoa(m), '/');
    SplitDotted(Itoa(a), Itoa(b), Itoa(c), Itoa(d));
    ValueOfDecimal(a);
    ValueOfDecimal(b);
    ValueOfDecimal(c);
    ValueOfDecimal(d);
    ValueOfDecimal(m);
  }

  lemma SmallNumbers()
    ensures Itoa(0) == "0" && Itoa(1) == "1" && Itoa(10) == "10"
  {
    assert Decimal(10) == Decimal(1) + "0";
  }

  lemma BlockSizes()
    ensures BlockSize(24) == 256 && BlockSize(32) == 1
  {
    assert BlockSize(28) == 16;
  }

  /** The tunnel address printed for a VM: its host under 10.1, as a /32. */
  function TunnelAddress(vlan: int, identifier: int): string {
    Dotted("10", Itoa(1), Itoa(MapVlanToThirdIpOctet(vlan)), Itoa(identifier + FIRST_IP_IN_SUBNET) + "/" + Itoa(32))
  }

  /** The network of the VLAN's tunnel addresses. */
  function TunnelNetwork(vlan: int): string {
    Dotted("10", Itoa(1), Itoa(MapVlanToThirdIpOctet(vlan)), "0/" + Itoa(SUBNET_MASK))
  }

  /** Both take-apart functions, on every address the service prints, in range or not. */
  lemma TakenApart(vlan: int, identifier: int)
    ensures |Split(GetIpAddWithSubnet(vlan, identifier), '.')| == 4
    ensures GetInterfaceAddressWithSubnet(GetIpAddWithSubnet(vlan, identifier)) == TunnelAddress(vlan, identifier)
    ensures GetNetworkAddressWithSubnet(GetIpAddWithSubnet(vlan, identifier)) == GetVlanNetworkIpWithSubnet(vlan)
    ensures |Split(TunnelAddress(vlan, identifier), '.')| == 4
    ensures GetNetworkAddressWithSubnet(TunnelAddress(vlan, identifier)) == TunnelNetwork(vlan)
  {
    var x, y := Itoa(MapVlanToThirdIpOctet(vlan)), Itoa(identifier + FIRST_IP_IN_SUBNET);
    SplitDotted("10", "0", x, y + "/" + Itoa(SUBNET_MASK));
    SplitPrefix(y, '/', Itoa(SUBNET_MASK));
    SplitDotted("10", Itoa(1), x, y + "/" + Itoa(32));
  }

  // ----- The address properties

  /** Distinct (VLAN, identifier) pairs print distinct addresses. */
  lemma VmAddressesDistinct(v: int, i: int, w: int, j: int)
    requires GetIpAddWithSubnet(v, i) == GetIpAddWithSubnet(w, j)
    ensures v == w && i == j
  {
    var x, y := Itoa(MapVlanToThirdIpOctet(v)), Itoa(i + FIRST_IP_IN_SUBNET);
    var x', y' := Itoa(MapVlanToThirdIpOctet(w)), Itoa(j + FIRST_IP_IN_SUBNET);
    SplitDotted("10", "0", x, y + "/" + Itoa(SUBNET_MASK));
    SplitDotted("10", "0", x', y' + "/" + Itoa(SUBNET_MASK));
    CutUnique(y, y', '/', Itoa(SUBNET_MASK), Itoa(SUBNET_MASK));
    ItoaInjective(MapVlanToThirdIpOctet(v), MapVlanToThirdIpOctet(w));
    ItoaInjective(i + FIRST_IP_IN_SUBNET, j + FIRST_IP_IN_SUBNET);
  }

  /** Distinct (VLAN, identifier) pairs have distinct names. */
  lemma EtiquettesDistinct(v: int, i: int, w: int, j: int)
    requires 0 <= v && 0 <= w && GetVlanEtiquete(v, i) == GetVlanEtiquete(w, j)
    ensures v == w && i == j
  {
    EtiqueteTail(v, i);
    EtiqueteTail(w, j);
    CutUnique(Itoa(v), Itoa(w), '-', Itoa(i), Itoa(j));
    ItoaInjective(v, w);
    ItoaInjective(i, j);
  }

  lemma EtiqueteTail(v: int, i: int)
    ensures GetVlanEtiquete(v, i)[4..] == Itoa(v) + ['-'] + Itoa(i)
  {
  }

  lemma VmAddressReads(vlan: int, identifier: int)
    requires VlanInRange(vlan) && IdentifierInRange(identifier)
    ensures ParseCidr(GetIpAddWithSubnet(vlan, identifier))
         == Cidr(Address(10, 0, vlan - FIRST_VLAN, identifier + 1), 24)
    ensures ParseCidr(TunnelAddress(vlan, identifier))
         == Cidr(Address(10, 1, vlan - FIRST_VLAN, identifier + 1), 32)
  {
    SmallNumbers();
    ParseDotted(10, 0, vlan - FIRST_VLAN, identifier + 1, 24);
    ParseDotted(10, 1, vlan - FIRST_VLAN, identifier + 1, 32);
  }

  lemma NetworkReads(vlan: int)
    requires VlanInRange(vlan)
    ensures ParseCidr(GetVlanNetworkIpWithSubnet(vlan)) == Cidr(Address(10, 0, vlan - FIRST_VLAN, 0), 24)
  {
    SmallNumbers();
    ParseDotted(10, 0, vlan - FIRST_VLAN, 0, 24);
    assert "0/" + Itoa(24) == "0" + "/" + Itoa(24);
  }

  lemma GatewaysRead(vlan: int, m: nat)
    requires VlanInRange(vlan) && m <= 32
    ensures ParseCidr(GetVlanGatewayIp(vlan) + "/" + Itoa(m)) == Cidr(Address(10, 0, vlan - FIRST_VLAN, 1), m)
    ensures ParseCidr(GetVpnGatewayIp(vlan) + "/" + Itoa(m)) == Cidr(Address(10, 1, vlan - FIRST_VLAN, 1), m)
  {
    SmallNumbers();
    ParseDotted(10, 0, vlan - FIRST_VLAN, 1, m);
    ParseDotted(10, 1, vlan - FIRST_VLAN, 1, m);
    var x := Itoa(vlan - FIRST_VLAN);
    assert Dotted("10", "0", x, "1") + "/" + Itoa(m) == Dotted("10", "0", x, "1" + "/" + Itoa(m));
    assert Dotted("10", "1", x, "1") + "/" + Itoa(m) == Dotted("10", "1", x, "1" + "/" + Itoa(m));
  }

  lemma AddressQuotient(a: nat, b: nat, c: nat, d: nat)
    requires d < 256
    ensures Address(a, b, c, d) / 256 == (a * 256 + b) * 256 + c
    ensures Address(a, b, c, d) % 256 == d
  {
  }

  /** Read as CIDR, a VM's address lies in its own VLAN's /24 and in no other VLAN's, with a last
      octet in 2..254: never the network, the gateway or the broadcast address. */
  lemma VmAddressInOwnSubnet(vlan: int, identifier: int, other: int)
    requires VlanInRange(vlan) && IdentifierInRange(identifier) && VlanInRange(other)
    ensures var vm := ParseCidr(GetIpAddWithSubnet(vlan, identifier));
            var net := ParseCidr(GetVlanNetworkIpWithSubnet(other));
            && vm.Cidr? && net.Cidr? && vm.prefix == net.prefix == 24
            && (InBlock(vm.address, net) <==> other == vlan)
            && 2 <= vm.address % 256 <= 254
            && vm.address != net.address && vm.address != net.address + 255
            && ParseCidr(GetVlanGatewayIp(other) + "/" + Itoa(24)) == Cidr(net.address + 1, 24)
            && vm.address != net.address + 1
  {
    BlockSizes();
    VmAddressReads(vlan, identifier);
    NetworkReads(other);
    GatewaysRead(other, 24);
    AddressQuotient(10, 0, vlan - FIRST_VLAN, identifier + 1);
    AddressQuotient(10, 0, other - FIRST_VLAN, 0);
  }

  /** Splitting a VM's address and reprinting it gives the same host under 10.1 as a /32, never the
      VPN gateway; the network form is the VLAN's own subnet, or its image under 10.1. */
  lemma InterfaceAddressKeepsHost(vlan: int, identifier: int)
    requires VlanInRange(vlan) && IdentifierInRange(identifier)
    ensures |Split(GetIpAddWithSubnet(vlan, identifier), '.')| == 4
    ensures |Split(GetInterfaceAddressWithSubnet(GetIpAddWithSubnet(vlan, identifier)), '.')| == 4
    ensures var vm, tunnel := ParseCidr(GetIpAddWithSubnet(vlan, identifier)),
                ParseCidr(GetInterfaceAddressWithSubnet(GetIpAddWithSubnet(vlan, identifier)));
            && vm.Cidr? && tunnel == Cidr(vm.address + Address(0, 1, 0, 0), 32)
            && ParseCidr(GetVpnGatewayIp(vlan) + "/" + Itoa(32)).Cidr?
            && tunnel.address != ParseCidr(GetVpnGatewayIp(vlan) + "/" + Itoa(32)).address
    ensures GetPeerAllowedIps(GetIpAddWithSubnet(vlan, identifier))[0] == GetVlanNetworkIpWithSubnet(vlan)
    ensures var net, tunnels := ParseCidr(GetVlanNetworkIpWithSubnet(vlan)),
                ParseCidr(GetPeerAllowedIps(GetIpAddWithSubnet(vlan, identifier))[1]);
            net.Cidr? && tunnels == Cidr(net.address + Address(0, 1, 0, 0), 24)
  {
    SmallNumbers();
    TakenApart(vlan, identifier);
    VmAddressReads(vlan, identifier);
    NetworkReads(vlan);
    GatewaysRead(vlan, 32);
    ParseDotted(10, 1, vlan - FIRST_VLAN, 0, 24);
    assert "0/" + Itoa(24) == "0" + "/" + Itoa(24);
  }
}
