/** How a WireGuard client reads the configuration file the user is shown: sections in brackets, one
    "key = value" on a line, lists separated by commas, the port behind the last colon. */
module WireguardReading {
  import opened Wrappers
  import opened Text
  import opened Addressing
  import opened WireguardText

  datatype Setting = Setting(section: string, key: string, value: string)

  /** The text cut at its first " = ". */
  function Cut(line: string): Option<(string, string)> {
    if " = " <= line then Some(("", line[3..]))
    else if line == "" then None
    else
      match Cut(line[1..])
      case None => None
      case Some((key, value)) => Some(([line[0]] + key, value))
  }

  function Heading(line: string): Option<string> {
    if |line| >= 2 && line[0] == '[' && line[|line| - 1] == ']' then Some(line[1..|line| - 1]) else None
  }

  function Settings(lines: seq<string>, section: string): seq<Setting> {
    if lines == [] then []
    else
      match Heading(lines[0])
      case Some(next) => Settings(lines[1..], next)
      case None =>
        match Cut(lines[0])
        case None => Settings(lines[1..], section)
        case Some((key, value)) => [Setting(section, key, value)] + Settings(lines[1..], section)
  }

  function LookUp(settings: seq<Setting>, section: string, key: string): Option<string> {
    if settings == [] then None
    else if settings[0].section == section && settings[0].key == key then Some(settings[0].value)
    else LookUp(settings[1..], section, key)
  }

  function Trimmed(s: string): string { if s != "" && s[0] == ' ' then Trimmed(s[1..]) else s }

  function Blocks(parts: seq<string>): seq<Cidr> {
    if parts == [] then [] else [ParseCidr(Trimmed(parts[0]))] + Blocks(parts[1..])
  }

  /** The text cut at its last colon. */
  function HostAndPort(s: string): Option<(string, string)> {
    if s == "" then None
    else if s[|s| - 1] == ':' then Some((s[..|s| - 1], ""))
    else
      match HostAndPort(s[..|s| - 1])
      case None => None
      case Some((host, port)) => Some((host, port + [s[|s| - 1]]))
  }

  datatype Tunnel = Tunnel(
    privateKey: string, address: Cidr, peerKey: string, allowed: seq<Cidr>, host: string, port: nat)

  /** What the client makes of the file; none if something is missing or the port is no number. */
  function ReadTunnel(text: string): Option<Tunnel> {
    var settings := Settings(Split(text, '\n'), "");
    var privateKey, address := LookUp(settings, "Interface", "PrivateKey"), LookUp(settings, "Interface", "Address");
    var peerKey, allowed := LookUp(settings, "Peer", "PublicKey"), LookUp(settings, "Peer", "AllowedIPs");
    var endpoint := LookUp(settings, "Peer", "Endpoint");
    if privateKey.None? || address.None? || peerKey.None? || allowed.None? || endpoint.None? then None
    else
      match HostAndPort(endpoint.value)
      case None => None
      case Some((host, port)) =>
        if !IsNumeral(port) then None
        else Some(Tunnel(privateKey.value, ParseCidr(address.value), peerKey.value, Blocks(Split(allowed.value, ',')),
                         host, Value(port)))
  }

  // ----- Lines

  lemma {:induction false} CutAtSign(name: string, value: string)
    requires ' ' !in name
    ensures Cut(name + (" = " + value)) == Some((name, value))
  {
    var line := name + (" = " + value);
    if name == "" {
      assert line == " = " + value && line[3..] == value;
    } else {
      assert line[0] == name[0] && line[0] != ' ';
      assert line[1..] == name[1..] + (" = " + value);
      CutAtSign(name[1..], value);
      assert [name[0]] + name[1..] == name;
    }
  }

  lemma SettingLine(name: string, value: string, lines: seq<string>, section: string)
    requires name != "" && ' ' !in name && name[0] != '['
    ensures Settings([name + (" = " + value)] + lines, section)
         == [Setting(section, name, value)] + Settings(lines, section)
  {
    CutAtSign(name, value);
    assert ([name + (" = " + value)] + lines)[1..] == lines;
  }

  lemma HeadingLine(next: string, lines: seq<string>, section: string)
    ensures Settings(["[" + next + "]"] + lines, section) == Settings(lines, next)
  {
    var line := "[" + next + "]";
    assert line[1..|line| - 1] == next;
    assert ([line] + lines)[1..] == lines;
  }

  lemma EmptyLine(lines: seq<string>, section: string)
    ensures Settings([""] + lines, section) == Settings(lines, section)
  {
    assert ([""] + lines)[1..] == lines;
  }

  lemma FirstLine(line: string, rest: string)
    requires '\n' !in line
    ensures Split(line + ("\n" + rest), '\n') == [line] + Split(rest, '\n')
  {
    SplitPrefix(line, '\n', rest);
    assert line + ("\n" + rest) == line + ['\n'] + rest;
  }

  // ----- The printed text, line by line

  function EndpointText(conf: WireguardConfig, endpoint: string): string { endpoint + ":" + Itoa(conf.peerPort) }

  function PeerLines(conf: WireguardConfig, endpoint: string): string {
    ("PublicKey" + (" = " + conf.peerPublicKey))
    + ("\n" + (("AllowedIPs" + (" = " + Join(conf.peerAllowedIps, ", ")))
               + ("\n" + ("Endpoint" + (" = " + EndpointText(conf, endpoint))))))
  }

  lemma AfterAddressInLines(conf: WireguardConfig, endpoint: string)
    ensures AfterAddress(conf, endpoint) == "\n" + ("" + ("\n" + ("[Peer]" + ("\n" + PeerLines(conf, endpoint)))))
  {
    var key, ips := conf.peerPublicKey, Join(conf.peerAllowedIps, ", ");
    var head := "\n\n[Peer]\nPublicKey = " + key;
    var last := "\n" + ("Endpoint" + (" = " + EndpointText(conf, endpoint)));
    var more := "\n" + (("AllowedIPs" + (" = " + ips)) + last);
    RegroupLast(head + "\nAllowedIPs = " + ips, endpoint, Itoa(conf.peerPort));
    RegroupMiddle(head, ips, last);
    RegroupFirst(key, more);
  }

  lemma RegroupLast(head: string, endpoint: string, port: string)
    ensures head + "\nEndpoint = " + endpoint + ":" + port
         == head + ("\n" + ("Endpoint" + (" = " + (endpoint + ":" + port))))
  {
  }

  lemma RegroupMiddle(head: string, ips: string, rest: string)
    ensures head + "\nAllowedIPs = " + ips + rest == head + ("\n" + (("AllowedIPs" + (" = " + ips)) + rest))
  {
  }

  lemma RegroupFirst(key: string, rest: string)
    ensures "\n\n[Peer]\nPublicKey = " + key + rest
         == "\n" + ("" + ("\n" + ("[Peer]" + ("\n" + (("PublicKey" + (" = " + key)) + rest)))))
  {
  }

  lemma HeadInLines(key: string, address: string, rest: string)
    ensures BeforeAddress(key) + "Address = " + address + ("\n" + rest)
         == "[Interface]" + ("\n" + (("PrivateKey" + (" = " + key))
            + ("\n" + (("Address" + (" = " + address)) + ("\n" + rest)))))
  {
  }

  predicate OneLine(s: string) { '\n' !in s }

  predicate OneLiners(conf: WireguardConfig, endpoint: string) {
    && OneLine(conf.privateKey) && OneLine(conf.interfaceIp) && OneLine(conf.peerPublicKey)
    && OneLine(Join(conf.peerAllowedIps, ", ")) && OneLine(endpoint)
  }

  lemma SettingIsOneLine(name: string, value: string)
    requires OneLine(name) && OneLine(value)
    ensures OneLine(name + (" = " + value))
  {
  }

  lemma EndpointIsOneLine(conf: WireguardConfig, endpoint: string)
    requires OneLine(endpoint)
    ensures OneLine(EndpointText(conf, endpoint))
  {
  }

  lemma PeerLinesRead(conf: WireguardConfig, endpoint: string)
    requires OneLiners(conf, endpoint)
    ensures Settings(Split(PeerLines(conf, endpoint), '\n'), "Peer")
         == [Setting("Peer", "PublicKey", conf.peerPublicKey)]
            + ([Setting("Peer", "AllowedIPs", Join(conf.peerAllowedIps, ", "))]
               + [Setting("Peer", "Endpoint", EndpointText(conf, endpoint))])
  {
    hide Split, Join, Settings, Itoa;
    var key, ips, end := conf.peerPublicKey, Join(conf.peerAllowedIps, ", "), EndpointText(conf, endpoint);
    EndpointIsOneLine(conf, endpoint);
    SettingIsOneLine("PublicKey", key);
    SettingIsOneLine("AllowedIPs", ips);
    SettingIsOneLine("Endpoint", end);
    var l1, l2, l3 := "PublicKey" + (" = " + key), "AllowedIPs" + (" = " + ips), "Endpoint" + (" = " + end);
    FirstLine(l1, l2 + ("\n" + l3));
    FirstLine(l2, l3);
    SplitOne(l3, '\n');
    SettingLine("PublicKey", key, [l2] + [l3], "Peer");
    SettingLine("AllowedIPs", ips, [l3], "Peer");
    LastSetting("Endpoint", end, "Peer");
  }

  lemma LastSetting(name: string, value: string, section: string)
    requires name != "" && ' ' !in name && name[0] != '['
    ensures Settings([name + (" = " + value)], section) == [Setting(section, name, value)]
  {
    SettingLine(name, value, [], section);
    assert [name + (" = " + value)] + [] == [name + (" = " + value)];
    assert Settings([], section) == [];
  }

  lemma HeadLinesRead(key: string, address: string, rest: string)
    requires OneLine(key) && OneLine(address)
    ensures Settings(Split(BeforeAddress(key) + "Address = " + address + ("\n" + rest), '\n'), "")
         == [Setting("Interface", "PrivateKey", key)]
            + ([Setting("Interface", "Address", address)] + Settings(Split(rest, '\n'), "Interface"))
  {
    hide Split, Settings, BeforeAddress;
    var l0, l1, l2 := "[Interface]", "PrivateKey" + (" = " + key), "Address" + (" = " + address);
    HeadInLines(key, address, rest);
    SettingIsOneLine("PrivateKey", key);
    SettingIsOneLine("Address", address);
    FirstLine(l0, l1 + ("\n" + (l2 + ("\n" + rest))));
    FirstLine(l1, l2 + ("\n" + rest));
    FirstLine(l2, rest);
    var rests := Split(rest, '\n');
    assert "[" + "Interface" + "]" == l0;
    HeadingLine("Interface", [l1] + ([l2] + rests), "");
    SettingLine("PrivateKey", key, [l2] + rests, "Interface");
    SettingLine("Address", address, rests, "Interface");
  }

  lemma GapRead(rest: string, section: string)
    ensures Settings(Split("" + ("\n" + ("[Peer]" + ("\n" + rest))), '\n'), section)
         == Settings(Split(rest, '\n'), "Peer")
  {
    hide Split, Settings;
    var rests := Split(rest, '\n');
    FirstLine("", "[Peer]" + ("\n" + rest));
    FirstLine("[Peer]", rest);
    EmptyLine(["[Peer]"] + rests, section);
    assert "[" + "Peer" + "]" == "[Peer]";
    HeadingLine("Peer", rests, section);
  }

  /** The printed text reads back as the five settings it was made of, each under its own key in its own
      section. */
  lemma PrintedConfigReads(conf: WireguardConfig, endpoint: string)
    requires OneLiners(conf, endpoint)
    ensures Settings(Split(GetWireguardConfig(conf, endpoint), '\n'), "")
         == [Setting("Interface", "PrivateKey", conf.privateKey)]
            + ([Setting("Interface", "Address", conf.interfaceIp)]
               + ([Setting("Peer", "PublicKey", conf.peerPublicKey)]
                  + ([Setting("Peer", "AllowedIPs", Join(conf.peerAllowedIps, ", "))]
                     + [Setting("Peer", "Endpoint", EndpointText(conf, endpoint))])))
  {
    hide Split, Settings, BeforeAddress, AfterAddress, PeerLines, Join;
    AfterAddressInLines(conf, endpoint);
    HeadLinesRead(conf.privateKey, conf.interfaceIp, "" + ("\n" + ("[Peer]" + ("\n" + PeerLines(conf, endpoint)))));
    GapRead(PeerLines(conf, endpoint), "Interface");
    PeerLinesRead(conf, endpoint);
  }

  // ----- The tunnel

  lemma LookUpFirst(x: Setting, rest: seq<Setting>, section: string, key: string)
    ensures LookUp([x] + rest, section, key)
         == if x.section == section && x.key == key then Some(x.value) else LookUp(rest, section, key)
  {
    assert ([x] + rest)[1..] == rest;
  }

  lemma InterfaceLookUps(key: string, address: string, rest: seq<Setting>)
    ensures var s := [Setting("Interface", "PrivateKey", key)] + ([Setting("Interface", "Address", address)] + rest);
            && LookUp(s, "Interface", "PrivateKey") == Some(key)
            && LookUp(s, "Interface", "Address") == Some(address)
            && forall k :: LookUp(s, "Peer", k) == LookUp(rest, "Peer", k)
  {
    hide LookUp;
    var first, more := Setting("Interface", "PrivateKey", key), [Setting("Interface", "Address", address)] + rest;
    assert "Interface"[0] != "Peer"[0] && "PrivateKey"[0] != "Address"[0];
    LookUpFirst(first, more, "Interface", "PrivateKey");
    LookUpFirst(first, more, "Interface", "Address");
    LookUpFirst(Setting("Interface", "Address", address), rest, "Interface", "Address");
    forall k ensures LookUp([first] + more, "Peer", k) == LookUp(rest, "Peer", k) {
      LookUpFirst(first, more, "Peer", k);
      LookUpFirst(Setting("Interface", "Address", address), rest, "Peer", k);
    }
  }

  lemma PeerLookUps(peerKey: string, ips: string, end: string)
    ensures var s := [Setting("Peer", "PublicKey", peerKey)]
                     + ([Setting("Peer", "AllowedIPs", ips)] + [Setting("Peer", "Endpoint", end)]);
            && LookUp(s, "Peer", "PublicKey") == Some(peerKey)
            && LookUp(s, "Peer", "AllowedIPs") == Some(ips)
            && LookUp(s, "Peer", "Endpoint") == Some(end)
  {
    hide LookUp;
    var one, two, three := Setting("Peer", "PublicKey", peerKey), Setting("Peer", "AllowedIPs", ips),
        Setting("Peer", "Endpoint", end);
    assert "PublicKey"[0] != "AllowedIPs"[0] && "PublicKey"[0] != "Endpoint"[0] && "AllowedIPs"[0] != "Endpoint"[0];
    LookUpFirst(one, [two] + [three], "Peer", "PublicKey");
    LookUpFirst(one, [two] + [three], "Peer", "AllowedIPs");
    LookUpFirst(two, [three], "Peer", "AllowedIPs");
    LookUpFirst(one, [two] + [three], "Peer", "Endpoint");
    LookUpFirst(two, [three], "Peer", "Endpoint");
    LookUpFirst(three, [], "Peer", "Endpoint");
    assert [three] + [] == [three];
  }

  lemma {:induction false} PortBehindColon(host: string, port: string)
    requires ':' !in port
    ensures HostAndPort(host + ":" + port) == Some((host, port))
  {
    var s := host + ":" + port;
    if port == "" {
      assert s[..|s| - 1] == host;
    } else {
      var shorter := port[..|port| - 1];
      assert s[|s| - 1] == port[|port| - 1] && port[|port| - 1] != ':';
      assert s[..|s| - 1] == host + ":" + shorter;
      PortBehindColon(host, shorter);
      assert shorter + [port[|port| - 1]] == port;
    }
  }

  lemma TwoBlocksRead(a: string, b: string)
    requires a != "" && a[0] != ' ' && ',' !in a && b != "" && b[0] != ' ' && ',' !in b
    ensures Blocks(Split(Join([a, b], ", "), ',')) == [ParseCidr(a), ParseCidr(b)]
  {
    hide ParseCidr;
    JoinTwo(a, b);
    assert a + ", " + b == a + [','] + (" " + b);
    SplitPrefix(a, ',', " " + b);
    SplitOne(" " + b, ',');
    assert (" " + b)[1..] == b && Trimmed(b) == b && Trimmed(" " + b) == Trimmed(b);
    assert Trimmed(a) == a;
    assert [a, " " + b][1..] == [" " + b] && [" " + b][1..] == [];
    assert Blocks([" " + b]) == [ParseCidr(b)];
  }

  /** The tunnel a printed configuration describes. */
  lemma PrintedConfigDescribes(conf: WireguardConfig, endpoint: string, a: string, b: string)
    requires OneLiners(conf, endpoint) && conf.peerPort >= 0 && conf.peerAllowedIps == [a, b]
    requires a != "" && a[0] != ' ' && ',' !in a && b != "" && b[0] != ' ' && ',' !in b
    ensures ReadTunnel(GetWireguardConfig(conf, endpoint))
         == Some(Tunnel(conf.privateKey, ParseCidr(conf.interfaceIp), conf.peerPublicKey, [ParseCidr(a), ParseCidr(b)],
                        endpoint, conf.peerPort))
  {
    hide Split, Settings, LookUp, GetWireguardConfig, ParseCidr, Join, HostAndPort;
    var port := Itoa(conf.peerPort);
    PrintedConfigReads(conf, endpoint);
    InterfaceLookUps(conf.privateKey, conf.interfaceIp,
                     [Setting("Peer", "PublicKey", conf.peerPublicKey)]
                     + ([Setting("Peer", "AllowedIPs", Join(conf.peerAllowedIps, ", "))]
                        + [Setting("Peer", "Endpoint", EndpointText(conf, endpoint))]));
    PeerLookUps(conf.peerPublicKey, Join(conf.peerAllowedIps, ", "), EndpointText(conf, endpoint));
    TwoBlocksRead(a, b);
    assert IsNumeral(port) && ':' !in port;
    PortBehindColon(endpoint, port);
    ValueOfDecimal(conf.peerPort);
  }

  lemma AddressIsOneLine(n: int, i: int)
    ensures OneLine(TunnelAddress(n, i)) && OneLine(GetVlanNetworkIpWithSubnet(n)) && OneLine(TunnelNetwork(n))
    ensures ',' !in GetVlanNetworkIpWithSubnet(n) && ',' !in TunnelNetwork(n)
  {
    ConfigIsPlain(n, i);
  }

  lemma TunnelNetworkReads(n: int)
    requires VlanInRange(n)
    ensures ParseCidr(TunnelNetwork(n)) == Cidr(Address(10, 1, n - 100, 0), 24)
  {
    SmallNumbers();
    ParseDotted(10, 1, n - FIRST_VLAN, 0, 24);
    assert "0/" + Itoa(24) == "0" + "/" + Itoa(24);
  }

  /** What the user is shown describes the VM's own tunnel: its keys, its address, the two networks of its
      VLAN and the VLAN's port. */
  lemma ShownConfigDescribesTheVm(n: int, i: int, privateKey: string, peerKey: string, endpoint: string)
    requires VlanInRange(n) && IdentifierInRange(i)
    requires IsBase64(privateKey) && IsBase64(peerKey) && AllPlain(endpoint)
    ensures ReadTunnel(FormatConfig(Encode(GetWireguardConfig(ConfigFor(n, i, privateKey, peerKey), endpoint))))
         == Some(Tunnel(privateKey, Cidr(Address(10, 1, n - 100, i + 1), 32), peerKey,
                        [Cidr(Address(10, 0, n - 100, 0), 24), Cidr(Address(10, 1, n - 100, 0), 24)],
                        endpoint, 20000 + n))
  {
    hide ReadTunnel, GetWireguardConfig, FormatConfig, Encode, ParseCidr, Address, Itoa;
    var conf := ConfigFor(n, i, privateKey, peerKey);
    UserSeesTheVmsAddress(n, i, privateKey, peerKey, endpoint);
    TakenApart(n, i);
    AddressIsOneLine(n, i);
    OneLinersOf(conf, endpoint, GetVlanNetworkIpWithSubnet(n), TunnelNetwork(n));
    VmAddressReads(n, i);
    NetworkReads(n);
    TunnelNetworkReads(n);
    PrintedConfigDescribes(conf, endpoint, GetVlanNetworkIpWithSubnet(n), TunnelNetwork(n));
  }

  lemma OneLinersOf(conf: WireguardConfig, endpoint: string, a: string, b: string)
    requires IsBase64(conf.privateKey) && IsBase64(conf.peerPublicKey) && AllPlain(endpoint)
    requires OneLine(conf.interfaceIp)
    requires conf.peerAllowedIps == [a, b] && OneLine(a) && OneLine(b)
    ensures OneLiners(conf, endpoint)
  {
    JoinTwo(a, b);
  }
}
