/** The WireGuard configuration on its way to the user: printed by the web server's back end,
    encoded as a JSON string (section 7 of RFC 8259, with the extra escapes of Go's encoder),
    decoded by the front end's text replacements and read back by its regular expression. */
module WireguardText {
  import opened Wrappers
  import opened Text
  import opened Addressing

  datatype WireguardConfig = WireguardConfig(
    privateKey: string,
    interfaceIp: string,
    peerPublicKey: string,
    peerAllowedIps: seq<string>,
    peerPort: int)

  // ----- The printer

  function BeforeAddress(privateKey: string): string {
    "[Interface]\nPrivateKey = " + privateKey + "\n"
  }

  function AfterAddress(conf: WireguardConfig, endpoint: string): string {
    "\n\n[Peer]\nPublicKey = " + conf.peerPublicKey + "\nAllowedIPs = " + Join(conf.peerAllowedIps, ", ")
    + "\nEndpoint = " + endpoint + ":" + Itoa(conf.peerPort)
  }

  function GetWireguardConfig(conf: WireguardConfig, endpoint: string): string {
    BeforeAddress(conf.privateKey) + "Address = " + conf.interfaceIp + AfterAddress(conf, endpoint)
  }

  // ----- json.NewEncoder(w).Encode of a string

  function HexDigit(d: nat): (h: char)
    requires d < 16
    ensures h != '\\'
  {
    "0123456789abcdef"[d]
  }

  function UnicodeEscape(c: char): string
    requires c as int < 0x10000
  {
    var n := c as int;
    ['\\', 'u', HexDigit(n / 4096), HexDigit(n / 256 % 16), HexDigit(n / 16 % 16), HexDigit(n % 16)]
  }

  /** Characters the encoder copies as they are. */
  predicate Plain(c: char) {
    && c as int >= 0x20 && c != '\"' && c != '\\'
    && c != '<' && c != '>' && c != '&'
    && c as int != 0x2028 && c as int != 0x2029
  }

  function Escape(c: char): (e: string)
    ensures e != ""
  {
    if Plain(c) then [c]
    else if c == '\"' then "\\\""
    else if c == '\\' then "\\\\"
    else if c == '\n' then "\\n"
    else if c == '\r' then "\\r"
    else if c == '\t' then "\\t"
    else if c as int == 8 then "\\b"
    else if c as int == 12 then "\\f"
    else UnicodeEscape(c)
  }

  function Escaped(s: string): string {
    if s == "" then "" else Escape(s[0]) + Escaped(s[1..])
  }

  /** The response body: the quoted text and the newline the encoder appends. */
  function Encode(s: string): string { "\"" + Escaped(s) + "\"" + "\n" }

  // ----- formatConfig

  /** `slice(1, -1)`. */
  function Inner(s: string): string {
    if |s| < 2 then "" else s[1..|s| - 1]
  }

  /** `replace(/\\n/g, '\n')`: leftmost, non-overlapping occurrences of backslash and n. */
  function ReplaceNewlines(s: string): string {
    if |s| >= 2 && s[0] == '\\' && s[1] == 'n' then "\n" + ReplaceNewlines(s[2..])
    else if s == "" then ""
    else [s[0]] + ReplaceNewlines(s[1..])
  }

  /** `replace(/"$/, '')`. */
  function DropTrailingQuote(s: string): string {
    if s != "" && s[|s| - 1] == '\"' then s[..|s| - 1] else s
  }

  function FormatConfig(rawConfig: string): string {
    DropTrailingQuote(ReplaceNewlines(Inner(rawConfig)))
  }

  // ----- formatConfig undoes the encoding exactly on newlines and plain characters

  predicate Survives(c: char) { c == '\n' || Plain(c) }

  lemma EscapeShapes(c: char)
    ensures c == '\n' ==> Escape(c) == "\\n"
    ensures Plain(c) ==> Escape(c) == [c] && c != '\\'
    ensures !Survives(c) ==> |Escape(c)| >= 2 && Escape(c)[0] == '\\' && Escape(c)[1] != 'n'
    ensures c == '\\' ==> Escape(c) == "\\\\"
  {
  }

  /** Replacement never shortens an encoded text, not even behind a stray backslash. */
  lemma {:induction false} ReplacementKeepsLength(s: string)
    ensures |ReplaceNewlines(Escaped(s))| >= |s|
    ensures |ReplaceNewlines("\\" + Escaped(s))| >= |s|
  {
    if s != "" {
      var c, rest := s[0], s[1..];
      EscapeShapes(c);
      ReplacementKeepsLength(rest);
      ReplaceEscape(c, Escaped(rest));
      StrayBackslash(Escaped(s));
      if c == 'n' {
        assert ("\\" + Escaped(s))[2..] == Escaped(rest);
      }
    } else {
      StrayBackslash(Escaped(s));
    }
  }

  lemma StrayBackslash(t: string)
    ensures ReplaceNewlines("\\" + t)
         == if t != "" && t[0] == 'n' then "\n" + ReplaceNewlines(t[1..]) else "\\" + ReplaceNewlines(t)
  {
    assert ("\\" + t)[1..] == t;
    if t != "" {
      assert ("\\" + t)[2..] == t[1..];
    }
  }

  lemma {:induction false} PlainRun(a: string, t: string)
    requires '\\' !in a
    ensures ReplaceNewlines(a + t) == a + ReplaceNewlines(t)
  {
    if a == "" {
      assert a + t == t;
    } else {
      assert (a + t)[0] == a[0] && (a + t)[1..] == a[1..] + t;
      PlainRun(a[1..], t);
      assert [a[0]] + (a[1..] + ReplaceNewlines(t)) == a + ReplaceNewlines(t);
    }
  }

  /** What the replacement makes of one encoded character followed by anything. */
  lemma ReplaceEscape(c: char, t: string)
    ensures c == '\n' ==> ReplaceNewlines(Escape(c) + t) == "\n" + ReplaceNewlines(t)
    ensures Plain(c) ==> ReplaceNewlines(Escape(c) + t) == [c] + ReplaceNewlines(t)
    ensures !Survives(c) ==> ReplaceNewlines(Escape(c) + t) != "" && ReplaceNewlines(Escape(c) + t)[0] == '\\'
    ensures c == '\\' ==> ReplaceNewlines(Escape(c) + t) == "\\" + ReplaceNewlines("\\" + t)
    ensures !Survives(c) && c != '\\' ==> |ReplaceNewlines(Escape(c) + t)| >= 1 + |ReplaceNewlines(t)|
    ensures |ReplaceNewlines(Escape(c) + t)| >= 1 + |ReplaceNewlines(t)| || c == '\\'
  {
    EscapeShapes(c);
    if c == '\n' {
      assert (Escape(c) + t)[2..] == t;
    } else if Plain(c) {
      assert (Escape(c) + t)[1..] == t;
    } else {
      ReplaceStray(Escape(c), t);
      if c == '\\' {
        assert Escape(c)[1..] == "\\";
      } else {
        EscapeTailIsPlain(c);
        PlainRun(Escape(c)[1..], t);
      }
    }
  }

  lemma ReplaceStray(e: string, t: string)
    requires |e| >= 2 && e[0] == '\\' && e[1] != 'n'
    ensures ReplaceNewlines(e + t) == "\\" + ReplaceNewlines(e[1..] + t)
  {
    assert (e + t)[0] == '\\' && (e + t)[1] == e[1] && (e + t)[1..] == e[1..] + t;
  }

  lemma EscapeTailIsPlain(c: char)
    requires !Survives(c) && c != '\\'
    ensures |Escape(c)| >= 2 && '\\' !in Escape(c)[1..]
  {
    var e := Escape(c);
    if c as int < 0x10000 && e == UnicodeEscape(c) {
      UnicodeTailIsPlain(c);
    } else {
      assert |e| == 2 && e[1..] == [e[1]] && e[1] != '\\';
    }
  }

  lemma UnicodeTailIsPlain(c: char)
    requires c as int < 0x10000
    ensures |UnicodeEscape(c)| >= 2 && '\\' !in UnicodeEscape(c)[1..]
  {
  }

  lemma {:induction false} ReplacementUndoesEscaping(s: string)
    ensures ReplaceNewlines(Escaped(s)) == s <==> forall c | c in s :: Survives(c)
  {
    if s != "" {
      var c, rest := s[0], s[1..];
      var out := ReplaceNewlines(Escaped(s));
      EscapeShapes(c);
      ReplaceEscape(c, Escaped(rest));
      ReplacementUndoesEscaping(rest);
      assert s == [c] + rest;
      if Survives(c) {
        assert out == [c] + ReplaceNewlines(Escaped(rest));
        assert (forall k | k in s :: Survives(k)) <==> (forall k | k in rest :: Survives(k)) by {
          assert forall k :: k in s <==> k == c || k in rest;
        }
        assert out == s <==> ReplaceNewlines(Escaped(rest)) == rest by {
          assert out[1..] == ReplaceNewlines(Escaped(rest));
        }
      } else {
        assert c in s;
        if c == '\\' {
          BackslashIsLost(rest);
          assert out[1..] == ReplaceNewlines("\\" + Escaped(rest)) && s[1..] == rest;
        }
        assert out != s;
      }
    }
  }

  lemma BackslashIsLost(rest: string)
    ensures ReplaceNewlines("\\" + Escaped(rest)) != rest
  {
    StrayBackslash(Escaped(rest));
    if rest != "" {
      EscapeShapes(rest[0]);
      ReplacementKeepsLength(rest);
    }
  }

  lemma {:induction false} ReplaceBeforeQuote(s: string)
    ensures ReplaceNewlines(s + "\"") == ReplaceNewlines(s) + "\""
  {
    var q := s + "\"";
    if |s| >= 2 && s[0] == '\\' && s[1] == 'n' {
      assert q[2..] == s[2..] + "\"";
      ReplaceBeforeQuote(s[2..]);
    } else if s == "" {
      assert q[1..] == "";
    } else {
      assert q[1..] == s[1..] + "\"";
      ReplaceBeforeQuote(s[1..]);
    }
  }

  /** The front end shows the text the back end encoded exactly when that text has no character
      that needs an escape other than the newline's. */
  lemma FormatConfigInvertsEncode(text: string)
    ensures FormatConfig(Encode(text)) == text <==> forall c | c in text :: Survives(c)
  {
    var e := Escaped(text);
    assert Inner(Encode(text)) == e + "\"";
    ReplaceBeforeQuote(e);
    assert DropTrailingQuote(ReplaceNewlines(e) + "\"") == ReplaceNewlines(e);
    ReplacementUndoesEscaping(text);
  }

  // ----- getSSHInfo

  /** The length of the run of digits a text starts with: what `\d+` takes. */
  function DigitRun(s: string): (n: nat)
    ensures n <= |s| && AllDigits(s[..n])
    ensures n < |s| ==> !IsDigit(s[n])
  {
    if s == "" || !IsDigit(s[0]) then 0
    else
      var n := DigitRun(s[1..]);
      assert s[..n + 1] == [s[0]] + s[1..][..n];
      n + 1
  }

  /** The length of the capture group when `(\d+\.\d+\.\d+\.\d+)\/\d+`, with `more` numerals after
      the first, matches at the start of `s`. Each `\d+` takes its whole run, because what must
      follow a run is never a digit. */
  function MatchNumerals(s: string, more: nat): (m: Option<nat>)
    ensures m.Some? ==> m.value < |s|
  {
    var n := DigitRun(s);
    if n == 0 then None
    else if more == 0 then
      if n + 1 < |s| && s[n] == '/' && IsDigit(s[n + 1]) then Some(n) else None
    else if n < |s| && s[n] == '.' then
      match MatchNumerals(s[n + 1..], more - 1)
      case Some(m) => Some(n + 1 + m)
      case None => None
    else None
  }

  const LABEL := "Address = "

  function MatchHere(s: string): Option<string> {
    if LABEL <= s then
      var rest := s[|LABEL|..];
      match MatchNumerals(rest, 3)
      case Some(m) => Some(rest[..m])
      case None => None
    else None
  }

  /** `match` without the g flag: the leftmost match. */
  function FirstMatch(s: string): Option<string> {
    if MatchHere(s).Some? || s == "" then MatchHere(s) else FirstMatch(s[1..])
  }

  function GetSSHInfo(config: string): Option<string> {
    match FirstMatch(config)
    case None => None
    case Some(ip) =>
      var parts := Split(ip, '.');
      Some(Join(if |parts| >= 2 then parts[1 := "0"] else parts + ["0"], "."))
  }

  /** The regular expression's own reading: some split of `s` into numerals and separators, with
      `ip` captured. */
  ghost predicate Captures(s: string, more: nat, ip: string)
    decreases more
  {
    if more == 0 then
      IsNumeral(ip) && exists rest: string :: Ends(s, ip, rest)
    else
      exists a: string, ip': string, s': string :: Begins(s, a, s') && Begins(ip, a, ip') && Captures(s', more - 1, ip')
  }

  predicate Ends(s: string, ip: string, rest: string) { rest != "" && IsDigit(rest[0]) && s == ip + ("/" + rest) }

  predicate Begins(s: string, a: string, s': string) { IsNumeral(a) && s == a + ("." + s') }

  lemma {:induction false} RunIsWhole(a: string, t: string)
    requires AllDigits(a) && t != "" && !IsDigit(t[0])
    ensures DigitRun(a + t) == |a|
  {
    if a == "" {
      assert a + t == t;
    } else {
      assert (a + t)[0] == a[0] && a[0] in a;
      assert (a + t)[1..] == a[1..] + t;
      RunIsWhole(a[1..], t);
    }
  }

  lemma LastNumeral(s: string, ip: string, rest: string)
    requires IsNumeral(ip) && Ends(s, ip, rest)
    ensures MatchNumerals(s, 0) == Some(|ip|) && ip <= s
  {
    RunIsWhole(ip, "/" + rest);
  }

  lemma NextNumeral(s: string, a: string, s': string, more: nat)
    requires Begins(s, a, s') && MatchNumerals(s', more).Some?
    ensures MatchNumerals(s, more + 1) == Some(|a| + 1 + MatchNumerals(s', more).value)
  {
    RunIsWhole(a, "." + s');
    assert s[|a|] == '.' && s[|a| + 1..] == s';
    MatchStep(s, |a|, more);
  }

  lemma MatchStep(s: string, n: nat, more: nat)
    requires 0 < n < |s| && DigitRun(s) == n && s[n] == '.' && MatchNumerals(s[n + 1..], more).Some?
    ensures MatchNumerals(s, more + 1) == Some(n + 1 + MatchNumerals(s[n + 1..], more).value)
  {
  }

  lemma PrefixOfNext(s: string, ip: string, a: string, s': string, ip': string)
    requires Begins(s, a, s') && Begins(ip, a, ip') && ip' <= s'
    ensures ip <= s && |ip| == |a| + 1 + |ip'|
  {
    assert s' == ip' + s'[|ip'|..];
    assert s == ip + s'[|ip'|..];
  }

  lemma MatcherNext(s: string, more: nat, ip: string, a: string, s': string, ip': string)
    requires more > 0 && Begins(s, a, s') && Begins(ip, a, ip') && ip' <= s'
    requires MatchNumerals(s', more - 1) == Some(|ip'|)
    ensures MatchNumerals(s, more) == Some(|ip|) && ip <= s
  {
    NextNumeral(s, a, s', more - 1);
    PrefixOfNext(s, ip, a, s', ip');
  }

  lemma CapturesEnd(s: string, ip: string) returns (rest: string)
    requires Captures(s, 0, ip)
    ensures IsNumeral(ip) && Ends(s, ip, rest)
  {
    rest :| Ends(s, ip, rest);
  }

  lemma CapturesSplit(s: string, more: nat, ip: string) returns (a: string, s': string, ip': string)
    requires more > 0 && Captures(s, more, ip)
    ensures Begins(s, a, s') && Begins(ip, a, ip') && Captures(s', more - 1, ip')
  {
    a, ip', s' :| Begins(s, a, s') && Begins(ip, a, ip') && Captures(s', more - 1, ip');
  }

  /** The greedy matcher finds the capture whenever the regular expression has one, and it is the
      only one. */
  lemma {:induction false} MatcherIsComplete(s: string, more: nat, ip: string)
    requires Captures(s, more, ip)
    ensures MatchNumerals(s, more) == Some(|ip|) && ip <= s
    decreases more
  {
    if more == 0 {
      var rest := CapturesEnd(s, ip);
      LastNumeral(s, ip, rest);
    } else {
      var a, s', ip' := CapturesSplit(s, more, ip);
      MatcherIsComplete(s', more - 1, ip');
      MatcherNext(s, more, ip, a, s', ip');
    }
  }

  lemma CapturesNext(s: string, a: string, s': string, more: nat, ip: string, ip': string)
    requires more > 0 && Begins(s, a, s') && Begins(ip, a, ip') && Captures(s', more - 1, ip')
    ensures Captures(s, more, ip)
  {
  }

  lemma SoundEnd(s: string, ip: string)
    requires MatchNumerals(s, 0) == Some(|ip|) && ip <= s
    ensures Captures(s, 0, ip)
  {
    var n := DigitRun(s);
    assert ip == s[..n];
    assert s == ip + ("/" + s[n + 1..]);
    assert Ends(s, ip, s[n + 1..]);
  }

  lemma FirstNumeral(s: string, more: nat, ip: string) returns (a: string, s': string, ip': string)
    requires more > 0 && MatchNumerals(s, more) == Some(|ip|) && ip <= s
    ensures Begins(s, a, s') && Begins(ip, a, ip') && ip' <= s'
    ensures MatchNumerals(s', more - 1) == Some(|ip'|)
  {
    var n := FirstRun(s, more);
    a, s', ip' := s[..n], s[n + 1..], ip[n + 1..];
    CutBoth(s, ip, n);
  }

  lemma CutBoth(s: string, ip: string, n: nat)
    requires ip <= s && n < |ip| && s[n] == '.' && IsNumeral(s[..n])
    ensures Begins(s, s[..n], s[n + 1..]) && Begins(ip, s[..n], ip[n + 1..]) && ip[n + 1..] <= s[n + 1..]
  {
    CutAt(s, n, '.');
    CutPrefix(s, ip, n);
  }

  lemma FirstRun(s: string, more: nat) returns (n: nat)
    requires more > 0 && MatchNumerals(s, more).Some?
    ensures n + 1 < |s| && IsNumeral(s[..n]) && s[n] == '.' && MatchNumerals(s[n + 1..], more - 1).Some?
    ensures MatchNumerals(s, more).value == n + 1 + MatchNumerals(s[n + 1..], more - 1).value
  {
    n := DigitRun(s);
  }

  lemma CutPrefix(s: string, ip: string, n: nat)
    requires ip <= s && n < |ip| && s[n] == '.'
    ensures ip == s[..n] + ("." + ip[n + 1..]) && ip[n + 1..] <= s[n + 1..]
  {
    assert ip[n] == s[n];
    CutAt(ip, n, '.');
    assert ip[..n] == s[..n];
  }

  lemma CutAt(s: string, n: nat, c: char)
    requires n < |s| && s[n] == c
    ensures s == s[..n] + ([c] + s[n + 1..])
  {
  }

  /** Everything the matcher captures is a capture of the regular expression. */
  lemma {:induction false} MatcherIsSound(s: string, more: nat, ip: string)
    requires MatchNumerals(s, more) == Some(|ip|) && ip <= s
    ensures Captures(s, more, ip)
    decreases more
  {
    if more == 0 {
      SoundEnd(s, ip);
    } else {
      var a, s', ip' := FirstNumeral(s, more, ip);
      MatcherIsSound(s', more - 1, ip');
      CapturesNext(s, a, s', more, ip, ip');
    }
  }

  lemma {:induction false} NothingEarlier(before: string, rest: string)
    requires MatchHere(rest).Some?
    requires forall p | 0 <= p < |before| :: !(LABEL <= (before + rest)[p..])
    ensures FirstMatch(before + rest) == MatchHere(rest)
  {
    var s := before + rest;
    if before == "" {
      assert s == rest;
    } else {
      assert !(LABEL <= s[0..]) && s[0..] == s;
      assert s[1..] == before[1..] + rest;
      forall p | 0 <= p < |before[1..]| ensures !(LABEL <= s[1..][p..]) {
        assert s[1..][p..] == s[p + 1..];
      }
      NothingEarlier(before[1..], rest);
    }
  }

  // ----- End to end

  predicate IsBase64Char(c: char) {
    'A' <= c <= 'Z' || 'a' <= c <= 'z' || IsDigit(c) || c == '+' || c == '/' || c == '='
  }

  predicate IsBase64(s: string) { forall c | c in s :: IsBase64Char(c) }

  predicate AllPlain(s: string) { forall c | c in s :: Plain(c) }

  lemma LabelNeedsItsLetters(s: string, p: nat)
    requires p + 7 < |s| && (s[p] != 'A' || s[p + 7] != ' ')
    ensures !(LABEL <= s[p..])
  {
    assert s[p..][0] == s[p] && s[p..][7] == s[p + 7];
    assert LABEL[0] == 'A' && LABEL[7] == ' ';
  }

  /** No occurrence of the label starts in the lines above the address: in them, only
      "PrivateKey = " holds a space. */
  lemma LabelOnlyOnce(key: string, rest: string)
    requires IsBase64(key)
    ensures forall p | 0 <= p < |BeforeAddress(key)| :: !(LABEL <= (BeforeAddress(key) + (LABEL + rest))[p..])
  {
    var head := "[Interface]\nPrivateKey = ";
    var before := BeforeAddress(key);
    var s := before + (LABEL + rest);
    assert |head| == 25 && |LABEL| == 10;
    forall p | 0 <= p < |before| ensures !(LABEL <= s[p..]) {
      assert s[p] != 'A' || s[p + 7] != ' ' by {
        if p + 7 < |head| {
          assert s[p] == head[p] && s[p + 7] == head[p + 7];
        } else if p + 7 < |head| + |key| {
          assert s[p + 7] == key[p + 7 - |head|] && key[p + 7 - |head|] in key;
        } else if p + 7 < |before| {
          assert s[p + 7] == '\n';
        } else {
          assert s[p + 7] == LABEL[p + 7 - |before|];
        }
      }
      LabelNeedsItsLetters(s, p);
    }
  }

  lemma JoinTwo(a: string, b: string)
    ensures Join([a, b], ", ") == a + ", " + b
  {
    assert [a, b][1..] == [b];
  }

  lemma DottedIsPlain(a: string, b: string, c: string, d: string)
    requires AllPlain(a) && AllPlain(b) && AllPlain(c) && AllPlain(d)
    ensures AllPlain(Dotted(a, b, c, d))
  {
    assert AllPlain(".");
  }

  /** The configuration the service prints for a VM. */
  function ConfigFor(vlan: int, identifier: int, privateKey: string, peerKey: string): WireguardConfig {
    TakenApart(vlan, identifier);
    var address := GetIpAddWithSubnet(vlan, identifier);
    WireguardConfig(privateKey, GetInterfaceAddressWithSubnet(address), peerKey, GetPeerAllowedIps(address),
                    GetVlanRouterPort(vlan))
  }

  predicate AllSurvive(s: string) { forall c | c in s :: Survives(c) }

  lemma ConcatSurvives(a: string, b: string)
    requires AllSurvive(a) && AllSurvive(b)
    ensures AllSurvive(a + b)
  {
  }

  lemma PrintedConfigSurvives(conf: WireguardConfig, endpoint: string)
    requires IsBase64(conf.privateKey) && IsBase64(conf.peerPublicKey) && AllPlain(endpoint)
    requires AllPlain(conf.interfaceIp)
    requires |conf.peerAllowedIps| == 2 && AllPlain(conf.peerAllowedIps[0]) && AllPlain(conf.peerAllowedIps[1])
    ensures AllSurvive(GetWireguardConfig(conf, endpoint))
  {
    HeadSurvives(conf.privateKey);
    PeerSectionSurvives(conf, endpoint);
    PlainSurvives(conf.interfaceIp);
    ConcatSurvives(BeforeAddress(conf.privateKey) + "Address = ", conf.interfaceIp);
    ConcatSurvives(BeforeAddress(conf.privateKey) + "Address = " + conf.interfaceIp, AfterAddress(conf, endpoint));
  }

  lemma PlainSurvives(s: string)
    requires AllPlain(s)
    ensures AllSurvive(s)
  {
  }

  lemma HeadSurvives(key: string)
    requires IsBase64(key)
    ensures AllSurvive(BeforeAddress(key) + "Address = ")
  {
    ConcatSurvives("[Interface]\nPrivateKey = ", key);
    ConcatSurvives("[Interface]\nPrivateKey = " + key, "\n");
    ConcatSurvives(BeforeAddress(key), "Address = ");
  }

  lemma PeerSectionSurvives(conf: WireguardConfig, endpoint: string)
    requires IsBase64(conf.peerPublicKey) && AllPlain(endpoint)
    requires |conf.peerAllowedIps| == 2 && AllPlain(conf.peerAllowedIps[0]) && AllPlain(conf.peerAllowedIps[1])
    ensures AllSurvive(AfterAddress(conf, endpoint))
  {
    var ips := Join(conf.peerAllowedIps, ", ");
    assert conf.peerAllowedIps == [conf.peerAllowedIps[0], conf.peerAllowedIps[1]];
    JoinTwo(conf.peerAllowedIps[0], conf.peerAllowedIps[1]);
    ConcatSurvives(conf.peerAllowedIps[0], ", ");
    ConcatSurvives(conf.peerAllowedIps[0] + ", ", conf.peerAllowedIps[1]);
    var a := "\n\n[Peer]\nPublicKey = ";
    ConcatSurvives(a, conf.peerPublicKey);
    var b := a + conf.peerPublicKey;
    ConcatSurvives(b, "\nAllowedIPs = ");
    ConcatSurvives(b + "\nAllowedIPs = ", ips);
    var c := b + "\nAllowedIPs = " + ips;
    ConcatSurvives(c, "\nEndpoint = ");
    ConcatSurvives(c + "\nEndpoint = ", endpoint);
    ConcatSurvives(c + "\nEndpoint = " + endpoint, ":");
    ConcatSurvives(c + "\nEndpoint = " + endpoint + ":", Itoa(conf.peerPort));
  }

  lemma LastCaptured(y: string, tail: string)
    requires IsNumeral(y) && tail != "" && IsDigit(tail[0])
    ensures Captures(y + ("/" + tail), 0, y)
  {
    assert Ends(y + ("/" + tail), y, tail);
  }

  lemma NextCaptured(a: string, s: string, more: nat, ip: string)
    requires IsNumeral(a) && Captures(s, more, ip)
    ensures Captures(a + ("." + s), more + 1, a + ("." + ip))
  {
    assert Begins(a + ("." + s), a, s) && Begins(a + ("." + ip), a, ip);
  }

  lemma FourCaptured(a: string, b: string, x: string, y: string, tail: string)
    requires IsNumeral(a) && IsNumeral(b) && IsNumeral(x) && IsNumeral(y) && tail != "" && IsDigit(tail[0])
    ensures MatchNumerals(a + ("." + (b + ("." + (x + ("." + (y + ("/" + tail))))))), 3)
         == Some(|a + ("." + (b + ("." + (x + ("." + y)))))|)
  {
    var s0 := y + ("/" + tail);
    LastCaptured(y, tail);
    NextCaptured(x, s0, 0, y);
    NextCaptured(b, x + ("." + s0), 1, x + ("." + y));
    NextCaptured(a, b + ("." + (x + ("." + s0))), 2, b + ("." + (x + ("." + y))));
    MatcherIsComplete(a + ("." + (b + ("." + (x + ("." + s0))))), 3, a + ("." + (b + ("." + (x + ("." + y))))));
  }

  lemma DottedCaptured(a: string, b: string, x: string, y: string, m: string, rest: string)
    requires IsNumeral(a) && IsNumeral(b) && IsNumeral(x) && IsNumeral(y) && IsNumeral(m)
    ensures MatchNumerals(Dotted(a, b, x, y + "/" + m) + rest, 3) == Some(|Dotted(a, b, x, y)|)
    ensures Dotted(a, b, x, y) <= Dotted(a, b, x, y + "/" + m)
  {
    assert m[0] in m && (m + rest)[0] == m[0];
    FourCaptured(a, b, x, y, m + rest);
    TunnelRegrouped(a, b, x, y, m, rest);
  }

  lemma TunnelRegrouped(a: string, b: string, x: string, y: string, m: string, rest: string)
    ensures a + ("." + (b + ("." + (x + ("." + y))))) == Dotted(a, b, x, y)
    ensures a + ("." + (b + ("." + (x + ("." + (y + ("/" + (m + rest)))))))) == Dotted(a, b, x, y + "/" + m) + rest
    ensures Dotted(a, b, x, y) <= Dotted(a, b, x, y + "/" + m)
  {
    DottedRegrouped(a, b, x, y);
    DottedRegrouped(a, b, x, y + "/" + m);
    var tail := y + ("/" + (m + rest));
    assert tail == y + "/" + m + rest;
  }

  /** The user sees the text that was printed, and is told to connect to the VM's own address. */
  lemma UserSeesTheVmsAddress(vlan: int, identifier: int, privateKey: string, peerKey: string, endpoint: string)
    requires VlanInRange(vlan) && IdentifierInRange(identifier)
    requires IsBase64(privateKey) && IsBase64(peerKey) && AllPlain(endpoint)
    ensures var text := GetWireguardConfig(ConfigFor(vlan, identifier, privateKey, peerKey), endpoint);
            var shown := FormatConfig(Encode(text));
            && shown == text
            && GetSSHInfo(shown) == Some(Split(GetIpAddWithSubnet(vlan, identifier), '/')[0])
  {
    var conf := ConfigFor(vlan, identifier, privateKey, peerKey);
    var text := GetWireguardConfig(conf, endpoint);
    TakenApart(vlan, identifier);
    ConfigIsPlain(vlan, identifier);
    PrintedConfigSurvives(conf, endpoint);
    FormatConfigInvertsEncode(text);
    ConfigYieldsHost(vlan, identifier, privateKey, AfterAddress(conf, endpoint));
    TextRegrouped(BeforeAddress(privateKey), TunnelAddress(vlan, identifier), AfterAddress(conf, endpoint));
  }

  lemma TextRegrouped(before: string, address: string, after: string)
    ensures before + "Address = " + address + after == before + (LABEL + address + after)
  {
  }

  lemma ConfigIsPlain(vlan: int, identifier: int)
    ensures AllPlain(TunnelAddress(vlan, identifier))
    ensures AllPlain(GetVlanNetworkIpWithSubnet(vlan))
    ensures AllPlain(TunnelNetwork(vlan))
  {
    var x := Itoa(MapVlanToThirdIpOctet(vlan));
    assert AllPlain("10") && AllPlain("0") && AllPlain(Itoa(1)) && AllPlain(x);
    DottedIsPlain("10", Itoa(1), x, Itoa(identifier + FIRST_IP_IN_SUBNET) + "/" + Itoa(32));
    DottedIsPlain("10", "0", x, "0/" + Itoa(SUBNET_MASK));
    DottedIsPlain("10", Itoa(1), x, "0/" + Itoa(SUBNET_MASK));
  }

  lemma ConfigYieldsHost(vlan: int, identifier: int, privateKey: string, after: string)
    requires VlanInRange(vlan) && IdentifierInRange(identifier) && IsBase64(privateKey)
    ensures GetSSHInfo(BeforeAddress(privateKey) + (LABEL + TunnelAddress(vlan, identifier) + after))
         == Some(Split(GetIpAddWithSubnet(vlan, identifier), '/')[0])
  {
    var x, y := Itoa(MapVlanToThirdIpOctet(vlan)), Itoa(identifier + FIRST_IP_IN_SUBNET);
    var ip := Dotted("10", Itoa(1), x, y);
    var rest := TunnelAddress(vlan, identifier) + after;
    LabelRegrouped(TunnelAddress(vlan, identifier), after);
    DottedCaptured("10", Itoa(1), x, y, Itoa(32), after);
    MatchAtLabel(rest, ip);
    LabelOnlyOnce(privateKey, rest);
    NothingEarlier(BeforeAddress(privateKey), LABEL + rest);
    HostShown(vlan, identifier, BeforeAddress(privateKey) + (LABEL + rest));
  }

  lemma LabelRegrouped(address: string, after: string)
    ensures LABEL + address + after == LABEL + (address + after)
  {
  }

  lemma HostShown(vlan: int, identifier: int, config: string)
    requires FirstMatch(config)
          == Some(Dotted("10", Itoa(1), Itoa(MapVlanToThirdIpOctet(vlan)), Itoa(identifier + FIRST_IP_IN_SUBNET)))
    requires VlanInRange(vlan) && IdentifierInRange(identifier)
    ensures GetSSHInfo(config) == Some(Split(GetIpAddWithSubnet(vlan, identifier), '/')[0])
  {
    SplitDotted("10", Itoa(1), Itoa(MapVlanToThirdIpOctet(vlan)), Itoa(identifier + FIRST_IP_IN_SUBNET));
    SecondOctetReplaced(vlan, identifier);
  }

  lemma MatchAtLabel(rest: string, ip: string)
    requires MatchNumerals(rest, 3) == Some(|ip|) && ip <= rest
    ensures MatchHere(LABEL + rest) == Some(ip)
  {
    assert (LABEL + rest)[|LABEL|..] == rest && rest[..|ip|] == ip;
  }

  lemma SecondOctetReplaced(vlan: int, identifier: int)
    ensures var x, y := Itoa(MapVlanToThirdIpOctet(vlan)), Itoa(identifier + FIRST_IP_IN_SUBNET);
            Join(["10", Itoa(1), x, y][1 := "0"], ".") == Split(GetIpAddWithSubnet(vlan, identifier), '/')[0]
  {
    var x, y := Itoa(MapVlanToThirdIpOctet(vlan)), Itoa(identifier + FIRST_IP_IN_SUBNET);
    var host := Dotted("10", "0", x, y);
    var parts := ["10", "0", x, y];
    assert ["10", Itoa(1), x, y][1 := "0"] == parts;
    assert parts[1..] == ["0", x, y] && ["0", x, y][1..] == [x, y] && [x, y][1..] == [y];
    assert Join([x, y], ".") == x + "." + y;
    assert Join(["0", x, y], ".") == "0" + "." + (x + "." + y);
    assert Join(parts, ".") == host;
    assert GetIpAddWithSubnet(vlan, identifier) == host + "/" + Itoa(SUBNET_MASK);
    SplitPrefix(host, '/', Itoa(SUBNET_MASK));
  }
}
