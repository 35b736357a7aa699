/** The connection tracker (monitors/network/src/connection_tracker.rs): the sockets
    `netstat -anv` lists, attributed to processes from the rows of `lsof -i -n -P`.
    The two tools' outputs are parameters; `None` stands for a tool that could not be
    run, after which the tracker carries on without it. */
module ConnectionTracker {
  import opened Common
  import opened Seqs
  import opened Strings

  datatype Protocol = Tcp | Udp | Tcp6 | Udp6 | Other(name: string)

  datatype ConnectionState =
    | Established | Listen | SynSent | SynReceived | FinWait1 | FinWait2
    | TimeWait | CloseWait | LastAck | Closing | Closed | Unknown

  datatype NetworkConnection = NetworkConnection(
    pid: Option<nat>,
    processName: string,
    localAddress: string,
    localPort: nat,
    remoteAddress: string,
    remotePort: nat,
    protocol: Protocol,
    state: ConnectionState,
    bytesSent: nat,
    bytesReceived: nat)

  // ---------------------------------------------------------------------------
  // States and their names

  /** The upper-case spellings `parse_state` accepts for each state. */
  function Spellings(st: ConnectionState): seq<string> {
    match st
    case Established => ["ESTABLISHED"]
    case Listen => ["LISTEN"]
    case SynSent => ["SYN_SENT"]
    case SynReceived => ["SYN_RECEIVED", "SYN_RCVD"]
    case FinWait1 => ["FIN_WAIT_1", "FIN_WAIT1"]
    case FinWait2 => ["FIN_WAIT_2", "FIN_WAIT2"]
    case TimeWait => ["TIME_WAIT"]
    case CloseWait => ["CLOSE_WAIT"]
    case LastAck => ["LAST_ACK"]
    case Closing => ["CLOSING"]
    case Closed => ["CLOSED"]
    case Unknown => []
  }

  /** `parse_state`: the upper-cased text is looked up among the spellings; anything
      else is `Unknown`. */
  function ParseState(s: string): (r: ConnectionState)
    ensures r != Unknown ==> ToUpper(s) in Spellings(r)
    ensures r == Unknown ==> forall st :: ToUpper(s) !in Spellings(st)
  {
    var u := ToUpper(s);
    if u == "ESTABLISHED" then Established
    else if u == "LISTEN" then Listen
    else if u == "SYN_SENT" then SynSent
    else if u == "SYN_RECEIVED" || u == "SYN_RCVD" then SynReceived
    else if u == "FIN_WAIT_1" || u == "FIN_WAIT1" then FinWait1
    else if u == "FIN_WAIT_2" || u == "FIN_WAIT2" then FinWait2
    else if u == "TIME_WAIT" then TimeWait
    else if u == "CLOSE_WAIT" then CloseWait
    else if u == "LAST_ACK" then LastAck
    else if u == "CLOSING" then Closing
    else if u == "CLOSED" then Closed
    else Unknown
  }

  /** Every spelling, in any case, parses to its own state. */
  lemma ParseStateSpelling(s: string, st: ConnectionState)
    requires ToUpper(s) in Spellings(st)
    ensures ParseState(s) == st
  {
    SpellingsDisjoint(ToUpper(s), ParseState(s), st);
  }

  lemma SpellingsDisjoint(w: string, a: ConnectionState, b: ConnectionState)
    requires w in Spellings(a) && w in Spellings(b)
    ensures a == b
  {
  }

  /** Parsing ignores case. */
  lemma ParseStateIgnoresCase(s: string)
    ensures ParseState(ToLower(s)) == ParseState(s)
  {
    assert ToUpper(ToLower(s)) == ToUpper(s);
  }

  /** `ConnectionState::display_name`. */
  function StateName(st: ConnectionState): string {
    match st
    case Established => "Established"
    case Listen => "Listen"
    case SynSent => "SYN Sent"
    case SynReceived => "SYN Received"
    case FinWait1 => "FIN Wait 1"
    case FinWait2 => "FIN Wait 2"
    case TimeWait => "Time Wait"
    case CloseWait => "Close Wait"
    case LastAck => "Last ACK"
    case Closing => "Closing"
    case Closed => "Closed"
    case Unknown => "Unknown"
  }

  /** No two states share a display name. */
  lemma StateNameInjective(a: ConnectionState, b: ConnectionState)
    requires StateName(a) == StateName(b)
    ensures a == b
  {
  }

  /** `ConnectionState::color`. */
  function StateColor(st: ConnectionState): (r: string)
    ensures r in ["green", "blue", "yellow", "orange", "gray", "secondary"]
    ensures r == "secondary" <==> st == Closing || st == Unknown
  {
    match st
    case Established => "green"
    case Listen => "blue"
    case SynSent | SynReceived => "yellow"
    case TimeWait | CloseWait => "orange"
    case Closed | LastAck | FinWait1 | FinWait2 => "gray"
    case _ => "secondary"
  }

  /** `Protocol::display_name`: an `Other` protocol shows its own name. */
  function ProtocolName(p: Protocol): string {
    match p
    case Tcp => "TCP"
    case Udp => "UDP"
    case Tcp6 => "TCP6"
    case Udp6 => "UDP6"
    case Other(name) => name
  }

  /** The four named protocols show distinct names. */
  lemma ProtocolNameInjective(a: Protocol, b: Protocol)
    requires !a.Other? && !b.Other? && ProtocolName(a) == ProtocolName(b)
    ensures a == b
  {
  }

  // ---------------------------------------------------------------------------
  // netstat rows, as the two patterns match them token by token

  /** A character of `[\d\.\:]`. */
  predicate AddressChar(c: char) {
    IsDigit(c) || c == '.' || c == ':'
  }

  /** A whole token matched by `[\d\.\:]+`. */
  predicate IsAddress(s: string) {
    s != [] && forall i :: 0 <= i < |s| ==> AddressChar(s[i])
  }

  /** A whole token matched by `\d+`. */
  predicate IsNumber(s: string) {
    s != [] && AllDigits(s)
  }

  /** A character of `\w`. */
  predicate WordChar(c: char) {
    IsDigit(c) || ('a' <= c <= 'z') || ('A' <= c <= 'Z') || c == '_'
  }

  /** What `(\w+)` captures at the start of a token: its longest run of word characters. */
  function WordRun(s: string): (w: string)
    ensures |w| <= |s| && w == s[..|w|]
    ensures forall i :: 0 <= i < |w| ==> WordChar(w[i])
    ensures |w| < |s| ==> !WordChar(s[|w|])
  {
    if s == [] || !WordChar(s[0]) then [] else [s[0]] + WordRun(s[1..])
  }

  /** `(tcp[46]?)` or `(udp[46]?)` at the end of a token (the pattern is not anchored,
      so the token may begin with other characters): the 6 suffix gives `v6`, the
      others `v4`. */
  function ProtocolOf(token: string, family: string, v4: Protocol, v6: Protocol): Option<Protocol> {
    if EndsWith(token, family + "6") then Some(v6)
    else if EndsWith(token, family + "4") || EndsWith(token, family) then Some(v4)
    else None
  }

  /** An `address.port` token split at its last '.', as `([\d\.\:]+)\.(\d+)` matches it;
      with `wildcard`, as `([\d\.\:]+|\*)\.(\d+|\*)` does. Neither a port nor '*'
      contains '.', so the last '.' is the only place the greedy match can split. */
  function Endpoint(token: string, wildcard: bool): (r: Option<(string, string)>)
    ensures r.Some? ==> token == r.value.0 + "." + r.value.1
    ensures r.Some? ==> IsAddress(r.value.0) || (wildcard && r.value.0 == "*")
    ensures r.Some? ==> IsNumber(r.value.1) || (wildcard && r.value.1 == "*")
  {
    match RFindChar(token, '.')
    case None => None
    case Some(i) =>
      var address := token[..i];
      var port := token[i + 1..];
      assert token == address + "." + port;
      if (IsAddress(address) || (wildcard && address == "*")) && (IsNumber(port) || (wildcard && port == "*")) then
        Some((address, port))
      else None
  }

  /** An address and a port joined by '.' split back into the two. */
  lemma EndpointOf(address: string, port: string, wildcard: bool)
    requires IsAddress(address) || (wildcard && address == "*")
    requires IsNumber(port) || (wildcard && port == "*")
    ensures Endpoint(address + "." + port, wildcard) == Some((address, port))
  {
    assert '.' !in port;
    RFindCharAt(address, '.', port);
    var token := address + "." + port;
    assert token[..|address|] == address && token[|address| + 1..] == port;
  }

  /** `parse::<u16>().unwrap_or(0)`. */
  function Port(text: string): (r: nat)
    ensures r <= U16_MAX
  {
    ParseUnsigned(text, U16_MAX).UnwrapOr(0)
  }

  /** A port, or 0 for the wildcard "*". */
  function WildcardPort(text: string): (r: nat)
    ensures r <= U16_MAX
  {
    if text == "*" then 0 else Port(text)
  }

  /** A socket as a netstat row gives it: no owner yet and no byte counts. */
  predicate Unattributed(c: NetworkConnection) {
    c.pid.None? && c.processName == "" && c.bytesSent == 0 && c.bytesReceived == 0
    && c.localPort <= U16_MAX && c.remotePort <= U16_MAX
  }

  /** An unanchored pattern's match: the first position, from the left, where it matches. */
  function FirstSome<T>(xs: seq<Option<T>>): (r: Option<T>)
    ensures r.None? <==> forall i :: 0 <= i < |xs| ==> xs[i].None?
    ensures r.Some? ==> exists i :: 0 <= i < |xs| && xs[i] == r && forall j :: 0 <= j < i ==> xs[j].None?
  {
    if xs == [] then None
    else if xs[0].Some? then xs[0]
    else
      assert forall i :: 0 <= i < |xs| - 1 ==> xs[1..][i] == xs[i + 1];
      FirstSome(xs[1..])
  }

  /** The socket the TCP pattern captures from the six tokens at `k`, if they match it. */
  function TcpAt(tokens: seq<string>, k: nat): (r: Option<NetworkConnection>)
    requires k + 6 <= |tokens|
    ensures r.Some? ==> Unattributed(r.value) && (r.value.protocol == Tcp || r.value.protocol == Tcp6)
  {
    var protocol := ProtocolOf(tokens[k], "tcp", Tcp, Tcp6);
    var local := Endpoint(tokens[k + 3], false);
    var remote := Endpoint(tokens[k + 4], true);
    var state := WordRun(tokens[k + 5]);
    if protocol.Some? && IsNumber(tokens[k + 1]) && IsNumber(tokens[k + 2]) && local.Some? && remote.Some? && state != [] then
      Some(NetworkConnection(None, "", local.value.0, Port(local.value.1), remote.value.0,
                             WildcardPort(remote.value.1), protocol.value, ParseState(state), 0, 0))
    else None
  }

  /** The TCP pattern tried at every token: the six tokens from each position. */
  function TcpWindows(tokens: seq<string>): (r: seq<Option<NetworkConnection>>)
    ensures |r| == if |tokens| < 6 then 0 else |tokens| - 5
    ensures forall k :: 0 <= k < |r| ==> r[k] == TcpAt(tokens, k)
  {
    if |tokens| < 6 then [] else seq(|tokens| - 5, k requires 0 <= k < |tokens| - 5 => TcpAt(tokens, k))
  }

  /** One line of `netstat -anv` read by the TCP pattern: its leftmost match. */
  function ParseTcpLine(line: string): (r: Option<NetworkConnection>)
    ensures r.Some? ==> Unattributed(r.value) && (r.value.protocol == Tcp || r.value.protocol == Tcp6)
  {
    FirstSome(TcpWindows(SplitWhitespace(line)))
  }

  /** The socket the UDP pattern captures from the five tokens at `k`: UDP has no state
      column, so every UDP socket is `Established`; a "*" remote address stays "*". */
  function UdpAt(tokens: seq<string>, k: nat): (r: Option<NetworkConnection>)
    requires k + 5 <= |tokens|
    ensures r.Some? ==> Unattributed(r.value) && (r.value.protocol == Udp || r.value.protocol == Udp6)
    ensures r.Some? ==> r.value.state == Established
  {
    var protocol := ProtocolOf(tokens[k], "udp", Udp, Udp6);
    var local := Endpoint(tokens[k + 3], false);
    var remote := Endpoint(tokens[k + 4], true);
    if protocol.Some? && IsNumber(tokens[k + 1]) && IsNumber(tokens[k + 2]) && local.Some? && remote.Some? then
      var remoteAddress := if remote.value.0 == "*" then "*" else remote.value.0;
      Some(NetworkConnection(None, "", local.value.0, Port(local.value.1), remoteAddress,
                             WildcardPort(remote.value.1), protocol.value, Established, 0, 0))
    else None
  }

  /** The UDP pattern tried at every token: the five tokens from each position. */
  function UdpWindows(tokens: seq<string>): (r: seq<Option<NetworkConnection>>)
    ensures |r| == if |tokens| < 5 then 0 else |tokens| - 4
    ensures forall k :: 0 <= k < |r| ==> r[k] == UdpAt(tokens, k)
  {
    if |tokens| < 5 then [] else seq(|tokens| - 4, k requires 0 <= k < |tokens| - 4 => UdpAt(tokens, k))
  }

  /** One line of `netstat -anv` read by the UDP pattern: its leftmost match. */
  function ParseUdpLine(line: string): (r: Option<NetworkConnection>)
    ensures r.Some? ==> Unattributed(r.value) && (r.value.protocol == Udp || r.value.protocol == Udp6)
    ensures r.Some? ==> r.value.state == Established
  {
    FirstSome(UdpWindows(SplitWhitespace(line)))
  }

  /** The text netstat prints for a port, "*" when there is none. */
  function PortText(port: Option<nat>): string {
    match port
    case Some(n) => NatToString(n)
    case None => "*"
  }

  /** The port a parsed row holds: the printed one when it fits in 16 bits, else 0. */
  function PortNumber(port: Option<nat>): nat {
    match port
    case Some(n) => if n <= U16_MAX then n else 0
    case None => 0
  }

  lemma PortTextValue(port: Option<nat>)
    ensures IsNumber(PortText(port)) || PortText(port) == "*"
    ensures NoSpace(PortText(port)) && PortText(port) != []
    ensures WildcardPort(PortText(port)) == PortNumber(port)
  {
    NumbersAreWords(if port.Some? then port.value else 0, 0);
    if port.Some? {
      var n := port.value;
      var t := NatToString(n);
      NatToStringValue(n);
      assert IsDigit(t[0]) && t[0] != '+';
      assert t != "*";
    }
  }

  lemma EndpointWord(address: string, port: Option<nat>)
    requires IsAddress(address) || address == "*"
    ensures NoSpace(address + "." + PortText(port)) && address + "." + PortText(port) != []
  {
    PortTextValue(port);
    assert NoSpace(address);
    NoSpaceAppend(address, ".");
    NoSpaceAppend(address + ".", PortText(port));
  }

  /** The three names of a protocol family. */
  lemma ProtocolOfName(name: string, family: string, v4: Protocol, v6: Protocol)
    requires name == family || name == family + "4" || name == family + "6"
    ensures ProtocolOf(name, family, v4, v6) == Some(if name == family + "6" then v6 else v4)
  {
    var f6 := family + "6";
    var f4 := family + "4";
    assert f6[|f6| - 1] == '6' && f4[|f4| - 1] == '4';
    if name == f4 {
      assert name[|name| - |f6|..] == name;
    }
  }

  /** A token of word characters is captured whole by `(\w+)`. */
  lemma {:induction false} WordRunOfWord(w: string)
    requires forall i :: 0 <= i < |w| ==> WordChar(w[i])
    ensures WordRun(w) == w
  {
    if w != [] {
      WordRunOfWord(w[1..]);
    }
  }

  /** The socket the TCP pattern captures from six tokens that match it. */
  lemma TcpAtOf(p: string, n1: string, n2: string, t3: string, t4: string, t5: string,
                protocol: Protocol, local: (string, string), remote: (string, string))
    requires ProtocolOf(p, "tcp", Tcp, Tcp6) == Some(protocol)
    requires IsNumber(n1) && IsNumber(n2)
    requires Endpoint(t3, false) == Some(local) && Endpoint(t4, true) == Some(remote)
    requires WordRun(t5) != []
    ensures TcpAt([p, n1, n2, t3, t4, t5], 0)
         == Some(NetworkConnection(None, "", local.0, Port(local.1), remote.0, WildcardPort(remote.1),
                                   protocol, ParseState(WordRun(t5)), 0, 0))
  {
  }

  /** Six tokens whose local endpoint or protocol does not match give no TCP socket. */
  lemma TcpAtUnmatched(p: string, n1: string, n2: string, t3: string, t4: string, t5: string)
    requires ProtocolOf(p, "tcp", Tcp, Tcp6) == None || Endpoint(t3, false) == None
    ensures TcpAt([p, n1, n2, t3, t4, t5], 0) == None
  {
  }

  /** The socket the UDP pattern captures from five tokens that match it. */
  lemma UdpAtOf(p: string, n1: string, n2: string, t3: string, t4: string,
                protocol: Protocol, local: (string, string), remote: (string, string))
    requires ProtocolOf(p, "udp", Udp, Udp6) == Some(protocol)
    requires IsNumber(n1) && IsNumber(n2)
    requires Endpoint(t3, false) == Some(local) && Endpoint(t4, true) == Some(remote)
    ensures UdpAt([p, n1, n2, t3, t4], 0)
         == Some(NetworkConnection(None, "", local.0, Port(local.1), remote.0, WildcardPort(remote.1),
                                   protocol, Established, 0, 0))
  {
  }

  /** The row netstat prints for a TCP socket. */
  function TcpRow(protocol: string, recvQ: nat, sendQ: nat, localAddress: string, localPort: nat,
                  remoteAddress: string, remotePort: Option<nat>, state: string): string {
    Join([protocol, NatToString(recvQ), NatToString(sendQ), localAddress + "." + NatToString(localPort),
          remoteAddress + "." + PortText(remotePort), state], " ")
  }

  /** A TCP row splits back into its six tokens, the only place the pattern is tried. */
  lemma TcpRowTokens(protocol: string, recvQ: nat, sendQ: nat, localAddress: string, localPort: nat,
                     remoteAddress: string, remotePort: Option<nat>, state: string)
    requires protocol != [] && NoSpace(protocol) && state != [] && NoSpace(state)
    requires IsAddress(localAddress) || localAddress == "*"
    requires IsAddress(remoteAddress) || remoteAddress == "*"
    ensures ParseTcpLine(TcpRow(protocol, recvQ, sendQ, localAddress, localPort, remoteAddress, remotePort, state))
         == TcpAt([protocol, NatToString(recvQ), NatToString(sendQ), localAddress + "." + NatToString(localPort),
                   remoteAddress + "." + PortText(remotePort), state], 0)
  {
    var words := [protocol, NatToString(recvQ), NatToString(sendQ), localAddress + "." + NatToString(localPort),
                  remoteAddress + "." + PortText(remotePort), state];
    NumbersAreWords(recvQ, 0);
    NumbersAreWords(sendQ, 0);
    EndpointWord(localAddress, Some(localPort));
    EndpointWord(remoteAddress, remotePort);
    SplitJoinedWords(words);
    SixTokenTcpLine(Join(words, " "));
  }

  /** A TCP row parses back to the socket it describes; "tcp6" gives TCP6, the other
      names TCP, and a "*" or out-of-range port gives 0. */
  lemma ParseTcpRow(protocol: string, recvQ: nat, sendQ: nat, localAddress: string, localPort: nat,
                    remoteAddress: string, remotePort: Option<nat>, state: string)
    requires protocol == "tcp" || protocol == "tcp4" || protocol == "tcp6"
    requires IsAddress(localAddress) && (IsAddress(remoteAddress) || remoteAddress == "*")
    requires state != [] && forall i :: 0 <= i < |state| ==> WordChar(state[i])
    ensures ParseTcpLine(TcpRow(protocol, recvQ, sendQ, localAddress, localPort, remoteAddress, remotePort, state))
         == Some(NetworkConnection(None, "", localAddress, PortNumber(Some(localPort)), remoteAddress,
                                   PortNumber(remotePort), if protocol == "tcp6" then Tcp6 else Tcp,
                                   ParseState(state), 0, 0))
  {
    var t3 := localAddress + "." + NatToString(localPort);
    var t4 := remoteAddress + "." + PortText(remotePort);
    var words := [protocol, NatToString(recvQ), NatToString(sendQ), t3, t4, state];
    var kind := if protocol == "tcp6" then Tcp6 else Tcp;
    var local := (localAddress, NatToString(localPort));
    var remote := (remoteAddress, PortText(remotePort));
    assert ParseTcpLine(TcpRow(protocol, recvQ, sendQ, localAddress, localPort, remoteAddress, remotePort, state))
        == TcpAt(words, 0) by {
      assert NoSpace(protocol) && NoSpace(state);
      TcpRowTokens(protocol, recvQ, sendQ, localAddress, localPort, remoteAddress, remotePort, state);
    }
    assert TcpAt(words, 0) == Some(NetworkConnection(None, "", local.0, Port(local.1), remote.0, WildcardPort(remote.1),
                                                     kind, ParseState(state), 0, 0)) by {
      ProtocolOfName(protocol, "tcp", Tcp, Tcp6);
      EndpointOf(localAddress, NatToString(localPort), false);
      PortTextValue(remotePort);
      EndpointOf(remoteAddress, PortText(remotePort), true);
      WordRunOfWord(state);
      TcpAtOf(protocol, NatToString(recvQ), NatToString(sendQ), t3, t4, state, kind, local, remote);
    }
    assert Port(local.1) == PortNumber(Some(localPort)) by {
      PortTextValue(Some(localPort));
    }
    assert WildcardPort(remote.1) == PortNumber(remotePort) by {
      PortTextValue(remotePort);
    }
  }

  /** The row netstat prints for a UDP socket. */
  function UdpRow(protocol: string, recvQ: nat, sendQ: nat, localAddress: string, localPort: nat,
                  remoteAddress: string, remotePort: Option<nat>): string {
    Join([protocol, NatToString(recvQ), NatToString(sendQ), localAddress + "." + NatToString(localPort),
          remoteAddress + "." + PortText(remotePort)], " ")
  }

  /** A UDP row parses back to the socket it describes, `Established`, with a "*"
      remote address kept as it is. */
  lemma ParseUdpRow(protocol: string, recvQ: nat, sendQ: nat, localAddress: string, localPort: nat,
                    remoteAddress: string, remotePort: Option<nat>)
    requires protocol == "udp" || protocol == "udp4" || protocol == "udp6"
    requires IsAddress(localAddress) && (IsAddress(remoteAddress) || remoteAddress == "*")
    ensures ParseUdpLine(UdpRow(protocol, recvQ, sendQ, localAddress, localPort, remoteAddress, remotePort))
         == Some(NetworkConnection(None, "", localAddress, PortNumber(Some(localPort)), remoteAddress,
                                   PortNumber(remotePort), if protocol == "udp6" then Udp6 else Udp,
                                   Established, 0, 0))
  {
    var t3 := localAddress + "." + NatToString(localPort);
    var t4 := remoteAddress + "." + PortText(remotePort);
    var words := [protocol, NatToString(recvQ), NatToString(sendQ), t3, t4];
    var kind := if protocol == "udp6" then Udp6 else Udp;
    var local := (localAddress, NatToString(localPort));
    var remote := (remoteAddress, PortText(remotePort));
    assert SplitWhitespace(Join(words, " ")) == words by {
      assert NoSpace(protocol);
      NumbersAreWords(recvQ, 0);
      NumbersAreWords(sendQ, 0);
      EndpointWord(localAddress, Some(localPort));
      EndpointWord(remoteAddress, remotePort);
      SplitJoinedWords(words);
    }
    assert UdpAt(words, 0) == Some(NetworkConnection(None, "", local.0, Port(local.1), remote.0, WildcardPort(remote.1),
                                                     kind, Established, 0, 0)) by {
      ProtocolOfName(protocol, "udp", Udp, Udp6);
      EndpointOf(localAddress, NatToString(localPort), false);
      PortTextValue(remotePort);
      EndpointOf(remoteAddress, PortText(remotePort), true);
      UdpAtOf(protocol, NatToString(recvQ), NatToString(sendQ), t3, t4, kind, local, remote);
    }
    assert Port(local.1) == PortNumber(Some(localPort)) by {
      PortTextValue(Some(localPort));
    }
    assert WildcardPort(remote.1) == PortNumber(remotePort) by {
      PortTextValue(remotePort);
    }
  }

  /** A socket bound to every interface ("*.80") does not match the TCP pattern, whose
      local address admits no '*': such rows are dropped. */
  lemma WildcardListenerDropped(protocol: string, recvQ: nat, sendQ: nat, localPort: nat,
                                remoteAddress: string, remotePort: Option<nat>, state: string)
    requires protocol == "tcp" || protocol == "tcp4" || protocol == "tcp6"
    requires IsAddress(remoteAddress) || remoteAddress == "*"
    requires state != [] && NoSpace(state)
    ensures ParseTcpLine(TcpRow(protocol, recvQ, sendQ, "*", localPort, remoteAddress, remotePort, state)) == None
  {
    var lp := NatToString(localPort);
    TcpRowTokens(protocol, recvQ, sendQ, "*", localPort, remoteAddress, remotePort, state);
    PortTextValue(Some(localPort));
    WildcardLocalEndpoint(lp);
    TcpAtUnmatched(protocol, NatToString(recvQ), NatToString(sendQ), "*" + "." + lp,
                   remoteAddress + "." + PortText(remotePort), state);
  }

  /** "*" is no local address. */
  lemma WildcardLocalEndpoint(port: string)
    requires IsNumber(port)
    ensures Endpoint("*" + "." + port, false) == None
  {
    var token := "*" + "." + port;
    assert '.' !in port by {
      forall i | 0 <= i < |port| ensures port[i] != '.' {
        assert IsDigit(port[i]);
      }
    }
    assert token == "*" + ['.'] + port;
    RFindCharAt("*", '.', port);
    assert token[..1] == "*";
    assert !IsAddress("*") by {
      assert "*"[0] == '*' && !AddressChar('*');
    }
  }

  /** A dual-stack row ("tcp46") matches neither protocol name: it is dropped too. */
  lemma DualStackRowDropped(recvQ: nat, sendQ: nat, localAddress: string, localPort: nat,
                            remoteAddress: string, remotePort: Option<nat>, state: string)
    requires IsAddress(localAddress) && (IsAddress(remoteAddress) || remoteAddress == "*")
    requires state != [] && NoSpace(state)
    ensures ParseTcpLine(TcpRow("tcp46", recvQ, sendQ, localAddress, localPort, remoteAddress, remotePort, state)) == None
  {
    TcpRowTokens("tcp46", recvQ, sendQ, localAddress, localPort, remoteAddress, remotePort, state);
    assert ProtocolOf("tcp46", "tcp", Tcp, Tcp6) == None by {
      assert "tcp46"[1..][0] == 'c' && "tcp46"[2..][0] == 'p';
    }
    TcpAtUnmatched("tcp46", NatToString(recvQ), NatToString(sendQ), localAddress + "." + NatToString(localPort),
                   remoteAddress + "." + PortText(remotePort), state);
  }

  /** A line of six tokens is read by the TCP pattern at its first token only. */
  lemma SixTokenTcpLine(line: string)
    requires |SplitWhitespace(line)| == 6
    ensures ParseTcpLine(line) == TcpAt(SplitWhitespace(line), 0)
  {
    var words := SplitWhitespace(line);
    assert TcpWindows(words) == [TcpAt(words, 0)];
  }

  /** Every TCP socket of the output, in line order. */
  function TcpConnections(output: string): seq<NetworkConnection> {
    FilterMap(Lines(output), ParseTcpLine)
  }

  /** Every UDP socket of the output, in line order. */
  function UdpConnections(output: string): seq<NetworkConnection> {
    FilterMap(Lines(output), ParseUdpLine)
  }

  /** `parse_netstat`: the TCP pass, then the UDP pass; nothing when netstat fails. */
  function NetstatConnections(netstat: Option<string>): seq<NetworkConnection> {
    match netstat
    case Some(output) => TcpConnections(output) + UdpConnections(output)
    case None => []
  }

  /** No socket read from netstat has an owner yet. */
  lemma NetstatUnattributed(netstat: Option<string>)
    ensures forall i :: 0 <= i < |NetstatConnections(netstat)| ==> Unattributed(NetstatConnections(netstat)[i])
  {
    if netstat.Some? {
      var lines := Lines(netstat.value);
      forall c | c in TcpConnections(netstat.value) ensures Unattributed(c) {
        FilterMapMember(lines, ParseTcpLine, c);
      }
      forall c | c in UdpConnections(netstat.value) ensures Unattributed(c) {
        FilterMapMember(lines, ParseUdpLine, c);
      }
    }
  }

  // ---------------------------------------------------------------------------
  // lsof rows and the sockets they name

  /** What an lsof NAME field points at. */
  datatype Target = Ports(local: nat, remote: nat) | ListenOn(port: nat)

  /** The text before the first `c` (all of it when there is none): `split(c).next()`. */
  function Before(s: string, c: char): (r: string)
    ensures |r| <= |s| && r == s[..|r|] && c !in r
  {
    s[..IndexOfChar(s, c)]
  }

  /** `match_connection_with_process`'s reading of a NAME field: with "->", the ports
      after the last ':' of each side (the remote one stopping at '('); without it,
      the port after the last ':' of a listening socket. */
  function MatchTarget(name: string): (r: Option<Target>)
    ensures r.Some? && r.value.Ports? ==> Contains(name, "->") && r.value.local <= U16_MAX && r.value.remote <= U16_MAX
    ensures r.Some? && r.value.ListenOn? ==> !Contains(name, "->") && r.value.port <= U16_MAX
    ensures !Contains(name, "->") ==> (r.Some? <==> ':' in name)
  {
    match Find(name, "->")
    case Some(a) => ArrowTarget(name[..a], name[a + 2..])
    case None => ListenTarget(name)
  }

  /** The two sides of "local->remote" read as ports. */
  function ArrowTarget(local: string, remote: string): (r: Option<Target>)
    ensures r.Some? ==> r.value.Ports? && r.value.local <= U16_MAX && r.value.remote <= U16_MAX
    ensures r.Some? <==> ':' in local && ':' in remote
  {
    match PortTexts(local, remote)
    case Some((localText, remoteText)) => Some(Ports(Port(localText), Port(remoteText)))
    case None => None
  }

  /** The text after the last ':' of each side, the remote one stopping at '('. */
  function PortTexts(local: string, remote: string): (r: Option<(string, string)>)
    ensures r.Some? <==> ':' in local && ':' in remote
    ensures r.Some? ==> ':' !in r.value.0 && ':' !in r.value.1 && '(' !in r.value.1
  {
    match RFindChar(local, ':')
    case None => None
    case Some(i) =>
      match RFindChar(remote, ':')
      case None => None
      case Some(j) => Some((local[i + 1..], Before(remote[j + 1..], '(')))
  }

  /** A NAME without "->": the port after its last ':'. */
  function ListenTarget(name: string): (r: Option<Target>)
    ensures r.Some? ==> r.value.ListenOn? && r.value.port <= U16_MAX
    ensures r.Some? <==> ':' in name
  {
    match RFindChar(name, ':')
    case Some(i) => Some(ListenOn(Port(name[i + 1..])))
    case None => None
  }

  /** The NAME lsof prints for a connected socket. */
  function ConnectionName(localAddress: string, localPort: nat, remoteAddress: string, remotePort: nat): string {
    localAddress + ":" + NatToString(localPort) + "->" + remoteAddress + ":" + NatToString(remotePort)
  }

  lemma PortOfText(n: nat)
    ensures Port(NatToString(n)) == PortNumber(Some(n))
    ensures ':' !in NatToString(n) && '-' !in NatToString(n) && '(' !in NatToString(n)
  {
    PortTextValue(Some(n));
    var t := NatToString(n);
    assert forall i :: 0 <= i < |t| ==> IsDigit(t[i]);
  }

  /** A connected socket's NAME names its two ports. */
  lemma MatchTargetOfConnection(localAddress: string, localPort: nat, remoteAddress: string, remotePort: nat)
    requires '-' !in localAddress
    ensures MatchTarget(ConnectionName(localAddress, localPort, remoteAddress, remotePort))
         == Some(Ports(PortNumber(Some(localPort)), PortNumber(Some(remotePort))))
  {
    var lp := NatToString(localPort);
    var rp := NatToString(remotePort);
    PortOfText(localPort);
    PortOfText(remotePort);
    var local := localAddress + ":" + lp;
    var remote := remoteAddress + ":" + rp;
    assert ConnectionName(localAddress, localPort, remoteAddress, remotePort) == local + ("->" + remote);
    assert PortTexts(local, remote) == Some((lp, rp)) by {
      assert RFindChar(local, ':') == Some(|localAddress|) && local[|localAddress| + 1..] == lp by {
        RFindCharAt(localAddress, ':', lp);
      }
      assert RFindChar(remote, ':') == Some(|remoteAddress|) && remote[|remoteAddress| + 1..] == rp by {
        RFindCharAt(remoteAddress, ':', rp);
      }
      assert Before(rp, '(') == rp by {
        IndexOfCharAbsent(rp, '(');
      }
    }
    MatchTargetArrow(local, remote);
  }

  /** A NAME with "->" after a first side without '-' is read by its two sides. */
  lemma MatchTargetArrow(local: string, remote: string)
    requires '-' !in local
    ensures MatchTarget(local + ("->" + remote)) == ArrowTarget(local, remote)
  {
    var name := local + ("->" + remote);
    assert Find(name, "->") == Some(|local|) by {
      FindAfter(local, "->" + remote, "->");
    }
    assert name[..|local|] == local && name[|local| + 2..] == remote;
  }

  /** A listening socket's NAME names its port. */
  lemma MatchTargetOfListener(address: string, port: nat)
    requires '-' !in address
    ensures MatchTarget(address + ":" + NatToString(port)) == Some(ListenOn(PortNumber(Some(port))))
  {
    var p := NatToString(port);
    var name := address + ":" + p;
    PortOfText(port);
    assert '-' !in name;
    ContainsHead(name, "->");
    RFindCharAt(address, ':', p);
    assert name[|address| + 1..] == p;
  }

  /** A field with neither '-' nor ':' names no socket. */
  lemma NoPortNamed(name: string)
    requires '-' !in name && ':' !in name
    ensures MatchTarget(name) == None
  {
    ContainsHead(name, "->");
  }

  /** Whether a socket is the one a target names: equal local and remote ports, or a
      listening socket on the port. */
  predicate Fits(c: NetworkConnection, t: Target) {
    match t
    case Ports(local, remote) => c.localPort == local && c.remotePort == remote
    case ListenOn(port) => c.localPort == port && c.state == Listen
  }

  predicate FirstFitAt(conns: seq<NetworkConnection>, t: Target, j: int) {
    0 <= j < |conns| && Fits(conns[j], t) && forall k :: 0 <= k < j ==> !Fits(conns[k], t)
  }

  /** The socket with its owner set. */
  function Owned(c: NetworkConnection, pid: nat, name: string): NetworkConnection {
    c.(pid := Some(pid), processName := name)
  }

  /** Index of the first socket the target fits. */
  function FirstFit(conns: seq<NetworkConnection>, t: Target): (r: Option<nat>)
    ensures r.Some? ==> FirstFitAt(conns, t, r.value)
    ensures r.None? ==> forall k :: 0 <= k < |conns| ==> !Fits(conns[k], t)
  {
    if conns == [] then None
    else if Fits(conns[0], t) then Some(0)
    else
      match FirstFit(conns[1..], t)
      case Some(j) => Some(j + 1)
      case None => None
  }

  /** The loop with `break`: only the first fitting socket gets the owner; every other
      socket, including later ones that fit as well, is left as it was. */
  function Claimed(conns: seq<NetworkConnection>, t: Target, pid: nat, name: string): (r: seq<NetworkConnection>)
    ensures |r| == |conns|
    ensures forall j :: 0 <= j < |conns| ==> r[j] == if FirstFitAt(conns, t, j) then Owned(conns[j], pid, name) else conns[j]
  {
    match FirstFit(conns, t)
    case None => conns
    case Some(i) => conns[i := Owned(conns[i], pid, name)]
  }

  /** One attributed lsof row: pid, command and the NAME field it matches with. */
  datatype LsofEntry = LsofEntry(pid: nat, command: string, name: string)

  /** The sockets after matching one lsof entry. */
  function ClaimFor(conns: seq<NetworkConnection>, e: LsofEntry): seq<NetworkConnection> {
    match MatchTarget(e.name)
    case Some(t) => Claimed(conns, t, e.pid, e.command)
    case None => conns
  }

  /** The fields of an lsof row with at least the header's nine columns whose second
      field parses as a `u32` pid. */
  function LsofRow(line: string): (r: Option<(nat, seq<string>)>)
    ensures r.Some? ==> |r.value.1| >= 9 && r.value.0 <= U32_MAX && r.value.1 == SplitWhitespace(line)
  {
    var parts := SplitWhitespace(line);
    if |parts| >= 9 then
      match ParseUnsigned(parts[1], U32_MAX)
      case Some(pid) => Some((pid, parts))
      case None => None
    else None
  }

  /** As written: the matcher receives the row's last field. */
  function LsofEntryAsWritten(line: string): (r: Option<LsofEntry>)
    ensures r.Some? <==> LsofRow(line).Some?
  {
    match LsofRow(line)
    case Some((pid, parts)) => Some(LsofEntry(pid, parts[0], parts[|parts| - 1]))
    case None => None
  }

  /** The matcher given the NAME column, the ninth field, which holds the addresses. */
  function LsofEntryOf(line: string): (r: Option<LsofEntry>)
    ensures r.Some? <==> LsofRow(line).Some?
  {
    match LsofRow(line)
    case Some((pid, parts)) => Some(LsofEntry(pid, parts[0], parts[8]))
    case None => None
  }

  /** The row `lsof -i -n -P` prints for an established TCP socket: the NAME column
      and then the state in parentheses, which whitespace splitting makes a tenth
      field. */
  function EstablishedRow(command: string, pid: nat, localPort: nat, remotePort: nat): string {
    Join([command, NatToString(pid), "user", "45u", "IPv4", "0x1a2b3c", "0t0", "TCP",
          ConnectionName("192.168.1.2", localPort, "93.184.216.34", remotePort), "(ESTABLISHED)"], " ")
  }

  lemma EstablishedRowFields(command: string, pid: nat, localPort: nat, remotePort: nat)
    requires command != [] && NoSpace(command)
    ensures SplitWhitespace(EstablishedRow(command, pid, localPort, remotePort))
         == [command, NatToString(pid), "user", "45u", "IPv4", "0x1a2b3c", "0t0", "TCP",
             ConnectionName("192.168.1.2", localPort, "93.184.216.34", remotePort), "(ESTABLISHED)"]
  {
    var name := ConnectionName("192.168.1.2", localPort, "93.184.216.34", remotePort);
    var words := [command, NatToString(pid), "user", "45u", "IPv4", "0x1a2b3c", "0t0", "TCP", name, "(ESTABLISHED)"];
    assert forall k :: 0 <= k < |words| ==> words[k] != [] && NoSpace(words[k]) by {
      assert NoSpace("192.168.1.2") && NoSpace("93.184.216.34");
      ConnectionNameWord("192.168.1.2", localPort, "93.184.216.34", remotePort);
      NumbersAreWords(pid, 0);
    }
    SplitJoinedWords(words);
  }

  /** A NAME whose addresses hold no whitespace is one field. */
  lemma ConnectionNameWord(localAddress: string, localPort: nat, remoteAddress: string, remotePort: nat)
    requires NoSpace(localAddress) && NoSpace(remoteAddress)
    ensures ConnectionName(localAddress, localPort, remoteAddress, remotePort) != []
    ensures NoSpace(ConnectionName(localAddress, localPort, remoteAddress, remotePort))
  {
    var lp := NatToString(localPort);
    var rp := NatToString(remotePort);
    NumbersAreWords(localPort, 0);
    NumbersAreWords(remotePort, 0);
    NoSpaceAppend(localAddress, ":");
    NoSpaceAppend(localAddress + ":", lp);
    NoSpaceAppend(localAddress + ":" + lp, "->");
    NoSpaceAppend(localAddress + ":" + lp + "->", remoteAddress);
    NoSpaceAppend(localAddress + ":" + lp + "->" + remoteAddress, ":");
    NoSpaceAppend(localAddress + ":" + lp + "->" + remoteAddress + ":", rp);
  }

  /** As written, an established TCP row hands the matcher "(ESTABLISHED)", which names
      no port: the row attributes no socket at all. */
  lemma EstablishedRowAsWritten(command: string, pid: nat, localPort: nat, remotePort: nat, conns: seq<NetworkConnection>)
    requires command != [] && NoSpace(command) && pid <= U32_MAX
    ensures LsofEntryAsWritten(EstablishedRow(command, pid, localPort, remotePort))
         == Some(LsofEntry(pid, command, "(ESTABLISHED)"))
    ensures ClaimFor(conns, LsofEntry(pid, command, "(ESTABLISHED)")) == conns
  {
    assert LsofEntryAsWritten(EstablishedRow(command, pid, localPort, remotePort))
        == Some(LsofEntry(pid, command, "(ESTABLISHED)")) by {
      EstablishedRowFields(command, pid, localPort, remotePort);
      ParseUnsignedOfNatToString(pid, U32_MAX);
    }
    NoPortNamed("(ESTABLISHED)");
  }

  /** Read at its NAME column, the same row attributes the socket with its two ports. */
  lemma EstablishedRowClaimed(command: string, pid: nat, localPort: nat, remotePort: nat, conns: seq<NetworkConnection>)
    requires command != [] && NoSpace(command) && pid <= U32_MAX
    requires localPort <= U16_MAX && remotePort <= U16_MAX
    ensures LsofEntryOf(EstablishedRow(command, pid, localPort, remotePort))
         == Some(LsofEntry(pid, command, ConnectionName("192.168.1.2", localPort, "93.184.216.34", remotePort)))
    ensures ClaimFor(conns, LsofEntryOf(EstablishedRow(command, pid, localPort, remotePort)).value)
         == Claimed(conns, Ports(localPort, remotePort), pid, command)
  {
    var name := ConnectionName("192.168.1.2", localPort, "93.184.216.34", remotePort);
    assert LsofEntryOf(EstablishedRow(command, pid, localPort, remotePort)) == Some(LsofEntry(pid, command, name)) by {
      EstablishedRowFields(command, pid, localPort, remotePort);
      ParseUnsignedOfNatToString(pid, U32_MAX);
    }
    MatchTargetOfConnection("192.168.1.2", localPort, "93.184.216.34", remotePort);
  }

  /** The rows after lsof's header; none when lsof fails. */
  function LsofLines(lsof: Option<string>): seq<string> {
    match lsof
    case Some(output) => SkipFirst(Lines(output))
    case None => []
  }

  /** `map_processes_with_lsof` over `lines`: each row with a pid records the command
      under its pid and claims the socket its NAME field names. */
  function Attribute(conns: seq<NetworkConnection>, processMap: map<nat, string>, lines: seq<string>)
    : (seq<NetworkConnection>, map<nat, string>)
    decreases |lines|
  {
    if lines == [] then (conns, processMap)
    else
      var before := Attribute(conns, processMap, lines[..|lines| - 1]);
      match LsofEntryOf(lines[|lines| - 1])
      case Some(e) => (ClaimFor(before.0, e), before.1[e.pid := e.command])
      case None => before
  }

  /** The tracker's state after a refresh: netstat's sockets attributed by lsof's rows,
      starting from an empty process map. */
  function Snapshot(netstat: Option<string>, lsof: Option<string>): (seq<NetworkConnection>, map<nat, string>) {
    Attribute(NetstatConnections(netstat), map[], LsofLines(lsof))
  }

  /** A socket without its owner. */
  function Socket(c: NetworkConnection): NetworkConnection {
    c.(pid := None, processName := "")
  }

  predicate SameSockets(a: seq<NetworkConnection>, b: seq<NetworkConnection>) {
    |a| == |b| && forall i :: 0 <= i < |a| ==> Socket(a[i]) == Socket(b[i])
  }

  /** Attribution only sets owners: the sockets, their order and every other field
      stay as netstat gave them. */
  lemma {:induction false} AttributeKeepsSockets(conns: seq<NetworkConnection>, processMap: map<nat, string>, lines: seq<string>)
    ensures SameSockets(Attribute(conns, processMap, lines).0, conns)
    decreases |lines|
  {
    if lines != [] {
      AttributeKeepsSockets(conns, processMap, lines[..|lines| - 1]);
    }
  }

  /** Every owned socket's pid is a key of the process map. */
  predicate PidsKnown(conns: seq<NetworkConnection>, processMap: map<nat, string>) {
    forall i :: 0 <= i < |conns| && conns[i].pid.Some? ==> conns[i].pid.value in processMap
  }

  lemma {:induction false} AttributePidsKnown(conns: seq<NetworkConnection>, processMap: map<nat, string>, lines: seq<string>)
    requires PidsKnown(conns, processMap)
    ensures PidsKnown(Attribute(conns, processMap, lines).0, Attribute(conns, processMap, lines).1)
    decreases |lines|
  {
    if lines != [] {
      AttributePidsKnown(conns, processMap, lines[..|lines| - 1]);
    }
  }

  /** After a refresh every socket with an owner has its pid in the process map, and the
      sockets are exactly netstat's. */
  lemma SnapshotPidsKnown(netstat: Option<string>, lsof: Option<string>)
    ensures PidsKnown(Snapshot(netstat, lsof).0, Snapshot(netstat, lsof).1)
    ensures SameSockets(Snapshot(netstat, lsof).0, NetstatConnections(netstat))
  {
    NetstatUnattributed(netstat);
    AttributePidsKnown(NetstatConnections(netstat), map[], LsofLines(lsof));
    AttributeKeepsSockets(NetstatConnections(netstat), map[], LsofLines(lsof));
  }

  /** The sockets a pid owns, in order. */
  function OwnedBy(conns: seq<NetworkConnection>, pid: nat): seq<NetworkConnection> {
    Filter(conns, (c: NetworkConnection) => c.pid == Some(pid))
  }

  /** Exactly the sockets whose pid is `Some(pid)`. */
  lemma OwnedByExactly(conns: seq<NetworkConnection>, pid: nat, c: NetworkConnection)
    ensures c in OwnedBy(conns, pid) <==> c in conns && c.pid == Some(pid)
  {
    FilterMember(conns, (c: NetworkConnection) => c.pid == Some(pid), c);
  }

  // ---------------------------------------------------------------------------
  // The tracker

  class Tracker {
    var connections: seq<NetworkConnection>
    /** pid -> command name, from lsof's rows. */
    var processMap: map<nat, string>

    constructor ()
      ensures connections == [] && processMap == map[]
    {
      connections := [];
      processMap := map[];
    }

    /** `get_connections`: refresh, then the sockets. */
    method GetConnections(netstat: Option<string>, lsof: Option<string>) returns (r: seq<NetworkConnection>)
      modifies this
      ensures (connections, processMap) == Snapshot(netstat, lsof)
      ensures r == connections
    {
      Refresh(netstat, lsof);
      r := connections;
    }

    /** `get_connections_for_pid`: refresh, then the sockets the pid owns. */
    method GetConnectionsForPid(pid: nat, netstat: Option<string>, lsof: Option<string>) returns (r: seq<NetworkConnection>)
      modifies this
      ensures (connections, processMap) == Snapshot(netstat, lsof)
      ensures r == OwnedBy(connections, pid)
    {
      Refresh(netstat, lsof);
      r := Filter(connections, (c: NetworkConnection) => c.pid == Some(pid));
    }

    /** `refresh`: both collections are cleared, so nothing of the previous state
        survives. */
    method Refresh(netstat: Option<string>, lsof: Option<string>)
      modifies this
      ensures (connections, processMap) == Snapshot(netstat, lsof)
    {
      connections := [];
      processMap := map[];
      ParseNetstat(netstat);
      AppendEmpty(NetstatConnections(netstat));
      MapProcessesWithLsof(lsof);
    }

    method ParseNetstat(netstat: Option<string>)
      modifies this
      ensures connections == old(connections) + NetstatConnections(netstat)
      ensures processMap == old(processMap)
    {
      if netstat.Some? {
        var output := netstat.value;
        ParseTcpConnections(output);
        ParseUdpConnections(output);
        AppendAssoc(old(connections), TcpConnections(output), UdpConnections(output));
      }
    }

    method ParseTcpConnections(output: string)
      modifies this
      ensures connections == old(connections) + TcpConnections(output)
      ensures processMap == old(processMap)
    {
      ParseLines(Lines(output), ParseTcpLine);
    }

    method ParseUdpConnections(output: string)
      modifies this
      ensures connections == old(connections) + UdpConnections(output)
      ensures processMap == old(processMap)
    {
      ParseLines(Lines(output), ParseUdpLine);
    }

    /** The loop both passes share: every line the pattern matches adds its socket. */
    method ParseLines(lines: seq<string>, parse: string -> Option<NetworkConnection>)
      modifies this
      ensures connections == old(connections) + FilterMap(lines, parse)
      ensures processMap == old(processMap)
    {
      for i := 0 to |lines|
        invariant connections == old(connections) + FilterMap(lines[..i], parse)
        invariant processMap == old(processMap)
      {
        var parsed := parse(lines[i]);
        FilterMapPrefix(lines, i, parse);
        AppendAssoc(old(connections), FilterMap(lines[..i], parse), OptionToSeq(parsed));
        if parsed.Some? {
          connections := connections + [parsed.value];
        }
      }
      assert lines[..|lines|] == lines;
    }

    method MapProcessesWithLsof(lsof: Option<string>)
      modifies this
      ensures (connections, processMap) == Attribute(old(connections), old(processMap), LsofLines(lsof))
    {
      var lines := LsofLines(lsof);
      for i := 0 to |lines|
        invariant (connections, processMap) == Attribute(old(connections), old(processMap), lines[..i])
      {
        var entry := LsofEntryOf(lines[i]);
        if entry.Some? {
          processMap := processMap[entry.value.pid := entry.value.command];
          MatchConnectionWithProcess(entry.value.pid, entry.value.command, entry.value.name);
        }
        assert lines[..i + 1][..i] == lines[..i];
      }
      assert lines[..|lines|] == lines;
    }

    /** Gives the first socket the NAME field fits to the process. */
    method MatchConnectionWithProcess(pid: nat, processName: string, name: string)
      modifies this
      ensures connections == ClaimFor(old(connections), LsofEntry(pid, processName, name))
      ensures processMap == old(processMap)
    {
      var target := MatchTarget(name);
      if target.Some? {
        ClaimFirst(pid, processName, target.value);
      }
    }

    /** The loop over the sockets, stopping at the first one that fits. */
    method ClaimFirst(pid: nat, processName: string, target: Target)
      modifies this
      ensures connections == Claimed(old(connections), target, pid, processName)
      ensures processMap == old(processMap)
    {
      var i := 0;
      while i < |connections|
        invariant i <= |connections| && connections == old(connections)
        invariant forall k :: 0 <= k < i ==> !Fits(connections[k], target)
      {
        if Fits(connections[i], target) {
          connections := connections[i := Owned(connections[i], pid, processName)];
          break;
        }
        i := i + 1;
      }
    }
  }
}
