/** Fixed-width unsigned integers used by labels, ports and counters. */
module Words {
  const MOD16: int := 0x1_0000
  const MOD32: int := 0x1_0000_0000
  const MOD64: int := 0x1_0000_0000_0000_0000

  type u16 = x: int | 0 <= x < 0x1_0000
  type u32 = x: int | 0 <= x < 0x1_0000_0000

  datatype Option<+T> = None | Some(value: T)
}

/**
 The names by which ports find each other. A C++ `std::string` is a Dafny
 string, one char a byte. Peer ID -> hub name -> port name -> socket ID, and back.
 */
module Naming {
  import opened Words

  // ---------- std::to_string on a non-negative integer, and std::stoi

  function Digit(d: nat): char
    requires d < 10
  {
    ('0' as int + d) as char
  }

  predicate IsDigit(c: char) {
    '0' <= c <= '9'
  }

  predicate AllDigits(s: string) {
    forall i :: 0 <= i < |s| ==> IsDigit(s[i])
  }

  function ToDecimal(n: nat): string {
    if n < 10 then [Digit(n)] else ToDecimal(n / 10) + [Digit(n % 10)]
  }

  predicate IsSpace(c: char) {
    c == ' ' || c == '\t' || c == '\n' || c == '\r' || c == 11 as char || c == 12 as char
  }

  function SkipSpace(s: string): string {
    if s != [] && IsSpace(s[0]) then SkipSpace(s[1..]) else s
  }

  // The value of the digits s starts with, continuing from acc.
  function DigitsValue(acc: nat, s: string): nat
    decreases s
  {
    if s == [] || !IsDigit(s[0]) then acc
    else DigitsValue(acc * 10 + (s[0] as int - '0' as int), s[1..])
  }

  // None where std::stoi throws: no digits, or a value outside 32-bit int.
  function Stoi(s: string): Option<int> {
    var t := SkipSpace(s);
    var negative := t != [] && t[0] == '-';
    var u := if t != [] && (t[0] == '-' || t[0] == '+') then t[1..] else t;
    if u == [] || !IsDigit(u[0]) then None
    else
      var v: int := if negative then 0 - DigitsValue(0, u) else DigitsValue(0, u);
      if -0x8000_0000 <= v < 0x8000_0000 then Some(v) else None
  }

  // ---------- std::getline on a std::stringstream

  datatype Stream = Stream(rest: string, good: bool)

  function Until(s: string, delim: char): string {
    if s == [] || s[0] == delim then [] else [s[0]] + Until(s[1..], delim)
  }

  // A read that reaches the end leaves the stream not good; a read from a
  // stream that is not good leaves the target string as it was.
  function Getline(st: Stream, target: string, delim: char): (string, Stream) {
    if !st.good then (target, st)
    else
      var line := Until(st.rest, delim);
      if |line| < |st.rest| then (line, Stream(st.rest[|line| + 1..], true))
      else (line, Stream([], false))
  }

  // ---------- hub names, port names, socket IDs

  datatype Transport = Inproc | Ipc | Tcp

  function TransportToString(transport: Transport): string
    requires transport.Inproc?
  {
    "inproc://"
  }

  function PeerIDtoHubName(peerID: u16): string {
    ToDecimal(peerID)
  }

  function HubNametoPeerID(hubName: string): Option<u16> {
    match Stoi(hubName)
    case None => None
    case Some(v) => Some(v % MOD16)
  }

  function PortNameOf(hubName: string, portID: u16): string {
    hubName + "-" + ToDecimal(portID)
  }

  // What SetPortName stores: the hub name, and the port ID unless stoi throws.
  function ParsePortName(portName: string): (string, Option<u16>) {
    var (hub, st1) := Getline(Stream(portName, true), "", '-');
    var (digits, _) := Getline(st1, "", '-');
    match Stoi(digits)
    case None => (hub, None)
    case Some(v) => (hub, Some(v % MOD16))
  }

  function PortNameToSocketID(portName: string, transport: Transport): string
    requires transport.Inproc?
  {
    TransportToString(transport) + portName
  }

  function PortNameFromSocketID(socketID: string): string {
    var (s1, st1) := Getline(Stream(socketID, true), "", '/');
    var (s2, st2) := Getline(st1, s1, '/');
    var (s3, _) := Getline(st2, s2, '/');
    s3
  }

  class PortSpecification {
    var hubName: string
    var portID: u16

    constructor ()
      ensures hubName == ""
    {
      hubName := "";
      portID := 0;
    }

    constructor FromParts(hubName: string, portID: u16)
      ensures this.hubName == hubName && this.portID == portID
    {
      this.hubName, this.portID := hubName, portID;
    }

    function GetPortName(): string
      reads this
    {
      PortNameOf(hubName, portID)
    }

    // Returns false where std::stoi throws; the hub name is already stored then.
    method SetPortName(portName: string) returns (ok: bool)
      modifies this
      ensures hubName == ParsePortName(portName).0
      ensures ok == ParsePortName(portName).1.Some?
      ensures portID == if ok then ParsePortName(portName).1.value else old(portID)
    {
      var stream := Stream(portName, true);
      var temp := "";
      var (hub, st1) := Getline(stream, "", '-');
      hubName := hub;
      var (digits, _) := Getline(st1, temp, '-');
      var number := Stoi(digits);
      ok := number.Some?;
      if ok {
        portID := number.value % MOD16;
      }
    }
  }

  // The socket of a hub's port.
  function HubSocket(hubName: string, portID: u16): string {
    PortNameToSocketID(PortNameOf(hubName, portID), Inproc)
  }

  lemma HubSocketInjective(hubName: string, i: u16, j: u16)
    ensures HubSocket(hubName, i) == HubSocket(hubName, j) ==> i == j
  {
    hide PortNameOf;
    PortNameInjective(hubName, i, j);
    var n := |TransportToString(Inproc)|;
    assert HubSocket(hubName, i)[n..] == PortNameOf(hubName, i);
    assert HubSocket(hubName, j)[n..] == PortNameOf(hubName, j);
  }

  // The address of a peer's port, and what a receiver reads back from it.

  function SocketID(peerID: u16, portID: u16): string {
    HubSocket(PeerIDtoHubName(peerID), portID)
  }

  datatype Address = Address(peer: u16, port: u16)

  function Decoded(socketID: string): Option<Address> {
    var (hub, port) := ParsePortName(PortNameFromSocketID(socketID));
    var peer := HubNametoPeerID(hub);
    if port.Some? && peer.Some? then Some(Address(peer.value, port.value)) else None
  }

  // ---------- printing and reading numbers

  lemma {:induction false} DigitsValueAppend(acc: nat, s: string, c: char)
    requires AllDigits(s) && IsDigit(c)
    ensures DigitsValue(acc, s + [c]) == DigitsValue(acc, s) * 10 + (c as int - '0' as int)
    decreases s
  {
    if s == [] {
      assert [c][1..] == [];
      assert DigitsValue(acc, [c]) == DigitsValue(acc * 10 + (c as int - '0' as int), []);
      assert s + [c] == [c];
    } else {
      assert (s + [c])[1..] == s[1..] + [c];
      DigitsValueAppend(acc * 10 + (s[0] as int - '0' as int), s[1..], c);
    }
  }

  lemma {:induction false} ToDecimalDigits(n: nat)
    ensures ToDecimal(n) != [] && AllDigits(ToDecimal(n))
    ensures DigitsValue(0, ToDecimal(n)) == n
  {
    if n < 10 {
      assert ToDecimal(n)[1..] == [];
      assert DigitsValue(0, ToDecimal(n)) == DigitsValue(n, []);
    } else {
      ToDecimalDigits(n / 10);
      DigitsValueAppend(0, ToDecimal(n / 10), Digit(n % 10));
    }
  }

  // stoi undoes to_string on every value an int can hold.
  lemma StoiOfToDecimal(n: nat)
    requires n < 0x8000_0000
    ensures Stoi(ToDecimal(n)) == Some(n)
  {
    ToDecimalDigits(n);
    assert IsDigit(ToDecimal(n)[0]);
    assert SkipSpace(ToDecimal(n)) == ToDecimal(n);
  }

  lemma {:induction false} DigitsValueStops(acc: nat, s: string, rest: string)
    requires AllDigits(s) && (rest == [] || !IsDigit(rest[0]))
    ensures DigitsValue(acc, s + rest) == DigitsValue(acc, s)
    decreases s
  {
    if s == [] {
      assert s + rest == rest;
    } else {
      assert (s + rest)[1..] == s[1..] + rest;
      DigitsValueStops(acc * 10 + (s[0] as int - '0' as int), s[1..], rest);
    }
  }

  lemma {:induction false} SkipSpaceOf(space: string, t: string)
    requires (forall c :: c in space ==> IsSpace(c)) && (t == [] || !IsSpace(t[0]))
    ensures SkipSpace(space + t) == t
  {
    if space == [] {
      assert space + t == t;
    } else {
      assert (space + t)[1..] == space[1..] + t;
      SkipSpaceOf(space[1..], t);
    }
  }

  // stoi reads leading space, one sign and the digits behind it, and nothing after them;
  // it throws if there is no digit, or if the number does not fit 32 bits.
  lemma StoiReads(space: string, sign: string, n: nat, rest: string)
    requires (forall c :: c in space ==> IsSpace(c)) && sign in {"", "+", "-"} && (rest == [] || !IsDigit(rest[0]))
    ensures var v: int := if sign == "-" then 0 - n else n;
            Stoi(space + sign + ToDecimal(n) + rest) ==
            if -0x8000_0000 <= v < 0x8000_0000 then Some(v) else None
  {
    hide ToDecimal, DigitsValue, SkipSpace;
    ToDecimalDigits(n);
    var digits := ToDecimal(n);
    var t := sign + digits + rest;
    assert IsDigit(digits[0]);
    assert t[0] == if sign == "" then digits[0] else sign[0];
    SkipSpaceOf(space, t);
    assert space + sign + digits + rest == space + t;
    DigitsValueStops(0, digits, rest);
    assert (if sign == "" then t else t[1..]) == digits + rest;
  }

  lemma StoiThrows(space: string, sign: string, rest: string)
    requires (forall c :: c in space ==> IsSpace(c)) && sign in {"", "+", "-"}
    requires rest == [] || (!IsDigit(rest[0]) && (sign == "" ==> !IsSpace(rest[0]) && rest[0] != '+' && rest[0] != '-'))
    ensures Stoi(space + sign + rest) == None
  {
    hide SkipSpace;
    var t := sign + rest;
    SkipSpaceOf(space, t);
    assert space + sign + rest == space + t;
    assert (if sign == "" then t else t[1..]) == rest;
  }

  lemma PortNameInjective(hubName: string, i: u16, j: u16)
    ensures PortNameOf(hubName, i) == PortNameOf(hubName, j) ==> i == j
  {
    StoiOfToDecimal(i);
    StoiOfToDecimal(j);
    var n := |hubName + "-"|;
    assert PortNameOf(hubName, i)[n..] == ToDecimal(i);
    assert PortNameOf(hubName, j)[n..] == ToDecimal(j);
  }

  // ---------- splitting at a delimiter

  lemma {:induction false} UntilDelim(s: string, t: string, delim: char)
    requires delim !in s
    ensures Until(s, delim) == s
    ensures Until(s + [delim] + t, delim) == s
  {
    if s != [] {
      UntilDelim(s[1..], t, delim);
      assert (s + [delim] + t)[1..] == s[1..] + [delim] + t;
    }
  }

  lemma {:induction false} UntilAvoidsDelim(s: string, delim: char)
    ensures delim !in Until(s, delim)
    ensures delim in s ==> |Until(s, delim)| < |s|
  {
    if s != [] && s[0] != delim {
      UntilAvoidsDelim(s[1..], delim);
    }
  }

  lemma ParseOfPortName(hubName: string, portID: u16)
    requires '-' !in hubName
    ensures ParsePortName(PortNameOf(hubName, portID)) == (hubName, Some(portID))
  {
    var digits := ToDecimal(portID);
    var name := PortNameOf(hubName, portID);
    ToDecimalDigits(portID);
    StoiOfToDecimal(portID);
    UntilDelim(hubName, digits, '-');
    assert name == hubName + ['-'] + digits;
    assert name[|hubName| + 1..] == digits;
    assert '-' !in digits;
    UntilDelim(digits, [], '-');
  }

  // A port name reads back to the hub name and port ID it was printed from
  // exactly when the hub name holds no '-'.
  lemma PortNameRoundTrip(hubName: string, portID: u16)
    ensures ParsePortName(PortNameOf(hubName, portID)) == (hubName, Some(portID)) <==> '-' !in hubName
  {
    if '-' !in hubName {
      ParseOfPortName(hubName, portID);
    } else {
      UntilAvoidsDelim(PortNameOf(hubName, portID), '-');
    }
  }

  // A name without a dash is all hub name, and has no port ID to read.
  lemma ParseOfNoDash(name: string)
    requires '-' !in name
    ensures ParsePortName(name) == (name, None)
  {
    UntilDelim(name, [], '-');
  }

  // A socket ID with fewer than two slashes is cut at the first of them at most: a read
  // that finds the stream at its end leaves what was read before.
  lemma FromShortSocketID(a: string, b: string)
    requires '/' !in a && '/' !in b
    ensures PortNameFromSocketID(a) == a && PortNameFromSocketID(a + ['/'] + b) == b
  {
    UntilDelim(a, b, '/');
    UntilDelim(b, [], '/');
    assert (a + ['/'] + b)[|a| + 1..] == b;
  }

  // What the third read of a socket ID returns.
  lemma FromSocketID(portName: string)
    ensures PortNameFromSocketID(PortNameToSocketID(portName, Inproc)) == Until(portName, '/')
  {
    var id := PortNameToSocketID(portName, Inproc);
    assert id == "inproc:" + ['/'] + ("/" + portName);
    UntilDelim("inproc:", "/" + portName, '/');
    assert id[|"inproc:"| + 1..] == "/" + portName;
    assert ("/" + portName)[1..] == portName;
    assert Until("/" + portName, '/') == [];
  }

  // A socket ID reads back to its port name exactly when that holds no '/'.
  lemma SocketIDRoundTrip(portName: string)
    ensures PortNameFromSocketID(PortNameToSocketID(portName, Inproc)) == portName <==> '/' !in portName
  {
    FromSocketID(portName);
    if '/' !in portName {
      UntilDelim(portName, [], '/');
    } else {
      UntilAvoidsDelim(portName, '/');
    }
  }

  lemma {:induction false} UntilIsPrefix(s: string, delim: char)
    ensures Until(s, delim) <= s
  {
    if s != [] && s[0] != delim {
      UntilIsPrefix(s[1..], delim);
      assert s == [s[0]] + s[1..];
    }
  }

  // The whole way from hub name and port ID to socket ID and back succeeds
  // exactly when the hub name holds neither delimiter.
  lemma HubAndPortRoundTrip(hubName: string, portID: u16)
    ensures ParsePortName(PortNameFromSocketID(PortNameToSocketID(PortNameOf(hubName, portID), Inproc)))
            == (hubName, Some(portID))
       <==> '-' !in hubName && '/' !in hubName
  {
    var name := PortNameOf(hubName, portID);
    var read := PortNameFromSocketID(PortNameToSocketID(name, Inproc));
    ToDecimalDigits(portID);
    FromSocketID(name);
    PortNameRoundTrip(hubName, portID);
    if '/' !in hubName {
      assert '/' !in name;
      UntilDelim(name, [], '/');
      assert read == name;
    } else {
      // The name was cut inside the hub name, so no prefix of it equals the hub name.
      UntilAvoidsDelim(name, '/');
      UntilIsPrefix(read, '-');
      assert ParsePortName(read).0 <= read;
      assert '/' !in ParsePortName(read).0;
    }
  }

  lemma HubNameRoundTrip(peerID: u16)
    ensures HubNametoPeerID(PeerIDtoHubName(peerID)) == Some(peerID)
    ensures '-' !in PeerIDtoHubName(peerID) && '/' !in PeerIDtoHubName(peerID)
  {
    ToDecimalDigits(peerID);
    StoiOfToDecimal(peerID);
  }

  lemma DecodedOf(socketID: string, hubName: string, portID: u16, peerID: u16)
    requires ParsePortName(PortNameFromSocketID(socketID)) == (hubName, Some(portID))
    requires HubNametoPeerID(hubName) == Some(peerID)
    ensures Decoded(socketID) == Some(Address(peerID, portID))
  {
  }

  // Every 16-bit peer and port ID survives the way to the wire and back.
  lemma SocketIDDecodes(peerID: u16, portID: u16)
    ensures Decoded(SocketID(peerID, portID)) == Some(Address(peerID, portID))
  {
    var hub := PeerIDtoHubName(peerID);
    HubNameRoundTrip(peerID);
    HubAndPortRoundTrip(hub, portID);
    DecodedOf(SocketID(peerID, portID), hub, portID, peerID);
  }

  // Distinct ports of distinct peers never share a socket ID.
  lemma SocketIDInjective(p: u16, i: u16, q: u16, j: u16)
    ensures SocketID(p, i) == SocketID(q, j) <==> p == q && i == j
  {
    SocketIDDecodes(p, i);
    SocketIDDecodes(q, j);
  }
}
