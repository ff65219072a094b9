/** The `ip:port` text that names an endpoint: how `address` and `udp_socket` print it, how `address`
    reads it back, and which texts survive the trip. */
module Addresses {
  import opened Sequences
  import opened Decimal

  type Octet = n: nat | n < 0x100
  type Port = n: nat | n < 0x1_0000

  datatype Ipv4 = Ipv4(a: Octet, b: Octet, c: Octet, d: Octet)
  datatype Endpoint = Endpoint(ip: Ipv4, port: Port)

  datatype Address = Address(ip: string, port: Port, addr: string)

  function Find(s: string, c: char): (pos: nat)
    ensures pos <= |s|
    ensures pos < |s| ==> s[pos] == c
    ensures c !in s[..pos]
  {
    if s == "" || s[0] == c then 0 else 1 + Find(s[1..], c)
  }

  function AddressOf(ip: string, port: Port): Address {
    Address(ip, port, ip + ":" + ToDecimal(port))
  }

  /** The one-argument constructor.  A text without a colon leaves the default members; a port outside
      `unsigned short` is cut down by the assignment. */
  function ParseAddress(text: string): Result<Address, StoiError> {
    var pos := Find(text, ':');
    if pos == |text| then Ok(Address("", 0, ""))
    else
      match Stoi(text[pos + 1..])
      case Err(e) => Err(e)
      case Ok(value) => Ok(Address(text[..pos], value % 0x1_0000, text))
  }

  function Join(parts: seq<string>, sep: char): string
    requires parts != []
  {
    if |parts| == 1 then parts[0] else parts[0] + [sep] + Join(parts[1..], sep)
  }

  function OctetTexts(ip: Ipv4): seq<string> {
    [ToDecimal(ip.a), ToDecimal(ip.b), ToDecimal(ip.c), ToDecimal(ip.d)]
  }

  /** Dotted decimal text. */
  function Ipv4Text(ip: Ipv4): string {
    Join(OctetTexts(ip), '.')
  }

  /** The key under which a client's session is cached. */
  function RemoteAddress(e: Endpoint): string {
    Ipv4Text(e.ip) + ":" + ToDecimal(e.port)
  }

  /** `from_string`, restricted to dotted decimal text written without superfluous digits. */
  function OctetFromString(text: string): Option<Octet> {
    if text == "" || DigitRun(text) < |text| then None
    else
      var value := (assert text[..|text|] == text; Value(text));
      if value < 0x100 && ToDecimal(value) == text then Some(value) else None
  }

  /** The text cut at each `sep`. */
  function Fields(text: string, sep: char): (parts: seq<string>)
    ensures |parts| > 0
    decreases |text|
  {
    var pos := Find(text, sep);
    if pos == |text| then [text] else [text[..pos]] + Fields(text[pos + 1..], sep)
  }

  function Ipv4FromString(text: string): Option<Ipv4> {
    var parts := Fields(text, '.');
    if |parts| != 4 then None else
    match (OctetFromString(parts[0]), OctetFromString(parts[1]),
           OctetFromString(parts[2]), OctetFromString(parts[3]))
    case (Some(a), Some(b), Some(c), Some(d)) => Some(Ipv4(a, b, c, d))
    case _ => None
  }

  /** Where `send_to_client` sends: the endpoint rebuilt from the stored address, or nowhere when
      `from_string` throws. */
  function Destination(address: Address): Option<Endpoint> {
    match Ipv4FromString(address.ip)
    case None => None
    case Some(ip) => Some(Endpoint(ip, address.port))
  }

  lemma {:induction false} FindSeparator(left: string, sep: char, right: string)
    requires sep !in left
    ensures Find(left + [sep] + right, sep) == |left|
    ensures (left + [sep] + right)[..|left|] == left
    ensures (left + [sep] + right)[|left| + 1..] == right
  {
    if left != "" {
      assert (left + [sep] + right)[1..] == left[1..] + [sep] + right;
      FindSeparator(left[1..], sep, right);
    }
  }

  lemma DecimalFree(n: nat)
    ensures ':' !in ToDecimal(n) && '.' !in ToDecimal(n)
  {
    DecimalIsDigits(n);
  }

  lemma OctetRoundTrip(n: Octet)
    ensures OctetFromString(ToDecimal(n)) == Some(n)
  {
    DecimalIsDigits(n);
    DigitRunOfDigits(ToDecimal(n));
    ValueOfDecimal(n);
  }

  /** Cutting at the separator undoes joining with it. */
  lemma {:induction false} FieldsOfJoin(parts: seq<string>, sep: char)
    requires parts != [] && forall i :: 0 <= i < |parts| ==> sep !in parts[i]
    ensures Fields(Join(parts, sep), sep) == parts
  {
    if |parts| == 1 {
      assert parts == [parts[0]];
    } else {
      var rest := Join(parts[1..], sep);
      FieldsOfJoin(parts[1..], sep);
      FindSeparator(parts[0], sep, rest);
      assert parts == [parts[0]] + parts[1..];
    }
  }

  lemma {:induction false} JoinFree(parts: seq<string>, sep: char, c: char)
    requires parts != [] && c != sep && forall i :: 0 <= i < |parts| ==> c !in parts[i]
    ensures c !in Join(parts, sep)
  {
    if |parts| > 1 { JoinFree(parts[1..], sep, c); }
  }

  lemma OctetTextsFree(ip: Ipv4)
    ensures forall i :: 0 <= i < 4 ==> '.' !in OctetTexts(ip)[i] && ':' !in OctetTexts(ip)[i]
  {
    DecimalFree(ip.a); DecimalFree(ip.b); DecimalFree(ip.c); DecimalFree(ip.d);
  }

  /** Dotted decimal text names one address. */
  lemma Ipv4RoundTrip(ip: Ipv4)
    ensures Ipv4FromString(Ipv4Text(ip)) == Some(ip)
  {
    OctetTextsFree(ip);
    FieldsOfJoin(OctetTexts(ip), '.');
    OctetRoundTrip(ip.a); OctetRoundTrip(ip.b); OctetRoundTrip(ip.c); OctetRoundTrip(ip.d);
  }

  /** Printing an address and reading it back restores it exactly when its host part has no colon. */
  lemma AddressRoundTrip(ip: string, port: Port)
    ensures ParseAddress(AddressOf(ip, port).addr) == Ok(AddressOf(ip, port)) <==> ':' !in ip
  {
    hide ToDecimal, Stoi;
    var text := AddressOf(ip, port).addr;
    assert text == ip + [':'] + ToDecimal(port);
    if ':' !in ip {
      FindSeparator(ip, ':', ToDecimal(port));
      StoiOfDecimal(port);
    } else {
      var at := Find(ip, ':');
      var k :| 0 <= k < |ip| && ip[k] == ':';
      assert at < |ip|;
      var tail := ip[at + 1..] + [':'] + ToDecimal(port);
      assert ip == ip[..at] + [':'] + ip[at + 1..];
      assert text == ip[..at] + [':'] + tail;
      FindSeparator(ip[..at], ':', tail);
    }
  }

  /** A session key is read back into the address of the endpoint it was printed from, and a reply to
      that address goes to that endpoint. */
  lemma KeyRoundTrip(e: Endpoint)
    ensures ParseAddress(RemoteAddress(e)) == Ok(AddressOf(Ipv4Text(e.ip), e.port))
    ensures AddressOf(Ipv4Text(e.ip), e.port).addr == RemoteAddress(e)
    ensures Destination(AddressOf(Ipv4Text(e.ip), e.port)) == Some(e)
  {
    Ipv4RoundTrip(e.ip);
    OctetTextsFree(e.ip);
    JoinFree(OctetTexts(e.ip), '.', ':');
    AddressRoundTrip(Ipv4Text(e.ip), e.port);
  }

  /** Distinct client endpoints have distinct session keys. */
  lemma KeyInjective(e: Endpoint, f: Endpoint)
    requires RemoteAddress(e) == RemoteAddress(f)
    ensures e == f
  {
    KeyRoundTrip(e);
    KeyRoundTrip(f);
  }

  /** The one-argument constructor cuts at the first colon, whatever the text; the port is what `stoi` reads,
      cut down to sixteen bits; without a colon nothing is set. */
  lemma ParsesAtFirstColon(ip: string, rest: string)
    requires ':' !in ip
    ensures ParseAddress(ip) == Ok(Address("", 0, ""))
    ensures ParseAddress(ip + ":" + rest) ==
            match Stoi(rest)
            case Err(e) => Err(e)
            case Ok(value) => Ok(Address(ip, value % 0x1_0000, ip + ":" + rest))
  {
    FindSeparator(ip, ':', rest);
    hide Stoi;
  }

  lemma {:induction false} JoinOfFields(text: string, sep: char)
    ensures Join(Fields(text, sep), sep) == text
    decreases |text|
  {
    var pos := Find(text, sep);
    if pos < |text| {
      var rest := Fields(text[pos + 1..], sep);
      JoinOfFields(text[pos + 1..], sep);
      assert ([text[..pos]] + rest)[1..] == rest;
      assert text == text[..pos] + [sep] + text[pos + 1..];
    }
  }

  lemma OctetRead(text: string)
    ensures OctetFromString(text).Some? ==> ToDecimal(OctetFromString(text).value) == text
  {}

  /** A text is read as an address exactly when it is that address's dotted decimal text. */
  lemma Ipv4ReadsOnlyItsText(text: string, ip: Ipv4)
    ensures Ipv4FromString(text) == Some(ip) <==> text == Ipv4Text(ip)
  {
    if text == Ipv4Text(ip) { Ipv4RoundTrip(ip); }
    if Ipv4FromString(text) == Some(ip) {
      var parts := Fields(text, '.');
      JoinOfFields(text, '.');
      OctetRead(parts[0]); OctetRead(parts[1]); OctetRead(parts[2]); OctetRead(parts[3]);
      hide Join, Fields, OctetFromString, ToDecimal;
      assert parts == OctetTexts(ip);
    }
  }
}
