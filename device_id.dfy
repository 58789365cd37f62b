/**
 * parseDeviceId: splits an adb device id such as "127.0.0.1:5555",
 * "www.domain.com:1234" or "[fd7a::1]:5555" into host and port, with 5555
 * for a missing or out-of-range port.
 * Source: desktop/src/utils/device/index.js
 */
module DeviceId {
  import opened Wrappers
  import opened Strings

  const DefaultPort: nat := 5555

  datatype DeviceAddress = DeviceAddress(host: string, port: nat)

  /** The characters `.` in a regular expression does not match. */
  predicate IsLineTerminator(c: char) {
    c == '\n' || c == '\r' || c == '\U{2028}' || c == '\U{2029}'
  }

  /** The text matches (?::(\d+))?$ with the group present. */
  predicate PortSuffix(rest: string) {
    |rest| >= 2 && rest[0] == ':' && AllDigits(rest[1..])
  }

  /** Number.parseInt(portStr, 10), kept when 0 < port <= 65535 and replaced by 5555 otherwise. */
  function PortOf(rest: string): (r: nat)
    ensures 1 <= r <= 65535
    ensures PortSuffix(rest) && 1 <= DigitsValue(rest[1..]) <= 65535 ==> r == DigitsValue(rest[1..])
  {
    if PortSuffix(rest) && 1 <= DigitsValue(rest[1..]) <= 65535 then DigitsValue(rest[1..]) else DefaultPort
  }

  /**
   * The lazy group (.+?) of /^(.+?)(?::(\d+))?$/: the shortest host length,
   * from k on, after which the input ends or only a port remains. None when a
   * line terminator comes first.
   */
  function LazyHostLength(input: string, k: nat): (r: Option<nat>)
    requires 1 <= k <= |input|
    ensures r.Some? ==> k <= r.value <= |input| && (r.value == |input| || PortSuffix(input[r.value..]))
    ensures r.Some? ==> forall j :: k <= j < r.value ==> j < |input| && !PortSuffix(input[j..])
    decreases |input| - k
  {
    if IsLineTerminator(input[k - 1]) then None
    else if k == |input| || PortSuffix(input[k..]) then Some(k)
    else LazyHostLength(input, k + 1)
  }

  /** The match of /^\[([^\]]+)\](?::(\d+))?$/: the position of the closing bracket. */
  function BracketEnd(input: string): (r: Option<nat>)
    ensures r.Some? ==> 2 <= r.value < |input| && input[0] == '[' && input[r.value] == ']'
    ensures r.Some? ==> ']' !in input[1..r.value]
    ensures r.Some? ==> r.value == |input| - 1 || PortSuffix(input[r.value + 1..])
  {
    if |input| == 0 || input[0] != '[' then None
    else
      var j := IndexOfChar(input, ']');
      if j < 2 then None
      else if j == |input| - 1 || PortSuffix(input[j + 1..]) then
        assert forall i :: 1 <= i < j ==> input[1..j][i - 1] == input[i];
        Some(j)
      else None
  }

  /** parseDeviceId */
  function ParseDeviceId(s: string): (r: DeviceAddress)
    ensures 1 <= r.port <= 65535
    ensures IsBlank(s) ==> r == DeviceAddress("", DefaultPort)
    ensures !IsBlank(s) ==> r.host != [] && StartsWith(Trim(s), r.host)
  {
    var input := Trim(s);
    if input == [] then DeviceAddress("", DefaultPort) else ParseTrimmed(input)
  }

  /** The two regular expressions of parseDeviceId tried in turn on the trimmed, non-empty input. */
  function ParseTrimmed(input: string): (r: DeviceAddress)
    requires input != []
    ensures 1 <= r.port <= 65535
    ensures r.host != [] && StartsWith(input, r.host)
  {
    match BracketEnd(input)
    case Some(j) => DeviceAddress(input[..j + 1], PortOf(input[j + 1..]))
    case None =>
      match LazyHostLength(input, 1)
      case Some(k) => DeviceAddress(input[..k], PortOf(input[k..]))
      case None => DeviceAddress(input, DefaultPort)
  }

  /** The device id adb shows for a host and port. */
  function FormatDeviceId(host: string, port: nat): string {
    host + ":" + NatToString(port)
  }

  /** A host name, IPv4 address or bracketed IPv6 address that the parser accepts back unchanged. */
  predicate PlainHost(host: string) {
    host != [] && host[0] != '[' && ':' !in host && !IsWhitespace(host[0])
    && forall i :: 0 <= i < |host| ==> !IsLineTerminator(host[i])
  }

  lemma LazyHostLengthOfPlain(host: string, suffix: string, k: nat)
    requires PlainHost(host) && 1 <= k <= |host|
    requires suffix == [] || PortSuffix(suffix)
    ensures LazyHostLength(host + suffix, k) == Some(|host|)
    decreases |host| - k
  {
    var input := host + suffix;
    assert input[k - 1] == host[k - 1];
    if k < |host| {
      assert input[k..][0] == host[k];
      LazyHostLengthOfPlain(host, suffix, k + 1);
    } else {
      assert input[k..] == suffix;
    }
  }

  /** An input without a bracketed head whose lazy host ends at k parses as that host and the port after it. */
  lemma ParseTrimmedPlain(input: string, k: nat)
    requires input != [] && BracketEnd(input) == None && LazyHostLength(input, 1) == Some(k)
    ensures ParseTrimmed(input) == DeviceAddress(input[..k], PortOf(input[k..]))
  {
    assert LazyHostLength(input, 1).value == k;
  }

  /** A plain host followed by a port suffix parses as that host and that port. */
  lemma ParsePlainSuffix(host: string, suffix: string)
    requires PlainHost(host) && PortSuffix(suffix)
    ensures ParseDeviceId(host + suffix) == DeviceAddress(host, PortOf(suffix))
  {
    var s := host + suffix;
    assert IsDigit(suffix[1..][|suffix| - 2]);
    assert s[0] == host[0] && s[|s| - 1] == suffix[|suffix| - 1];
    TrimUnchanged(s);
    assert BracketEnd(s) == None;
    LazyHostLengthOfPlain(host, suffix, 1);
    assert s[..|host|] == host && s[|host|..] == suffix;
    assert ParseDeviceId(s) == ParseTrimmed(s);
    ParseTrimmedPlain(s, |host|);
  }

  /** Parsing "host:port" for a plain host and a valid port gives back host and port. */
  lemma {:induction false} ParseFormatRoundTrip(host: string, port: nat)
    requires PlainHost(host) && 1 <= port <= 65535
    ensures ParseDeviceId(FormatDeviceId(host, port)) == DeviceAddress(host, port)
  {
    var suffix := ":" + NatToString(port);
    PortSuffixOfPort(port);
    assert FormatDeviceId(host, port) == host + suffix;
    ParsePlainSuffix(host, suffix);
  }

  /** A plain host without a port gets the default port. */
  lemma {:induction false} ParseHostOnly(host: string)
    requires PlainHost(host) && !IsWhitespace(host[|host| - 1])
    ensures ParseDeviceId(host) == DeviceAddress(host, DefaultPort)
  {
    TrimUnchanged(host);
    LazyHostLengthOfPlain(host, [], 1);
    assert host + [] == host;
    assert host[|host|..] == [];
  }

  lemma BracketEndOfIpv6(addr: string, suffix: string)
    requires addr != [] && ']' !in addr && PortSuffix(suffix)
    ensures BracketEnd("[" + addr + "]" + suffix) == Some(|addr| + 1)
  {
    var s := "[" + addr + "]" + suffix;
    var j := |addr| + 1;
    assert s[j] == ']';
    forall i | 0 <= i < j ensures s[i] != ']' {
      if i > 0 { assert s[i] == addr[i - 1]; }
    }
    assert IndexOfChar(s, ']') == j;
    assert s[j + 1..] == suffix;
  }

  /** The text ":" + port that FormatDeviceId appends is a port suffix that reads back as the port. */
  lemma PortSuffixOfPort(port: nat)
    requires 1 <= port <= 65535
    ensures PortSuffix(":" + NatToString(port)) && PortOf(":" + NatToString(port)) == port
  {
    var digits := NatToString(port);
    var suffix := ":" + digits;
    assert suffix[1..] == digits;
    DigitsValueOfNatToString(port);
  }

  /** An input with a bracketed head parses as that head and the port after it. */
  lemma ParseTrimmedBracketed(input: string, j: nat)
    requires input != [] && BracketEnd(input) == Some(j)
    ensures ParseTrimmed(input) == DeviceAddress(input[..j + 1], PortOf(input[j + 1..]))
  {
    assert BracketEnd(input).value == j;
  }

  /** An input with no surrounding white space and a bracketed head parses as that head and the port after it. */
  lemma ParseBracketedAt(s: string, j: nat)
    requires s != [] && !IsWhitespace(s[0]) && !IsWhitespace(s[|s| - 1]) && BracketEnd(s) == Some(j)
    ensures ParseDeviceId(s) == DeviceAddress(s[..j + 1], PortOf(s[j + 1..]))
  {
    TrimUnchanged(s);
    assert ParseDeviceId(s) == ParseTrimmed(s);
    ParseTrimmedBracketed(s, j);
  }

  /** A bracketed address followed by a port suffix parses as the bracketed address and that port. */
  lemma ParseBracketedSuffix(addr: string, suffix: string)
    requires addr != [] && ']' !in addr && PortSuffix(suffix)
    ensures ParseDeviceId("[" + addr + "]" + suffix) == DeviceAddress("[" + addr + "]", PortOf(suffix))
  {
    var s := "[" + addr + "]" + suffix;
    assert IsDigit(suffix[1..][|suffix| - 2]);
    assert s[0] == '[' && s[|s| - 1] == suffix[|suffix| - 1];
    BracketEndOfIpv6(addr, suffix);
    assert s[..|addr| + 2] == "[" + addr + "]" && s[|addr| + 2..] == suffix;
    ParseBracketedAt(s, |addr| + 1);
  }

  /** Parsing "[addr]:port" gives back the bracketed address and the port. */
  lemma {:induction false} ParseIpv6RoundTrip(addr: string, port: nat)
    requires addr != [] && ']' !in addr && 1 <= port <= 65535
    ensures ParseDeviceId(FormatDeviceId("[" + addr + "]", port)) == DeviceAddress("[" + addr + "]", port)
  {
    var suffix := ":" + NatToString(port);
    PortSuffixOfPort(port);
    assert FormatDeviceId("[" + addr + "]", port) == "[" + addr + "]" + suffix;
    ParseBracketedSuffix(addr, suffix);
  }
}
