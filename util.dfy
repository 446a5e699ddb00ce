/**
 * Address splitting helpers: `ParseAddr` of util/util.go and `IPFromAddr`
 * of pkg/util/net.go.  A `net.Addr` is represented by its `String()` text.
 */
module Util {
  import opened GoStrings
  import opened Strconv

  /**
   * ParseAddr: the host is the text before the first ':' (all of it when
   * there is none); the port is the second ':'-separated field parsed as a
   * 16-bit decimal, with strconv's error results (0 on a syntax error,
   * 65535 when the value does not fit); later fields are ignored.
   */
  function ParseAddr(addr: string): (r: (string, nat))
    ensures r.1 <= MaxUint16
    ensures ':' !in r.0
    ensures ':' !in addr ==> r == (addr, 0)
    ensures ':' in addr ==> addr[..IndexOf(addr, ':')] == r.0
    ensures ':' in addr ==> r.1 == ParseUint(Split(addr, ':')[1], MaxUint16)
  {
    var strs := Split(addr, ':');
    SplitFirstPiece(addr, ':');
    var ip := strs[0];
    var port := if |strs| > 1 then ParseUint(strs[1], MaxUint16) else 0;
    (ip, port)
  }

  /** IPFromAddr: "" for an empty address, otherwise the text before the first ':'. */
  function IPFromAddr(addr: string): (ip: string)
    ensures ':' !in ip
    ensures addr == "" ==> ip == ""
    ensures ':' !in addr ==> ip == addr
    ensures ':' in addr ==> ip + [':'] == addr[..IndexOf(addr, ':') + 1]
  {
    if |addr| == 0 then ""
    else
      var addrs := SplitTwo(addr, ':');
      addrs[0]
  }

  /** The two helpers agree on the host part of every address. */
  lemma HostPartsAgree(addr: string)
    ensures IPFromAddr(addr) == ParseAddr(addr).0
  {
    SplitFirstPiece(addr, ':');
  }

  /** "host:port" with a port that fits 16 bits splits back into host and port. */
  lemma ParseAddrRoundTrip(host: string, port: nat)
    requires ':' !in host && port <= MaxUint16
    ensures ParseAddr(host + ":" + FormatNat(port)) == (host, port)
  {
    SplitAround(host, ':', FormatNat(port));
    assert host + ":" + FormatNat(port) == host + [':'] + FormatNat(port);
    FormatNatDigits(port);
    SplitNoSep(FormatNat(port), ':');
    ParseUintFormat(port, MaxUint16);
  }

  /** A port past 16 bits reads as 65535, not as 0 and not wrapped. */
  lemma ParseAddrSaturates(host: string, port: nat)
    requires ':' !in host && port > MaxUint16
    ensures ParseAddr(host + ":" + FormatNat(port)) == (host, MaxUint16)
  {
    SplitAround(host, ':', FormatNat(port));
    assert host + ":" + FormatNat(port) == host + [':'] + FormatNat(port);
    FormatNatDigits(port);
    SplitNoSep(FormatNat(port), ':');
    ParseUint16Saturates(port);
  }
}
