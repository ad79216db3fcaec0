/** Destination addresses in the format of section 5 of RFC 1928: encoder, decoder and when they agree. */
module SocksAddr {
  import opened Wrappers

  type byte = x: int | 0 <= x < 256
  type port = x: int | 0 <= x < 0x1_0000

  const ATYP_IPV4: byte := 1
  const ATYP_DOMAIN_NAME: byte := 3
  const ATYP_IPV6: byte := 4
  const DOT: byte := 46

  /** An IP address: the invalid one, 4 bytes, or 16 bytes with a zone. */
  datatype Ip = NoIp | V4(bytes: seq<byte>) | V6(bytes: seq<byte>, zone: string)

  predicate ValidIp(ip: Ip) {
    match ip
    case NoIp => true
    case V4(b) => |b| == 4
    case V6(b, _) => |b| == 16
  }

  datatype Metadata = Metadata(host: seq<byte>, ip: Ip, dstPort: port)

  // ---- addresses ----

  predicate Is4In6(ip: Ip)
    requires ValidIp(ip)
  {
    ip.V6? && (forall i | 0 <= i < 10 :: ip.bytes[i] == 0) && ip.bytes[10] == 255 && ip.bytes[11] == 255
  }

  function Unmap(ip: Ip): (r: Ip)
    requires ValidIp(ip)
    ensures ValidIp(r) && !Is4In6(r)
  {
    if Is4In6(ip) then V4(ip.bytes[12..]) else ip
  }

  /** An IPv4 address mapped into IPv6 is unmapped to its last four bytes; any other address stays. */
  lemma UnmapMeans(b: seq<byte>, zone: string)
    requires |b| == 4
    ensures var zeros: seq<byte> := [0, 0, 0, 0, 0, 0, 0, 0, 0, 0];
            Unmap(V6(zeros + [255, 255] + b, zone)) == V4(b)
    ensures Unmap(V4(b)) == V4(b) && Unmap(NoIp) == NoIp
  {
    var zeros: seq<byte> := [0, 0, 0, 0, 0, 0, 0, 0, 0, 0];
    var all := zeros + [255, 255] + b;
    assert |all| == 16 && all[10] == 255 && all[11] == 255 && all[12..] == b;
    assert forall i | 0 <= i < 10 :: all[i] == 0;
  }

  function AddrFromSlice(b: seq<byte>): (ip: Ip)
    ensures ValidIp(ip)
  {
    if |b| == 4 then V4(b) else if |b| == 16 then V6(b, "") else NoIp
  }

  function TrimRight(h: seq<byte>): seq<byte> {
    if h != [] && h[|h| - 1] == DOT then TrimRight(h[..|h| - 1]) else h
  }

  predicate EndsWithDot(h: seq<byte>) {
    h != [] && h[|h| - 1] == DOT
  }

  lemma {:induction false} TrimRightFixes(h: seq<byte>)
    ensures TrimRight(h) == h <==> !EndsWithDot(h)
    ensures TrimRight(h) <= h && !EndsWithDot(TrimRight(h))
    ensures forall i | |TrimRight(h)| <= i < |h| :: h[i] == DOT
  {
    if EndsWithDot(h) {
      TrimRightFixes(h[..|h| - 1]);
    }
  }

  // ---- encoder ----

  function PortBytes(p: port): (r: seq<byte>)
    ensures |r| == 2
  {
    [p / 256, p % 256]
  }

  function Encode(m: Metadata): seq<byte> {
    if m.host != [] || m.ip.NoIp? then [ATYP_DOMAIN_NAME, |m.host| % 256] + m.host + PortBytes(m.dstPort)
    else if m.ip.V4? then [ATYP_IPV4] + m.ip.bytes + PortBytes(m.dstPort)
    else [ATYP_IPV6] + m.ip.bytes + PortBytes(m.dstPort)
  }

  /** The bytes of section 5 of RFC 1928: the type, the host with its length or the address, and the port in network order. */
  lemma EncodedBytes(m: Metadata)
    requires ValidIp(m.ip)
    ensures var t := Encode(m);
            && |t| >= 3 && (var hi: int, lo: int := t[|t| - 2], t[|t| - 1]; hi * 256 + lo == m.dstPort)
            && (m.host == [] && m.ip.V4? ==> |t| == 7 && t[0] == 1 && t[1..5] == m.ip.bytes)
            && (m.host == [] && m.ip.V6? ==> |t| == 19 && t[0] == 4 && t[1..17] == m.ip.bytes)
            && (m.host != [] || m.ip.NoIp? ==>
                |t| == |m.host| + 4 && t[0] == 3 && t[1] == |m.host| % 256 && t[2..|m.host| + 2] == m.host)
  {
    var t := Encode(m);
    var hi: int, lo: int := t[|t| - 2], t[|t| - 1];
    assert hi == m.dstPort / 256 && lo == m.dstPort % 256;
  }

  // ---- decoder ----

  /** 8-bit addition. */
  function Add8(a: byte, b: byte): byte {
    var x: int, y: int := a, b;
    if x + y < 256 then x + y else x + y - 256
  }

  function Join(hi: byte, lo: byte): (p: port)
    ensures PortBytes(p) == [hi, lo]
  {
    var h: int, l: int := hi, lo;
    h * 256 + l
  }

  /** Go's s[i]: an index out of range panics, which is Err. */
  function At(s: seq<byte>, i: int): Result<byte> {
    if 0 <= i < |s| then Ok(s[i]) else Err
  }

  /** Go's s[i:j], on a slice without spare capacity. */
  function Slice(s: seq<byte>, i: int, j: int): Result<seq<byte>> {
    if 0 <= i <= j <= |s| then Ok(s[i..j]) else Err
  }

  function PortAt(s: seq<byte>, i: int, j: int): Result<port> {
    if At(s, i).Ok? && At(s, j).Ok? then Ok(Join(At(s, i).value, At(s, j).value)) else Err
  }

  function Assemble(host: Result<seq<byte>>, ip: Result<seq<byte>>, p: Result<port>): Result<Metadata> {
    if host.Ok? && ip.Ok? && p.Ok?
    then Ok(Metadata(TrimRight(host.value), Unmap(AddrFromSlice(ip.value)), p.value))
    else Err
  }

  /** parseSocksAddr; the domain's indices are computed in 8 bits, as the length byte's type makes them. */
  function Decode(t: seq<byte>): Result<Metadata> {
    if t == [] then Err
    else if t[0] == ATYP_DOMAIN_NAME then
      if |t| < 2 then Err
      else
        var end := Add8(2, t[1]);
        Assemble(Slice(t, 2, end), Ok([]), PortAt(t, end, Add8(end, 1)))
    else if t[0] == ATYP_IPV4 then Assemble(Ok([]), Slice(t, 1, 5), PortAt(t, 5, 6))
    else if t[0] == ATYP_IPV6 then Assemble(Ok([]), Slice(t, 1, 17), PortAt(t, 17, 18))
    else Ok(Metadata([], NoIp, 0))
  }

  /** The decoder as it runs: fields of an empty metadata are assigned one by one. */
  method ParseSocksAddr(target: seq<byte>) returns (r: Result<Metadata>)
    ensures r == Decode(target)
  {
    if target == [] {
      return Err;
    }
    var m := Metadata([], NoIp, 0);
    if target[0] == ATYP_DOMAIN_NAME {
      if |target| < 2 {
        return Err;
      }
      var end := Add8(2, target[1]);
      var low := Add8(end, 1);
      if end < 2 || end >= |target| || low >= |target| {
        return Err;
      }
      m := m.(host := TrimRight(target[2..end]));
      m := m.(dstPort := Join(target[end], target[low]));
    } else if target[0] == ATYP_IPV4 {
      if |target| < 7 {
        return Err;
      }
      m := m.(ip := AddrFromSlice(target[1..5]));
      m := m.(dstPort := Join(target[5], target[6]));
    } else if target[0] == ATYP_IPV6 {
      if |target| < 19 {
        return Err;
      }
      m := m.(ip := AddrFromSlice(target[1..17]));
      m := m.(dstPort := Join(target[17], target[18]));
    }
    r := Ok(m.(ip := Unmap(m.ip)));
  }

  // ---- decoding what was encoded ----

  lemma EncodedHost(m: Metadata)
    requires m.host != [] || m.ip.NoIp?
    ensures var t, n := Encode(m), |m.host|;
            && |t| == n + 4 && t[0] == ATYP_DOMAIN_NAME && t[1] == n % 256
            && t[2..n + 2] == m.host && t[n + 2] == m.dstPort / 256 && t[n + 3] == m.dstPort % 256
  {
  }

  /** A host of up to 252 bytes is read whole; at 253 the port's low byte is read from index 0. */
  lemma DecodeShortHost(m: Metadata)
    requires (m.host != [] || m.ip.NoIp?) && |m.host| <= 253
    ensures var p := if |m.host| == 253 then Join(m.dstPort / 256, ATYP_DOMAIN_NAME) else m.dstPort;
            Decode(Encode(m)) == Ok(Metadata(TrimRight(m.host), NoIp, p))
  {
    EncodedHost(m);
    var end := Add8(2, |m.host|);
    assert end == |m.host| + 2 && Add8(end, 1) == (if |m.host| == 253 then 0 else |m.host| + 3);
  }

  /** A longer host either makes the end of the slice wrap below its start, or is cut to its length modulo 256. */
  lemma DecodeLongHost(m: Metadata)
    requires |m.host| >= 254
    ensures var k := |m.host| % 256;
            && (Decode(Encode(m)).Err? <==> k >= 254)
            && (k < 254 ==> Decode(Encode(m)).value.host == TrimRight(m.host[..k]))
  {
    EncodedHost(m);
    var t, k := Encode(m), |m.host| % 256;
    if k < 254 {
      assert Add8(2, k) == k + 2 && t[2..k + 2] == t[2..|m.host| + 2][..k];
    }
  }

  lemma DecodeIp(m: Metadata)
    requires m.host == [] && ValidIp(m.ip) && !m.ip.NoIp?
    ensures Decode(Encode(m)) == Ok(Metadata([], Unmap(AddrFromSlice(m.ip.bytes)), m.dstPort))
  {
  }

  /** What a caller can check: the metadata that survive the wire. */
  predicate Survives(m: Metadata)
    requires ValidIp(m.ip)
  {
    if m.host != [] || m.ip.NoIp? then
      && m.ip.NoIp? && !EndsWithDot(m.host)
      && (|m.host| <= 252 || (|m.host| == 253 && m.dstPort % 256 == ATYP_DOMAIN_NAME))
    else m.ip.V4? || (m.ip.zone == "" && !Is4In6(m.ip))
  }

  /**
   Decoding an encoded destination gives the same metadata exactly when it is normalised
   and its host fits: 252 bytes, or 253 when the port happens to end in the type byte
   that the wrapped index reads instead.
   */
  lemma RoundTrip(m: Metadata)
    requires ValidIp(m.ip)
    ensures Decode(Encode(m)) == Ok(m) <==> Survives(m)
  {
    if m.host != [] || m.ip.NoIp? {
      TrimRightFixes(m.host);
      if |m.host| <= 253 {
        DecodeShortHost(m);
      } else {
        DecodeLongHost(m);
        TrimRightFixes(m.host[..|m.host| % 256]);
      }
    } else {
      DecodeIp(m);
    }
  }

  /** 252 is the longest host for which every port survives. */
  lemma LongestHost(host: seq<byte>)
    requires !EndsWithDot(host)
    ensures (forall p: port :: Decode(Encode(Metadata(host, NoIp, p))) == Ok(Metadata(host, NoIp, p))) <==> |host| <= 252
  {
    forall p: port ensures Decode(Encode(Metadata(host, NoIp, p))) == Ok(Metadata(host, NoIp, p)) <==> Survives(Metadata(host, NoIp, p)) {
      RoundTrip(Metadata(host, NoIp, p));
    }
    if |host| > 252 {
      assert !Survives(Metadata(host, NoIp, 0));
      assert Decode(Encode(Metadata(host, NoIp, 0))) != Ok(Metadata(host, NoIp, 0));
    }
  }

  // ---- encoding what was decoded ----

  /** An address of section 5 of RFC 1928, with nothing after it and a host the decoder's indices reach past. */
  predicate WellFormed(t: seq<byte>) {
    && |t| >= 2
    && (|| (t[0] == ATYP_DOMAIN_NAME && t[1] <= 252 && |t| - 4 == t[1])
        || (t[0] == ATYP_IPV4 && |t| == 7)
        || (t[0] == ATYP_IPV6 && |t| == 19))
  }

  predicate Canonical(t: seq<byte>)
    requires WellFormed(t)
  {
    if t[0] == ATYP_DOMAIN_NAME then !EndsWithDot(t[2..|t| - 2])
    else t[0] == ATYP_IPV4 || !Is4In6(V6(t[1..17], ""))
  }

  lemma DomainRoundTrip(t: seq<byte>)
    requires WellFormed(t) && t[0] == ATYP_DOMAIN_NAME
    ensures Decode(t).Ok?
    ensures Encode(Decode(t).value) == t <==> !EndsWithDot(t[2..|t| - 2])
  {
    var n, h := |t|, t[2..|t| - 2];
    var p := Join(t[n - 2], t[n - 1]);
    assert Add8(2, t[1]) == n - 2 && Add8(n - 2, 1) == n - 1;
    assert Decode(t) == Ok(Metadata(TrimRight(h), NoIp, p));
    TrimRightFixes(h);
    assert t == [ATYP_DOMAIN_NAME, |h|] + h + [t[n - 2], t[n - 1]];
  }

  lemma IpRoundTrip(t: seq<byte>)
    requires WellFormed(t) && t[0] != ATYP_DOMAIN_NAME
    ensures Decode(t).Ok?
    ensures Encode(Decode(t).value) == t <==> !Is4In6(AddrFromSlice(t[1..|t| - 2]))
  {
  }

  /** Every well-formed address decodes, and comes back byte for byte exactly when it has no trailing dot and no mapped IPv4. */
  lemma WireRoundTrip(t: seq<byte>)
    requires WellFormed(t)
    ensures Decode(t).Ok?
    ensures Encode(Decode(t).value) == t <==> Canonical(t)
  {
    if t[0] == ATYP_DOMAIN_NAME {
      DomainRoundTrip(t);
    } else {
      IpRoundTrip(t);
    }
  }
}
