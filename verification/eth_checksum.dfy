/**
 The checksums of shoc::ipv4_packet and shoc::udp_segment over a packet buffer, against RFC 791 and
 RFC 768. A host reads 16-bit words in its own byte order; `little` says which.
 */
module EthChecksum {
  import opened MachineWords
  import opened OnesComplement

  function Pair(high: u8, low: u8): u16 {
    256 * high as int + low
  }

  /** The big-endian word at `at`. */
  function Word(s: seq<u8>, at: nat): u16
    requires at + 2 <= |s|
  {
    Pair(s[at], s[at + 1])
  }

  function Words(s: seq<u8>, at: nat, n: nat): (r: seq<u16>)
    requires at + 2 * n <= |s|
    ensures |r| == n
  {
    seq(n, i requires 0 <= i < n => Word(s, at + 2 * i))
  }

  function Put16(s: seq<u8>, at: nat, v: u16): (r: seq<u8>)
    requires at + 2 <= |s|
    ensures |r| == |s|
  {
    s[at := v / 256][at + 1 := v % 256]
  }

  // ---------- loads and stores of doca_be16_t ----------

  lemma SplitPair(high: u8, low: u8)
    ensures Pair(high, low) / 256 == high && Pair(high, low) % 256 == low
  {
  }

  method LoadRaw(buf: array<u8>, at: nat, little: bool) returns (raw: u16)
    requires at + 2 <= buf.Length
    ensures raw == ToHost(little, Word(buf[..], at))
  {
    SplitPair(buf[at], buf[at + 1]);
    if little {
      raw := Pair(buf[at + 1], buf[at]);
    } else {
      raw := Pair(buf[at], buf[at + 1]);
    }
  }

  /** Storing htobe16(v) puts the bytes of `v` in network order on either host. */
  method StoreBe16(buf: array<u8>, at: nat, v: u16, little: bool)
    requires at + 2 <= buf.Length
    modifies buf
    ensures buf[..] == Put16(old(buf[..]), at, v)
  {
    var raw := ToHost(little, v);
    if little {
      ToHostTwice(true, v);
      buf[at], buf[at + 1] := raw % 256, raw / 256;
    } else {
      buf[at], buf[at + 1] := raw / 256, raw % 256;
    }
  }

  /** Addition of a word to a std::uint32_t. */
  function Wrap(x: nat): nat {
    if x < TWO32 then x else x - TWO32
  }

  /** The range-for loops over a span of `n` words. */
  method AddWords(buf: array<u8>, at: nat, n: nat, little: bool, start: u32) returns (sum: u32)
    requires at + 2 * n <= buf.Length && n <= 0xffff
    ensures sum == Wrap(start + Sum(Native(little, Words(buf[..], at, n))))
  {
    ghost var ns := Native(little, Words(buf[..], at, n));
    sum := start;
    for i := 0 to n
      invariant sum == Wrap(start + Sum(ns[..i]))
    {
      var w := LoadRaw(buf, at + 2 * i, little);
      assert ns[i] == w;
      AddOne(ns, i, start);
      sum := Wrap(sum + w);
    }
    assert ns[..n] == ns;
  }

  /** One more word is added, with at most one wrap-around in all. */
  lemma AddOne(ns: seq<u16>, i: nat, start: u32)
    requires i < |ns| <= 0xffff
    ensures Wrap(start + Sum(ns[..i])) < TWO32
    ensures Wrap(Wrap(start + Sum(ns[..i])) + ns[i]) == Wrap(start + Sum(ns[..i + 1])) < TWO32
  {
    assert ns[..i + 1][..i] == ns[..i];
    SumBound(ns[..i]);
    SumBound(ns[..i + 1]);
  }

  /** The end of both checksum functions: fold twice, complement, convert back. */
  method FoldedChecksum(total: u32, little: bool, ghost ws: seq<u16>) returns (r: u16)
    requires total == Sum(Native(little, ws))
    ensures r == Complement(OnesSum(ws))
  {
    ByteOrderIndependent(little, ws);
    var sum := Fold(total);
    sum := Fold(sum);
    r := ToHost(little, Complement(sum));
  }

  // ---------- IPv4 header ----------

  function Ihl(s: seq<u8>, ip: nat): nat
    requires ip < |s|
  {
    s[ip] % 16
  }

  predicate HeaderFits(s: seq<u8>, ip: nat) {
    ip < |s| && Ihl(s, ip) >= 5 && ip + 4 * Ihl(s, ip) <= |s|
  }

  function HeaderWords(s: seq<u8>, ip: nat): (r: seq<u16>)
    requires HeaderFits(s, ip)
    ensures |r| == 2 * Ihl(s, ip)
  {
    Words(s, ip, 2 * Ihl(s, ip))
  }

  /** RFC 791, section 3.1: the complement of the one's complement sum, the checksum field taken as zero. */
  function HeaderChecksum(s: seq<u8>, ip: nat): u16
    requires HeaderFits(s, ip)
  {
    Complement(OnesSum(HeaderWords(s, ip)[5 := 0]))
  }

  ghost predicate HeaderVerifies(s: seq<u8>, ip: nat)
    requires HeaderFits(s, ip)
  {
    OnesSum(HeaderWords(s, ip)) == 0xffff
  }

  /** The loop of CalculateHeaderChecksum starts at the negated checksum and wraps around once. */
  method CalculateHeaderChecksum(buf: array<u8>, ip: nat, little: bool) returns (r: u16)
    requires HeaderFits(buf[..], ip)
    ensures r == HeaderChecksum(buf[..], ip)
  {
    var raw := LoadRaw(buf, ip + 10, little);
    var start: u32 := if raw == 0 then 0 else TWO32 - raw;
    var sum := AddWords(buf, ip, 2 * (buf[ip] % 16), little, start);
    NegatedStart(little, HeaderWords(buf[..], ip));
    r := FoldedChecksum(sum, little, HeaderWords(buf[..], ip)[5 := 0]);
  }

  /** Starting from the negated checksum word gives the sum without the checksum word. */
  lemma NegatedStart(little: bool, ws: seq<u16>)
    requires 6 <= |ws| <= 0xffff
    ensures var raw, ns, zs := ToHost(little, ws[5]), Native(little, ws), Native(little, ws[5 := 0]);
            Sum(zs) < TWO32 && Wrap((if raw == 0 then 0 else TWO32 - raw) + Sum(ns)) == Sum(zs)
  {
    var ns := Native(little, ws);
    assert Native(little, ws[5 := 0]) == ns[5 := 0];
    SumUpdate(ns, 5, 0);
    SumBound(ns);
    SumBound(ns[5 := 0]);
  }

  method UpdateHeaderChecksum(buf: array<u8>, ip: nat, little: bool)
    requires HeaderFits(buf[..], ip)
    modifies buf
    ensures buf[..] == UpdatedHeader(old(buf[..]), ip)
  {
    var c := CalculateHeaderChecksum(buf, ip, little);
    StoreBe16(buf, ip + 10, c, little);
  }

  function UpdatedHeader(s: seq<u8>, ip: nat): seq<u8>
    requires HeaderFits(s, ip)
  {
    Put16(s, ip + 10, HeaderChecksum(s, ip))
  }

  lemma UpdatedWords(s: seq<u8>, ip: nat)
    requires HeaderFits(s, ip)
    ensures var t := UpdatedHeader(s, ip);
            HeaderFits(t, ip) && HeaderWords(t, ip) == HeaderWords(s, ip)[5 := HeaderChecksum(s, ip)]
  {
    var t, v := UpdatedHeader(s, ip), HeaderChecksum(s, ip);
    assert t[ip] == s[ip];
    assert v / 256 * 256 + v % 256 == v;
    forall i | 0 <= i < 2 * Ihl(s, ip) && i != 5
      ensures Word(t, ip + 2 * i) == Word(s, ip + 2 * i)
    {
    }
  }

  /**
   Whatever the header and its stale checksum: after the update the header verifies (RFC 791, section
   3.1), and a further update changes nothing.
   */
  lemma UpdateVerifies(s: seq<u8>, ip: nat)
    requires HeaderFits(s, ip)
    ensures var t := UpdatedHeader(s, ip);
            HeaderFits(t, ip) && HeaderVerifies(t, ip) && UpdatedHeader(t, ip) == t
  {
    var t := UpdatedHeader(s, ip);
    var ws := HeaderWords(s, ip);
    UpdatedWords(s, ip);
    ChecksumVerifies(ws, 5);
    assert HeaderWords(t, ip)[5 := 0] == ws[5 := 0];
    assert HeaderChecksum(t, ip) == HeaderChecksum(s, ip);
    assert UpdatedHeader(t, ip) == t;
  }
}
