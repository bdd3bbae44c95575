/** The UDP echo sample: every received frame is turned around in place and sent back. */
module UdpEcho {
  import opened EthChecksum
  import opened MachineWords
  import opened OnesComplement
  import opened UdpChecksumModel

  const IP := 14  // behind the two MAC addresses and the ethertype

  function SegmentAt(s: seq<u8>): nat
    requires IP < |s|
  {
    IP + 4 * Ihl(s, IP)
  }

  /** An Ethernet frame with an IPv4 header and a UDP segment whose checksum can be computed. */
  predicate Echoable(s: seq<u8>) {
    |s| > IP && HeaderFits(s, IP) && SegmentFits(s, IP, SegmentAt(s))
  }

  /** Exchanges the `n` bytes at `a` with the `n` bytes at `b`. */
  function Exchanged(s: seq<u8>, a: nat, b: nat, n: nat): (r: seq<u8>)
    requires a + n <= b && b + n <= |s|
    ensures |r| == |s|
  {
    seq(|s|, i requires 0 <= i < |s| =>
      if a <= i < a + n then s[i - a + b] else if b <= i < b + n then s[i - b + a] else s[i])
  }

  /** MAC addresses and IP addresses exchanged. */
  function Addressed(s: seq<u8>): seq<u8>
    requires Echoable(s)
  {
    Exchanged(Exchanged(s, 0, 6, 6), IP + 12, IP + 16, 4)
  }

  /** ... the identification counted up, with 16-bit wrap, and the header checksum updated ... */
  function Renumbered(s: seq<u8>): seq<u8>
    requires Echoable(s)
  {
    var t := Addressed(s);
    UpdatedHeader(Put16(t, IP + 4, (Word(t, IP + 4) as int + 1) % TWO16), IP)
  }

  /** ... and the ports exchanged. */
  function TurnedAround(s: seq<u8>): seq<u8>
    requires Echoable(s)
  {
    Exchanged(Renumbered(s), SegmentAt(s), SegmentAt(s) + 2, 2)
  }

  function Echo(s: seq<u8>): seq<u8>
    requires Echoable(s)
  {
    Put16(TurnedAround(s), SegmentAt(s) + 6, UdpChecksum(s, IP, SegmentAt(s)))
  }

  // ---------- in place ----------

  lemma PutWord(s: seq<u8>, at: nat, high: u8, low: u8)
    requires at + 2 <= |s|
    ensures Put16(s, at, Pair(high, low)) == s[at := high][at + 1 := low]
  {
    SplitPair(high, low);
  }

  /** std::ranges::swap_ranges */
  method SwapRanges(buf: array<u8>, a: nat, b: nat, n: nat)
    requires a + n <= b && b + n <= buf.Length
    modifies buf
    ensures buf[..] == Exchanged(old(buf[..]), a, b, n)
  {
    for k := 0 to n
      invariant forall i | 0 <= i < buf.Length :: buf[i] ==
                  if a <= i < a + k then old(buf[i - a + b])
                  else if b <= i < b + k then old(buf[i - b + a]) else old(buf[i])
    {
      buf[a + k], buf[b + k] := buf[b + k], buf[a + k];
    }
  }

  method SwapAddresses(buf: array<u8>, little: bool)
    requires buf.Length >= IP + 20
    modifies buf
    ensures buf[..] == Exchanged(old(buf[..]), IP + 12, IP + 16, 4)
  {
    var s0, s1, s2, s3 := buf[IP + 12], buf[IP + 13], buf[IP + 14], buf[IP + 15];
    var d0, d1, d2, d3 := buf[IP + 16], buf[IP + 17], buf[IP + 18], buf[IP + 19];
    PutWord(buf[..], IP + 12, d0, d1);
    StoreBe16(buf, IP + 12, Pair(d0, d1), little);
    PutWord(buf[..], IP + 14, d2, d3);
    StoreBe16(buf, IP + 14, Pair(d2, d3), little);
    PutWord(buf[..], IP + 16, s0, s1);
    StoreBe16(buf, IP + 16, Pair(s0, s1), little);
    PutWord(buf[..], IP + 18, s2, s3);
    StoreBe16(buf, IP + 18, Pair(s2, s3), little);
  }

  method SwapPorts(buf: array<u8>, seg: nat, little: bool)
    requires buf.Length >= seg + 4
    modifies buf
    ensures buf[..] == Exchanged(old(buf[..]), seg, seg + 2, 2)
  {
    var s0, s1, d0, d1 := buf[seg], buf[seg + 1], buf[seg + 2], buf[seg + 3];
    PutWord(buf[..], seg, d0, d1);
    StoreBe16(buf, seg, Pair(d0, d1), little);
    PutWord(buf[..], seg + 2, s0, s1);
    StoreBe16(buf, seg + 2, Pair(s0, s1), little);
  }

  /** The body of the packet loop, between receiving and sending. */
  method EchoInPlace(buf: array<u8>, little: bool)
    requires Echoable(buf[..])
    modifies buf
    ensures buf[..] == Echo(old(buf[..]))
  {
    ghost var s := buf[..];
    var seg := TurnAround(buf, little);
    TurnedChecksum(s);
    UpdateChecksum(buf, IP, seg, little);
  }

  method TurnAround(buf: array<u8>, little: bool) returns (seg: nat)
    requires Echoable(buf[..])
    modifies buf
    ensures seg == SegmentAt(old(buf[..])) && buf[..] == TurnedAround(old(buf[..]))
  {
    ghost var s := buf[..];
    seg := IP + 4 * (buf[IP] % 16);
    TurnedBytes(s);
    RewriteHeader(buf, little);
    SwapPorts(buf, seg, little);
  }

  method RewriteHeader(buf: array<u8>, little: bool)
    requires Echoable(buf[..])
    modifies buf
    ensures buf[..] == Renumbered(old(buf[..]))
  {
    ghost var s := buf[..];
    AddressedBytes(s);
    SwapRanges(buf, 0, 6, 6);
    SwapAddresses(buf, little);
    var id := Pair(buf[IP + 4], buf[IP + 5]) as int;
    StoreBe16(buf, IP + 4, (id + 1) % TWO16, little);
    UpdateHeaderChecksum(buf, IP, little);
  }

  // ---------- what the echo keeps ----------

  /** Equal outside of [lo, hi). */
  ghost predicate SameOutside(s: seq<u8>, t: seq<u8>, lo: nat, hi: nat) {
    |s| == |t| && forall i | 0 <= i < |s| && !(lo <= i < hi) :: t[i] == s[i]
  }

  ghost predicate AddressesExchanged(s: seq<u8>, a: seq<u8>) {
    && |a| == |s| && |s| >= IP + 20
    && (forall i | IP <= i < |s| && !(IP + 12 <= i < IP + 20) :: a[i] == s[i])
    && (forall i | IP + 12 <= i < IP + 16 :: a[i] == s[i + 4] && a[i + 4] == s[i])
    && a[..6] == s[6..12] && a[6..12] == s[..6]
  }

  lemma AddressedBytes(s: seq<u8>)
    requires Echoable(s)
    ensures AddressesExchanged(s, Addressed(s))
  {
    var m := Exchanged(s, 0, 6, 6);
    assert forall i | IP <= i < |s| :: m[i] == s[i];
    var a := Exchanged(m, IP + 12, IP + 16, 4);
    assert forall i | 0 <= i < 12 :: a[i] == m[i];
    assert a[..6] == m[..6] && a[6..12] == m[6..12];
  }

  ghost predicate OnlyIdAndChecksum(a: seq<u8>, h: seq<u8>, id: u16) {
    && |h| == |a| && |a| >= IP + 20 && Word(h, IP + 4) == id
    && (forall i | 0 <= i < |a| && !(IP + 4 <= i < IP + 6) && !(IP + 10 <= i < IP + 12) :: h[i] == a[i])
  }

  /** Two words of the header are overwritten, with whatever values. */
  lemma HeaderWrites(a: seq<u8>, id: u16, sum: u16)
    requires |a| >= IP + 20
    ensures OnlyIdAndChecksum(a, Put16(Put16(a, IP + 4, id), IP + 10, sum), id)
  {
    assert id / 256 * 256 + id % 256 == id;
  }

  /** The header of the reply, in terms of the frame with exchanged addresses. */
  lemma RenumberedBytes(s: seq<u8>)
    requires Echoable(s)
    ensures AddressesExchanged(s, Addressed(s))
    ensures OnlyIdAndChecksum(Addressed(s), Renumbered(s), (Word(s, IP + 4) as int + 1) % TWO16)
  {
    var a := Addressed(s);
    AddressedBytes(s);
    var id := (Word(s, IP + 4) as int + 1) % TWO16;
    HeaderWrites(a, id, HeaderChecksum(Put16(a, IP + 4, id), IP));
  }

  /** Everything the UDP checksum looks at: the addresses and the ports exchanged, the rest as it was. */
  ghost predicate Mirrors(s: seq<u8>, t: seq<u8>, seg: nat) {
    && |t| == |s| && IP + 20 <= seg && seg + 8 <= |s|
    && (forall i | seg + 4 <= i < |s| :: t[i] == s[i])
    && Word(t, seg) == Word(s, seg + 2) && Word(t, seg + 2) == Word(s, seg)
    && Word(t, IP + 12) == Word(s, IP + 16) && Word(t, IP + 14) == Word(s, IP + 18)
    && Word(t, IP + 16) == Word(s, IP + 12) && Word(t, IP + 18) == Word(s, IP + 14)
  }

  lemma TurnedBytes(s: seq<u8>)
    requires Echoable(s)
    ensures Mirrors(s, TurnedAround(s), SegmentAt(s))
    ensures SameOutside(Renumbered(s), TurnedAround(s), SegmentAt(s), SegmentAt(s) + 4)
  {
    RenumberedBytes(s);
    PortsMirror(s, Addressed(s), Renumbered(s), (Word(s, IP + 4) as int + 1) % TWO16, SegmentAt(s));
  }

  lemma PortsMirror(s: seq<u8>, a: seq<u8>, h: seq<u8>, id: u16, seg: nat)
    requires IP + 20 <= seg && seg + 8 <= |s|
    requires AddressesExchanged(s, a) && OnlyIdAndChecksum(a, h, id)
    ensures Mirrors(s, Exchanged(h, seg, seg + 2, 2), seg)
    ensures SameOutside(h, Exchanged(h, seg, seg + 2, 2), seg, seg + 4)
  {
    assert forall i | IP + 12 <= i < IP + 16 :: h[i] == s[i + 4] && h[i + 4] == s[i];
    assert forall i | seg <= i < |s| :: h[i] == s[i];
  }

  lemma MirrorPseudo(s: seq<u8>, t: seq<u8>, seg: nat)
    requires SegmentFits(s, IP, seg) && Mirrors(s, t, seg)
    ensures SegmentFits(t, IP, seg) && Length(t, seg) == Length(s, seg)
    ensures PseudoPart(t, IP, seg) == PseudoPart(s, IP, seg)
  {
    assert Length(t, seg) == Length(s, seg);
  }

  lemma MirrorWords(s: seq<u8>, t: seq<u8>, seg: nat)
    requires SegmentFits(s, IP, seg) && Mirrors(s, t, seg)
    ensures var n := Length(s, seg);
            var ws := Words(s, seg, n);
            Words(t, seg, n) == ws[0 := ws[1]][1 := ws[0]]
  {
    var n: int := Length(s, seg);
    forall i: int | 2 <= i < n
      ensures Word(t, seg + 2 * i) == Word(s, seg + 2 * i)
    {
    }
  }

  /** A sum does not change when two words change places. */
  lemma MirrorSums(p: u16, ws: seq<u16>)
    requires |ws| >= 4
    ensures OnesSum([p] + ws[0 := ws[1]][1 := ws[0]][3 := 0]) == OnesSum([p] + ws[3 := 0])
  {
    var zs := ws[3 := 0];
    var vs := zs[0 := zs[1]][1 := zs[0]];
    assert ws[0 := ws[1]][1 := ws[0]][3 := 0] == vs;
    SumUpdate(zs, 0, zs[1]);
    SumUpdate(zs[0 := zs[1]], 1, zs[0]);
    SumAppend([p], zs);
    SumAppend([p], vs);
    OnesSumIsCanon([p] + zs);
    OnesSumIsCanon([p] + vs);
  }

  /** Exchanging addresses and ports leaves the UDP checksum as it was. */
  lemma ChecksumInvariant(s: seq<u8>, t: seq<u8>)
    requires Echoable(s) && Mirrors(s, t, SegmentAt(s))
    ensures var seg := SegmentAt(s);
            SegmentFits(t, IP, seg) && UdpChecksum(t, IP, seg) == UdpChecksum(s, IP, seg)
  {
    var seg := SegmentAt(s);
    MirrorPseudo(s, t, seg);
    MirrorWords(s, t, seg);
    MirrorSums(PseudoPart(s, IP, seg), Words(s, seg, Length(s, seg)));
  }

  lemma TurnedChecksum(s: seq<u8>)
    requires Echoable(s)
    ensures var t, seg := TurnedAround(s), SegmentAt(s);
            SegmentFits(t, IP, seg) && UdpChecksum(t, IP, seg) == UdpChecksum(s, IP, seg)
  {
    TurnedBytes(s);
    ChecksumInvariant(s, TurnedAround(s));
  }

  /** The header is checked on its own bytes only. */
  lemma HeaderUntouched(u: seq<u8>, t: seq<u8>)
    requires |u| == |t| && HeaderFits(u, IP) && HeaderVerifies(u, IP)
    requires SameOutside(u, t, IP + 4 * Ihl(u, IP), |u|)
    ensures HeaderFits(t, IP) && HeaderVerifies(t, IP)
  {
    assert HeaderWords(t, IP) == HeaderWords(u, IP);
  }

  /** Writing the checksum field does not change the checksum. */
  lemma ChecksumStored(u: seq<u8>, seg: nat, c: u16)
    requires SegmentFits(u, IP, seg) && IP + 20 <= seg
    ensures var t := Put16(u, seg + 6, c);
            SegmentFits(t, IP, seg) && UdpChecksum(t, IP, seg) == UdpChecksum(u, IP, seg) && Word(t, seg + 6) == c
  {
    var t := Put16(u, seg + 6, c);
    assert c / 256 * 256 + c % 256 == c;
    var n: int := Length(u, seg);
    assert Length(t, seg) == n;
    forall i: int | 0 <= i < n && i != 3
      ensures Word(t, seg + 2 * i) == Word(u, seg + 2 * i)
    {
    }
    assert Words(t, seg, n)[3 := 0] == Words(u, seg, n)[3 := 0];
  }

  /**
   Frame `t` answers frame `s`: MAC addresses, IP addresses and ports exchanged, the identification one
   higher with 16-bit wrap, and every other byte the same, except for the two checksums.
   */
  ghost predicate Answers(s: seq<u8>, t: seq<u8>, seg: nat) {
    && |t| == |s| && IP + 20 <= seg && seg + 8 <= |s|
    && t[..6] == s[6..12] && t[6..12] == s[..6]
    && Word(t, IP + 4) == (Word(s, IP + 4) as int + 1) % TWO16
    && Word(t, IP + 12) == Word(s, IP + 16) && Word(t, IP + 14) == Word(s, IP + 18)
    && Word(t, IP + 16) == Word(s, IP + 12) && Word(t, IP + 18) == Word(s, IP + 14)
    && Word(t, seg) == Word(s, seg + 2) && Word(t, seg + 2) == Word(s, seg)
    && (forall i | 12 <= i < |s| && !(IP + 4 <= i < IP + 6) && !(IP + 10 <= i < IP + 20)
                   && !(seg <= i < seg + 4) && !(seg + 6 <= i < seg + 8) :: t[i] == s[i])
  }

  lemma AnswersBytes(s: seq<u8>, a: seq<u8>, h: seq<u8>, u: seq<u8>, t: seq<u8>, seg: nat)
    requires Mirrors(s, u, seg) && AddressesExchanged(s, a) && a[12..IP] == s[12..IP]
    requires OnlyIdAndChecksum(a, h, (Word(s, IP + 4) as int + 1) % TWO16)
    requires SameOutside(h, u, seg, seg + 4) && SameOutside(u, t, seg + 6, seg + 8)
    ensures Answers(s, t, seg)
  {
    assert forall i | 0 <= i < 12 :: t[i] == a[i];
    assert t[..6] == a[..6] && t[6..12] == a[6..12];
    assert t[12] == a[12..IP][0] && t[13] == a[12..IP][1];
    assert s[12] == s[12..IP][0] && s[13] == s[12..IP][1];
  }

  lemma EchoAnswers(s: seq<u8>)
    requires Echoable(s)
    ensures Answers(s, Echo(s), SegmentAt(s))
  {
    RenumberedBytes(s);
    TurnedBytes(s);
    Outside(Renumbered(s), TurnedAround(s), SegmentAt(s), UdpChecksum(s, IP, SegmentAt(s)));
    assert Addressed(s)[12..IP] == s[12..IP];
    AnswersBytes(s, Addressed(s), Renumbered(s), TurnedAround(s), Echo(s), SegmentAt(s));
  }

  /**
   Echo invariance: the UDP checksum in the reply is the one that the code computes for the request
   and for the reply alike, the reply's IPv4 header verifies, its identification is one higher with
   16-bit wrap, and MAC addresses, IP addresses and ports are exchanged.
   */
  lemma EchoIsSound(s: seq<u8>)
    requires Echoable(s)
    ensures var t, seg := Echo(s), SegmentAt(s);
            && HeaderFits(t, IP) && HeaderVerifies(t, IP)
            && SegmentFits(t, IP, seg)
            && Word(t, seg + 6) == UdpChecksum(t, IP, seg) == UdpChecksum(s, IP, seg)
            && Answers(s, t, seg)
  {
    EchoSegment(s);
    EchoHeaderKept(s);
    EchoAnswers(s);
  }

  lemma EchoSegment(s: seq<u8>)
    requires Echoable(s)
    ensures var t, seg := Echo(s), SegmentAt(s);
            SegmentFits(t, IP, seg) && Word(t, seg + 6) == UdpChecksum(t, IP, seg) == UdpChecksum(s, IP, seg)
  {
    TurnedChecksum(s);
    ChecksumStored(TurnedAround(s), SegmentAt(s), UdpChecksum(s, IP, SegmentAt(s)));
  }

  lemma EchoHeaderKept(s: seq<u8>)
    requires Echoable(s)
    ensures HeaderFits(Echo(s), IP) && HeaderVerifies(Echo(s), IP)
  {
    EchoHeader(s);
    TurnedBytes(s);
    Outside(Renumbered(s), TurnedAround(s), SegmentAt(s), UdpChecksum(s, IP, SegmentAt(s)));
    HeaderUntouched(Renumbered(s), Echo(s));
  }

  lemma Outside(h: seq<u8>, u: seq<u8>, seg: nat, c: u16)
    requires SameOutside(h, u, seg, seg + 4) && seg + 8 <= |u|
    ensures SameOutside(h, Put16(u, seg + 6, c), seg, |h|)
    ensures SameOutside(u, Put16(u, seg + 6, c), seg + 6, seg + 8)
  {
  }

  lemma EchoHeader(s: seq<u8>)
    requires Echoable(s)
    ensures var h := Renumbered(s);
            && |h| == |s| && h[IP] == s[IP] && HeaderFits(h, IP) && HeaderVerifies(h, IP)
            && Word(h, IP + 4) == (Word(s, IP + 4) as int + 1) % TWO16
            && h[..6] == s[6..12] && h[6..12] == s[..6]
  {
    var a := Addressed(s);
    RenumberedBytes(s);
    UpdateVerifies(Put16(a, IP + 4, (Word(s, IP + 4) as int + 1) % TWO16), IP);
  }
}
