/** The UDP checksum over IPv4 as shoc computes it, and exactly when that is the one of RFC 768. */
module UdpChecksumModel {
  import opened EthChecksum
  import opened MachineWords
  import opened OnesComplement

  function Length(s: seq<u8>, seg: nat): u16
    requires seg + 6 <= |s|
  {
    Word(s, seg + 4)
  }

  /** The code adds `length` words, i.e. twice the segment, so that much must be readable. */
  predicate SegmentFits(s: seq<u8>, ip: nat, seg: nat) {
    && ip + 20 <= |s| && seg + 8 <= |s|
    && 8 <= Length(s, seg) && seg + 2 * Length(s, seg) <= |s|
  }

  /** 17, the four words of the two addresses, and the length. */
  function PseudoSum(s: seq<u8>, ip: nat, seg: nat): u32
    requires SegmentFits(s, ip, seg)
  {
    17 + Word(s, ip + 12) + Word(s, ip + 14) + Word(s, ip + 16) + Word(s, ip + 18) + Length(s, seg)
  }

  /** The pseudo-header folded once and then cut to 16 bits. */
  function PseudoPart(s: seq<u8>, ip: nat, seg: nat): u16
    requires SegmentFits(s, ip, seg)
  {
    Fold(PseudoSum(s, ip, seg)) % TWO16
  }

  function SummedWords(s: seq<u8>, ip: nat, seg: nat): (r: seq<u16>)
    requires SegmentFits(s, ip, seg)
    ensures |r| == 1 + Length(s, seg)
  {
    [PseudoPart(s, ip, seg)] + Words(s, seg, Length(s, seg))[3 := 0]
  }

  /** What calculate_checksum returns. */
  function UdpChecksum(s: seq<u8>, ip: nat, seg: nat): u16
    requires SegmentFits(s, ip, seg)
  {
    Complement(OnesSum(SummedWords(s, ip, seg)))
  }

  /** The 32-bit accumulator never wraps: neither while words are added nor when the checksum is taken off. */
  lemma AccumulatorFits(little: bool, part: u16, ws: seq<u16>)
    requires 4 <= |ws| <= 0xffff
    ensures var raw, total := ToHost(little, ws[3]), ToHost(little, part) + Sum(Native(little, ws));
            && raw <= total < TWO32
            && total - raw == Sum(Native(little, [part] + ws[3 := 0]))
  {
    var ns := Native(little, ws);
    SumBound(ns);
    SumUpdate(ns, 3, 0);
    NativeParts(little, part, ws);
    SumFirst(ToHost(little, part), ns[3 := 0]);
  }

  lemma NativeParts(little: bool, part: u16, ws: seq<u16>)
    requires |ws| >= 4
    ensures Native(little, [part] + ws[3 := 0]) == [ToHost(little, part)] + Native(little, ws)[3 := 0]
  {
    var ns, all := Native(little, ws), Native(little, [part] + ws[3 := 0]);
    forall i | 0 <= i < |all|
      ensures all[i] == ([ToHost(little, part)] + ns[3 := 0])[i]
    {
    }
  }

  lemma SumFirst(w: u16, ws: seq<u16>)
    ensures Sum([w] + ws) == w + Sum(ws)
  {
    SumAppend([w], ws);
    assert Sum([w]) == w;
  }

  /** calculate_checksum for a given pseudo-header, which is passed in network order. */
  method CalculateFrom(buf: array<u8>, seg: nat, length: u16, part: u16, little: bool) returns (r: u16)
    requires seg + 8 <= buf.Length && length == Length(buf[..], seg) && 8 <= length && seg + 2 * length <= buf.Length
    ensures r == Complement(OnesSum([ToHost(little, part)] + Words(buf[..], seg, length)[3 := 0]))
  {
    ghost var ws := Words(buf[..], seg, length);
    ToHostTwice(little, part);
    AccumulatorFits(little, ToHost(little, part), ws);
    var sum: u32 := AddWords(buf, seg, length, little, part);
    var raw := LoadRaw(buf, seg + 6, little);
    r := FoldedChecksum(sum - raw, little, [ToHost(little, part)] + ws[3 := 0]);
  }

  /** calculate_checksum for the IPv4 packet around the segment. */
  method CalculateChecksum(buf: array<u8>, ip: nat, seg: nat, little: bool) returns (r: u16)
    requires SegmentFits(buf[..], ip, seg)
    ensures r == UdpChecksum(buf[..], ip, seg)
  {
    var length := Pair(buf[seg + 4], buf[seg + 5]);
    var pseudo: u32 := 17
      + Pair(buf[ip + 12], buf[ip + 13]) + Pair(buf[ip + 14], buf[ip + 15])
      + Pair(buf[ip + 16], buf[ip + 17]) + Pair(buf[ip + 18], buf[ip + 19])
      + length;
    assert pseudo == PseudoSum(buf[..], ip, seg);
    var part := ToHost(little, Fold(pseudo) % TWO16);
    ToHostTwice(little, Fold(pseudo) % TWO16);
    r := CalculateFrom(buf, seg, length, part, little);
  }

  method UpdateChecksum(buf: array<u8>, ip: nat, seg: nat, little: bool)
    requires SegmentFits(buf[..], ip, seg)
    modifies buf
    ensures buf[..] == Put16(old(buf[..]), seg + 6, UdpChecksum(old(buf[..]), ip, seg))
  {
    var c := CalculateChecksum(buf, ip, seg, little);
    StoreBe16(buf, seg + 6, c, little);
  }

  // ---------- RFC 768 ----------

  /** The segment as 16-bit words, padded at the end with a zero byte if its length is odd. */
  function PaddedWords(b: seq<u8>): (r: seq<u16>)
    ensures |r| == (|b| + 1) / 2
  {
    seq((|b| + 1) / 2, i requires 0 <= i < (|b| + 1) / 2 =>
      Pair(b[2 * i], if 2 * i + 1 < |b| then b[2 * i + 1] else 0))
  }

  function Segment(s: seq<u8>, ip: nat, seg: nat): (r: seq<u8>)
    requires SegmentFits(s, ip, seg)
    ensures |r| == Length(s, seg)
  {
    s[seg..seg + Length(s, seg)]
  }

  /** Source and destination address, zero and protocol, length. */
  function PseudoHeader(s: seq<u8>, ip: nat, seg: nat): seq<u16>
    requires SegmentFits(s, ip, seg)
  {
    [Word(s, ip + 12), Word(s, ip + 14), Word(s, ip + 16), Word(s, ip + 18), 17, Length(s, seg)]
  }

  /** RFC 768, before the substitution of all ones for zero. */
  function Rfc768(s: seq<u8>, ip: nat, seg: nat): u16
    requires SegmentFits(s, ip, seg)
  {
    Complement(OnesSum(PseudoHeader(s, ip, seg) + PaddedWords(Segment(s, ip, seg))[3 := 0]))
  }

  /** What the bytes behind the segment contribute to the words that the code adds. */
  function Excess(s: seq<u8>, ip: nat, seg: nat): (r: seq<u16>)
    requires SegmentFits(s, ip, seg)
    ensures |r| == Length(s, seg)
  {
    var n := Length(s, seg);
    seq(n, i requires 0 <= i < n =>
      Pair(if 2 * i < n then 0 else s[seg + 2 * i], if 2 * i + 1 < n then 0 else s[seg + 2 * i + 1]))
  }

  /** The folded pseudo-header fits into 16 bits. */
  predicate PseudoFits(s: seq<u8>, ip: nat, seg: nat)
    requires SegmentFits(s, ip, seg)
  {
    Fold(PseudoSum(s, ip, seg)) < TWO16
  }

  lemma {:induction false} SumPointwise(a: seq<u16>, b: seq<u16>, c: seq<u16>)
    requires |a| == |b| == |c| && forall i | 0 <= i < |a| :: c[i] as int == a[i] as int + b[i] as int
    ensures Sum(c) == Sum(a) + Sum(b)
  {
    if a != [] {
      var n := |a| - 1;
      SumPointwise(a[..n], b[..n], c[..n]);
    }
  }

  lemma {:induction false} SumZeros(z: seq<u16>)
    requires forall i | 0 <= i < |z| :: z[i] == 0
    ensures Sum(z) == 0
  {
    if z != [] {
      SumZeros(z[..|z| - 1]);
    }
  }

  /** The code adds the padded words of the segment and the excess. */
  lemma WordsSplit(s: seq<u8>, ip: nat, seg: nat)
    requires SegmentFits(s, ip, seg)
    ensures Sum(Words(s, seg, Length(s, seg))) == Sum(PaddedWords(Segment(s, ip, seg))) + Sum(Excess(s, ip, seg))
  {
    var n := Length(s, seg);
    var padded := PaddedWords(Segment(s, ip, seg));
    var zeros: seq<u16> := seq(n - |padded|, i => 0);
    SumZeros(zeros);
    SumAppend(padded, zeros);
    SumPointwise(padded + zeros, Excess(s, ip, seg), Words(s, seg, n));
  }

  lemma PseudoHeaderSum(s: seq<u8>, ip: nat, seg: nat)
    requires SegmentFits(s, ip, seg)
    ensures Sum(PseudoHeader(s, ip, seg)) == PseudoSum(s, ip, seg)
  {
    var p := PseudoHeader(s, ip, seg);
    assert p == [p[0]] + [p[1]] + [p[2]] + [p[3]] + [17] + [p[5]];
    SumAppend([p[0]] + [p[1]] + [p[2]] + [p[3]] + [17], [p[5]]);
    SumAppend([p[0]] + [p[1]] + [p[2]] + [p[3]], [17]);
    SumAppend([p[0]] + [p[1]] + [p[2]], [p[3]]);
    SumAppend([p[0]] + [p[1]], [p[2]]);
    SumAppend([p[0]], [p[1]]);
  }

  /** Both sums in terms of the same numbers. */
  lemma SumsCompared(s: seq<u8>, ip: nat, seg: nat) returns (code: nat, rfc: nat)
    requires SegmentFits(s, ip, seg)
    ensures UdpChecksum(s, ip, seg) == Complement(Canon(code)) && Rfc768(s, ip, seg) == Complement(Canon(rfc))
    ensures code > 0 && rfc > 0
    ensures code - PseudoPart(s, ip, seg) - Sum(Excess(s, ip, seg)) == rfc - PseudoSum(s, ip, seg)
  {
    var n := Length(s, seg);
    var ws, padded := Words(s, seg, n), PaddedWords(Segment(s, ip, seg));
    var summed, reference := SummedWords(s, ip, seg), PseudoHeader(s, ip, seg) + padded[3 := 0];
    code, rfc := Sum(summed), Sum(reference);
    OnesSumIsCanon(summed);
    OnesSumIsCanon(reference);
    SumAppend([PseudoPart(s, ip, seg)], ws[3 := 0]);
    assert Sum([PseudoPart(s, ip, seg)]) == PseudoPart(s, ip, seg);
    SumAppend(PseudoHeader(s, ip, seg), padded[3 := 0]);
    SumUpdate(ws, 3, 0);
    SumUpdate(padded, 3, 0);
    assert ws[3] == padded[3];
    WordsSplit(s, ip, seg);
    PseudoHeaderSum(s, ip, seg);
    assert ws[3 := 0][2] == n;
    SumAtLeast(ws[3 := 0], 2);
  }

  lemma SumAtLeast(ws: seq<u16>, i: nat)
    requires i < |ws|
    ensures Sum(ws) >= ws[i]
  {
    SumUpdate(ws, i, 0);
  }

  /** Cutting the folded pseudo-header to 16 bits takes one off its value modulo 0xffff. */
  lemma PartRemainder(p: u32, part: u16)
    requires part == Fold(p) % TWO16 && p < 0x10 * TWO16
    ensures p == part + 0xffff * (p / TWO16) + (if Fold(p) < TWO16 then 0 else TWO16)
  {
  }

  /**
   For every segment of length 8 or more, the code computes the checksum of RFC 768 if and only if
   the bytes it adds from behind the segment sum to zero modulo 0xffff, or to one if the folded
   pseudo-header loses its carry.
   */
  lemma UdpMatchesRfc768(s: seq<u8>, ip: nat, seg: nat)
    requires SegmentFits(s, ip, seg)
    ensures UdpChecksum(s, ip, seg) == Rfc768(s, ip, seg) <==>
              Sum(Excess(s, ip, seg)) % 0xffff == (if PseudoFits(s, ip, seg) then 0 else 1)
  {
    var code, rfc := SumsCompared(s, ip, seg);
    CanonCongruent(code, rfc);
    var p, x := PseudoSum(s, ip, seg), Sum(Excess(s, ip, seg));
    PartRemainder(p, PseudoPart(s, ip, seg));
    var lost := if PseudoFits(s, ip, seg) then 0 else 1;
    var q := p / TWO16 + lost;
    assert code == rfc + x - 0xffff * q - lost;
    RemainderShift(code, rfc, x, q, lost);
  }

  lemma RemainderShift(code: nat, rfc: nat, x: nat, q: nat, lost: nat)
    requires code == rfc + x - 0xffff * q - lost && lost <= 1
    ensures code % 0xffff == rfc % 0xffff <==> x % 0xffff == lost
  {
    var cq, rq, xq := code / 0xffff, rfc / 0xffff, x / 0xffff;
    var cr, rr, xr := code % 0xffff, rfc % 0xffff, x % 0xffff;
    assert cr - rr == xr - lost + 0xffff * (rq + xq - q - cq);
  }

  /** The bytes behind the segment, as far as the code reads, are zero. */
  ghost predicate ZeroBehind(s: seq<u8>, ip: nat, seg: nat)
    requires SegmentFits(s, ip, seg)
  {
    forall i | seg + Length(s, seg) <= i < seg + 2 * Length(s, seg) :: s[i] == 0
  }

  lemma UdpOverIpv4(s: seq<u8>, ip: nat, seg: nat)
    requires SegmentFits(s, ip, seg) && ZeroBehind(s, ip, seg)
    ensures UdpChecksum(s, ip, seg) == Rfc768(s, ip, seg) <==> PseudoFits(s, ip, seg)
  {
    SumZeros(Excess(s, ip, seg));
    UdpMatchesRfc768(s, ip, seg);
  }

  /**
   A header-only datagram from 255.255.255.231 whose pseudo-header sums to 0x1ffff: the fold gives
   0x10000, the carry is lost, and the checksum differs from RFC 768 although nothing follows.
   */
  lemma LostCarry() returns (s: seq<u8>)
    ensures SegmentFits(s, 0, 20) && ZeroBehind(s, 0, 20)
    ensures UdpChecksum(s, 0, 20) != Rfc768(s, 0, 20)
  {
    s := [69, 0, 0, 28, 0, 0, 0, 0, 64, 17, 0, 0, 255, 255, 255, 231, 0, 0, 0, 0,
          0, 0, 0, 0, 0, 8, 0, 0, 0, 0, 0, 0, 0, 0, 0, 0];
    assert Length(s, 20) == 8;
    assert Word(s, 12) == 0xffff && Word(s, 14) == 0xffe7 && Word(s, 16) == 0 && Word(s, 18) == 0;
    assert PseudoSum(s, 0, 20) == 0x1ffff;
    UdpOverIpv4(s, 0, 20);
  }
}
