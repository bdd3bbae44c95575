/**
 The getters and setters of the packed IPv4 and IPv6 headers, against the wire formats of RFC 791
 (section 3.1) and RFC 8200 (section 3) and against plain records. Shifts and contiguous masks
 are written with *, / and %; an assignment to a narrower word truncates with %.
 */
module PackedHeaders {
  import opened BitOperations
  import opened EthChecksum
  import opened MachineWords
  import opened OnesComplement

  // ---------- words on the wire ----------

  function Word32(s: seq<u8>, at: nat): u32
    requires at + 4 <= |s|
  {
    TWO16 * Word(s, at) as int + Word(s, at + 2)
  }

  function Put32(s: seq<u8>, at: nat, v: u32): (r: seq<u8>)
    requires at + 4 <= |s|
    ensures |r| == |s|
  {
    Put16(Put16(s, at, v / TWO16), at + 2, v % TWO16)
  }

  lemma WordPut(s: seq<u8>, at: nat, v: u16, other: nat)
    requires at + 2 <= |s| && other + 2 <= |s|
    ensures Word(Put16(s, at, v), at) == v
    ensures other + 2 <= at || at + 2 <= other ==> Word(Put16(s, at, v), other) == Word(s, other)
  {
  }

  lemma Word32Put(s: seq<u8>, at: nat, v: u32)
    requires at + 4 <= |s|
    ensures Word32(Put32(s, at, v), at) == v
  {
    WordPut(s, at, v / TWO16, at);
    WordPut(Put16(s, at, v / TWO16), at + 2, v % TWO16, at);
  }

  /** Storing htobe32(v): two halves, each in network order on either host. */
  method StoreBe32(buf: array<u8>, at: nat, v: u32, little: bool)
    requires at + 4 <= buf.Length
    modifies buf
    ensures buf[..] == Put32(old(buf[..]), at, v)
  {
    StoreBe16(buf, at, v / TWO16, little);
    StoreBe16(buf, at + 2, v % TWO16, little);
  }

  method LoadBe16(buf: array<u8>, at: nat, little: bool) returns (r: u16)
    requires at + 2 <= buf.Length
    ensures r == Word(buf[..], at)
  {
    r := LoadRaw(buf, at, little);
    ToHostTwice(little, Word(buf[..], at));
    r := ToHost(little, r);
  }

  method LoadBe32(buf: array<u8>, at: nat, little: bool) returns (r: u32)
    requires at + 4 <= buf.Length
    ensures r == Word32(buf[..], at)
  {
    var high := LoadBe16(buf, at, little);
    var low := LoadBe16(buf, at + 2, little);
    r := TWO16 * high as int + low;
  }

  // ---------- IPv4 ----------

  datatype Header4 = Header4(
    version: nat, ihl: nat, dscp: nat, ecn: nat, totalLength: nat,
    identification: nat, flags: nat, fragmentOffset: nat,
    ttl: nat, protocol: nat, headerChecksum: nat, sourceAddress: nat, destinationAddress: nat)

  /** The header format of RFC 791, section 3.1. */
  function Rfc791(s: seq<u8>, ip: nat): Header4
    requires ip + 20 <= |s|
  {
    Header4(
      s[ip] / 16, s[ip] % 16, s[ip + 1] / 4, s[ip + 1] % 4, Word(s, ip + 2),
      Word(s, ip + 4), Word(s, ip + 6) / 0x2000, Word(s, ip + 6) % 0x2000,
      s[ip + 8], s[ip + 9], Word(s, ip + 10), Word32(s, ip + 12), Word32(s, ip + 16))
  }

  /** All the getters. On either host they read the header that is on the wire. */
  method ReadIpv4(buf: array<u8>, ip: nat, little: bool) returns (h: Header4)
    requires ip + 20 <= buf.Length
    ensures h == Rfc791(buf[..], ip)
  {
    var totalLength := LoadBe16(buf, ip + 2, little);
    var identification := LoadBe16(buf, ip + 4, little);
    var fragment := LoadBe16(buf, ip + 6, little);
    var checksum := LoadBe16(buf, ip + 10, little);
    var source := LoadBe32(buf, ip + 12, little);
    var destination := LoadBe32(buf, ip + 16, little);
    h := Header4(buf[ip] / 16, buf[ip] % 16, buf[ip + 1] / 4, buf[ip + 1] % 4, totalLength,
                 identification, fragment / 0x2000, fragment % 0x2000,
                 buf[ip + 8], buf[ip + 9], checksum, source, destination);
  }

  datatype Update4 =
    | Version(v8: u8) | HeaderLength(v8: u8) | Dscp(v8: u8) | Ecn(v8: u8)
    | Flags(v16: u16) | FragmentOffset(v16: u16) | Whole(word: WholeWord)

  /** The fields that have a word of their own. */
  datatype WholeWord =
    | TotalLength(v16: u16) | Identification(v16: u16) | Checksum(v16: u16)
    | Ttl(v8: u8) | Protocol(v8: u8) | SourceAddress(v32: u32) | DestinationAddress(v32: u32)

  function PutWhole(s: seq<u8>, ip: nat, w: WholeWord): (t: seq<u8>)
    requires ip + 20 <= |s|
    ensures |t| == |s|
  {
    match w
    case TotalLength(v) => Put16(s, ip + 2, v)
    case Identification(v) => Put16(s, ip + 4, v)
    case Checksum(v) => Put16(s, ip + 10, v)
    case Ttl(v) => s[ip + 8 := v]
    case Protocol(v) => s[ip + 9 := v]
    case SourceAddress(v) => Put32(s, ip + 12, v)
    case DestinationAddress(v) => Put32(s, ip + 16, v)
  }

  /** The packet after a setter. */
  function Store4(s: seq<u8>, ip: nat, u: Update4): (t: seq<u8>)
    requires ip + 20 <= |s|
    ensures |t| == |s|
  {
    match u
    case Version(v) => s[ip := Or(16 * v, s[ip] % 16) % 256]
    case HeaderLength(v) => s[ip := Or(s[ip] - s[ip] % 16, v) % 256]
    case Dscp(v) => s[ip + 1 := Or(4 * v, s[ip + 1] % 4) % 256]
    case Ecn(v) => s[ip + 1 := Or(s[ip + 1] - s[ip + 1] % 4, v) % 256]
    case Flags(v) => Put16(s, ip + 6, Or(0x2000 * v, Word(s, ip + 6) % 0x2000) % TWO16)
    case FragmentOffset(v) => Put16(s, ip + 6, Or(0x2000 * (Word(s, ip + 6) / 0x2000), v) % TWO16)
    case Whole(w) => PutWhole(s, ip, w)
  }

  function ApplyWhole(h: Header4, w: WholeWord): Header4 {
    match w
    case TotalLength(v) => h.(totalLength := v)
    case Identification(v) => h.(identification := v)
    case Checksum(v) => h.(headerChecksum := v)
    case Ttl(v) => h.(ttl := v)
    case Protocol(v) => h.(protocol := v)
    case SourceAddress(v) => h.(sourceAddress := v)
    case DestinationAddress(v) => h.(destinationAddress := v)
  }

  /** The setters of a plain record. */
  function Apply4(h: Header4, u: Update4): Header4 {
    match u
    case Version(v) => h.(version := v)
    case HeaderLength(v) => h.(ihl := v)
    case Dscp(v) => h.(dscp := v)
    case Ecn(v) => h.(ecn := v)
    case Flags(v) => h.(flags := v)
    case FragmentOffset(v) => h.(fragmentOffset := v)
    case Whole(w) => ApplyWhole(h, w)
  }

  /** The value has no more bits than its field. */
  predicate InRange4(u: Update4) {
    match u
    case Version(v) => v < 16
    case HeaderLength(v) => v < 16
    case Dscp(v) => v < 64
    case Ecn(v) => v < 4
    case Flags(v) => v < 8
    case FragmentOffset(v) => v < 0x2000
    case Whole(_) => true
  }

  /** What a setter does to the record for every value, in range or not. */
  function Effect4(h: Header4, u: Update4): Header4 {
    match u
    case Version(v) => h.(version := v % 16)
    case HeaderLength(v) => h.(ihl := v % 16, version := Or(h.version, v / 16))
    case Dscp(v) => h.(dscp := v % 64)
    case Ecn(v) => h.(ecn := v % 4, dscp := Or(h.dscp, v / 4))
    case Flags(v) => h.(flags := v % 8)
    case FragmentOffset(v) => h.(fragmentOffset := v % 0x2000, flags := Or(h.flags, v / 0x2000))
    case Whole(w) => ApplyWhole(h, w)
  }

  // Writing the high part of a word, and writing its low part.

  lemma Small(x: nat, m: nat)
    requires x < m
    ensures x % m == x
  {
    RemainderIs(x, m, 0, x);
  }

  lemma CutVersion(v: nat, low: nat)
    requires low < 16
    ensures (16 * v + low) % 256 == 16 * (v % 16) + low
  {
    RemainderIs(16 * v + low, 256, v / 16, 16 * (v % 16) + low);
  }

  lemma CutDscp(v: nat, low: nat)
    requires low < 4
    ensures (4 * v + low) % 256 == 4 * (v % 64) + low
  {
    RemainderIs(4 * v + low, 256, v / 64, 4 * (v % 64) + low);
  }

  lemma CutFlags(v: nat, low: nat)
    requires low < 0x2000
    ensures (0x2000 * v + low) % TWO16 == 0x2000 * (v % 8) + low
  {
    RemainderIs(0x2000 * v + low, TWO16, v / 8, 0x2000 * (v % 8) + low);
  }

  lemma VersionBits(x: u8, v: u8)
    ensures Or(16 * v, x % 16) % 256 == 16 * (v % 16) + x % 16
  {
    OrDisjoint(v, x % 16, 4, 16);
    CutVersion(v, x % 16);
  }

  lemma HeaderLengthBits(version: nat, over: nat, rest: nat)
    requires version < 16 && over < 16 && rest < 16
    ensures Or(16 * version, 16 * over + rest) % 256 == 16 * Or(version, over) + rest && Or(version, over) < 16
  {
    OrLow(version, over, rest, 4, 16);
    OrBound(version, over, 4);
    Small(16 * Or(version, over) + rest, 256);
  }

  lemma DscpBits(x: u8, v: u8)
    ensures Or(4 * v, x % 4) % 256 == 4 * (v % 64) + x % 4
  {
    OrDisjoint(v, x % 4, 2, 4);
    CutDscp(v, x % 4);
  }

  lemma EcnBits(dscp: nat, over: nat, rest: nat)
    requires dscp < 64 && over < 64 && rest < 4
    ensures Or(4 * dscp, 4 * over + rest) % 256 == 4 * Or(dscp, over) + rest && Or(dscp, over) < 64
  {
    OrLow(dscp, over, rest, 2, 4);
    OrBound(dscp, over, 6);
    Small(4 * Or(dscp, over) + rest, 256);
  }

  lemma FlagsBits(x: u16, v: u16)
    ensures Or(0x2000 * v, x % 0x2000) % TWO16 == 0x2000 * (v % 8) + x % 0x2000
  {
    OrDisjoint(v, x % 0x2000, 13, 0x2000);
    CutFlags(v, x % 0x2000);
  }

  lemma FragmentOffsetBits(flags: nat, over: nat, rest: nat)
    requires flags < 8 && over < 8 && rest < 0x2000
    ensures Or(0x2000 * flags, 0x2000 * over + rest) % TWO16 == 0x2000 * Or(flags, over) + rest
    ensures Or(flags, over) < 8
  {
    OrLow(flags, over, rest, 13, 0x2000);
    OrBound(flags, over, 3);
    Small(0x2000 * Or(flags, over) + rest, TWO16);
  }

  // Writing one word of the header, whatever its new value.

  lemma FirstByte(s: seq<u8>, ip: nat, high: nat, low: nat)
    requires ip + 20 <= |s| && high < 16 && low < 16
    ensures Rfc791(s[ip := 16 * high + low], ip) == Rfc791(s, ip).(version := high, ihl := low)
  {
  }

  lemma SecondByte(s: seq<u8>, ip: nat, high: nat, low: nat)
    requires ip + 20 <= |s| && high < 64 && low < 4
    ensures Rfc791(s[ip + 1 := 4 * high + low], ip) == Rfc791(s, ip).(dscp := high, ecn := low)
  {
  }

  lemma FragmentWord(s: seq<u8>, ip: nat, w: u16, high: nat, low: nat)
    requires ip + 20 <= |s| && low < 0x2000 && w == 0x2000 * high + low
    ensures Rfc791(Put16(s, ip + 6, w), ip) == Rfc791(s, ip).(flags := high, fragmentOffset := low)
  {
    WordPut(s, ip + 6, w, ip);
  }

  lemma WholeEffect(s: seq<u8>, ip: nat, w: WholeWord)
    requires ip + 20 <= |s|
    ensures Rfc791(PutWhole(s, ip, w), ip) == ApplyWhole(Rfc791(s, ip), w)
  {
    match w
    case TotalLength(v) => WordPut(s, ip + 2, v, ip);
    case Identification(v) => WordPut(s, ip + 4, v, ip);
    case Checksum(v) => WordPut(s, ip + 10, v, ip);
    case SourceAddress(v) => Word32Put(s, ip + 12, v);
    case DestinationAddress(v) => Word32Put(s, ip + 16, v);
    case _ =>
  }

  lemma VersionEffect(s: seq<u8>, ip: nat, v: u8)
    requires ip + 20 <= |s|
    ensures Rfc791(Store4(s, ip, Version(v)), ip) == Effect4(Rfc791(s, ip), Version(v))
  {
    VersionBits(s[ip], v);
    FirstByte(s, ip, v % 16, s[ip] % 16);
  }

  lemma HeaderLengthEffect(s: seq<u8>, ip: nat, v: u8)
    requires ip + 20 <= |s|
    ensures Rfc791(Store4(s, ip, HeaderLength(v)), ip) == Effect4(Rfc791(s, ip), HeaderLength(v))
  {
    HeaderLengthBits(s[ip] / 16, v / 16, v % 16);
    var merged := Or(s[ip] / 16, v / 16);
    FirstByte(s, ip, merged, v % 16);
    assert Effect4(Rfc791(s, ip), HeaderLength(v)) == Rfc791(s, ip).(ihl := v % 16, version := merged);
  }

  lemma DscpEffect(s: seq<u8>, ip: nat, v: u8)
    requires ip + 20 <= |s|
    ensures Rfc791(Store4(s, ip, Dscp(v)), ip) == Effect4(Rfc791(s, ip), Dscp(v))
  {
    DscpBits(s[ip + 1], v);
    SecondByte(s, ip, v % 64, s[ip + 1] % 4);
  }

  lemma EcnEffect(s: seq<u8>, ip: nat, v: u8)
    requires ip + 20 <= |s|
    ensures Rfc791(Store4(s, ip, Ecn(v)), ip) == Effect4(Rfc791(s, ip), Ecn(v))
  {
    EcnBits(s[ip + 1] / 4, v / 4, v % 4);
    var merged := Or(s[ip + 1] / 4, v / 4);
    SecondByte(s, ip, merged, v % 4);
    assert Effect4(Rfc791(s, ip), Ecn(v)) == Rfc791(s, ip).(ecn := v % 4, dscp := merged);
  }

  lemma FlagsEffect(s: seq<u8>, ip: nat, v: u16)
    requires ip + 20 <= |s|
    ensures Rfc791(Store4(s, ip, Flags(v)), ip) == Effect4(Rfc791(s, ip), Flags(v))
  {
    var x := Word(s, ip + 6);
    FlagsBits(x, v);
    FragmentWord(s, ip, Or(0x2000 * v, x % 0x2000) % TWO16, v % 8, x % 0x2000);
  }

  lemma FragmentOffsetEffect(s: seq<u8>, ip: nat, v: u16)
    requires ip + 20 <= |s|
    ensures Rfc791(Store4(s, ip, FragmentOffset(v)), ip) == Effect4(Rfc791(s, ip), FragmentOffset(v))
  {
    var x := Word(s, ip + 6);
    FragmentOffsetBits(x / 0x2000, v / 0x2000, v % 0x2000);
    FragmentWord(s, ip, Or(0x2000 * (x / 0x2000), v) % TWO16, Or(x / 0x2000, v / 0x2000), v % 0x2000);
  }

  /** An out-of-range IHL, ECN or fragment offset is merged into the field that shares its word. */
  lemma SetterEffectIpv4(s: seq<u8>, ip: nat, u: Update4)
    requires ip + 20 <= |s|
    ensures Rfc791(Store4(s, ip, u), ip) == Effect4(Rfc791(s, ip), u)
  {
    match u
    case Version(v) => VersionEffect(s, ip, v);
    case HeaderLength(v) => HeaderLengthEffect(s, ip, v);
    case Dscp(v) => DscpEffect(s, ip, v);
    case Ecn(v) => EcnEffect(s, ip, v);
    case Flags(v) => FlagsEffect(s, ip, v);
    case FragmentOffset(v) => FragmentOffsetEffect(s, ip, v);
    case Whole(w) => WholeEffect(s, ip, w);
  }

  /** A value merged into `high` leaves it alone if it fits into the `m` values of its field. */
  lemma Fits(high: nat, v: nat, m: nat)
    requires m > 0
    ensures v % m == v <==> v < m
    ensures v < m ==> Or(high, v / m) == high
  {
    if v < m {
      Small(v, m);
      assert v / m == 0;
      OrZero(high);
    }
  }

  lemma EffectInRange(h: Header4, u: Update4)
    ensures Effect4(h, u) == Apply4(h, u) <==> InRange4(u)
  {
    match u
    case Version(v) => Fits(0, v, 16);
    case HeaderLength(v) => Fits(h.version, v, 16);
    case Dscp(v) => Fits(0, v, 64);
    case Ecn(v) => Fits(h.dscp, v, 4);
    case Flags(v) => Fits(0, v, 8);
    case FragmentOffset(v) => Fits(h.flags, v, 0x2000);
    case Whole(_) =>
  }

  /** A setter acts like the setter of a plain record exactly when its value is in range. */
  lemma SetterRefinesIpv4(s: seq<u8>, ip: nat, u: Update4)
    requires ip + 20 <= |s|
    ensures Rfc791(Store4(s, ip, u), ip) == Apply4(Rfc791(s, ip), u) <==> InRange4(u)
  {
    SetterEffectIpv4(s, ip, u);
    EffectInRange(Rfc791(s, ip), u);
  }

  function StoreAll4(s: seq<u8>, ip: nat, us: seq<Update4>): (t: seq<u8>)
    requires ip + 20 <= |s|
    ensures |t| == |s|
    decreases |us|
  {
    if us == [] then s else StoreAll4(Store4(s, ip, us[0]), ip, us[1..])
  }

  function ApplyAll4(h: Header4, us: seq<Update4>): Header4
    decreases |us|
  {
    if us == [] then h else ApplyAll4(Apply4(h, us[0]), us[1..])
  }

  /** After any in-range setter calls the bytes on the wire decode to the record with those updates. */
  lemma {:induction false} UpdatesRefineIpv4(s: seq<u8>, ip: nat, us: seq<Update4>)
    requires ip + 20 <= |s| && forall u | u in us :: InRange4(u)
    ensures Rfc791(StoreAll4(s, ip, us), ip) == ApplyAll4(Rfc791(s, ip), us)
    decreases |us|
  {
    if us != [] {
      SetterRefinesIpv4(s, ip, us[0]);
      UpdatesRefineIpv4(Store4(s, ip, us[0]), ip, us[1..]);
    }
  }

  method SetVersion(buf: array<u8>, ip: nat, value: u8)
    requires ip + 20 <= buf.Length
    modifies buf
    ensures buf[..] == Store4(old(buf[..]), ip, Version(value))
  {
    buf[ip] := Or(16 * value, buf[ip] % 16) % 256;
  }

  method SetIhl(buf: array<u8>, ip: nat, value: u8)
    requires ip + 20 <= buf.Length
    modifies buf
    ensures buf[..] == Store4(old(buf[..]), ip, HeaderLength(value))
  {
    buf[ip] := Or(buf[ip] - buf[ip] % 16, value) % 256;
  }

  method SetDscp(buf: array<u8>, ip: nat, value: u8)
    requires ip + 20 <= buf.Length
    modifies buf
    ensures buf[..] == Store4(old(buf[..]), ip, Dscp(value))
  {
    buf[ip + 1] := Or(4 * value, buf[ip + 1] % 4) % 256;
  }

  method SetEcn(buf: array<u8>, ip: nat, value: u8)
    requires ip + 20 <= buf.Length
    modifies buf
    ensures buf[..] == Store4(old(buf[..]), ip, Ecn(value))
  {
    buf[ip + 1] := Or(buf[ip + 1] - buf[ip + 1] % 4, value) % 256;
  }

  method SetFlags(buf: array<u8>, ip: nat, value: u16, little: bool)
    requires ip + 20 <= buf.Length
    modifies buf
    ensures buf[..] == Store4(old(buf[..]), ip, Flags(value))
  {
    var h := ReadIpv4(buf, ip, little);
    StoreBe16(buf, ip + 6, Or(0x2000 * value, h.fragmentOffset) % TWO16, little);
  }

  method SetFragmentOffset(buf: array<u8>, ip: nat, value: u16, little: bool)
    requires ip + 20 <= buf.Length
    modifies buf
    ensures buf[..] == Store4(old(buf[..]), ip, FragmentOffset(value))
  {
    var h := ReadIpv4(buf, ip, little);
    StoreBe16(buf, ip + 6, Or(0x2000 * h.flags, value) % TWO16, little);
  }

  method SetWhole(buf: array<u8>, ip: nat, w: WholeWord, little: bool)
    requires ip + 20 <= buf.Length
    modifies buf
    ensures buf[..] == Store4(old(buf[..]), ip, Whole(w))
  {
    match w {
      case TotalLength(value) => StoreBe16(buf, ip + 2, value, little);
      case Identification(value) => StoreBe16(buf, ip + 4, value, little);
      case Checksum(value) => StoreBe16(buf, ip + 10, value, little);
      case Ttl(value) => buf[ip + 8] := value;
      case Protocol(value) => buf[ip + 9] := value;
      case SourceAddress(value) => StoreBe32(buf, ip + 12, value, little);
      case DestinationAddress(value) => StoreBe32(buf, ip + 16, value, little);
    }
  }

  // ---------- IPv6 ----------

  const TWO20: nat := 0x10_0000
  const TWO28: nat := 0x1000_0000

  datatype Header6 = Header6(
    version: nat, trafficClass: nat, flowLabel: nat, payloadLength: nat, nextHeader: nat, hopLimit: nat)

  /** The header format of RFC 8200, section 3, up to the addresses. */
  function Rfc8200(s: seq<u8>, ip: nat): Header6
    requires ip + 8 <= |s|
  {
    var word := Word32(s, ip);
    Header6(word / TWO28, word / TWO20 % 256, word % TWO20, Word(s, ip + 4), s[ip + 6], s[ip + 7])
  }

  method ReadIpv6(buf: array<u8>, ip: nat, little: bool) returns (h: Header6)
    requires ip + 8 <= buf.Length
    ensures h == Rfc8200(buf[..], ip)
  {
    var word := LoadBe32(buf, ip, little);
    var payloadLength := LoadBe16(buf, ip + 4, little);
    h := Header6(word / TWO28, word / TWO20 % 256, word % TWO20, payloadLength, buf[ip + 6], buf[ip + 7]);
  }

  datatype Update6 =
    | Version6(v8: u8) | TrafficClass(v8: u8) | FlowLabel(v32: u32)
    | PayloadLength(v16: u16) | NextHeader(v8: u8) | HopLimit(v8: u8)

  function Or32(a: u32, b: u32): u32 {
    Powers();
    OrBound(a, b, 32);
    Or(a, b)
  }

  /** The first word after a setter of one of its three fields. */
  function FirstWord(word: u32, u: Update6): u32
    requires u.Version6? || u.TrafficClass? || u.FlowLabel?
  {
    match u
    case Version6(v) => Or32(word % TWO28, TWO28 * v % TWO32)
    case TrafficClass(v) => Or32(word - TWO20 * (word / TWO20 % 256), TWO20 * v)
    case FlowLabel(v) => Or32(word - word % TWO20, v)
  }

  function Store6(s: seq<u8>, ip: nat, u: Update6): (t: seq<u8>)
    requires ip + 8 <= |s|
    ensures |t| == |s|
  {
    match u
    case PayloadLength(v) => Put16(s, ip + 4, v)
    case NextHeader(v) => s[ip + 6 := v]
    case HopLimit(v) => s[ip + 7 := v]
    case _ => Put32(s, ip, FirstWord(Word32(s, ip), u))
  }

  function Apply6(h: Header6, u: Update6): Header6 {
    match u
    case Version6(v) => h.(version := v)
    case TrafficClass(v) => h.(trafficClass := v)
    case FlowLabel(v) => h.(flowLabel := v)
    case PayloadLength(v) => h.(payloadLength := v)
    case NextHeader(v) => h.(nextHeader := v)
    case HopLimit(v) => h.(hopLimit := v)
  }

  predicate InRange6(u: Update6) {
    match u
    case Version6(v) => v < 16
    case FlowLabel(v) => v < TWO20
    case _ => true
  }

  /** What a setter does to the record for every value, in range or not. */
  function Effect6(h: Header6, u: Update6): Header6 {
    match u
    case Version6(v) => h.(version := v % 16)
    case FlowLabel(v) =>
      var merged := Or(256 * h.version + h.trafficClass, v / TWO20);
      h.(version := merged / 256, trafficClass := merged % 256, flowLabel := v % TWO20)
    case _ => Apply6(h, u)
  }

  lemma Version6Bits(v: u8, rest: nat)
    requires rest < TWO28
    ensures Or(rest, TWO28 * v % TWO32) == TWO28 * (v % 16) + rest
  {
    Powers();
    assert TWO28 * v % TWO32 == TWO28 * (v % 16);
    OrDisjoint(v % 16, rest, 28, TWO28);
    OrCommutes(rest, TWO28 * (v % 16));
  }

  lemma TrafficClassBits(version: nat, v: u8, flow: nat)
    requires flow < TWO20
    ensures Or(TWO28 * version + flow, TWO20 * v) == TWO28 * version + TWO20 * v + flow
  {
    Powers();
    OrParts(256 * version, v, flow, 0, 20, TWO20);
    OrZero(flow);
    OrDisjoint(version, v, 8, 256);
  }

  lemma FlowLabelBits(top: nat, over: nat, rest: nat)
    requires top < 0x1000 && over < 0x1000 && rest < TWO20
    ensures Or(TWO20 * top, TWO20 * over + rest) == TWO20 * Or(top, over) + rest && Or(top, over) < 0x1000
  {
    Powers();
    OrLow(top, over, rest, 20, TWO20);
    OrBound(top, over, 12);
  }

  /** Writing the first word, whatever its new value. */
  lemma FirstWordPut(s: seq<u8>, ip: nat, word: u32, version: nat, traffic: nat, flow: nat)
    requires ip + 8 <= |s| && traffic < 256 && flow < TWO20
    requires word == TWO28 * version + TWO20 * traffic + flow
    ensures Rfc8200(Put32(s, ip, word), ip) ==
            Rfc8200(s, ip).(version := version, trafficClass := traffic, flowLabel := flow)
  {
    Word32Put(s, ip, word);
    QuotientIs(word, TWO28, version, TWO20 * traffic + flow);
    QuotientIs(word, TWO20, 256 * version + traffic, flow);
    RemainderIs(word, TWO20, 256 * version + traffic, flow);
    RemainderIs(256 * version + traffic, 256, version, traffic);
  }

  lemma WordParts(word: u32)
    ensures var v, t, f := word / TWO28, word / TWO20 % 256, word % TWO20;
            && v < 16 && word == TWO28 * v + TWO20 * t + f
            && word % TWO28 == TWO20 * t + f && word / TWO20 == 256 * v + t
  {
  }

  lemma Version6Word(word: u32, v: u8)
    ensures FirstWord(word, Version6(v)) == TWO28 * (v % 16) + TWO20 * (word / TWO20 % 256) + word % TWO20
  {
    WordParts(word);
    Version6Bits(v, word % TWO28);
  }

  lemma TrafficClassWord(word: u32, v: u8)
    ensures FirstWord(word, TrafficClass(v)) == TWO28 * (word / TWO28) + TWO20 * v + word % TWO20
  {
    WordParts(word);
    TrafficClassBits(word / TWO28, v, word % TWO20);
  }

  lemma FlowLabelWord(word: u32, v: u32)
    ensures FirstWord(word, FlowLabel(v)) == TWO20 * Or(word / TWO20, v / TWO20) + v % TWO20
    ensures Or(word / TWO20, v / TWO20) < 0x1000
  {
    FlowLabelBits(word / TWO20, v / TWO20, v % TWO20);
  }

  lemma Version6Effect(s: seq<u8>, ip: nat, v: u8)
    requires ip + 8 <= |s|
    ensures Rfc8200(Store6(s, ip, Version6(v)), ip) == Effect6(Rfc8200(s, ip), Version6(v))
  {
    var word := Word32(s, ip);
    Version6Word(word, v);
    FirstWordPut(s, ip, FirstWord(word, Version6(v)), v % 16, word / TWO20 % 256, word % TWO20);
  }

  lemma TrafficClassEffect(s: seq<u8>, ip: nat, v: u8)
    requires ip + 8 <= |s|
    ensures Rfc8200(Store6(s, ip, TrafficClass(v)), ip) == Effect6(Rfc8200(s, ip), TrafficClass(v))
  {
    var word := Word32(s, ip);
    TrafficClassWord(word, v);
    FirstWordPut(s, ip, FirstWord(word, TrafficClass(v)), word / TWO28, v, word % TWO20);
  }

  lemma FlowLabelEffect(s: seq<u8>, ip: nat, v: u32)
    requires ip + 8 <= |s|
    ensures Rfc8200(Store6(s, ip, FlowLabel(v)), ip) == Effect6(Rfc8200(s, ip), FlowLabel(v))
  {
    var word := Word32(s, ip);
    WordParts(word);
    FlowLabelWord(word, v);
    var merged := Or(word / TWO20, v / TWO20);
    FirstWordPut(s, ip, FirstWord(word, FlowLabel(v)), merged / 256, merged % 256, v % TWO20);
  }

  /** An out-of-range flow label is merged into the version and the traffic class. */
  lemma SetterEffectIpv6(s: seq<u8>, ip: nat, u: Update6)
    requires ip + 8 <= |s|
    ensures Rfc8200(Store6(s, ip, u), ip) == Effect6(Rfc8200(s, ip), u)
  {
    match u
    case Version6(v) => Version6Effect(s, ip, v);
    case TrafficClass(v) => TrafficClassEffect(s, ip, v);
    case FlowLabel(v) => FlowLabelEffect(s, ip, v);
    case PayloadLength(v) => WordPut(s, ip + 4, v, ip);
    case _ =>
  }

  lemma EffectInRange6(h: Header6, u: Update6)
    requires h.trafficClass < 256
    ensures Effect6(h, u) == Apply6(h, u) <==> InRange6(u)
  {
    match u
    case Version6(v) => Fits(0, v, 16);
    case FlowLabel(v) =>
      Fits(256 * h.version + h.trafficClass, v, TWO20);
      QuotientIs(256 * h.version + h.trafficClass, 256, h.version, h.trafficClass);
      RemainderIs(256 * h.version + h.trafficClass, 256, h.version, h.trafficClass);
    case _ =>
  }

  lemma SetterRefinesIpv6(s: seq<u8>, ip: nat, u: Update6)
    requires ip + 8 <= |s|
    ensures Rfc8200(Store6(s, ip, u), ip) == Apply6(Rfc8200(s, ip), u) <==> InRange6(u)
  {
    SetterEffectIpv6(s, ip, u);
    EffectInRange6(Rfc8200(s, ip), u);
  }

  function StoreAll6(s: seq<u8>, ip: nat, us: seq<Update6>): (t: seq<u8>)
    requires ip + 8 <= |s|
    ensures |t| == |s|
    decreases |us|
  {
    if us == [] then s else StoreAll6(Store6(s, ip, us[0]), ip, us[1..])
  }

  function ApplyAll6(h: Header6, us: seq<Update6>): Header6
    decreases |us|
  {
    if us == [] then h else ApplyAll6(Apply6(h, us[0]), us[1..])
  }

  lemma {:induction false} UpdatesRefineIpv6(s: seq<u8>, ip: nat, us: seq<Update6>)
    requires ip + 8 <= |s| && forall u | u in us :: InRange6(u)
    ensures Rfc8200(StoreAll6(s, ip, us), ip) == ApplyAll6(Rfc8200(s, ip), us)
    decreases |us|
  {
    if us != [] {
      SetterRefinesIpv6(s, ip, us[0]);
      UpdatesRefineIpv6(Store6(s, ip, us[0]), ip, us[1..]);
    }
  }

  method SetVersion6(buf: array<u8>, ip: nat, value: u8, little: bool)
    requires ip + 8 <= buf.Length
    modifies buf
    ensures buf[..] == Store6(old(buf[..]), ip, Version6(value))
  {
    var vtcfl := LoadBe32(buf, ip, little);
    var unchangedBits := vtcfl % TWO28;
    var shiftedValue := TWO28 * value % TWO32;
    StoreBe32(buf, ip, Or32(unchangedBits, shiftedValue), little);
  }

  method SetTrafficClass(buf: array<u8>, ip: nat, value: u8, little: bool)
    requires ip + 8 <= buf.Length
    modifies buf
    ensures buf[..] == Store6(old(buf[..]), ip, TrafficClass(value))
  {
    var vtcfl := LoadBe32(buf, ip, little);
    var unchangedBits := vtcfl - TWO20 * (vtcfl / TWO20 % 256);
    StoreBe32(buf, ip, Or32(unchangedBits, TWO20 * value), little);
  }

  method MergeFlowLabel(vtcfl: u32, value: u32) returns (word: u32)
    ensures word == FirstWord(vtcfl, FlowLabel(value))
  {
    var unchangedBits := vtcfl - vtcfl % TWO20;
    word := Or32(unchangedBits, value);
  }

  method SetFlowLabel(buf: array<u8>, ip: nat, value: u32, little: bool)
    requires ip + 8 <= buf.Length
    modifies buf
    ensures buf[..] == Store6(old(buf[..]), ip, FlowLabel(value))
  {
    var vtcfl := LoadBe32(buf, ip, little);
    var word := MergeFlowLabel(vtcfl, value);
    StoreBe32(buf, ip, word, little);
  }

  method SetWhole6(buf: array<u8>, ip: nat, u: Update6, little: bool)
    requires ip + 8 <= buf.Length && (u.PayloadLength? || u.NextHeader? || u.HopLimit?)
    modifies buf
    ensures buf[..] == Store6(old(buf[..]), ip, u)
  {
    match u {
      case PayloadLength(value) => StoreBe16(buf, ip + 4, value, little);
      case NextHeader(value) => buf[ip + 6] := value;
      case HopLimit(value) => buf[ip + 7] := value;
    }
  }
}
