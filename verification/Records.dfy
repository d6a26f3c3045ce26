/** DNS packets, questions and resource records. */
module Records {
  import opened Bytes

  type Ipv4 = s: seq<byte> | |s| == 4 witness [0, 0, 0, 0]
  type Ipv6 = s: seq<byte> | |s| == 16 witness [0, 0, 0, 0, 0, 0, 0, 0, 0, 0, 0, 0, 0, 0, 0, 0]

  datatype DnsRecord =
    | A(domain: Text, addr: Ipv4, ttl: u32)
    | AAAA(domain: Text, addr6: Ipv6, ttl: u32)
    | CNAME(domain: Text, alias: Text, ttl: u32)
    | MX(domain: Text, preference: u16, exchange: Text, ttl: u32)
    | TXT(domain: Text, text: Text, ttl: u32)
    | NS(domain: Text, nameserver: Text, ttl: u32)
    | SOA(domain: Text, mname: Text, rname: Text, serial: u32, refresh: u32, retry: u32,
          expire: u32, minimum: u32, ttl: u32)
    | SRV(domain: Text, priority: u16, weight: u16, port: u16, target: Text, ttl: u32)
    | PTR(domain: Text, ptrdname: Text, ttl: u32)
    | CAA(domain: Text, caaFlags: byte, tag: Text, value: Text, ttl: u32)
    | OPT(udpSize: u16)
    | DNSKEY(domain: Text, keyFlags: u16, protocol: byte, algorithm: byte, publicKey: seq<byte>, ttl: u32)
    | RRSIG(domain: Text, typeCovered: u16, algorithm: byte, labels: byte, originalTtl: u32,
            expiration: u32, inception: u32, keyTag: u16, signerName: Text, signature: seq<byte>, ttl: u32)
    | DS(domain: Text, keyTag: u16, algorithm: byte, digestType: byte, digest: seq<byte>, ttl: u32)
    | NSEC(domain: Text, nextName: Text, typeBitmap: seq<byte>, ttl: u32)

  const TYPE_A: u16 := 1
  const TYPE_NS: u16 := 2
  const TYPE_CNAME: u16 := 5
  const TYPE_SOA: u16 := 6
  const TYPE_PTR: u16 := 12
  const TYPE_MX: u16 := 15
  const TYPE_TXT: u16 := 16
  const TYPE_AAAA: u16 := 28
  const TYPE_SRV: u16 := 33
  const TYPE_OPT: u16 := 41
  const TYPE_DS: u16 := 43
  const TYPE_RRSIG: u16 := 46
  const TYPE_NSEC: u16 := 47
  const TYPE_DNSKEY: u16 := 48
  const TYPE_CAA: u16 := 257

  function RecordType(r: DnsRecord): u16 {
    match r
    case A(_, _, _) => TYPE_A
    case AAAA(_, _, _) => TYPE_AAAA
    case CNAME(_, _, _) => TYPE_CNAME
    case MX(_, _, _, _) => TYPE_MX
    case TXT(_, _, _) => TYPE_TXT
    case NS(_, _, _) => TYPE_NS
    case SOA(_, _, _, _, _, _, _, _, _) => TYPE_SOA
    case SRV(_, _, _, _, _, _) => TYPE_SRV
    case PTR(_, _, _) => TYPE_PTR
    case CAA(_, _, _, _, _) => TYPE_CAA
    case OPT(_) => TYPE_OPT
    case DNSKEY(_, _, _, _, _, _) => TYPE_DNSKEY
    case RRSIG(_, _, _, _, _, _, _, _, _, _, _) => TYPE_RRSIG
    case DS(_, _, _, _, _, _) => TYPE_DS
    case NSEC(_, _, _, _) => TYPE_NSEC
  }

  /** The owner name; an OPT pseudo-record has none. */
  function Owner(r: DnsRecord): Text { if r.OPT? then [] else r.domain }

  function Ttl(r: DnsRecord): u32 { if r.OPT? then 0 else r.ttl }

  /** The class field: Internet, except that OPT carries a UDP size there. */
  function Class(r: DnsRecord): u16 { if r.OPT? then r.udpSize else 1 }

  function WithDomain(r: DnsRecord, name: Text): (r': DnsRecord)
    ensures RecordType(r') == RecordType(r) && Ttl(r') == Ttl(r)
    ensures Owner(r') == if r.OPT? then [] else name
    ensures if r.OPT? then r' == r else r'.(domain := r.domain) == r
  {
    if r.OPT? then r else r.(domain := name)
  }

  datatype DnsHeader = DnsHeader(id: u16, flags: u16, questions: u16, answers: u16, authorities: u16, additionals: u16)

  datatype DnsQuestion = DnsQuestion(qname: Text, qtype: u16, qclass: u16)

  datatype DnsPacket = DnsPacket(
    header: DnsHeader,
    questions: seq<DnsQuestion>,
    answers: seq<DnsRecord>,
    authorities: seq<DnsRecord>,
    additionals: seq<DnsRecord>)

  const FLAG_QR: u16 := 0x8000
  const FLAG_AA: u16 := 0x0400
  const FLAG_TC: u16 := 0x0200
  const FLAG_RD: u16 := 0x0100
  const FLAG_RA: u16 := 0x0080

  function Rcode(flags: u16): nat { flags % 16 }

  /** Clearing AA leaves every other bit alone. */
  lemma ClearedAa(flags: u16)
    ensures var c := ClearBit(flags, FLAG_AA);
            && 0 <= c < 0x1_0000 && c / 0x400 % 2 == 0
            && c / 0x800 == flags / 0x800 && c % 0x400 == flags % 0x400 && c % 16 == flags % 16
  {
    var h, l := flags / 0x800, flags % 0x400;
    if HasBit(flags, FLAG_AA) {
      assert flags == 0x800 * h + 0x400 + l;
      assert flags - 0x400 == 0x400 * (2 * h) + l;
    }
  }

  /** Setting RA leaves every other bit alone. */
  lemma SetRa(flags: u16)
    ensures var r := SetBit(flags, FLAG_RA);
            && 0 <= r < 0x1_0000 && r / 0x80 % 2 == 1
            && r / 0x100 == flags / 0x100 && r % 0x80 == flags % 0x80 && r % 16 == flags % 16
  {
    var h, l := flags / 0x100, flags % 0x80;
    if !HasBit(flags, FLAG_RA) {
      assert flags == 0x100 * h + l;
      assert flags + 0x80 == 0x80 * (2 * h + 1) + l;
      assert flags / 0x100 == h && (flags + 0x80) / 0x100 == h;
    }
  }
}
