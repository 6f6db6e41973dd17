/**
 Transport addresses: the two comparisons and the two hashes of src/addr.c that
 every hash table of the library is built on.
 */
module Addr {

  type byte = x: int | 0 <= x < 256
  type uint16 = x: int | 0 <= x < 0x1_0000

  const ULONG_LIMIT := 0x1_0000_0000_0000_0000

  const DJB2_INIT := 5381
  const AF_INET := 2
  const AF_INET6 := 10

  /** A socket address. Only the parts that comparison and hashing look at are kept:
      flow label and scope of an IPv6 address are read by neither. */
  datatype Address =
    | Inet(ip: seq<byte>, port: uint16)
    | Inet6(ip6: seq<byte>, port6: uint16)
    | OtherFamily(family: nat)
  {
    predicate Valid() {
      match this
      case Inet(ip, _) => |ip| == 4
      case Inet6(ip, _) => |ip| == 16
      case OtherFamily(f) => f != AF_INET && f != AF_INET6
    }

    function Family(): nat {
      match this
      case Inet(_, _) => AF_INET
      case Inet6(_, _) => AF_INET6
      case OtherFamily(f) => f
    }
  }

  /** An address with the socket type it was seen on. */
  datatype Record = Record(addr: Address, dgram: bool)

  /** Unlike `==`, this is false on a family the library does not know, even of an address and itself. */
  predicate AddrIsEqual(a: Address, b: Address, comparePorts: bool) {
    match (a, b)
    case (Inet(ip, port), Inet(ip', port')) => ip == ip' && (comparePorts ==> port == port')
    case (Inet6(ip, port), Inet6(ip', port')) => ip == ip' && (comparePorts ==> port == port')
    case _ => false
  }

  predicate RecordIsEqual(a: Record, b: Record, comparePorts: bool) {
    AddrIsEqual(a.addr, b.addr, comparePorts) && a.dgram == b.dgram
  }

  function Djb2(hash: nat, i: nat): nat {
    (hash * 33 + i) % ULONG_LIMIT
  }

  function Djb2All(hash: nat, bytes: seq<byte>): nat
    decreases |bytes|
  {
    if bytes == [] then hash else Djb2All(Djb2(hash, bytes[0]), bytes[1..])
  }

  function Djb2Port(hash: nat, port: uint16, withPort: bool): nat {
    if withPort then Djb2(Djb2(hash, port / 256), port % 256) else hash
  }

  /** The loop of addr_hash, folded over the bytes it visits. The port is fed high half first
      whatever the byte order it is stored in. */
  function AddrHash(a: Address, withPort: bool): nat {
    var h := Djb2(DJB2_INIT, a.Family());
    match a
    case Inet(ip, port) => Djb2Port(Djb2All(h, ip), port, withPort)
    case Inet6(ip, port) => Djb2Port(Djb2All(h, ip), port, withPort)
    case OtherFamily(_) => h
  }

  function RecordHash(r: Record, withPort: bool): nat {
    (AddrHash(r.addr, withPort) + if r.dgram then 0 else 1) % ULONG_LIMIT
  }

  lemma {:induction false} Djb2AllAppend(hash: nat, bytes: seq<byte>, b: byte)
    ensures Djb2All(hash, bytes + [b]) == Djb2(Djb2All(hash, bytes), b)
    decreases |bytes|
  {
    if bytes == [] {
    } else {
      assert (bytes + [b])[1..] == bytes[1..] + [b];
      Djb2AllAppend(Djb2(hash, bytes[0]), bytes[1..], b);
    }
  }

  /** addr_record_hash as the library runs it: one accumulator updated byte by byte. */
  method HashRecord(r: Record, withPort: bool) returns (hash: nat)
    ensures hash == RecordHash(r, withPort)
  {
    hash := Djb2(DJB2_INIT, r.addr.Family());
    if !r.addr.OtherFamily? {
      ghost var h0 := hash;
      var ip := if r.addr.Inet? then r.addr.ip else r.addr.ip6;
      var port := if r.addr.Inet? then r.addr.port else r.addr.port6;
      for i := 0 to |ip|
        invariant hash == Djb2All(h0, ip[..i])
      {
        Djb2AllAppend(h0, ip[..i], ip[i]);
        assert ip[..i + 1] == ip[..i] + [ip[i]];
        hash := Djb2(hash, ip[i]);
      }
      assert ip[..|ip|] == ip;
      if withPort {
        hash := Djb2(hash, port / 256);
        hash := Djb2(hash, port % 256);
      }
    }
    hash := (hash + if r.dgram then 0 else 1) % ULONG_LIMIT;
  }

  /** Equal keys hash equally, and a comparison that looks at ports may be served by a hash that
      does not: what makes probing from the hash find every equal key. */
  lemma EqualKeysHashEqually(a: Record, b: Record, comparePorts: bool, hashPort: bool)
    requires RecordIsEqual(a, b, comparePorts)
    requires hashPort ==> comparePorts
    ensures RecordHash(a, hashPort) == RecordHash(b, hashPort)
  {
    match (a.addr, b.addr)
    case (Inet(ip, port), Inet(ip', port')) => assert ip == ip';
    case (Inet6(ip, port), Inet6(ip', port')) => assert ip == ip';
  }

  predicate Known(r: Record) {
    r.addr.Valid() && !r.addr.OtherFamily?
  }

  /** A record as a socket delivers it: of a family the library knows. */
  type Endpoint = r: Record | Known(r) witness Record(Inet([0, 0, 0, 0], 0), true)

  /** On endpoints the comparison with ports is identity, so an endpoint can be a table key. */
  lemma EqualIsIdentity(a: Endpoint, b: Endpoint)
    ensures RecordIsEqual(a, b, true) <==> a == b
  {
  }
}
