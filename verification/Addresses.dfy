/**
  Peer addresses, their equality and their hash.

  IP addresses are byte strings in network order and ports are in host order.
  A family that is neither unset, IPv4 nor IPv6 does not occur.
*/
module Addresses {

  type Port = n: int | 0 <= n < 0x1_0000
  type Ip4 = s: seq<bv8> | |s| == 4 witness [0, 0, 0, 0]
  type Ip6 = s: seq<bv8> | |s| == 16 witness [0, 0, 0, 0, 0, 0, 0, 0, 0, 0, 0, 0, 0, 0, 0, 0]

  datatype Address =
    | Unspec
    | Inet(ip4: Ip4, port4: Port)
    | Inet6(ip6: Ip6, port6: Port, scope: bv32)
  {
    function GetPort(): Port {
      match this
      case Unspec => 0
      case Inet(_, port) => port
      case Inet6(_, port, _) => port
    }

    function WithPort(port: Port): (r: Address)
      ensures !Unspec? ==> r.GetPort() == port
    {
      match this
      case Unspec => Unspec
      case Inet(_, _) => this.(port4 := port)
      case Inet6(_, _, _) => this.(port6 := port)
    }

    /** Link-local addresses, fe80::/10: only for these does the scope matter. */
    predicate LinkLocal() {
      Inet6? && ip6[0] == 0xfe && ip6[1] & 0xc0 == 0x80
    }
  }

  /** Address equality as the source compares: the scope counts for link-local addresses only. */
  predicate AddressEqual(a: Address, b: Address) {
    match a
    case Unspec => b.Unspec?
    case Inet(ip, port) => b.Inet? && ip == b.ip4 && port == b.port4
    case Inet6(ip, port, scope) => b.Inet6? && ip == b.ip6 && port == b.port6 && (a.LinkLocal() ==> scope == b.scope)
  }

  /** Equality on addresses is an equivalence, and a coarser one than identity. */
  lemma AddressEqualLaws(a: Address, b: Address, c: Address)
    ensures AddressEqual(a, a)
    ensures AddressEqual(a, b) == AddressEqual(b, a)
    ensures AddressEqual(a, b) && AddressEqual(b, c) ==> AddressEqual(a, c)
  {
  }

  // ------------------------------------------------------------------- hash

  /** One step of the Jenkins one-at-a-time hash. */
  function HashByte(h: bv32, b: bv8): bv32 {
    var h1 := h + b as bv32;
    var h2 := h1 + (h1 << 10);
    h2 ^ (h2 >> 6)
  }

  function HashBytes(h: bv32, data: seq<bv8>): bv32 {
    if data == [] then h
    else
      var last := |data| - 1;
      HashByte(HashBytes(h, data[..last]), data[last])
  }

  /** The hash loop: the accumulator runs over the bytes in order. */
  method Hash(hash: bv32, data: seq<bv8>) returns (r: bv32)
    ensures r == HashBytes(hash, data)
  {
    r := hash;
    for i := 0 to |data|
      invariant r == HashBytes(hash, data[..i])
    {
      assert data[..i + 1][..i] == data[..i];
      r := HashByte(r, data[i]);
    }
    assert data[..|data|] == data;
  }

  function HashFinal(h: bv32): bv32 {
    var h1 := h + (h << 3);
    var h2 := h1 ^ (h1 >> 11);
    h2 + (h2 << 15)
  }

  /** The one-at-a-time hash of the letter "a" is the published one. */
  lemma KnownHash()
    ensures HashFinal(HashBytes(0, [0x61])) == 0xca2e_9442
  {
    assert HashByte(0, 0x61) == 0x0001_8270;
    assert HashBytes(0, [0x61]) == HashByte(0, 0x61) by {
      var data: seq<bv8> := [0x61];
      assert data[..0] == [];
    }
  }

  function PortBytes(port: Port): seq<bv8> {
    [(port / 256) as bv8, (port % 256) as bv8]
  }

  function ScopeBytes(scope: bv32): seq<bv8> {
    [(scope & 0xff) as bv8, ((scope >> 8) & 0xff) as bv8, ((scope >> 16) & 0xff) as bv8, ((scope >> 24) & 0xff) as bv8]
  }

  /** Feeds an address to the hash; the source stops on an unset address. */
  function HashAddress(h: bv32, a: Address): bv32
    requires !a.Unspec?
  {
    match a
    case Inet(ip, port) => HashBytes(HashBytes(h, ip), PortBytes(port))
    case Inet6(ip, port, scope) =>
      var h1 := HashBytes(HashBytes(h, ip), PortBytes(port));
      if a.LinkLocal() then HashBytes(h1, ScopeBytes(scope)) else h1
  }

  /** Equal addresses hash equally, although equality ignores the scope of most of them. */
  lemma EqualAddressesHashEqually(h: bv32, a: Address, b: Address)
    requires AddressEqual(a, b) && !a.Unspec?
    ensures !b.Unspec? && HashAddress(h, a) == HashAddress(h, b)
  {
  }
}
