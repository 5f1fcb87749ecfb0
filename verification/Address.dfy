/** Addresses, of either width. */
module Address {
  datatype Ip = V4(bits: Bits32) | V6(wide: Bits128)

  type Bits32 = n: int | 0 <= n < 0x1_0000_0000

  type Bits128 = n: int | 0 <= n < 0x1_0000_0000_0000_0000_0000_0000_0000_0000

  /** An IPv4 address written as an IPv6 one, `::ffff:a.b.c.d`. */
  predicate IsMapped(ip: Ip) {
    ip.V6? && ip.wide / 0x1_0000_0000 == 0xffff
  }

  function Mapped(ip: Ip): (m: Ip)
    requires ip.V4?
    ensures IsMapped(m)
  {
    V6(0xffff * 0x1_0000_0000 + ip.bits)
  }

  /** One form for each address: a mapped one is brought back to IPv4. */
  function Canonical(ip: Ip): (c: Ip)
    ensures !IsMapped(c) && (!IsMapped(ip) ==> c == ip) && (IsMapped(ip) ==> c.V4? && Mapped(c) == ip)
  {
    if IsMapped(ip) then V4(ip.wide % 0x1_0000_0000) else ip
  }

  /** `127.0.0.0/8`, and `::1`. */
  predicate IsLoopback(ip: Ip)
    ensures ip.V4? ==> (IsLoopback(ip) <==> 0x7f00_0000 <= ip.bits <= 0x7fff_ffff)
    ensures ip.V6? ==> (IsLoopback(ip) <==> ip.wide == 1)
  {
    match ip
    case V4(n) => n / 0x100_0000 == 127
    case V6(n) => n == 1
  }
}
