/** Types shared by every component: optional values, machine bytes and peer addresses. */
module Common {
  datatype Option<+T> = None | Some(value: T) {
    function GetOr(default: T): T {
      if Some? then value else default
    }
  }

  type byte = x: int | 0 <= x < 0x100
  type u32 = x: int | 0 <= x < 0x1_0000_0000
  type u128 = x: int | 0 <= x < 0x1_0000_0000_0000_0000_0000_0000_0000_0000

  /** A peer address, as the integer its octets spell in network order. */
  datatype IpAddr = V4(v4: u32) | V6(v6: u128) {
    /** 127.0.0.0/8 for IPv4, exactly ::1 for IPv6 (an IPv4-mapped address is not loopback). */
    predicate IsLoopback() {
      match this
      case V4(bits) => bits / 0x100_0000 == 127
      case V6(bits) => bits == 1
    }
  }

  /** Loopback is 127.0.0.0 to 127.255.255.255, and ::1. */
  lemma LoopbackIsExact(ip: IpAddr)
    ensures ip.V4? ==> (ip.IsLoopback() <==> 0x7F00_0000 <= ip.v4 <= 0x7FFF_FFFF)
    ensures ip.V6? ==> (ip.IsLoopback() <==> ip.v6 == 1)
  {}

  function Min(x: real, y: real): real {
    if x <= y then x else y
  }

  function Max(x: real, y: real): real {
    if x <= y then y else x
  }

  /** Unsigned subtraction that stops at 0. */
  function SaturatingSub(x: int, y: int): int {
    if y <= x then x - y else 0
  }

  lemma ProductNonNegative(x: real, y: real)
    requires x >= 0.0 && y >= 0.0
    ensures x * y >= 0.0
  {}

  lemma ProductMonotone(x: real, x': real, y: real)
    requires x <= x' && y >= 0.0
    ensures x * y <= x' * y
  {
    ProductNonNegative(x' - x, y);
  }
}
