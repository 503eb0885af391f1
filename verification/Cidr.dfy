/** CIDR matching on addresses of any width, an address being its bits from the top. */
module Cidr {

  type Bits = seq<bool>

  datatype Ip = V4(bits: Bits) | V6(bits: Bits)

  predicate Sized(ip: Ip) {
    |ip.bits| == Width(ip)
  }

  function Width(ip: Ip): nat {
    if ip.V4? then 32 else 128
  }

  function Zeros(n: nat): Bits {
    seq(n, _ => false)
  }

  function Ones(n: nat): Bits {
    seq(n, _ => true)
  }

  /** Machine shift: bits leave at the top, zeros enter at the bottom. The machine does not
      define a shift by the full width. */
  function Shl(x: Bits, s: nat): Bits
    requires s < |x|
  {
    x[s..] + Zeros(s)
  }

  function And(x: Bits, y: Bits): Bits
    requires |x| == |y|
  {
    seq(|x|, i requires 0 <= i < |x| => x[i] && y[i])
  }

  /** The prefix mask; length 0 is a case of its own because the shift would be the width. */
  function Mask(width: nat, len: nat): (m: Bits)
    requires len <= width
    ensures |m| == width
  {
    if len == 0 then Zeros(width) else Shl(Ones(width), width - len)
  }

  predicate Contains(net: Ip, len: nat, ip: Ip)
    requires Sized(net) && Sized(ip) && len <= Width(net)
  {
    net.V4? == ip.V4?
    && And(net.bits, Mask(Width(net), len)) == And(ip.bits, Mask(Width(net), len))
  }

  /** Containment is agreement of family and of the first `len` bits, for every length from
      0 to the full width. */
  lemma ContainsIffPrefix(net: Ip, len: nat, ip: Ip)
    requires |net.bits| == (if net.V4? then 32 else 128) && |ip.bits| == (if ip.V4? then 32 else 128)
    requires len <= |net.bits|
    ensures Contains(net, len, ip) <==> net.V4? == ip.V4? && net.bits[..len] == ip.bits[..len]
  {
    var m := Mask(Width(net), len);
    assert forall i :: 0 <= i < Width(net) ==> (m[i] <==> i < len);
    if net.V4? == ip.V4? {
      var x, y := And(net.bits, m), And(ip.bits, m);
      if x == y {
        forall i | 0 <= i < len ensures net.bits[i] == ip.bits[i] { assert x[i] == y[i]; }
      }
      if net.bits[..len] == ip.bits[..len] {
        forall i | 0 <= i < |x| ensures x[i] == y[i] {
          if i < len { assert net.bits[..len][i] == ip.bits[..len][i]; }
        }
      }
    }
  }
}
