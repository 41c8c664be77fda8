/**
 * The octets and texts of the two dotted-quad helpers.  An address is the
 * `uint32_t` argument, a 32-bit vector; an octet is `(ip >> shift) & 0xFF`.
 */
module Ipv4 {
  import opened Decimal

  /** The format string both helpers pass to the formatted append. */
  const IpFormat: string := "%u.%u.%u.%u\0"

  /** `(ip >> shift) & 0xFF`. */
  function Octet(ip: bv32, shift: nat): bv8
    requires shift < 32
  {
    ((ip >> shift) & 0xFF) as bv8
  }

  /** The octets as the numbers `%u` receives. */
  function AsNats(o: seq<bv8>): seq<nat>
  {
    seq(|o|, i requires 0 <= i < |o| => o[i] as nat)
  }

  /** The address rebuilt from its octets, most significant first. */
  function FromOctets(o: seq<bv8>): bv32
    requires |o| == 4
  {
    (o[0] as bv32 << 24) | (o[1] as bv32 << 16) | (o[2] as bv32 << 8) | o[3] as bv32
  }

  /** The argument order of `str_builder_append_ip_be`: most significant octet first. */
  function BeOctets(ip: bv32): seq<bv8> {
    [Octet(ip, 24), Octet(ip, 16), Octet(ip, 8), Octet(ip, 0)]
  }

  /** The argument order of `str_builder_append_ip_le` as the code has it: bits 24-31 twice, bits 16-23 never. */
  function LeOctetsAsWritten(ip: bv32): seq<bv8> {
    [Octet(ip, 0), Octet(ip, 8), Octet(ip, 24), Octet(ip, 24)]
  }

  /** The little-endian order the helper is meant to produce: least significant octet first. */
  function LeOctets(ip: bv32): seq<bv8> {
    [Octet(ip, 0), Octet(ip, 8), Octet(ip, 16), Octet(ip, 24)]
  }

  function Reverse4(o: seq<bv8>): seq<bv8>
    requires |o| == 4
  {
    [o[3], o[2], o[1], o[0]]
  }

  /** The text `str_builder_append_ip_be` appends. */
  function BeText(ip: bv32): string {
    DottedQuad(AsNats(BeOctets(ip)))
  }

  /** The text `str_builder_append_ip_le` appends as written. */
  function LeTextAsWritten(ip: bv32): string {
    DottedQuad(AsNats(LeOctetsAsWritten(ip)))
  }

  /** The text the little-endian helper is meant to append. */
  function LeText(ip: bv32): string {
    DottedQuad(AsNats(LeOctets(ip)))
  }

  /** The big-endian octets are a complete decomposition of the address. */
  lemma BeOctetsRoundTrip(ip: bv32)
    ensures FromOctets(BeOctets(ip)) == ip
  {
    var o := BeOctets(ip);
    Recombine(ip);
  }

  lemma Recombine(ip: bv32)
    ensures (Octet(ip, 24) as bv32 << 24) | (Octet(ip, 16) as bv32 << 16) | (Octet(ip, 8) as bv32 << 8) | Octet(ip, 0) as bv32 == ip
  {
    assert Octet(ip, 24) as bv32 == (ip >> 24) & 0xFF;
    assert Octet(ip, 16) as bv32 == (ip >> 16) & 0xFF;
    assert Octet(ip, 8) as bv32 == (ip >> 8) & 0xFF;
    assert Octet(ip, 0) as bv32 == (ip >> 0) & 0xFF;
  }

  /** Shift-and-mask is base-256 digit extraction: each octet is the address divided by a
      power of 256, modulo 256, and the four digits weighted by their powers sum to the address. */
  lemma OctetValue(ip: bv32)
    ensures Octet(ip, 0) as bv32 == ip % 0x100
    ensures Octet(ip, 8) as bv32 == ip / 0x100 % 0x100
    ensures Octet(ip, 16) as bv32 == ip / 0x1_0000 % 0x100
    ensures Octet(ip, 24) as bv32 == ip / 0x100_0000
    ensures ip == Octet(ip, 24) as bv32 * 0x100_0000 + Octet(ip, 16) as bv32 * 0x1_0000
                  + Octet(ip, 8) as bv32 * 0x100 + Octet(ip, 0) as bv32
  {
    assert Octet(ip, 24) as bv32 == (ip >> 24) & 0xFF;
    assert Octet(ip, 16) as bv32 == (ip >> 16) & 0xFF;
    assert Octet(ip, 8) as bv32 == (ip >> 8) & 0xFF;
    assert Octet(ip, 0) as bv32 == (ip >> 0) & 0xFF;
  }

  /** The corrected little-endian octets are the big-endian ones reversed. */
  lemma LeOctetsReverseBe(ip: bv32)
    ensures LeOctets(ip) == Reverse4(BeOctets(ip))
    ensures FromOctets(Reverse4(LeOctets(ip))) == ip
  {
    BeOctetsRoundTrip(ip);
  }

  lemma AsNatsInjective(a: seq<bv8>, b: seq<bv8>)
    requires AsNats(a) == AsNats(b)
    ensures a == b
  {
    assert |a| == |b|;
    forall i | 0 <= i < |a| ensures a[i] == b[i] {
      assert AsNats(a)[i] == AsNats(b)[i];
    }
  }

  /** The big-endian text names the address: reading it back gives the octets, which give the address. */
  lemma BeTextRoundTrip(ip: bv32)
    ensures ParseDotted(BeText(ip)) == AsNats(BeOctets(ip))
    ensures 7 <= |BeText(ip)| <= 15
  {
    DottedQuadRoundTrip(AsNats(BeOctets(ip)));
    DottedQuadLength(AsNats(BeOctets(ip)));
  }

  /** Distinct addresses give distinct big-endian texts. */
  lemma BeTextInjective(a: bv32, b: bv32)
    requires BeText(a) == BeText(b)
    ensures a == b
  {
    BeTextRoundTrip(a);
    BeTextRoundTrip(b);
    AsNatsInjective(BeOctets(a), BeOctets(b));
    BeOctetsRoundTrip(a);
    BeOctetsRoundTrip(b);
  }

  /** Distinct addresses give distinct (corrected) little-endian texts. */
  lemma LeTextInjective(a: bv32, b: bv32)
    requires LeText(a) == LeText(b)
    ensures a == b
  {
    DottedQuadRoundTrip(AsNats(LeOctets(a)));
    DottedQuadRoundTrip(AsNats(LeOctets(b)));
    AsNatsInjective(LeOctets(a), LeOctets(b));
    LeOctetsReverseBe(a);
    LeOctetsReverseBe(b);
  }

  /** The as-written little-endian text never depends on bits 16-23. */
  lemma LeAsWrittenIgnoresThirdOctet(ip: bv32)
    ensures LeTextAsWritten(ip) == LeTextAsWritten(ip & 0xFF00_FFFF)
  {
    var m := ip & 0xFF00_FFFF;
    // needed: without it the lemma runs out of resource
    assert Octet(ip, 0) == Octet(m, 0) && Octet(ip, 8) == Octet(m, 8) && Octet(ip, 24) == Octet(m, 24);
    assert LeOctetsAsWritten(ip) == LeOctetsAsWritten(m);
  }

  /** So two addresses share one as-written text: 0.0.0.0 and 0.1.0.0 both render as "0.0.0.0". */
  lemma LeAsWrittenCollides()
    ensures LeTextAsWritten(0x0000_0000) == LeTextAsWritten(0x0001_0000) == "0.0.0.0"
  {
    LeAsWrittenIgnoresThirdOctet(0x0001_0000);
    assert LeOctetsAsWritten(0) == [0, 0, 0, 0];
    assert AsNats([0, 0, 0, 0]) == [0, 0, 0, 0];
  }

  /** The dotted quad of four two-digit numbers, digit by digit. */
  lemma TwoDigitQuad(q: seq<nat>)
    requires |q| == 4 && forall i :: 0 <= i < 4 ==> 10 <= q[i] < 100
    ensures DottedQuad(q) == [DigitChar(q[0] / 10), DigitChar(q[0] % 10), '.', DigitChar(q[1] / 10), DigitChar(q[1] % 10), '.',
                              DigitChar(q[2] / 10), DigitChar(q[2] % 10), '.', DigitChar(q[3] / 10), DigitChar(q[3] % 10)]
  {
    forall i | 0 <= i < 4 ensures ToDecimal(q[i]) == [DigitChar(q[i] / 10), DigitChar(q[i] % 10)] {
    }
  }

  lemma ExampleOctets()
    ensures BeOctets(0x0A14_1E28) == [10, 20, 30, 40]
    ensures LeOctets(0x0A14_1E28) == [40, 30, 20, 10]
    ensures LeOctetsAsWritten(0x0A14_1E28) == [40, 30, 10, 10]
  {
  }

  lemma QuadExamples()
    ensures DottedQuad(AsNats([10, 20, 30, 40])) == "10.20.30.40"
    ensures DottedQuad(AsNats([40, 30, 20, 10])) == "40.30.20.10"
    ensures DottedQuad(AsNats([40, 30, 10, 10])) == "40.30.10.10"
  {
    var be, le, lw := AsNats([10, 20, 30, 40]), AsNats([40, 30, 20, 10]), AsNats([40, 30, 10, 10]);
    TwoDigitQuad(be);
    TwoDigitQuad(le);
    TwoDigitQuad(lw);
  }

  /** The address 0x0A141E28: "10.20.30.40" big-endian, "40.30.20.10" little-endian. */
  lemma ExampleTexts()
    ensures BeText(0x0A14_1E28) == "10.20.30.40"
    ensures LeText(0x0A14_1E28) == "40.30.20.10"
    ensures LeTextAsWritten(0x0A14_1E28) == "40.30.10.10"
  {
    ExampleOctets();
    QuadExamples();
  }
}
