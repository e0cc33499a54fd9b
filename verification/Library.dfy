// The library code the program relies on but does not contain: address parsing, hashing,
// case mapping and YAML text, as parameters with the laws the proofs assume of them.
module Library {
  import opened Wrappers
  import opened Text
  import opened Decimal

  const WIDTH4 := 32
  const WIDTH6 := 128

  newtype Byte = n: int | 0 <= n < 256

  type Bits4 = n: nat | n < 0x1_0000_0000
  type Bits6 = n: nat | n < 0x1_0000_0000_0000_0000_0000_0000_0000_0000

  datatype Address = V4(bits4: Bits4) | V6(bits6: Bits6, zone: string)

  // An ordered YAML tree. Styles, comments, anchors and tags are not part of the model.
  datatype Node =
    | Scalar(text: string)
    | Mapping(entries: seq<Entry>)
    | Sequence(items: seq<Node>)
    | Alias(name: string)

  datatype Entry = Entry(key: Node, value: Node)

  datatype Library = Library(
    parseAddr: string -> Option<Address>,
    addrText: Address -> string,
    toLower: char -> char,
    digest: string -> seq<Byte>,
    contentHash: string -> string,
    unavailableNotice: string -> string,
    parseYaml: string -> Option<Node>,
    emitYaml: Node -> string)

  // Parsing and rendering of addresses are inverse, and a rendered address has no
  // separator of the rule language in it.
  ghost predicate LawfulAddresses(lib: Library) {
    && (forall a: Address :: (a.V6? ==> a.zone == "") ==> lib.parseAddr(lib.addrText(a)) == Some(a))
    && (forall a: Address :: (a.V6? ==> a.zone == "") ==> Free(lib.addrText(a), ",/"))
  }

  ghost predicate LawfulYaml(lib: Library) {
    forall n :: lib.parseYaml(lib.emitYaml(n)) == Some(n)
  }

  function ToLower(lib: Library, s: string): string {
    MapChars(lib.toLower, s)
  }

  // ---- addresses ----

  function Width(a: Address): nat {
    if a.V4? then WIDTH4 else WIDTH6
  }

  function WithoutZone(a: Address): Address {
    if a.V6? then V6(a.bits6, "") else a
  }

  // Is4In6: an IPv4-mapped IPv6 address (section 2.5.5.2 of RFC 4291).
  predicate IsMapped(a: Address) {
    a.V6? && a.bits6 / 0x1_0000_0000 == 0xFFFF
  }

  function Unmap(a: Address): Address {
    if IsMapped(a) then V4(a.bits6 % 0x1_0000_0000) else a
  }

  // netip.PrefixFrom(a, bits).String(): the zone is dropped, and a length longer than
  // the address makes the prefix invalid.
  function PrefixText(lib: Library, a: Address, bits: nat): string {
    if bits <= Width(a) then lib.addrText(WithoutZone(a)) + "/" + DecimalText(bits) else "invalid Prefix"
  }

  // ---- identifiers ----

  function HexDigit(n: int): char
    requires 0 <= n < 16
  {
    "0123456789abcdef"[n]
  }

  function Hex(bytes: seq<Byte>): string {
    if bytes == [] then ""
    else [HexDigit(bytes[0] as int / 16), HexDigit(bytes[0] as int % 16)] + Hex(bytes[1..])
  }

  predicate IsHex(c: char) {
    '0' <= c <= '9' || 'a' <= c <= 'f'
  }

  lemma {:induction false} HexIsHex(bytes: seq<Byte>)
    ensures forall i :: 0 <= i < |Hex(bytes)| ==> IsHex(Hex(bytes)[i])
  {
    if bytes != [] {
      HexIsHex(bytes[1..]);
      var a, b := bytes[0] as int / 16, bytes[0] as int % 16;
      assert IsHex(HexDigit(a)) && IsHex(HexDigit(b));
    }
  }

  function StableId(lib: Library, prefix: string, raw: string): string {
    prefix + "-" + Hex(lib.digest(raw))
  }

  // The truncated hash tells the given texts apart.
  ghost predicate Distinguishes(lib: Library, prefix: string, raws: set<string>) {
    forall x, y :: x in raws && y in raws && StableId(lib, prefix, x) == StableId(lib, prefix, y) ==> x == y
  }
}
