/**
 * RADIUS attributes and their data types: the registered types of section 5 of RFC 2865 and of
 * RFC 2869, their length limits, and the packing of one attribute. EAP-Message is the only
 * attribute that may be longer than 253 octets; it is cut into fragments (section 5.13 of RFC 2869).
 */
module RadiusAttributes {
  import opened Octets

  const HEADER_SIZE := 2
  const MAX_DATA_LENGTH := 253
  const EAP_MESSAGE: Octet := 79
  const MESSAGE_AUTHENTICATOR: Octet := 80

  datatype DataType = Integer | Enum | Text | String | Concat | Vsa

  /** The attribute types that have a registered class, with the data type of each. */
  function Lookup(typ: Octet): Option<DataType>
  {
    match typ
    case 1 | 11 | 18 | 30 | 31 | 32 | 44 | 77 => Some(Text)
    case 2 | 4 | 24 | 80 | 81 | 92 => Some(String)
    case 5 | 12 | 27 => Some(Integer)
    case 6 | 61 | 64 | 65 => Some(Enum)
    case 26 => Some(Vsa)
    case 79 => Some(Concat)
    case _ => None
  }

  /** The registered types, one by one; no others are. */
  lemma RegisteredTypes(typ: Octet)
    ensures Lookup(typ) == Some(Text) <==> typ in {1, 11, 18, 30, 31, 32, 44, 77}
    ensures Lookup(typ) == Some(String) <==> typ in {2, 4, 24, 80, 81, 92}
    ensures Lookup(typ) == Some(Integer) <==> typ in {5, 12, 27}
    ensures Lookup(typ) == Some(Enum) <==> typ in {6, 61, 64, 65}
    ensures Lookup(typ) == Some(Vsa) <==> typ == 26
    ensures Lookup(typ) == Some(Concat) <==> typ == 79
  {
  }

  /** Whether a packed value has a length its data type accepts; Concat accepts any. */
  predicate IsValidLength(dt: DataType, value: Octets)
  {
    match dt
    case Integer | Enum => |value| == 4
    case Text | String => 1 <= |value| <= MAX_DATA_LENGTH
    case Vsa => 5 <= |value| <= MAX_DATA_LENGTH
    case Concat => true
  }

  /** The lengths a value may have, by its attribute's type octet. */
  lemma AcceptedLengths(typ: Octet, value: Octets)
    requires Lookup(typ).Some?
    ensures IsValidLength(Lookup(typ).value, value)
            <==> if typ in {5, 12, 27, 6, 61, 64, 65} then |value| == 4
                 else if typ == 26 then 5 <= |value| <= 253
                 else if typ == 79 then true
                 else 1 <= |value| <= 253
  {
    RegisteredTypes(typ);
  }

  /** An attribute object: its class, given by type octet and data type, and its `bytes_data`. */
  datatype Attribute = Attribute(typ: Octet, kind: DataType, data: Octets) {
    /** There is such a class, and its data type would accept the value back. */
    predicate Valid() { Lookup(typ) == Some(kind) && IsValidLength(kind, data) }

    predicate IsEap() { typ == EAP_MESSAGE }

    /** Octets of the whole attribute on the wire, as the source computes them. */
    function FullLength(): (n: nat)
    {
      match kind
      case Integer | Enum => 4 + HEADER_SIZE
      case Concat => HEADER_SIZE * (CeilDiv(|data|, MAX_DATA_LENGTH) + 1) + |data| - HEADER_SIZE
      case _ => |data| + HEADER_SIZE
    }

    /** Packing raises no error: the length fits the one-octet length field. */
    predicate Packable()
    {
      kind.Concat? || kind.Integer? || kind.Enum? || |data| <= MAX_DATA_LENGTH
    }

    function Pack(): (r: Octets)
      requires Packable()
    {
      match kind
      case Concat => PackFragments(typ, data)
      case Integer | Enum => [typ, FullLength()] + Fit4(data)
      case _ => [typ, FullLength()] + data
    }
  }

  function EapAttribute(data: Octets): Attribute
  {
    Attribute(EAP_MESSAGE, Concat, data)
  }

  function MaAttribute(data: Octets): Attribute
  {
    Attribute(MESSAGE_AUTHENTICATOR, String, data)
  }

  function CeilDiv(n: nat, d: nat): nat
    requires d > 0
  {
    (n + d - 1) / d
  }

  /** The `4s` format: pads with zeros or cuts to four octets. */
  function Fit4(s: Octets): (r: Octets)
    ensures |r| == 4 && (|s| == 4 ==> r == s)
    ensures forall i :: 0 <= i < 4 ==> r[i] == if i < |s| then s[i] else 0
  {
    (s + [0, 0, 0, 0])[..4]
  }

  function PackFragment(typ: Octet, part: Octets): Octets
    requires |part| <= MAX_DATA_LENGTH
  {
    [typ, |part| + HEADER_SIZE] + part
  }

  function FirstPiece(data: Octets): nat
  {
    if |data| <= MAX_DATA_LENGTH then |data| else MAX_DATA_LENGTH
  }

  /** A value cut into pieces of at most 253 octets, each behind its own header. */
  function PackFragments(typ: Octet, data: Octets): Octets
    decreases |data|
  {
    if data == [] then [] else
      var n := FirstPiece(data);
      PackFragment(typ, data[..n]) + PackFragments(typ, data[n..])
  }

  /** The last piece has the remainder as its length. */
  lemma RemainderIsLastPiece(n: nat, k: nat)
    requires MAX_DATA_LENGTH * k < n < MAX_DATA_LENGTH * (k + 1)
    ensures n % MAX_DATA_LENGTH == n - MAX_DATA_LENGTH * k
  {
  }

  /** The chunking loop of `Concat.pack`, with its shrinking `length` variable. */
  method PackConcat(typ: Octet, data: Octets) returns (packed: Octets)
    ensures packed == PackFragments(typ, data)
  {
    var length := MAX_DATA_LENGTH;
    packed := [];
    var i, k := 0, 0;
    ghost var rest := data;
    while i < |data|
      invariant i == MAX_DATA_LENGTH * k && (i < |data| ==> length == MAX_DATA_LENGTH)
      invariant rest == if i <= |data| then data[i..] else []
      invariant packed + PackFragments(typ, rest) == PackFragments(typ, data)
    {
      if i + MAX_DATA_LENGTH > |data| {
        RemainderIsLastPiece(|data|, k);
        length := |data| % MAX_DATA_LENGTH;
      }
      var chunk := Slice(data, i, i + length);
      assert length == FirstPiece(rest);
      assert rest[..length] == chunk;
      packed := packed + PackFragment(typ, chunk);
      rest := rest[length..];
      i, k := i + MAX_DATA_LENGTH, k + 1;
    }
  }

  lemma {:induction false} FragmentsLength(typ: Octet, data: Octets)
    ensures |PackFragments(typ, data)| == |data| + HEADER_SIZE * CeilDiv(|data|, MAX_DATA_LENGTH)
    decreases |data|
  {
    if data != [] {
      FragmentsLength(typ, data[FirstPiece(data)..]);
    }
  }

  /** `full_length` is the number of octets `pack` emits, for every data type. */
  lemma FullLengthIsPackedLength(a: Attribute)
    requires a.Packable()
    ensures |a.Pack()| == a.FullLength()
    ensures !a.kind.Concat? ==> a.FullLength() <= 255
  {
    FragmentsLength(a.typ, a.data);
  }

  lemma ValidIsPackable(a: Attribute)
    requires a.Valid()
    ensures a.Packable() && (a.IsEap() <==> a.kind.Concat?)
  {
  }

  /** Integer and Enum attributes created from a number: zero leaves the value unset. */
  function CreateNumber(raw: int): Result<Option<Octets>, ()>
  {
    if raw == 0 then Ok(None)
    else if 0 < raw < 0x1_0000_0000 then
      Ok(Some([raw / 0x100_0000, raw / 0x1_0000 % 256, raw / 256 % 256, raw % 256]))
    else Err(())
  }

  function NumberData(s: Octets): nat
    requires |s| == 4
  {
    256 * (256 * (256 * (s[0] as int) + s[1]) + s[2]) + s[3]
  }

  /** Numbers are stored with the high octet first. */
  lemma NumbersAreBigEndian(a: Octet, b: Octet, d: Octet, e: Octet)
    ensures NumberData([a, b, d, e]) == 0x100_0000 * a as int + 0x1_0000 * b as int + 0x100 * d as int + e as int
  {
  }

  /** Reading a created number gives it back exactly for 1 to 2^32-1; zero is lost. */
  lemma CreatedNumberReadsBack(raw: int)
    ensures (exists v :: CreateNumber(raw) == Ok(Some(v)) && |v| == 4 && NumberData(v) == raw)
            <==> 0 < raw < 0x1_0000_0000
  {
    if 0 < raw < 0x1_0000_0000 {
      var v: Octets := [raw / 0x100_0000, raw / 0x1_0000 % 256, raw / 256 % 256, raw % 256];
      assert CreateNumber(raw) == Ok(Some(v));
      assert raw / 0x100_0000 == raw / 256 / 256 / 256 && raw / 0x1_0000 == raw / 256 / 256;
    }
  }
}
