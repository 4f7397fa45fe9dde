/**
 * The partition data model of `platform/disk`: the partition type
 * constants, the desired `Partition` record and its `String` rendering,
 * and the observed partition record the parted driver reports.
 */
module PartitionTypes {
  import opened Common
  import opened Text

  const Uint64Limit: nat := 0x1_0000_0000_0000_0000

  /** Go's `uint64`. */
  type Uint64 = n: nat | n < Uint64Limit

  /** The five named `PartitionType` constants. */
  datatype PartitionType = Swap | Linux | Empty | Unknown | Gpt

  /** The string value of each constant. */
  function TypeName(t: PartitionType): string
  {
    match t
    case Swap => "swap"
    case Linux => "linux"
    case Empty => "empty"
    case Unknown => "unknown"
    case Gpt => "gpt"
  }

  /** The constant whose string value is `s`, if any. */
  function TypeFromName(s: string): Option<PartitionType>
  {
    if s == "swap" then Some(Swap)
    else if s == "linux" then Some(Linux)
    else if s == "empty" then Some(Empty)
    else if s == "unknown" then Some(Unknown)
    else if s == "gpt" then Some(Gpt)
    else None
  }

  /** Every constant is recovered from its string value, so the five values are distinct. */
  lemma TypeNameRoundTrip(t: PartitionType)
    ensures TypeFromName(TypeName(t)) == Some(t)
  {
  }

  /** Exactly the five string values name a constant. */
  lemma TypeFromNameExact(s: string)
    ensures TypeFromName(s).Some? <==> s in {"swap", "linux", "empty", "unknown", "gpt"}
    ensures TypeFromName(s).Some? ==> TypeName(TypeFromName(s).value) == s
  {
  }

  /** A desired partition: a size in bytes and a type, nothing else. */
  datatype Partition = Partition(sizeInBytes: Uint64, partitionType: PartitionType)

  /** A partition found on the device: its 1-based table index and its name. */
  datatype ExistingPartition = ExistingPartition(index: int, name: string, sizeInBytes: Uint64, partitionType: PartitionType)

  const TypeLabel := "[Type: "
  const SizeLabel := ", SizeInBytes: "

  /** `Partition.String`: `[Type: <type>, SizeInBytes: <decimal size>]`. */
  function PartitionString(p: Partition): string
  {
    TypeLabel + TypeName(p.partitionType) + SizeLabel + NatToDecimal(p.sizeInBytes) + "]"
  }

  /** Reads a rendering back; `None` for text that no partition renders to. */
  function ParsePartitionString(s: string): Option<Partition>
  {
    if !HasPrefix(s, TypeLabel) then None
    else
      var body := s[|TypeLabel|..];
      var i := IndexOf(body, ',');
      match TypeFromName(body[..i])
      case None => None
      case Some(t) =>
        if !HasPrefix(body[i..], SizeLabel) then None
        else
          match ParseSizeField(body[i + |SizeLabel|..])
          case None => None
          case Some(size) => Some(Partition(size, t))
  }

  /** `<decimal size>]` read as a `uint64`. */
  function ParseSizeField(num: string): Option<Uint64>
  {
    if |num| < 2 || num[|num| - 1] != ']' || !AllDigits(num[..|num| - 1]) then None
    else
      var v := DecimalValue(num[..|num| - 1]);
      if v >= Uint64Limit then None else Some(v)
  }

  lemma SizeFieldRoundTrip(n: Uint64)
    ensures ParseSizeField(NatToDecimal(n) + "]") == Some(n)
  {
    var num := NatToDecimal(n) + "]";
    assert num[..|num| - 1] == NatToDecimal(n);
    DecimalRoundTrip(n);
  }

  /** No type name contains the comma that ends the type field. */
  lemma TypeNameHasNoComma(t: PartitionType)
    ensures Free(TypeName(t), ',')
  {
  }

  /** The rendering is unambiguous: it reads back as the partition it came from. */
  lemma PartitionStringRoundTrip(p: Partition)
    ensures ParsePartitionString(PartitionString(p)) == Some(p)
  {
    var name := TypeName(p.partitionType);
    var rest := SizeLabel + NatToDecimal(p.sizeInBytes) + "]";
    var s := PartitionString(p);
    assert s == TypeLabel + (name + rest);
    var body := s[|TypeLabel|..];
    assert body == name + rest;
    TypeNameHasNoComma(p.partitionType);
    IndexOfFreePrefix(name, rest, ',');
    assert body[..|name|] == name;
    assert body[|name|..] == rest;
    assert body[|name| + |SizeLabel|..] == NatToDecimal(p.sizeInBytes) + "]";
    SizeFieldRoundTrip(p.sizeInBytes);
    TypeNameRoundTrip(p.partitionType);
    assert HasPrefix(s, TypeLabel);
    assert IndexOf(body, ',') == |name|;
    assert TypeFromName(body[..|name|]) == Some(p.partitionType);
    assert HasPrefix(body[|name|..], SizeLabel);
  }
}
