/**
 * The distribution header (`src/protocol.rs`), following the section
 * "Distribution Header" of the ERTS User's Guide chapter "External Term
 * Format", and the version-magic check.
 *
 * A header carries R atom-cache references. Its flag bytes hold R 4-bit
 * flags (a new-entry bit and a 3-bit segment) and, at nibble R, a global
 * flags nibble whose bit 0 selects two-byte atom lengths. Each reference then
 * names a slot, and a new-entry reference also carries the atom to store
 * there.
 *
 * Half bytes are numbered as the source does: the HIGH nibble of byte i/2
 * for an even index i. The ERTS text places even-indexed flags in the low
 * nibble; `ErtsHalfByte` and `HalfByteOrder` state that difference.
 */
module Protocol {
  import opened Types
  import opened Read
  import Ei
  import Atoms
  import Ext

  datatype AtomCacheReferenceFlags = AtomCacheReferenceFlags(isNewEntry: bool, segmentIndex: AtomCacheSegment)

  function SegmentNumber(segment: AtomCacheSegment): (n: nat)
    ensures n < 8
  {
    match segment
    case S0 => 0 case S1 => 1 case S2 => 2 case S3 => 3
    case S4 => 4 case S5 => 5 case S6 => 6 case S7 => 7
  }

  /**
   * `AtomCacheReferenceFlags::from`: bit 3 (`value & 0x8`) is the new-entry
   * flag, bits 0-2 (`value & 0x7`) the segment. Every value of the three
   * bits names a segment, so the source's `unreachable!()` arm is dead.
   */
  function FlagsFrom(value: uint8): (flags: AtomCacheReferenceFlags)
    ensures FlagsNibble(flags) == value % 16
  {
    var segment := value % 8;
    AtomCacheReferenceFlags(
      (value / 8) % 2 == 1,
      match segment
      case 0 => S0 case 1 => S1 case 2 => S2 case 3 => S3
      case 4 => S4 case 5 => S5 case 6 => S6 case 7 => S7)
  }

  /** The flag half byte that describes `flags` (the inverse of `FlagsFrom`). */
  function FlagsNibble(flags: AtomCacheReferenceFlags): (half: nat)
    ensures half < 16
  {
    (if flags.isNewEntry then 8 else 0) + SegmentNumber(flags.segmentIndex)
  }

  lemma FlagsRoundTrip(flags: AtomCacheReferenceFlags)
    ensures FlagsFrom(FlagsNibble(flags)) == flags
  {
  }

  /** `get_nth_half_byte`: the high half (`byte >> 4`) of byte index/2 for an even index, the low half (`byte & 0x0f`) for an odd one. */
  function GetNthHalfByte(input: seq<uint8>, index: nat): (half: uint8)
    requires index / 2 < |input|
    ensures half < 16
  {
    var byte := input[index / 2];
    if index % 2 == 0 then byte / 16 else byte % 16
  }

  /** The ERTS document's numbering of half bytes: the low half of byte index/2 for an even index. */
  function ErtsHalfByte(input: seq<uint8>, index: nat): (half: uint8)
    requires index / 2 < |input|
  {
    if index % 2 == 0 then input[index / 2] % 16 else input[index / 2] / 16
  }

  /** The two numberings swap the halves of every byte. */
  lemma HalfByteOrder(input: seq<uint8>, index: nat)
    requires index / 2 < |input|
    ensures var swapped := if index % 2 == 0 then index + 1 else index - 1;
      swapped / 2 == index / 2 && GetNthHalfByte(input, index) == ErtsHalfByte(input, swapped)
  {
  }

  /** The two half bytes of a byte, high then low, give the byte back. */
  lemma HalfBytesMakeByte(input: seq<uint8>, j: nat)
    requires j < |input|
    ensures 16 * GetNthHalfByte(input, 2 * j) + GetNthHalfByte(input, 2 * j + 1) == input[j]
  {
    assert (2 * j) / 2 == j && (2 * j + 1) / 2 == j;
  }

  /** With R/2+1 flag bytes, every half byte 0..R (the R flags and the global nibble) exists. */
  lemma FlagHalfBytesInBounds(count: nat, index: nat)
    requires index <= count
    ensures index / 2 < count / 2 + 1
  {
  }

  /** `read_version_magic`: the first byte must be `VERSION_MAGIC`. */
  function ReadVersionMagic(input: seq<uint8>): (r: IResult<()>)
    ensures r.Ok? <==> |input| >= 1 && input[0] == Ei.VERSION_MAGIC
    ensures r.Ok? ==> r.value.0 == input[1..]
    ensures |input| == 0 ==> r == Err(TruncatedTerm)
    ensures |input| >= 1 && input[0] != Ei.VERSION_MAGIC ==> r == Err(UnsupportedProtocolVersion(input[0]))
  {
    var (input, version) :- BeU8(input);
    if version == Ei.VERSION_MAGIC then Ok((input, ()))
    else Err(UnsupportedProtocolVersion(version))
  }

  /**
   * One reference of the header, as the body of the source's `try_fold`: a
   * slot byte, and for a new entry a length, the atom bytes and the atom.
   * The value is the cache binding to add, if any.
   */
  function ReadCacheReference(input: seq<uint8>, flags: AtomCacheReferenceFlags, sizeFormat: Ext.AtomSizeFormat)
    : (r: IResult<Option<(AtomCacheKey, Atom)>>)
    ensures r.Ok? ==> |r.value.0| < |input|
    ensures r.Ok? ==> (r.value.1.Some? <==> flags.isNewEntry)
    ensures r.Ok? && r.value.1.Some? ==>
      r.value.1.value.0 == AtomCacheKey(flags.segmentIndex, input[0]) && Atoms.ValidAtom(r.value.1.value.1)
  {
    var (input1, internalIndex) :- BeU8(input);
    var key := AtomCacheKey(flags.segmentIndex, internalIndex);
    if flags.isNewEntry then
      var (input2, atomByteLen) :- Ext.ReadAtomSize(sizeFormat, input1);
      var (input3, atomBytes) :- Take(input2, atomByteLen);
      var atom :- Atoms.AtomFromBytes(atomBytes);
      Ok((input3, Some((key, atom))))
    else
      Ok((input1, None))
  }

  /** What decoding a header does: the bindings it adds to the cache, in order, and its result. */
  datatype HeaderOutcome = HeaderOutcome(inserts: seq<(AtomCacheKey, Atom)>, result: IResult<()>)

  function InsertsOf(o: IResult<Option<(AtomCacheKey, Atom)>>): seq<(AtomCacheKey, Atom)>
    requires o.Ok?
  {
    if o.value.1.Some? then [o.value.1.value] else []
  }

  /** The references in order; a failing reference stops the header, keeping the bindings added before it. */
  function ReadCacheReferences(input: seq<uint8>, flags: seq<AtomCacheReferenceFlags>, sizeFormat: Ext.AtomSizeFormat)
    : (o: HeaderOutcome)
    ensures o.result.Ok? ==> |o.result.value.0| <= |input|
    ensures |o.inserts| <= |flags|
    decreases |flags|
  {
    if flags == [] then HeaderOutcome([], Ok((input, ())))
    else
      var first := ReadCacheReference(input, flags[0], sizeFormat);
      if first.Err? then HeaderOutcome([], Err(first.error))
      else
        var others := ReadCacheReferences(first.value.0, flags[1..], sizeFormat);
        HeaderOutcome(InsertsOf(first) + others.inserts, others.result)
  }

  /** The flags of references 0..count-1, read from their half bytes. */
  function ReferenceFlags(flagsBytes: seq<uint8>, count: nat): (flags: seq<AtomCacheReferenceFlags>)
    requires count / 2 < |flagsBytes|
    ensures |flags| == count
  {
    seq(count, i requires 0 <= i < count => FlagsFrom(GetNthHalfByte(flagsBytes, i)))
  }

  /** The atom length format selected by bit 0 of the global flags nibble (index `count`). */
  function SizeFormatOf(flagsBytes: seq<uint8>, count: nat): (format: Ext.AtomSizeFormat)
    requires count / 2 < |flagsBytes|
    ensures format.Regular? <==> GetNthHalfByte(flagsBytes, count) % 2 == 1
  {
    if GetNthHalfByte(flagsBytes, count) % 2 != 0 then Ext.AtomSizeFormat.Regular else Ext.AtomSizeFormat.Small
  }

  /** `read_distribution_header`: what it adds to the cache and what it returns. */
  function DistributionHeader(originalInput: seq<uint8>): (o: HeaderOutcome)
    ensures o.result.Ok? ==> |o.result.value.0| <= |originalInput|
  {
    match BeU8(originalInput)
    case Err(e) => HeaderOutcome([], Err(e))
    case Ok((input, tag)) =>
      if tag != Ei.DIST_HEADER then HeaderOutcome([], Ok((originalInput, ())))
      else
        match BeU8(input)
        case Err(e) => HeaderOutcome([], Err(e))
        case Ok((input, atomReferenceCount)) =>
          if atomReferenceCount == 0 then HeaderOutcome([], Ok((input, ())))
          else
            match Take(input, atomReferenceCount / 2 + 1)
            case Err(e) => HeaderOutcome([], Err(e))
            case Ok((input, flagsBytes)) =>
              ReadCacheReferences(input, ReferenceFlags(flagsBytes, atomReferenceCount),
                                  SizeFormatOf(flagsBytes, atomReferenceCount))
  }

  /** The cache after adding `inserts` in order, each overwriting any earlier binding of its key. */
  function Apply(entries: map<AtomCacheKey, Atom>, inserts: seq<(AtomCacheKey, Atom)>): map<AtomCacheKey, Atom>
    decreases |inserts|
  {
    if inserts == [] then entries
    else Apply(entries[inserts[0].0 := inserts[0].1], inserts[1..])
  }

  /** Puts `earlier` in front of the bindings of an outcome. */
  function After(earlier: seq<(AtomCacheKey, Atom)>, o: HeaderOutcome): HeaderOutcome {
    HeaderOutcome(earlier + o.inserts, o.result)
  }

  lemma ApplyAppend(entries: map<AtomCacheKey, Atom>, a: seq<(AtomCacheKey, Atom)>, b: seq<(AtomCacheKey, Atom)>)
    ensures Apply(entries, a + b) == Apply(Apply(entries, a), b)
    decreases |a|
  {
    if a == [] {
      assert a + b == b;
    } else {
      assert (a + b)[1..] == a[1..] + b;
      ApplyAppend(entries[a[0].0 := a[0].1], a[1..], b);
    }
  }

  /** One turn of the references loop: the reference at `k` fails, or adds its binding and leaves the rest. */
  lemma ReferencesStep(target: HeaderOutcome, inserted: seq<(AtomCacheKey, Atom)>, rest: seq<uint8>,
                       flags: seq<AtomCacheReferenceFlags>, k: nat, sizeFormat: Ext.AtomSizeFormat,
                       reference: IResult<Option<(AtomCacheKey, Atom)>>)
    requires k < |flags|
    requires target == After(inserted, ReadCacheReferences(rest, flags[k..], sizeFormat))
    requires reference == ReadCacheReference(rest, flags[k], sizeFormat)
    ensures reference.Err? ==> target == HeaderOutcome(inserted, Err(reference.error))
    ensures reference.Ok? ==>
      target == After(inserted + InsertsOf(reference), ReadCacheReferences(reference.value.0, flags[k + 1..], sizeFormat))
  {
    assert flags[k..][0] == flags[k];
    assert flags[k..][1..] == flags[k + 1..];
    if reference.Err? {
      assert inserted + [] == inserted;
    } else {
      var others := ReadCacheReferences(reference.value.0, flags[k + 1..], sizeFormat);
      assert inserted + (InsertsOf(reference) + others.inserts) == (inserted + InsertsOf(reference)) + others.inserts;
    }
  }

  /** Inserts the binding a reference carries, if any: a new-entry reference's atom goes into its slot. */
  method AddBinding(atomCache: Atoms.AtomCache, binding: Option<(AtomCacheKey, Atom)>)
    modifies atomCache
    ensures binding.None? ==> atomCache.entries == old(atomCache.entries)
    ensures binding.Some? ==> atomCache.entries == old(atomCache.entries)[binding.value.0 := binding.value.1]
  {
    if binding.Some? {
      var _ := atomCache.Insert(binding.value.0, binding.value.1);
    }
  }

  /** The cache after one reference: its binding, if any, added to what the earlier ones left. */
  lemma CacheStep(entries: map<AtomCacheKey, Atom>, inserted: seq<(AtomCacheKey, Atom)>,
                  before: map<AtomCacheKey, Atom>, after: map<AtomCacheKey, Atom>,
                  reference: IResult<Option<(AtomCacheKey, Atom)>>)
    requires reference.Ok? && before == Apply(entries, inserted)
    requires reference.value.1.None? ==> after == before
    requires reference.value.1.Some? ==> after == before[reference.value.1.value.0 := reference.value.1.value.1]
    ensures after == Apply(entries, inserted + InsertsOf(reference))
  {
    if reference.value.1.Some? {
      ApplyOne(entries, inserted, reference.value.1.value);
    } else {
      assert inserted + [] == inserted;
    }
  }

  /** Adding one more binding to the cache. */
  lemma ApplyOne(entries: map<AtomCacheKey, Atom>, inserted: seq<(AtomCacheKey, Atom)>, binding: (AtomCacheKey, Atom))
    ensures Apply(entries, inserted + [binding]) == Apply(entries, inserted)[binding.0 := binding.1]
  {
    ApplyAppend(entries, inserted, [binding]);
    assert [binding][1..] == [];
  }

  /** The `for` loop that collects the flags of the `count` references. */
  method ReadReferenceFlags(flagsBytes: seq<uint8>, count: nat) returns (flags: seq<AtomCacheReferenceFlags>)
    requires count / 2 < |flagsBytes|
    ensures flags == ReferenceFlags(flagsBytes, count)
  {
    flags := [];
    for i := 0 to count
      invariant |flags| == i
      invariant forall j :: 0 <= j < i ==> flags[j] == FlagsFrom(GetNthHalfByte(flagsBytes, j))
    {
      flags := flags + [FlagsFrom(GetNthHalfByte(flagsBytes, i))];
    }
  }

  /**
   * The `try_fold` over the references: each one is read in turn and a new
   * entry is inserted into the cache at once, so a failure leaves the
   * bindings of the references before it in the cache.
   */
  method ReadCacheReferencesInto(input: seq<uint8>, flags: seq<AtomCacheReferenceFlags>,
                                 sizeFormat: Ext.AtomSizeFormat, atomCache: Atoms.AtomCache)
    returns (r: IResult<()>)
    modifies atomCache
    ensures r == ReadCacheReferences(input, flags, sizeFormat).result
    ensures atomCache.entries == Apply(old(atomCache.entries), ReadCacheReferences(input, flags, sizeFormat).inserts)
  {
    ghost var target := ReadCacheReferences(input, flags, sizeFormat);
    ghost var inserted: seq<(AtomCacheKey, Atom)> := [];
    assert flags[0..] == flags;
    assert target == After(inserted, ReadCacheReferences(input, flags[0..], sizeFormat));
    var rest := input;
    var k := 0;
    while k < |flags|
      invariant 0 <= k <= |flags|
      invariant atomCache.entries == Apply(old(atomCache.entries), inserted)
      invariant target == After(inserted, ReadCacheReferences(rest, flags[k..], sizeFormat))
    {
      var reference := ReadCacheReference(rest, flags[k], sizeFormat);
      ReferencesStep(target, inserted, rest, flags, k, sizeFormat, reference);
      if reference.Err? {
        return Err(reference.error);
      }
      var binding := reference.value.1;
      ghost var before := atomCache.entries;
      AddBinding(atomCache, binding);
      CacheStep(old(atomCache.entries), inserted, before, atomCache.entries, reference);
      inserted := inserted + InsertsOf(reference);
      rest := reference.value.0;
      k := k + 1;
    }
    assert flags[k..] == [];
    assert inserted + [] == inserted;
    r := Ok((rest, ()));
  }

  /** `read_distribution_header`: the header's bindings go into `atomCache`, in order. */
  method ReadDistributionHeader(originalInput: seq<uint8>, atomCache: Atoms.AtomCache) returns (r: IResult<()>)
    modifies atomCache
    ensures r == DistributionHeader(originalInput).result
    ensures atomCache.entries == Apply(old(atomCache.entries), DistributionHeader(originalInput).inserts)
  {
    var head :- BeU8(originalInput);
    var (input, tag) := head;
    if tag != Ei.DIST_HEADER {
      return Ok((originalInput, ()));
    }
    var counted :- BeU8(input);
    var (input1, atomReferenceCount) := counted;
    if atomReferenceCount == 0 {
      return Ok((input1, ()));
    }
    var flagBytesCount := atomReferenceCount / 2 + 1;
    var taken :- Take(input1, flagBytesCount);
    var (input2, flagsBytes) := taken;
    var flags := ReadReferenceFlags(flagsBytes, atomReferenceCount);
    var cacheFlags := GetNthHalfByte(flagsBytes, atomReferenceCount);
    var atomSizeFormat := if cacheFlags % 2 != 0 then Ext.AtomSizeFormat.Regular else Ext.AtomSizeFormat.Small;
    r := ReadCacheReferencesInto(input2, flags, atomSizeFormat, atomCache);
  }
}
