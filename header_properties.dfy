/**
 * Properties of the distribution-header decoder of `src/protocol.rs` and of
 * the cache updates it makes.
 */
module HeaderProperties {
  import opened Types
  import Ei
  import Atoms
  import Utf8
  import Ext
  import opened Protocol

  /** An empty buffer has no tag byte to read. */
  lemma EmptyBuffer()
    ensures DistributionHeader([]) == HeaderOutcome([], Err(TruncatedTerm))
  {
  }

  /** A buffer that does not start with `DIST_HEADER` carries no header: nothing is consumed or cached. */
  lemma NoHeader(input: seq<uint8>)
    requires |input| >= 1 && input[0] != Ei.DIST_HEADER
    ensures DistributionHeader(input) == HeaderOutcome([], Ok((input, ())))
  {
  }

  /** A header with no atom-cache references is the tag and the count byte, and nothing else. */
  lemma ZeroReferences(input: seq<uint8>)
    requires |input| >= 2 && input[0] == Ei.DIST_HEADER && input[1] == 0
    ensures DistributionHeader(input) == HeaderOutcome([], Ok((input[2..], ())))
  {
  }

  /** Fewer than R/2+1 flag bytes after a count R > 0: the header is truncated and nothing is cached. */
  lemma MissingFlagBytes(input: seq<uint8>)
    requires |input| >= 2 && input[0] == Ei.DIST_HEADER && input[1] > 0
    requires |input| < 2 + input[1] / 2 + 1
    ensures DistributionHeader(input) == HeaderOutcome([], Err(TruncatedTerm))
  {
  }

  /** The segments of the new-entry flags, in order: the segments of the bindings a header may add. */
  function NewEntrySegments(flags: seq<AtomCacheReferenceFlags>): (segments: seq<AtomCacheSegment>)
    ensures |segments| <= |flags|
  {
    if flags == [] then []
    else (if flags[0].isNewEntry then [flags[0].segmentIndex] else []) + NewEntrySegments(flags[1..])
  }

  function Segments(inserts: seq<(AtomCacheKey, Atom)>): (segments: seq<AtomCacheSegment>)
    ensures |segments| == |inserts|
    ensures forall i :: 0 <= i < |inserts| ==> segments[i] == inserts[i].0.segmentIndex
  {
    seq(|inserts|, i requires 0 <= i < |inserts| => inserts[i].0.segmentIndex)
  }

  /**
   * The references add one binding per new-entry flag, in order, with the
   * segment of that flag and a valid atom; a failure stops after a prefix of
   * them, and a success adds all of them.
   */
  lemma {:induction false} InsertsFollowNewEntries(input: seq<uint8>, flags: seq<AtomCacheReferenceFlags>,
                                                  sizeFormat: Ext.AtomSizeFormat)
    ensures Segments(ReadCacheReferences(input, flags, sizeFormat).inserts) <= NewEntrySegments(flags)
    ensures ReadCacheReferences(input, flags, sizeFormat).result.Ok? ==>
      Segments(ReadCacheReferences(input, flags, sizeFormat).inserts) == NewEntrySegments(flags)
    decreases |flags|
  {
    if flags != [] {
      var first := ReadCacheReference(input, flags[0], sizeFormat);
      if first.Ok? {
        var others := ReadCacheReferences(first.value.0, flags[1..], sizeFormat);
        InsertsFollowNewEntries(first.value.0, flags[1..], sizeFormat);
        var mine := InsertsOf(first);
        var own := if flags[0].isNewEntry then [flags[0].segmentIndex] else [];
        assert Segments(mine) == own;
        SegmentsAppend(mine, others.inserts);
        assert NewEntrySegments(flags) == own + NewEntrySegments(flags[1..]);
      }
    }
  }

  lemma SegmentsAppend(a: seq<(AtomCacheKey, Atom)>, b: seq<(AtomCacheKey, Atom)>)
    ensures Segments(a + b) == Segments(a) + Segments(b)
  {
  }

  /** Every atom a header puts into the cache is a valid atom. */
  lemma {:induction false} InsertedAtomsValid(input: seq<uint8>, flags: seq<AtomCacheReferenceFlags>,
                                             sizeFormat: Ext.AtomSizeFormat)
    ensures forall b :: b in ReadCacheReferences(input, flags, sizeFormat).inserts ==> Atoms.ValidAtom(b.1)
    decreases |flags|
  {
    if flags != [] {
      var first := ReadCacheReference(input, flags[0], sizeFormat);
      if first.Ok? {
        InsertedAtomsValid(first.value.0, flags[1..], sizeFormat);
      }
    }
  }

  /** A key that no binding names keeps what it had before. */
  lemma {:induction false} ApplyUntouched(entries: map<AtomCacheKey, Atom>, inserts: seq<(AtomCacheKey, Atom)>,
                                         key: AtomCacheKey)
    requires forall i :: 0 <= i < |inserts| ==> inserts[i].0 != key
    ensures (key in Apply(entries, inserts)) == (key in entries)
    ensures key in entries ==> Apply(entries, inserts)[key] == entries[key]
    decreases |inserts|
  {
    if inserts != [] {
      ApplyUntouched(entries[inserts[0].0 := inserts[0].1], inserts[1..], key);
    }
  }

  /** The last binding of a key is the one the cache keeps. */
  lemma {:induction false} ApplyLastWins(entries: map<AtomCacheKey, Atom>, inserts: seq<(AtomCacheKey, Atom)>,
                                        j: nat)
    requires j < |inserts|
    requires forall i :: j < i < |inserts| ==> inserts[i].0 != inserts[j].0
    ensures inserts[j].0 in Apply(entries, inserts)
    ensures Apply(entries, inserts)[inserts[j].0] == inserts[j].1
    decreases |inserts|
  {
    if j == 0 {
      ApplyUntouched(entries[inserts[0].0 := inserts[0].1], inserts[1..], inserts[0].0);
    } else {
      ApplyLastWins(entries[inserts[0].0 := inserts[0].1], inserts[1..], j - 1);
    }
  }

  /** The keys of the cache afterwards: those it had and those the bindings name. */
  lemma {:induction false} ApplyKeys(entries: map<AtomCacheKey, Atom>, inserts: seq<(AtomCacheKey, Atom)>,
                                    key: AtomCacheKey)
    ensures key in Apply(entries, inserts) <==> key in entries || exists i :: 0 <= i < |inserts| && inserts[i].0 == key
    decreases |inserts|
  {
    if inserts != [] {
      ApplyKeys(entries[inserts[0].0 := inserts[0].1], inserts[1..], key);
      if exists i :: 0 <= i < |inserts| - 1 && inserts[1..][i].0 == key {
        var i :| 0 <= i < |inserts| - 1 && inserts[1..][i].0 == key;
        assert inserts[i + 1].0 == key;
      }
      if exists i :: 0 <= i < |inserts| && inserts[i].0 == key {
        var i :| 0 <= i < |inserts| && inserts[i].0 == key;
        if i > 0 {
          assert inserts[1..][i - 1].0 == key;
        }
      }
    }
  }

  /** Flags byte 0xB0: flag 0xB (a new entry in segment 3), then global flags 0 (one-byte atom lengths). */
  lemma FlagsOfB0()
    ensures ReferenceFlags([0xB0], 1) == [AtomCacheReferenceFlags(true, S3)]
    ensures SizeFormatOf([0xB0], 1) == Ext.AtomSizeFormat.Small
  {
    assert GetNthHalfByte([0xB0], 0) == 11;
    assert GetNthHalfByte([0xB0], 1) == 0;
  }

  /** A new-entry reference to slot 7 with the one-byte length 3 and the bytes of `foo`. */
  lemma ReferenceToFoo()
    ensures ReadCacheReference([7, 3, 102, 111, 111], AtomCacheReferenceFlags(true, S3), Ext.AtomSizeFormat.Small)
         == Ok(([], Some((AtomCacheKey(S3, 7), Atom.Atom([102, 111, 111])))))
  {
    var references: seq<uint8> := [7, 3, 102, 111, 111];
    var text: seq<uint8> := [102, 111, 111];
    Utf8.AsciiIsValid(text);
    assert references[1..] == [3] + text;
    assert Ext.ReadAtomSize(Ext.AtomSizeFormat.Small, references[1..]) == Ok((text, 3));
    assert text + [] == text;
    Read.TakeSplit(text, []);
  }

  /**
   * A header with R > 0 references: the tag, the count, R/2+1 flag bytes,
   * then the references, read with the flags and the size format those
   * bytes give.
   */
  lemma HeaderWithReferences(count: uint8, flagsBytes: seq<uint8>, references: seq<uint8>)
    requires count > 0 && |flagsBytes| == count as int / 2 + 1
    ensures DistributionHeader([Ei.DIST_HEADER as uint8, count] + flagsBytes + references)
         == ReadCacheReferences(references, ReferenceFlags(flagsBytes, count as nat), SizeFormatOf(flagsBytes, count as nat))
  {
    var input := [Ei.DIST_HEADER as uint8, count] + flagsBytes + references;
    assert input[1..] == [count] + (flagsBytes + references);
    assert input[1..][1..] == flagsBytes + references;
    Read.TakeSplit(flagsBytes, references);
  }

  /** The one reference of the example: slot 7 of segment 3 gets `foo`, and nothing is left. */
  lemma ReferencesToFoo()
    ensures ReadCacheReferences([7, 3, 102, 111, 111], [AtomCacheReferenceFlags(true, S3)], Ext.AtomSizeFormat.Small)
         == HeaderOutcome([(AtomCacheKey(S3, 7), Atom.Atom([102, 111, 111]))], Ok(([], ())))
  {
    var flags := [AtomCacheReferenceFlags(true, S3)];
    ReferenceToFoo();
    assert flags[1..] == [];
    assert ReadCacheReferences([], [], Ext.AtomSizeFormat.Small) == HeaderOutcome([], Ok(([], ())));
  }

  /**
   * A header with one new-entry reference: flags byte 0xB0 holds flag 0xB
   * (new entry, segment 3) and a global nibble 0 (one-byte lengths); slot 7
   * gets the atom `foo`.
   */
  lemma OneNewEntry()
    ensures DistributionHeader([68, 1, 0xB0, 7, 3, 102, 111, 111])
         == HeaderOutcome([(AtomCacheKey(S3, 7), Atom.Atom([102, 111, 111]))], Ok(([], ())))
  {
    HeaderWithReferences(1, [0xB0], [7, 3, 102, 111, 111]);
    assert [Ei.DIST_HEADER as uint8, 1] + [0xB0] + [7, 3, 102, 111, 111] == [68, 1, 0xB0, 7, 3, 102, 111, 111];
    FlagsOfB0();
    ReferencesToFoo();
  }

  // ---------------------------------------------------------------------------
  // What every reference binds, and what it leaves.

  /**
   * A new-entry reference: the slot byte, the atom's length in the header's
   * size format and the atom's bytes. It binds the flag's segment and that
   * slot to the atom and leaves exactly the bytes after the atom.
   */
  lemma NewEntryReference(slot: uint8, text: seq<uint8>, rest: seq<uint8>, flags: AtomCacheReferenceFlags,
                          sizeFormat: Ext.AtomSizeFormat)
    requires flags.isNewEntry && Atoms.ValidAtom(Atom.Atom(text))
    requires |text| < Read.Pow256(Ext.AtomSizeWidth(sizeFormat))
    ensures ReadCacheReference([slot] + (Read.ToBigEndian(|text|, Ext.AtomSizeWidth(sizeFormat)) + (text + rest)), flags, sizeFormat)
         == Ok((rest, Some((AtomCacheKey(flags.segmentIndex, slot), Atom.Atom(text)))))
  {
    var size := Read.ToBigEndian(|text|, Ext.AtomSizeWidth(sizeFormat));
    var afterSlot := size + (text + rest);
    assert ([slot] + afterSlot)[1..] == afterSlot;
    assert afterSlot[..|size|] == size && afterSlot[|size|..] == text + rest;
    Read.FromToBigEndian(|text|, Ext.AtomSizeWidth(sizeFormat));
    Read.TakeSplit(text, rest);
  }

  /** A reference to an existing entry is its slot byte alone and binds nothing. */
  lemma OldEntryReference(slot: uint8, rest: seq<uint8>, flags: AtomCacheReferenceFlags, sizeFormat: Ext.AtomSizeFormat)
    requires !flags.isNewEntry
    ensures ReadCacheReference([slot] + rest, flags, sizeFormat) == Ok((rest, None))
  {
    assert ([slot] + rest)[1..] == rest;
  }

  /** A reference as a sender writes it: its slot and, for a new entry, the bytes of its atom. */
  datatype WrittenReference = WrittenReference(slot: uint8, text: seq<uint8>)

  /** One written reference per flag, each new entry holding a valid atom whose length fits the size format. */
  predicate Writable(references: seq<WrittenReference>, flags: seq<AtomCacheReferenceFlags>, sizeFormat: Ext.AtomSizeFormat) {
    && |references| == |flags|
    && forall i :: 0 <= i < |references| && flags[i].isNewEntry ==>
         Atoms.ValidAtom(Atom.Atom(references[i].text)) && |references[i].text| < Read.Pow256(Ext.AtomSizeWidth(sizeFormat))
  }

  /** The bytes of one written reference: the slot, then for a new entry the atom's length and bytes. */
  function EncodeReference(reference: WrittenReference, flags: AtomCacheReferenceFlags, sizeFormat: Ext.AtomSizeFormat)
    : (bytes: seq<uint8>)
    requires flags.isNewEntry ==> |reference.text| < Read.Pow256(Ext.AtomSizeWidth(sizeFormat))
    ensures |bytes| >= 1 && bytes[0] == reference.slot
  {
    if flags.isNewEntry
    then [reference.slot] + (Read.ToBigEndian(|reference.text|, Ext.AtomSizeWidth(sizeFormat)) + reference.text)
    else [reference.slot]
  }

  /** The bytes of written references, one after the other. */
  function EncodeReferences(references: seq<WrittenReference>, flags: seq<AtomCacheReferenceFlags>,
                            sizeFormat: Ext.AtomSizeFormat): (bytes: seq<uint8>)
    requires Writable(references, flags, sizeFormat)
    ensures |bytes| >= |references|
    decreases |references|
  {
    if references == [] then []
    else
      WritableTail(references, flags, sizeFormat);
      EncodeReference(references[0], flags[0], sizeFormat) + EncodeReferences(references[1..], flags[1..], sizeFormat)
  }

  /** The binding one written reference asks for: a new entry's segment, slot and atom. */
  function BindingOf(reference: WrittenReference, flags: AtomCacheReferenceFlags): seq<(AtomCacheKey, Atom)> {
    if flags.isNewEntry then [(AtomCacheKey(flags.segmentIndex, reference.slot), Atom.Atom(reference.text))] else []
  }

  /** The bindings written references ask for: each new entry's segment, slot and atom, in order. */
  function Bindings(references: seq<WrittenReference>, flags: seq<AtomCacheReferenceFlags>): (bindings: seq<(AtomCacheKey, Atom)>)
    requires |references| == |flags|
    ensures |bindings| <= |references|
    decreases |references|
  {
    if references == [] then []
    else BindingOf(references[0], flags[0]) + Bindings(references[1..], flags[1..])
  }

  lemma WritableTail(references: seq<WrittenReference>, flags: seq<AtomCacheReferenceFlags>, sizeFormat: Ext.AtomSizeFormat)
    requires Writable(references, flags, sizeFormat) && references != []
    ensures Writable(references[1..], flags[1..], sizeFormat)
    ensures flags[0].isNewEntry ==>
      Atoms.ValidAtom(Atom.Atom(references[0].text)) && |references[0].text| < Read.Pow256(Ext.AtomSizeWidth(sizeFormat))
  {
    forall i | 0 <= i < |references| - 1 && flags[1..][i].isNewEntry
      ensures Atoms.ValidAtom(Atom.Atom(references[1..][i].text))
              && |references[1..][i].text| < Read.Pow256(Ext.AtomSizeWidth(sizeFormat))
    {
      assert references[1..][i] == references[i + 1] && flags[1..][i] == flags[i + 1];
    }
  }

  /** One written reference reads back as its binding and leaves what follows it. */
  lemma WrittenReferenceRoundTrip(reference: WrittenReference, flags: AtomCacheReferenceFlags,
                                  sizeFormat: Ext.AtomSizeFormat, rest: seq<uint8>)
    requires flags.isNewEntry ==>
      Atoms.ValidAtom(Atom.Atom(reference.text)) && |reference.text| < Read.Pow256(Ext.AtomSizeWidth(sizeFormat))
    ensures var r := ReadCacheReference(EncodeReference(reference, flags, sizeFormat) + rest, flags, sizeFormat);
      r.Ok? && r.value.0 == rest && InsertsOf(r) == BindingOf(reference, flags)
  {
    if flags.isNewEntry {
      var size := Read.ToBigEndian(|reference.text|, Ext.AtomSizeWidth(sizeFormat));
      assert EncodeReference(reference, flags, sizeFormat) + rest == [reference.slot] + (size + (reference.text + rest));
      NewEntryReference(reference.slot, reference.text, rest, flags, sizeFormat);
    } else {
      OldEntryReference(reference.slot, rest, flags, sizeFormat);
    }
  }

  /** The loop over references after a first one that succeeds. */
  lemma ReferencesUnfold(input: seq<uint8>, flags: seq<AtomCacheReferenceFlags>, sizeFormat: Ext.AtomSizeFormat)
    requires flags != [] && ReadCacheReference(input, flags[0], sizeFormat).Ok?
    ensures var first := ReadCacheReference(input, flags[0], sizeFormat);
      ReadCacheReferences(input, flags, sizeFormat) == After(InsertsOf(first), ReadCacheReferences(first.value.0, flags[1..], sizeFormat))
  {
  }

  /**
   * The references loop reads every written reference back: it binds each
   * new entry's segment and slot to its atom, in order, and leaves exactly
   * the bytes after the last reference.
   */
  lemma {:induction false} ReferencesRoundTrip(references: seq<WrittenReference>, flags: seq<AtomCacheReferenceFlags>,
                                              sizeFormat: Ext.AtomSizeFormat, rest: seq<uint8>)
    requires Writable(references, flags, sizeFormat)
    ensures ReadCacheReferences(EncodeReferences(references, flags, sizeFormat) + rest, flags, sizeFormat)
         == HeaderOutcome(Bindings(references, flags), Ok((rest, ())))
    decreases |references|
  {
    if references != [] {
      WritableTail(references, flags, sizeFormat);
      var tail := EncodeReferences(references[1..], flags[1..], sizeFormat) + rest;
      var input := EncodeReference(references[0], flags[0], sizeFormat) + tail;
      assert EncodeReferences(references, flags, sizeFormat) + rest == input;
      WrittenReferenceRoundTrip(references[0], flags[0], sizeFormat, tail);
      ReferencesUnfold(input, flags, sizeFormat);
      ReferencesRoundTrip(references[1..], flags[1..], sizeFormat, rest);
    } else {
      assert EncodeReferences(references, flags, sizeFormat) + rest == rest;
    }
  }

  /**
   * A whole header: the tag, R > 0, R/2+1 flag bytes and R written
   * references. Reading it binds exactly what the references ask for, in
   * order, and leaves the bytes that follow for the control message.
   */
  lemma HeaderRoundTrip(count: uint8, flagsBytes: seq<uint8>, references: seq<WrittenReference>, rest: seq<uint8>)
    requires count > 0 && |flagsBytes| == count as int / 2 + 1
    requires Writable(references, ReferenceFlags(flagsBytes, count as nat), SizeFormatOf(flagsBytes, count as nat))
    ensures var flags := ReferenceFlags(flagsBytes, count as nat);
      var encoded := EncodeReferences(references, flags, SizeFormatOf(flagsBytes, count as nat));
      DistributionHeader([Ei.DIST_HEADER as uint8, count] + flagsBytes + (encoded + rest))
      == HeaderOutcome(Bindings(references, flags), Ok((rest, ())))
  {
    var flags := ReferenceFlags(flagsBytes, count as nat);
    var sizeFormat := SizeFormatOf(flagsBytes, count as nat);
    HeaderWithReferences(count, flagsBytes, EncodeReferences(references, flags, sizeFormat) + rest);
    ReferencesRoundTrip(references, flags, sizeFormat, rest);
  }

  /** One reference only consumes bytes from the front of its input. */
  lemma CacheReferenceSuffix(input: seq<uint8>, flags: AtomCacheReferenceFlags, sizeFormat: Ext.AtomSizeFormat)
    ensures ReadCacheReference(input, flags, sizeFormat).Ok? ==>
      IsSuffix(ReadCacheReference(input, flags, sizeFormat).value.0, input)
  {
    var r := ReadCacheReference(input, flags, sizeFormat);
    if r.Ok? {
      var afterSlot := input[1..];
      DropIsSuffix(input, 1);
      if flags.isNewEntry {
        var w := Ext.AtomSizeWidth(sizeFormat);
        var afterSize := afterSlot[w..];
        DropIsSuffix(afterSlot, w);
        var len := Read.FromBigEndian(afterSlot[..w]);
        assert r.value.0 == afterSize[len..];
        DropIsSuffix(afterSize, len);
        SuffixOfSuffix(afterSize, afterSlot, input);
        SuffixOfSuffix(r.value.0, afterSize, input);
      }
    }
  }

  /** The references loop only consumes bytes from the front of its input. */
  lemma {:induction false} CacheReferencesSuffix(input: seq<uint8>, flags: seq<AtomCacheReferenceFlags>,
                                                sizeFormat: Ext.AtomSizeFormat)
    ensures ReadCacheReferences(input, flags, sizeFormat).result.Ok? ==>
      IsSuffix(ReadCacheReferences(input, flags, sizeFormat).result.value.0, input)
    decreases |flags|
  {
    if flags != [] {
      var first := ReadCacheReference(input, flags[0], sizeFormat);
      if first.Ok? {
        CacheReferenceSuffix(input, flags[0], sizeFormat);
        CacheReferencesSuffix(first.value.0, flags[1..], sizeFormat);
        var o := ReadCacheReferences(first.value.0, flags[1..], sizeFormat);
        if o.result.Ok? {
          SuffixOfSuffix(o.result.value.0, first.value.0, input);
        }
      }
    }
  }

  /** What the header leaves for the control message is a suffix of the buffer. */
  lemma HeaderSuffix(input: seq<uint8>)
    ensures DistributionHeader(input).result.Ok? ==> IsSuffix(DistributionHeader(input).result.value.0, input)
  {
    if |input| >= 2 && input[0] == Ei.DIST_HEADER && input[1] > 0 && |input| >= 2 + input[1] as int / 2 + 1 {
      var count := input[1];
      var afterFlags := input[2 + count as int / 2 + 1..];
      var flagsBytes := input[2..2 + count as int / 2 + 1];
      assert input == [Ei.DIST_HEADER as uint8, count] + flagsBytes + afterFlags;
      HeaderWithReferences(count, flagsBytes, afterFlags);
      CacheReferencesSuffix(afterFlags, ReferenceFlags(flagsBytes, count as nat), SizeFormatOf(flagsBytes, count as nat));
      DropIsSuffix(input, 2 + count as int / 2 + 1);
      var o := DistributionHeader(input);
      if o.result.Ok? {
        SuffixOfSuffix(o.result.value.0, afterFlags, input);
      }
    } else if |input| >= 2 && input[0] == Ei.DIST_HEADER {
      DropIsSuffix(input, 2);
    } else {
      DropIsSuffix(input, 0);
    }
  }
}
