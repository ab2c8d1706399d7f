# erlang-cnode decoding core, modelled in Dafny

This project models the receiving side of `erlang-cnode`, a Rust crate for writing an Erlang
C node on top of the `ei` library. The node's receive loop gets a byte buffer and an
`erlang_msg` envelope from `ei_xreceive_msg` and processes them in this order:

1. It decodes the optional **distribution header**. Any atom-cache references the header
   carries are inserted into the connection's `AtomCache`.
2. It converts the C envelope into a `ControlMessage`, which is a send or a registered send.
3. It decodes the **external term format** payload into a `Term`. Supported terms are:
   - nil, small integers and 32-bit integers;
   - floats;
   - UTF-8 atoms;
   - pids, old-style references and tuples;
   - proper lists, strings and binaries.

The model covers the following parts of the crate:
- the big-endian readers (`src/read.rs`);
- atoms and the atom cache (`src/atom.rs`);
- nodes, pids and terms (`src/node.rs`, `src/pid.rs`, `src/term.rs`);
- the term decoders (`src/ext.rs`);
- the distribution header (`src/protocol.rs`);
- message completion (`src/message.rs`);
- the conversions from C structures (`src/c.rs`);
- node-name validation (`src/name.rs`);
- the receive step that chains them (`src/c_node.rs`).

Byte formats follow the ERTS User's Guide chapter "External Term Format" as the crate
reads it. Where the crate departs from that text or from its own documentation, the
departure is noted below.

Each decoder is specified as a function on byte sequences. Its result type is
`IResult<T>`: either an error, or the unread suffix of the input and the value read.
Decoding code that works step by step is modelled twice:
- as an imperative `method`;
- as the specification function that the method is proved to compute.

This applies to:
- the tuple and list element loops;
- the header's flag loop and its `try_fold` over cache references.

The `AtomCache` is a class, and its `entries` map is updated in place by `Insert`. The
header reader is proved to leave the cache equal to the old cache with the header's
bindings applied in order.

Properties proved beside the operations:
- A reference encoder round-trips through the term decoder. This holds for every
  well-formed term, including nested tuples and lists.
- Every decoder, the distribution header included, consumes a prefix of its input,
  and the rest is a suffix.
- Decoding any proper prefix of a well-formed term's encoding fails with `TruncatedTerm`,
  for nested tuples and lists too. The crate as written breaks this at src/ext.rs:109
  (see Findings).
- The header reader binds exactly the (segment, slot, atom) of each new-entry
  reference, in order, for every well-formed header.
- Each term tag is dispatched to the right reader.
- Atoms and pids round-trip through their C buffers.
- Node names: the full name splits back into the parts it was built from.
- Atom-cache bookkeeping: the last insert wins, and keys no insert mentions are unchanged.

## Model

| member | source | states |
|---|---|---|
| Types.NulPosition | src/c.rs:14-18 | the position of the first zero byte: None exactly when there is none; otherwise a zero with no zero before it |
| Types.SuffixOfSuffix | src/read.rs:5-12 | a suffix of a suffix is a suffix of the original input, so chained readers only consume |
| Utf8.FromUtf8 | src/ext.rs:115 | `str::from_utf8` succeeds exactly on well-formed UTF-8 and keeps the bytes; otherwise it reports where validity ends |
| Utf8.CharCountBounds | src/atom.rs:11 | valid text of n bytes has between n/4 and n scalar values (`chars().count()`) |
| Utf8.AsciiIsValid | src/atom.rs:11 | bytes below 0x80 are valid text with one scalar value per byte |
| Read.FromToBigEndian | src/read.rs:22-70 | the reference big-endian encoding reads back to its value |
| Read.Take | src/read.rs:5-12 | `take` succeeds exactly when enough bytes remain; the taken bytes followed by the rest are the input; otherwise `TruncatedTerm` |
| Read.TakeSplit | src/read.rs:5-12 | `take` splits a concatenation at the join |
| Read.BeU8 | src/read.rs:14-20 | reads one byte when one exists, else `TruncatedTerm` |
| Read.BeU16 | src/read.rs:22-31 | reads the big-endian value of the first two bytes and leaves the rest, else `TruncatedTerm` |
| Read.BeU32 | src/read.rs:33-47 | reads the big-endian value of the first four bytes and leaves the rest, else `TruncatedTerm` |
| Read.AsInt32 | src/read.rs:49-52 | the `as i32` cast is the two's-complement reinterpretation of the 32-bit pattern |
| Read.BeI32 | src/read.rs:49-52 | reads four bytes as a two's-complement 32-bit integer, else `TruncatedTerm` |
| Read.FromBigEndianAppend | src/read.rs:54-70 | the big-endian value of a concatenation is the high part shifted by the low part's width plus the low part |
| Read.BigEndian8 | src/read.rs:54-70 | the two 32-bit halves combined as `(hi << 32) \| lo` give the eight-byte big-endian value |
| Read.BeU64 | src/read.rs:54-70 | reads the big-endian value of the first eight bytes and leaves the rest, else `TruncatedTerm` |
| Read.BeU16RoundTrip | src/read.rs:22-31 | every 16-bit value written big-endian reads back, leaving exactly the following bytes |
| Read.BeU32RoundTrip | src/read.rs:33-47 | every 32-bit value written big-endian reads back, leaving exactly the following bytes |
| Read.BeU64RoundTrip | src/read.rs:54-70 | every 64-bit value written big-endian reads back, leaving exactly the following bytes |
| Read.BeI32RoundTrip | src/read.rs:49-52 | every 32-bit signed value in two's complement reads back |
| Read.RoundToMultiple | src/read.rs:72-75 | a value rounded to the nearest multiple of the unit, ties to the even multiple, is within half a unit of it |
| Read.NumericCast | src/read.rs:72-75 | `u64 as f64` is exact below 2^53 and otherwise within half a unit in the last place of the value |
| Read.BeF64AsWritten | src/read.rs:72-75 | as written, `be_f64` reads eight bytes and yields the numeric conversion of their unsigned value, else `TruncatedTerm` |
| Read.BeF64 | src/read.rs:72-75 | corrected, the eight bytes are the IEEE 754 bit pattern and exactly they are consumed, else `TruncatedTerm` |
| Read.BeF64RoundTrip | src/read.rs:72-75 | every bit pattern written big-endian reads back, so distinct floats stay distinct |
| Read.NumericCastMisreads | src/read.rs:72-75 | as written, the pattern of the smallest subnormal, `00 .. 01`, reads as the float 1.0, while the corrected reader keeps the pattern |
| Read.NumericCastMerges | src/read.rs:72-75 | as written, the distinct patterns 2^53 and 2^53 + 1 read as the same float, which the corrected reader keeps apart |
| Read.CastAtTwo53 | src/read.rs:72-75 | `u64 as f64` maps 2^53 + 1, a tie between 2^53 and 2^53 + 2, to the even 2^53 |
| Atoms.NewAtomAsWritten | src/atom.rs:6-18 | as written, `Atom::new` refuses only more than `MAXATOMLEN` (255 + 1) characters, keeping the text, else `AtomLengthOutOfRange` with the count |
| Atoms.NewAtom | src/atom.rs:6-18 | corrected, `Atom::new` accepts text of at most 255 characters, the limit of its error message, and keeps it; otherwise `AtomLengthOutOfRange` with the character count |
| Atoms.AsWrittenAcceptsLongAtom | src/atom.rs:11-15 | 256 ASCII letters make an atom as written but are refused by the corrected check |
| Atoms.AtomFromBytes | src/ext.rs:112-116 | UTF-8 check then the corrected `Atom::new`: Ok exactly on valid text of at most 255 characters (the crate as written allows 256, see Findings), with the error of whichever step refused |
| Atoms.ShortTextIsAtom | src/atom.rs:6-18 | valid text of at most 255 bytes is always an atom |
| Atoms.AtomFitsCBuffer | src/atom.rs:6-18 | an atom's bytes always fit a zero-terminated `MAXATOMLEN_UTF8` buffer |
| Atoms.AtomCache.constructor | src/atom.rs:36-40 | a new cache is empty |
| Atoms.AtomCache.Insert | src/atom.rs:42-44 | binds the key to the atom, keeps every other binding, and returns the binding it replaced |
| Atoms.AtomCache.Index | src/atom.rs:47-53 | indexing a bound key returns that key's atom |
| Nodes.NewNode | src/node.rs:4-15 | accepts a serial number (creation) of at most 3, keeping name and number; otherwise `NodeSerialNumberOutOfRange` |
| Pids.NewPid | src/pid.rs:9-22 | accepts an id of at most 0x7FFF and a serial of at most 0x1FFF; otherwise `PidOutOfRange` with the inputs |
| Pids.Id | src/pid.rs:24-26 | the id widened to 32 bits stays below 2^16 |
| Pids.IdBoundary | src/pid.rs:9-22 | 0x7FFF is the largest id accepted and 0x8000 is refused |
| Terms.FromAtom | src/term.rs:3-7 | an atom becomes an atom term holding it |
| Terms.FromPid | src/term.rs:9-13 | a pid becomes a pid term holding it |
| Terms.FromReference | src/term.rs:15-19 | a reference becomes a reference term holding it |
| Terms.FromTuple | src/term.rs:21-25 | a tuple becomes a tuple term holding its elements |
| Terms.Kind | src/term.rs:27-38 | each variant has its own kind, in both directions |
| Ext.ReadCreation | src/ext.rs:20-27 | succeeds exactly when the field's width (one byte for the old format, four for the new) is present, yielding its big-endian value and the bytes after it; otherwise `TruncatedTerm` |
| Ext.ReadAtomSize | src/ext.rs:35-42 | a small atom length is one byte, a regular one is two big-endian bytes |
| Ext.ReadTupleSize | src/ext.rs:50-59 | a small arity is one byte, a large one is four big-endian bytes |
| Ext.CastLen | src/ext.rs:206-211 | a count converts to `usize` exactly when it fits, else `LenOutOfRange` |
| Ext.ReadSmallInteger | src/ext.rs:89-92 | one unsigned byte as an integer term |
| Ext.ReadInteger | src/ext.rs:94-97 | four big-endian bytes as a signed 32-bit integer term |
| Ext.ReadNewFloat | src/ext.rs:107-110 | the eight payload bytes are the float's bit pattern (`from_bits`, not the numeric cast of `be_f64`), and exactly they are consumed (the corrected reader) |
| Ext.ReadNewFloatAsWritten | src/ext.rs:107-110 | as written: the value is read from eight bytes but 39 are skipped, so shorter inputs hit an out-of-range slice |
| Ext.ReadAtomUtf8 | src/ext.rs:112-116 | a length, then that many bytes decoded as an atom, with the truncation and atom errors |
| Ext.ReadBinary | src/ext.rs:196-204 | a 32-bit length, then that many bytes as a binary term, else `TruncatedTerm` |
| Ext.StringElements | src/ext.rs:184-194 | a string's bytes become one integer term per byte, in order |
| Ext.DecodeTerm | src/ext.rs:61-87 | a successful decode consumes at least the tag byte |
| Ext.DecodeElements | src/ext.rs:153-168 | decoding n elements yields exactly n terms, and consumes input whenever n is positive |
| Ext.ReadTerm | src/ext.rs:61-87 | the tag dispatch computes `DecodeTerm` |
| Ext.ReadNodeName | src/ext.rs:143-151 | computes `DecodeNodeName` |
| Ext.ReadPid | src/ext.rs:118-130 | computes `DecodePid` (node atom, id, serial, creation; `Node::new`, `Pid::new`) |
| Ext.ReadReference | src/ext.rs:132-141 | computes `DecodeReference` (node atom, id, one-byte creation) |
| Ext.ReadElements | src/ext.rs:153-182 | the element loop computes `DecodeElements`, stopping at the first element error |
| Ext.ReadTuple | src/ext.rs:153-168 | computes `DecodeTuple` |
| Ext.ReadList | src/ext.rs:170-182 | computes `DecodeList` (count + 1 elements, the tail kept as the last one) |
| Ext.ReadString | src/ext.rs:184-194 | computes `DecodeString` |
| ExtProperties.TermSuffix | src/ext.rs:61-87 | what remains after a successful decode is a suffix of the input |
| ExtProperties.PayloadSuffix | src/ext.rs:61-87 | every tag's reader leaves a suffix of its input |
| ExtProperties.NodeNameSuffix | src/ext.rs:143-151 | the node-name reader leaves a suffix |
| ExtProperties.PidSuffix | src/ext.rs:118-130 | the pid reader leaves a suffix |
| ExtProperties.ReferenceSuffix | src/ext.rs:132-141 | the reference reader leaves a suffix |
| ExtProperties.ElementsSuffix | src/ext.rs:153-168 | the element loop leaves a suffix |
| ExtProperties.TupleSuffix | src/ext.rs:153-168 | the tuple reader leaves a suffix |
| ExtProperties.ListSuffix | src/ext.rs:170-182 | the list reader leaves a suffix |
| ExtProperties.DecodeTermStrictSuffix | src/ext.rs:61-87 | the unread rest is a proper suffix, at least one byte shorter |
| ExtProperties.UnknownTag | src/ext.rs:85 | a tag that no arm names is `UnknownTermTag` with that tag |
| ExtProperties.UnknownTagExample | src/ext.rs:85 | tag 255 is refused as unknown |
| ExtProperties.UnsupportedTags | src/ext.rs:67-74 | atom-cache references, big integers and old floats are unimplemented |
| ExtProperties.NilTag | src/ext.rs:68 | `NIL_EXT` is nil and consumes only the tag |
| ExtProperties.SmallIntegerTag | src/ext.rs:69 | `SMALL_INTEGER_EXT` reads the one following byte |
| ExtProperties.IntegerTag | src/ext.rs:70 | `INTEGER_EXT` reads back any 32-bit signed integer |
| ExtProperties.NodeNameMustBeAtom | src/ext.rs:143-151 | a node name that decodes to a non-atom term is `NodeIsNotAnAtom` with that term's kind |
| ExtProperties.TupleArity | src/ext.rs:153-168 | a decoded tuple has exactly the arity its header states |
| ExtProperties.ElementError | src/ext.rs:161-165 | when the first k elements decode and element k fails, the loop over n > k elements fails with element k's error |
| ExtProperties.TupleElementError | src/ext.rs:153-168 | whichever element of a tuple fails first, its error is the tuple's error |
| ExtProperties.ListLength | src/ext.rs:170-182 | a decoded list has count + 1 elements: the count's elements and the tail |
| ExtProperties.StringIsBytes | src/ext.rs:184-194 | a decoded string is a list of one small integer per byte |
| ExtProperties.SmallTupleTag | src/ext.rs:80 | `SMALL_TUPLE_EXT` reads the arity byte, then that many elements |
| ExtProperties.TupleExample | src/ext.rs:153-168 | `{5, ok}` is decoded from its eight-byte encoding |
| ExtProperties.SmallAtomTag | src/ext.rs:77 | `SMALL_ATOM_UTF8_EXT` reads a one-byte length, then the atom |
| ExtProperties.AtomExample | src/ext.rs:112-116 | the small atom `ok` is decoded from four bytes |
| ExtProperties.ElementsConsume | src/ext.rs:153-168 | n elements consume at least n bytes |
| ExtProperties.NewFloatSkipsTooFar | src/ext.rs:107-110 | for a float followed by fewer than 31 bytes, the reader as written fails and the corrected one reads the float |
| ExtProperties.ListAsWrittenWraps | src/ext.rs:170-182 | a list count of 0xFFFFFFFF wraps to zero elements in the reader as written |
| ExtProperties.ListCountNotWrapped | src/ext.rs:170-182 | the corrected list reader fails on that count whenever fewer than 2^32 bytes follow, since 2^32 elements need at least 2^32 bytes |
| ExtProperties.ListCountWraps | src/ext.rs:170-182 | the two readers disagree on a list count of 0xFFFFFFFF |
| ExtRoundTrip.EncodeAtom | src/ext.rs:112-116 | the reference `ATOM_UTF8_EXT` encoding is three bytes plus the text |
| ExtRoundTrip.TermRoundTrip | src/ext.rs:61-87 | every well-formed term, encoded and followed by any bytes, decodes back to itself and leaves exactly those bytes |
| ExtRoundTrip.ElementsRoundTrip | src/ext.rs:153-168 | a sequence of well-formed terms encoded back to back decodes element by element |
| ExtRoundTrip.IntegerRoundTrip | src/ext.rs:94-97 | integers round-trip |
| ExtRoundTrip.FloatRoundTrip | src/ext.rs:107-110 | floats round-trip through the corrected reader |
| ExtRoundTrip.AtomRoundTrip | src/ext.rs:112-116 | atoms round-trip |
| ExtRoundTrip.NodeNameRoundTrip | src/ext.rs:143-151 | an encoded atom reads back as a node name |
| ExtRoundTrip.PidRoundTrip | src/ext.rs:118-130 | pids round-trip through `PID_EXT` |
| ExtRoundTrip.NewPidTag | src/ext.rs:118-130 | `NEW_PID_EXT` with a four-byte creation: a creation above 3 is `NodeSerialNumberOutOfRange`, an id or serial out of range is `PidOutOfRange`, and otherwise the pid is read and exactly its bytes are consumed |
| ExtRoundTrip.ReferenceRoundTrip | src/ext.rs:132-141 | references round-trip through `REFERENCE_EXT` |
| ExtRoundTrip.TupleRoundTrip | src/ext.rs:153-168 | tuples of up to 255 elements round-trip through `SMALL_TUPLE_EXT` |
| ExtRoundTrip.LargeTupleRoundTrip | src/ext.rs:153-168 | larger tuples round-trip through `LARGE_TUPLE_EXT` |
| ExtRoundTrip.TupleSizeRoundTrip | src/ext.rs:50-59 | an arity written in its format reads back |
| ExtRoundTrip.ListRoundTrip | src/ext.rs:170-182 | lists of 1 to 2^32 elements (the last one being the tail) round-trip through `LIST_EXT` |
| ExtRoundTrip.BinaryRoundTrip | src/ext.rs:196-204 | binaries round-trip |
| ExtRoundTrip.EncodeInjective | src/ext.rs:61-87 | different well-formed terms never share an encoding, so a decoded term is determined by its bytes |
| ExtTruncation.IntegerTruncated | src/ext.rs:94-97 | an `INTEGER_EXT` encoding cut short is `TruncatedTerm` |
| ExtTruncation.FloatTruncated | src/ext.rs:107-110 | a `NEW_FLOAT_EXT` encoding cut short is `TruncatedTerm` in the corrected reader |
| ExtTruncation.AtomTruncated | src/ext.rs:112-116 | an `ATOM_UTF8_EXT` encoding cut in its length or its text is `TruncatedTerm`, never an atom or UTF-8 error |
| ExtTruncation.BinaryTruncated | src/ext.rs:196-204 | a `BINARY_EXT` encoding cut in its length or its bytes is `TruncatedTerm` |
| ExtTruncation.NodeNameTruncated | src/ext.rs:143-151 | a node name cut inside its atom is `TruncatedTerm`, not `NodeIsNotAnAtom` |
| ExtTruncation.PidPayloadTruncated | src/ext.rs:118-130 | a pid payload cut in its node atom or its id, serial or creation is `TruncatedTerm` |
| ExtTruncation.PidTruncated | src/ext.rs:118-130 | a `PID_EXT` encoding cut short is `TruncatedTerm` |
| ExtTruncation.ReferencePayloadTruncated | src/ext.rs:132-141 | a reference payload cut in its node atom or its id or creation is `TruncatedTerm` |
| ExtTruncation.ReferenceTruncated | src/ext.rs:132-141 | a `REFERENCE_EXT` encoding cut short is `TruncatedTerm` |
| ExtTruncation.TuplePayloadTruncated | src/ext.rs:153-168 | a tuple payload cut in its arity field, or in elements whose cut is truncated, is `TruncatedTerm` |
| ExtTruncation.TupleTruncated | src/ext.rs:153-168 | a tuple encoding cut short is `TruncatedTerm` whenever its cut elements are |
| ExtTruncation.ListPayloadTruncated | src/ext.rs:170-182 | a list payload cut in its count, or in elements whose cut is truncated, is `TruncatedTerm` |
| ExtTruncation.ListTruncated | src/ext.rs:170-182 | a list encoding cut short is `TruncatedTerm` whenever its cut elements are |
| ExtTruncation.TruncatedPrefix | src/ext.rs:61-87 | decoding any proper prefix of a well-formed term's encoding fails with `TruncatedTerm`, at any depth of nesting |
| ExtTruncation.TruncatedElements | src/ext.rs:153-168 | decoding n elements from any proper prefix of their encoding fails with `TruncatedTerm`: the elements before the cut decode and the cut one is truncated |
| Protocol.FlagsFrom | src/protocol.rs:10-27 | bit 3 is the new-entry flag and bits 0-2 the segment; the flags are the value's low nibble |
| Protocol.FlagsRoundTrip | src/protocol.rs:10-27 | every flag pair is recovered from its half byte |
| Protocol.GetNthHalfByte | src/protocol.rs:92-99 | every half byte is below 16 |
| Protocol.HalfByteOrder | src/protocol.rs:92-99 | the crate's half-byte numbering is the ERTS numbering with each byte's halves swapped |
| Protocol.HalfBytesMakeByte | src/protocol.rs:92-99 | half bytes 2j and 2j+1, high then low, rebuild byte j |
| Protocol.FlagHalfBytesInBounds | src/protocol.rs:52-63 | R/2+1 flag bytes hold half bytes 0..R, so no flag read is out of range |
| Protocol.ReadVersionMagic | src/protocol.rs:29-36 | Ok exactly when the first byte is 131, else `TruncatedTerm` or `UnsupportedProtocolVersion` with the byte |
| Protocol.ReadCacheReference | src/protocol.rs:71-86 | one reference consumes at least its slot byte, and yields a binding exactly when it is a new entry, keyed by its segment and slot and holding a valid atom |
| Protocol.ReadCacheReferences | src/protocol.rs:70-87 | the fold never lengthens the input and adds at most one binding per reference (what it binds: `HeaderProperties.ReferencesRoundTrip`) |
| Protocol.ReferenceFlags | src/protocol.rs:55-61 | one flag pair per reference |
| Protocol.SizeFormatOf | src/protocol.rs:63-68 | two-byte atom lengths exactly when bit 0 of the half byte after the flags is set |
| Protocol.DistributionHeader | src/protocol.rs:38-90 | the header reader only consumes input (its suffix and bindings: `HeaderProperties.HeaderSuffix`, `HeaderProperties.HeaderRoundTrip`) |
| Protocol.ApplyAppend | src/protocol.rs:80 | inserting two batches in turn is inserting their concatenation |
| Protocol.ReadReferenceFlags | src/protocol.rs:55-61 | the flag loop computes `ReferenceFlags` |
| Protocol.ReadCacheReferencesInto | src/protocol.rs:70-87 | the `try_fold` loop returns the fold's result and leaves the cache with the fold's bindings applied in order, including those made before an error |
| Protocol.ReadDistributionHeader | src/protocol.rs:38-90 | returns `DistributionHeader`'s result and applies its bindings to the cache |
| HeaderProperties.EmptyBuffer | src/protocol.rs:42 | an empty buffer is `TruncatedTerm` and changes nothing |
| HeaderProperties.NoHeader | src/protocol.rs:42-45 | without the header tag the whole input is left for the payload |
| HeaderProperties.ZeroReferences | src/protocol.rs:47-50 | a header with no references consumes two bytes |
| HeaderProperties.MissingFlagBytes | src/protocol.rs:52-53 | fewer than R/2+1 flag bytes is `TruncatedTerm` |
| HeaderProperties.Segments | src/protocol.rs:72-75 | the segments of the keys a header binds, in order |
| HeaderProperties.InsertsFollowNewEntries | src/protocol.rs:70-87 | bindings are added in the order of the new-entry flags, and one for each new entry when the fold succeeds |
| HeaderProperties.InsertedAtomsValid | src/protocol.rs:80 | every atom a header binds is a valid atom |
| HeaderProperties.ApplyUntouched | src/atom.rs:42-44 | a key that no binding names keeps its old entry |
| HeaderProperties.ApplyLastWins | src/atom.rs:42-44 | a key bound several times holds the last atom bound to it |
| HeaderProperties.ApplyKeys | src/atom.rs:42-44 | the keys afterwards are the old keys plus the bound ones |
| HeaderProperties.FlagsOfB0 | src/protocol.rs:55-68 | flag byte 0xB0 with one reference is a new entry in segment 3 with one-byte atom lengths |
| HeaderProperties.ReferenceToFoo | src/protocol.rs:71-86 | a new-entry reference to slot 7 binds atom `foo` |
| HeaderProperties.HeaderWithReferences | src/protocol.rs:38-90 | a header with references reads its flags and then folds over the references that follow |
| HeaderProperties.OneNewEntry | src/protocol.rs:38-90 | a header binding `foo` to segment 3 slot 7 consumes all its bytes and makes that one binding |
| HeaderProperties.NewEntryReference | src/protocol.rs:71-86 | a new-entry reference with a valid atom binds its segment and slot to that atom and leaves exactly the bytes after the atom text |
| HeaderProperties.OldEntryReference | src/protocol.rs:71-86 | an old-entry reference consumes only its slot byte and binds nothing |
| HeaderProperties.EncodeReference | src/protocol.rs:71-86 | the reference encoding of one cache reference starts with its slot byte |
| HeaderProperties.EncodeReferences | src/protocol.rs:70-87 | the encoding of n references is at least n bytes long |
| HeaderProperties.Bindings | src/protocol.rs:70-87 | at most one binding per reference |
| HeaderProperties.WrittenReferenceRoundTrip | src/protocol.rs:71-86 | every encoded reference reads back, binding exactly what its flag says and leaving the following bytes |
| HeaderProperties.ReferencesUnfold | src/protocol.rs:70-87 | the fold is the first reference's binding followed by the fold over the rest |
| HeaderProperties.ReferencesRoundTrip | src/protocol.rs:70-87 | for all well-formed references, the fold succeeds, leaves the bytes after them and binds the (segment, slot, atom) of each new entry, in order |
| HeaderProperties.HeaderRoundTrip | src/protocol.rs:38-90 | a well-formed header with references is read whole and binds the (segment, slot, atom) of each new entry, in order |
| HeaderProperties.CacheReferenceSuffix | src/protocol.rs:71-86 | one reference leaves a suffix of its input |
| HeaderProperties.CacheReferencesSuffix | src/protocol.rs:70-87 | the fold leaves a suffix of its input |
| HeaderProperties.HeaderSuffix | src/protocol.rs:38-90 | the header reader leaves a suffix of its input for the payload |
| Messages.ControlOf | src/message.rs:3-44 | the envelope of a message is a send exactly for a send message |
| Messages.ReadMessage | src/message.rs:3-44 | a send or registered send is completed by the decoded term, keeping its envelope; link, unlink and exit are unimplemented; term errors pass through |
| Messages.ReadMessageRecovers | src/message.rs:3-44 | a message is recovered from its envelope and any payload that decodes to its term |
| CInterop.Zeros | src/c.rs:12-21 | a buffer of n zero bytes |
| CInterop.CText | src/c.rs:12-21 | the text before the first zero has no zero and is followed by one |
| CInterop.AtomFromC | src/c.rs:12-21 | a buffer with no zero is `RunawayAtom`; otherwise its text becomes an atom exactly when it is valid UTF-8 of at most 255 characters, the corrected limit (the crate as written allows 256) |
| CInterop.AtomToC | src/c.rs:12-21 | an atom written into a C buffer is followed by a zero |
| CInterop.AtomCRoundTrip | src/c.rs:12-21 | every valid zero-free atom survives the trip through a C buffer |
| CInterop.PidFromC | src/c.rs:23-29 | node atom, node and pid are converted in order, and the first error is returned, `PidOutOfRange` with the converted node included; a result carries the C fields unchanged |
| CInterop.PidCRoundTrip | src/c.rs:23-29 | every well-formed pid survives the trip through `erlang_pid` |
| CInterop.ControlMessageFromC | src/c.rs:31-62 | send and registered send are converted with the error of the first field that fails (`from` before `to`/`toname`); the other six known codes are unimplemented; any code outside 1..8 is `UnknownMessageType` |
| CInterop.ControlMessageCRoundTrip | src/c.rs:31-62 | every send and registered send without a trace token is classified back to itself |
| Names.MaxLen | src/name.rs:18-24 | each kind of name has its own limit |
| Names.ValidateCString | src/name.rs:5-16 | a name is accepted exactly when it is within its limit and has no zero byte; too long is reported first; otherwise the first zero's position |
| Names.Display | src/name.rs:27-38 | each kind's text ends in " name" |
| Names.DisplayInjective | src/name.rs:27-38 | different kinds display differently |
| Names.NewNodeName | src/name.rs:47-81 | accepts exactly valid alive and host names; the alive error is reported first; the accessors return the parts and `alive@host` |
| Names.FullNameSplits | src/name.rs:58-66 | the full name splits at its `@` back into the alive and host names |
| Names.FullNameIsNodeName | src/name.rs:47-69 | under consistent limits, a full name built from valid parts is itself a valid node name |
| Names.FullNameMayExceedNodeLimit | src/name.rs:47-69 | under any other limits, the longest valid parts make a full name longer than the node-name limit |
| Connection.Received | src/c_node.rs:143-148 | header errors come first, then envelope errors; a supported envelope succeeds exactly when the payload after the header decodes, with that term and that error |
| Connection.NoHeaderPayload | src/c_node.rs:143-148 | without a header the payload term is decoded from the first byte |
| Connection.Receive | src/c_node.rs:143-148 | the receive step computes `Received` and leaves the cache with the header's bindings, even when a later step fails |

## Left out

- The socket, `ei_xreceive_msg`, the connect and publish calls, the tick loop and the rest of `CNode` (`src/c_node.rs`) are I/O. Only the message branch of `receive` is modelled.
- `c::last_error` reads `erl_errno` through the FFI and is not modelled.
- `src/x.rs`, `src/term_view.rs`, `src/main.rs` and `src/lib.rs` are not part of this model.
- Floating-point arithmetic is not modelled. `be_f64` as written (`value as f64`, a numeric conversion) is modelled by the integer value it yields (`Read.BeF64AsWritten`). The corrected float term holds the 64-bit IEEE pattern, which `f64::from_bits` maps one-to-one (see Findings).
- Rust panics are modelled as error values:
  - `unimplemented!()` is `Error.Unimplemented`;
  - an out-of-range slice is `Error.IndexOutOfRange`.
- The atom cache is passed to `read_term` and `read_message` but never consulted there. The methods take it for fidelity, but their contracts do not mention it.
- `AtomCache` is a map. The `HashMap` internals, the `Borrow` impl and `Display` of `Atom` are not modelled.
- `Vec::with_capacity` reservations are not modelled; only the pushed contents are. At src/ext.rs:160 and 174 the capacity is the 32-bit count read from the input, up to 2^32 - 1, and at src/ext.rs:188 the 16-bit string length, up to 2^16 - 1; it is reserved before any element is read. A short message can thus make the process abort on allocation failure, which the model does not represent.
- `usize` is taken to be 64 bits (`Ext.USIZE_MAX`).
- Ext.CastLen: its `LenOutOfRange` branch is unreachable for the `u32` counts the decoders pass. The model keeps the branch but proves nothing about when it is reached.
- Protocol.GetNthHalfByte: modelled as written. Even indices take the HIGH half byte, whereas the ERTS text puts even-indexed flags in the low half. `HalfByteOrder` states the swap, and it is not listed as a finding because ERTS-generated headers are not part of this model.
- A C `char` is modelled as its byte.
- CInterop.AtomCRoundTrip: proved only for atoms without zero bytes. An atom with an embedded zero is cut short by `CStr::from_ptr`.
- Names.NewNodeName: the `ei.h` limits `MAXNODELEN`, `EI_MAXALIVELEN` and `EI_MAXHOSTNAMELEN` come from C headers and are a parameter (`NameLimits`).
- Names.FullNameIsNodeName: assumes `MAXNODELEN >= EI_MAXALIVELEN + 1 + EI_MAXHOSTNAMELEN` (`Names.Consistent`), which holds only for `ei.h` versions whose node limit leaves room for both parts. Where a header sets the three limits equal, `Names.FullNameMayExceedNodeLimit` shows that the lemma says nothing.
- `Ei.MAXATOMLEN` is `ei.h`'s buffer size `(255 + 1)` and `Ei.MAXATOMLEN_UTF8` is `255 * 4 + 1`, as in the `ei.h` that defines `MAXATOMLEN_UTF8`, which the crate uses (src/c.rs:10).
- Ext.DecodeTerm: it and the other decoders state only that they shorten the input. That the rest is a suffix of the input is proved separately by the `ExtProperties.*Suffix` lemmas.
- ExtRoundTrip.Encode: a reference encoder written for the round-trip lemmas, not part of the crate. It emits:
  - `PID_EXT`, `REFERENCE_EXT` and `ATOM_UTF8_EXT`;
  - lists with at least one element.
- Ext.DecodeListAsWritten: models the release build, where `len + 1` wraps. A debug build would panic on overflow instead.
- Atoms.AtomFromBytes: uses the corrected 255-character `NewAtom`; the crate accepts 256 characters through src/atom.rs:13 (see Findings), so on a 256-character text the model returns `AtomLengthOutOfRange` where the crate returns the atom.
- Ext.ReadAtomUtf8: reads through `AtomFromBytes`, so it refuses a 256-character atom that the crate as written accepts.
- Protocol.ReadCacheReference: a new-entry atom of 256 characters is refused here and inserted by the crate as written (src/protocol.rs:80).
- Protocol.ReadCacheReferences: inherits the 255-character limit of `ReadCacheReference`.
- Protocol.DistributionHeader: inherits the 255-character limit of `ReadCacheReference`.
- Protocol.ReadCacheReferencesInto: inherits the 255-character limit of `ReadCacheReference`.
- Protocol.ReadDistributionHeader: inherits the 255-character limit of `ReadCacheReference`.
- CInterop.AtomFromC: uses the corrected 255-character `NewAtom`; the crate as written turns a 256-character C string into an atom (src/c.rs:19).
- CInterop.PidFromC: inherits the 255-character limit of `AtomFromC` for the node name.
- CInterop.ControlMessageFromC: inherits the 255-character limit of `AtomFromC` for node names and the registered name.
- The crate's `Term` and `TermKind` (src/ty.rs:37-53) declare six variants, yet src/ext.rs builds `Term::Nil`, `Term::List` and `Term::Binary` and src/message.rs builds `Message::RegisteredSend`, none of which that file declares. The model's `Term` has the nine kinds the decoders build, and `Message` includes the registered send. The declared `ControlMessage::RegisteredSend` (src/ty.rs:72-75) has no `trace_token`, while src/c.rs and src/message.rs build and match it with one; the model's `RegisteredSend` carries the trace token they use.
- Ext.DecodeTerm: the whole-term decoder uses the corrected readers of the Findings table (`ReadNewFloat`, `DecodeList`, the 255-character `NewAtom`). On a `NEW_FLOAT_EXT` payload, a list count of `0xFFFFFFFF` or a 256-character atom, it therefore differs from the crate. So do `Messages.ReadMessage`, `Connection.Received` and `Connection.Receive`, which use it. The as-written behaviour is stated per reader.
- Ext.ReadTerm: computes the corrected `DecodeTerm`, with the same differences from the crate as above.

## Findings

| source | as written | input that shows it | evidently intended | confidence | as-written member | corrected member |
|---|---|---|---|---|---|---|
| src/ext.rs:107-110 | after reading the eight bytes of a `NEW_FLOAT_EXT` value, the reader skips `FLOAT_EXT`'s 31-byte width, not eight | a `NEW_FLOAT_EXT` payload followed by fewer than 31 bytes: the slice panics; with more, 31 bytes of the next term are swallowed. So a tuple holding a float and then a term of 31 or more bytes, cut just after the float, panics instead of failing with `TruncatedTerm` as `ExtTruncation.TruncatedPrefix` promises for the corrected reader | consume exactly the eight bytes that were read | not executed | ExtProperties.NewFloatSkipsTooFar | Ext.ReadNewFloat |
| src/ext.rs:170-182 | the element count is `len + 1` computed in `u32` | a `LIST_EXT` count of `0xFFFFFFFF` wraps to 0 elements in release builds, so an empty list is returned and the tail is never read | read `len` elements and a tail, 2^32 terms for the largest count | not executed | ExtProperties.ListAsWrittenWraps | Ext.DecodeList |
| src/read.rs:72-75 | `be_f64` converts the eight bytes' unsigned value numerically (`value as f64`) | the bytes `00 00 00 00 00 00 00 01` (the smallest subnormal) give 1.0; the bit patterns 2^53 and 2^53 + 1 give the same float | reinterpret the bits, `f64::from_bits(value)` | not executed | Read.NumericCastMisreads, Read.NumericCastMerges | Read.BeF64 |
| src/atom.rs:13 | `Atom::new` refuses text of more than `ei::MAXATOMLEN` characters, and `ei.h` defines that as `(255 + 1)` | a text of 256 ASCII letters is accepted, e.g. from an `ATOM_UTF8_EXT` with length 256 | at most 255 characters, as its error message and the `Atom` documentation say | not executed | Atoms.AsWrittenAcceptsLongAtom | Atoms.NewAtom |
