/**
 * Properties of the term decoder of `src/ext.rs`: what each tag yields and
 * consumes, the sizes of compound terms, and that a successful decode always
 * leaves a suffix of its input.
 */
module ExtProperties {
  import opened Types
  import opened Read
  import Ei
  import Terms
  import Utf8
  import Atoms
  import opened Ext

  // ---------------------------------------------------------------------------
  // Every successful decoder leaves a suffix of its input: it only ever
  // consumes bytes from the front. The lemmas follow the decoders' own
  // recursion.

  lemma {:induction false} TermSuffix(input: seq<uint8>)
    ensures DecodeTerm(input).Ok? ==> IsSuffix(DecodeTerm(input).value.0, input)
    decreases |input|, 0
  {
    if |input| >= 1 {
      PayloadSuffix(input[0], input[1..]);
      DropIsSuffix(input, 1);
      if DecodeTerm(input).Ok? {
        SuffixOfSuffix(DecodeTerm(input).value.0, input[1..], input);
      }
    }
  }

  lemma {:induction false} PayloadSuffix(tag: uint8, input: seq<uint8>)
    ensures DecodePayload(tag, input).Ok? ==> IsSuffix(DecodePayload(tag, input).value.0, input)
    decreases |input|, 3
  {
    if tag == Ei.REFERENCE_EXT {
      ReferenceSuffix(input);
    } else if tag == Ei.PID_EXT {
      PidSuffix(input, CreationFormat.Old);
    } else if tag == Ei.NEW_PID_EXT {
      PidSuffix(input, CreationFormat.New);
    } else if tag == Ei.SMALL_TUPLE_EXT {
      TupleSuffix(input, TupleSizeFormat.Small);
    } else if tag == Ei.LARGE_TUPLE_EXT {
      TupleSuffix(input, TupleSizeFormat.Large);
    } else if tag == Ei.LIST_EXT {
      ListSuffix(input);
    } else if tag == Ei.STRING_EXT {
      if |input| >= 2 {
        TakeSuffix(input[2..], FromBigEndian(input[..2]));
        DropIsSuffix(input, 2);
        if DecodeString(input).Ok? {
          SuffixOfSuffix(DecodeString(input).value.0, input[2..], input);
        }
      }
    } else if tag == Ei.SMALL_INTEGER_EXT {
      DropSuffix(ReadSmallInteger(input), input, 1);
    } else if tag == Ei.INTEGER_EXT {
      DropSuffix(ReadInteger(input), input, 4);
    } else if tag == Ei.NEW_FLOAT_EXT {
      DropSuffix(ReadNewFloat(input), input, 8);
    } else if tag == Ei.ATOM_UTF8_EXT {
      AtomSuffix(input, AtomSizeFormat.Regular);
    } else if tag == Ei.SMALL_ATOM_UTF8_EXT {
      AtomSuffix(input, AtomSizeFormat.Small);
    } else if tag == Ei.BINARY_EXT {
      if |input| >= 4 {
        DropSuffix(ReadBinary(input), input, 4 + FromBigEndian(input[..4]));
      }
    }
  }

  /** A reader that returns the input less its first `k` bytes leaves a suffix. */
  lemma DropSuffix(r: IResult<Term>, input: seq<uint8>, k: nat)
    requires r.Ok? ==> k <= |input| && r.value.0 == input[k..]
    ensures r.Ok? ==> IsSuffix(r.value.0, input)
  {
    if r.Ok? {
      DropIsSuffix(input, k);
    }
  }

  lemma AtomSuffix(input: seq<uint8>, sizeFormat: AtomSizeFormat)
    ensures ReadAtomUtf8(input, sizeFormat).Ok? ==> IsSuffix(ReadAtomUtf8(input, sizeFormat).value.0, input)
  {
    var w := AtomSizeWidth(sizeFormat);
    if |input| >= w {
      DropSuffix(ReadAtomUtf8(input, sizeFormat), input, w + FromBigEndian(input[..w]));
    }
  }

  /** `take` leaves a suffix. */
  lemma TakeSuffix(input: seq<uint8>, len: nat)
    ensures Take(input, len).Ok? ==> IsSuffix(Take(input, len).value.0, input)
  {
  }

  lemma {:induction false} NodeNameSuffix(input: seq<uint8>)
    ensures DecodeNodeName(input).Ok? ==> IsSuffix(DecodeNodeName(input).value.0, input)
    decreases |input|, 1
  {
    TermSuffix(input);
  }

  lemma {:induction false} PidSuffix(input: seq<uint8>, creationFormat: CreationFormat)
    ensures DecodePid(input, creationFormat).Ok? ==> IsSuffix(DecodePid(input, creationFormat).value.0, input)
    decreases |input|, 2
  {
    NodeNameSuffix(input);
    if DecodePid(input, creationFormat).Ok? {
      var input1 := DecodeNodeName(input).value.0;
      var width := if creationFormat.Old? then 9 else 12;
      assert DecodePid(input, creationFormat).value.0 == input1[width..];
      DropIsSuffix(input1, width);
      SuffixOfSuffix(input1[width..], input1, input);
    }
  }

  lemma {:induction false} ReferenceSuffix(input: seq<uint8>)
    ensures DecodeReference(input).Ok? ==> IsSuffix(DecodeReference(input).value.0, input)
    decreases |input|, 2
  {
    NodeNameSuffix(input);
    if DecodeReference(input).Ok? {
      var input1 := DecodeNodeName(input).value.0;
      assert DecodeReference(input).value.0 == input1[5..];
      DropIsSuffix(input1, 5);
      SuffixOfSuffix(input1[5..], input1, input);
    }
  }

  lemma {:induction false} ElementsSuffix(input: seq<uint8>, n: nat)
    ensures DecodeElements(input, n).Ok? ==> IsSuffix(DecodeElements(input, n).value.0, input)
    decreases |input|, 1
  {
    if n > 0 && DecodeElements(input, n).Ok? {
      TermSuffix(input);
      var rest := DecodeTerm(input).value.0;
      ElementsSuffix(rest, n - 1);
      SuffixOfSuffix(DecodeElements(input, n).value.0, rest, input);
    }
  }

  lemma {:induction false} TupleSuffix(input: seq<uint8>, sizeFormat: TupleSizeFormat)
    ensures DecodeTuple(input, sizeFormat).Ok? ==> IsSuffix(DecodeTuple(input, sizeFormat).value.0, input)
    decreases |input|, 2
  {
    if DecodeTuple(input, sizeFormat).Ok? {
      var w := TupleSizeWidth(sizeFormat);
      ElementsSuffix(input[w..], FromBigEndian(input[..w]));
      DropIsSuffix(input, w);
      SuffixOfSuffix(DecodeTuple(input, sizeFormat).value.0, input[w..], input);
    }
  }

  lemma {:induction false} ListSuffix(input: seq<uint8>)
    ensures DecodeList(input).Ok? ==> IsSuffix(DecodeList(input).value.0, input)
    decreases |input|, 2
  {
    if DecodeList(input).Ok? {
      ElementsSuffix(input[4..], FromBigEndian(input[..4]) + 1);
      DropIsSuffix(input, 4);
      SuffixOfSuffix(DecodeList(input).value.0, input[4..], input);
    }
  }

  /** A successful `read_term` consumes at least one byte and leaves the rest of its input untouched. */
  lemma DecodeTermStrictSuffix(input: seq<uint8>)
    requires DecodeTerm(input).Ok?
    ensures var rest := DecodeTerm(input).value.0;
      |rest| < |input| && input == input[..|input| - |rest|] + rest
  {
    TermSuffix(input);
    var rest := DecodeTerm(input).value.0;
    assert input == input[..|input| - |rest|] + input[|input| - |rest|..];
  }

  // ---------------------------------------------------------------------------
  // Tag by tag.

  /** The tags `read_term` dispatches on. */
  predicate KnownTag(tag: int) {
    tag in {Ei.ATOM_CACHE_REF, Ei.NIL_EXT, Ei.SMALL_INTEGER_EXT, Ei.INTEGER_EXT, Ei.SMALL_BIG_EXT,
            Ei.LARGE_BIG_EXT, Ei.REFERENCE_EXT, Ei.FLOAT_EXT, Ei.NEW_FLOAT_EXT, Ei.ATOM_UTF8_EXT,
            Ei.SMALL_ATOM_UTF8_EXT, Ei.PID_EXT, Ei.NEW_PID_EXT, Ei.SMALL_TUPLE_EXT, Ei.LARGE_TUPLE_EXT,
            Ei.LIST_EXT, Ei.STRING_EXT, Ei.BINARY_EXT}
  }

  /** An unknown tag is rejected on its own byte, whatever follows. */
  lemma UnknownTag(tag: uint8, rest: seq<uint8>)
    requires !KnownTag(tag)
    ensures DecodeTerm([tag] + rest) == Err(UnknownTermTag(tag))
  {
    assert ([tag] + rest)[1..] == rest;
  }

  lemma UnknownTagExample()
    ensures DecodeTerm([0xFF]) == Err(UnknownTermTag(0xFF))
  {
    UnknownTag(0xFF, []);
    assert [0xFF as uint8] + [] == [0xFF];
  }

  /** The tags the source leaves `unimplemented!()` give the unsupported outcome, whatever follows. */
  lemma UnsupportedTags(tag: uint8, rest: seq<uint8>)
    requires tag == Ei.ATOM_CACHE_REF || tag == Ei.SMALL_BIG_EXT || tag == Ei.LARGE_BIG_EXT || tag == Ei.FLOAT_EXT
    ensures DecodeTerm([tag] + rest).Err? && DecodeTerm([tag] + rest).error.Unimplemented?
  {
    assert ([tag] + rest)[1..] == rest;
  }

  /** `NIL_EXT` is the empty list marker: one byte. */
  lemma NilTag(rest: seq<uint8>)
    ensures DecodeTerm([Ei.NIL_EXT as uint8] + rest) == Ok((rest, Term.Nil))
  {
    assert ([Ei.NIL_EXT as uint8] + rest)[1..] == rest;
  }

  /** `SMALL_INTEGER_EXT`: two bytes, an unsigned byte value. */
  lemma SmallIntegerTag(value: uint8, rest: seq<uint8>)
    ensures DecodeTerm([Ei.SMALL_INTEGER_EXT as uint8, value] + rest) == Ok((rest, Term.Integer(value)))
  {
    var input := [Ei.SMALL_INTEGER_EXT as uint8, value] + rest;
    assert input[1..] == [value] + rest && input[1..][1..] == rest;
  }

  /** `INTEGER_EXT`: five bytes, a big-endian two's-complement 32-bit value. */
  lemma IntegerTag(value: int32, rest: seq<uint8>)
    ensures var bytes := ToBigEndian(if value < 0 then value + 0x1_0000_0000 else value, 4);
      DecodeTerm([Ei.INTEGER_EXT as uint8] + bytes + rest) == Ok((rest, Term.Integer(value)))
  {
    var bytes := ToBigEndian(if value < 0 then value + 0x1_0000_0000 else value, 4);
    BeI32RoundTrip(value, rest);
    assert ([Ei.INTEGER_EXT as uint8] + bytes + rest)[1..] == bytes + rest;
  }

  /** A node name must decode to an atom; any other term is rejected by its kind. */
  lemma NodeNameMustBeAtom(input: seq<uint8>)
    requires DecodeTerm(input).Ok? && !DecodeTerm(input).value.1.Atom?
    ensures DecodeNodeName(input) == Err(NodeIsNotAnAtom(Terms.Kind(DecodeTerm(input).value.1)))
  {
  }

  /** A tuple has exactly as many elements as its arity field says. */
  lemma TupleArity(input: seq<uint8>, sizeFormat: TupleSizeFormat)
    ensures var r := DecodeTuple(input, sizeFormat);
      r.Ok? ==> (r.value.1.Tuple? && |r.value.1.elements| == FromBigEndian(input[..TupleSizeWidth(sizeFormat)]))
  {
  }

  /**
   * The element loop stops at the first element that fails: when k < n
   * elements decode and the next one fails, decoding n elements fails with
   * that element's error.
   */
  lemma {:induction false} ElementError(input: seq<uint8>, n: nat, k: nat, before: seq<uint8>, decoded: seq<Term>)
    requires k < n
    requires DecodeElements(input, k) == Ok((before, decoded))
    requires DecodeTerm(before).Err?
    ensures DecodeElements(input, n) == Err(DecodeTerm(before).error)
    decreases k
  {
    ElementsStep(input, n);
    if k > 0 {
      ElementsStep(input, k);
      var (rest, first) := DecodeTerm(input).value;
      var others := DecodeElements(rest, k - 1);
      assert others.Ok? && others.value.0 == before;
      ElementError(rest, n - 1, k - 1, before, others.value.1);
    }
  }

  /** Any element of a tuple failing, after the ones before it decoded, is the tuple's error. */
  lemma TupleElementError(input: seq<uint8>, sizeFormat: TupleSizeFormat, k: nat, before: seq<uint8>, decoded: seq<Term>)
    requires |input| >= TupleSizeWidth(sizeFormat)
    requires k < FromBigEndian(input[..TupleSizeWidth(sizeFormat)])
    requires DecodeElements(input[TupleSizeWidth(sizeFormat)..], k) == Ok((before, decoded))
    requires DecodeTerm(before).Err?
    ensures DecodeTuple(input, sizeFormat) == Err(DecodeTerm(before).error)
  {
    var arity := FromBigEndian(input[..TupleSizeWidth(sizeFormat)]);
    ElementError(input[TupleSizeWidth(sizeFormat)..], arity, k, before, decoded);
  }

  /** A list with count N has N + 1 elements: the N elements and the tail. */
  lemma ListLength(input: seq<uint8>)
    ensures DecodeList(input).Ok? ==>
      DecodeList(input).value.1.List? && |DecodeList(input).value.1.elements| == FromBigEndian(input[..4]) + 1
  {
  }

  /** A string of N bytes is a list of exactly N small integers, the bytes in order, without a tail. */
  lemma StringIsBytes(input: seq<uint8>)
    ensures var r := DecodeString(input);
      r.Ok? ==>
        var n := FromBigEndian(input[..2]);
        && r.value.1.List? && |r.value.1.elements| == n
        && (forall i :: 0 <= i < n ==> r.value.1.elements[i] == Term.Integer(input[2 + i]))
  {
  }

  /** `{5, ok}` as a small tuple: a small integer and a small UTF-8 atom. */
  lemma TupleExample()
    ensures DecodeTerm([104, 2, 97, 5, 119, 2, 111, 107])
         == Ok(([], Term.Tuple([Term.Integer(5), Term.Atom(Atom.Atom([111, 107]))])))
  {
    var elementBytes: seq<uint8> := [97, 5, 119, 2, 111, 107];
    ElementsExample();
    SmallTupleTag(2, elementBytes);
    assert [Ei.SMALL_TUPLE_EXT as uint8, 2] + elementBytes == [104, 2, 97, 5, 119, 2, 111, 107];
  }

  /** `SMALL_TUPLE_EXT` with arity N: the tuple of the next N terms, or the first error among them. */
  lemma SmallTupleTag(arity: uint8, rest: seq<uint8>)
    ensures var elements := DecodeElements(rest, arity as nat);
      && (elements.Err? ==> DecodeTerm([Ei.SMALL_TUPLE_EXT as uint8, arity] + rest) == Err(elements.error))
      && (elements.Ok? ==>
            DecodeTerm([Ei.SMALL_TUPLE_EXT as uint8, arity] + rest) == Ok((elements.value.0, Term.Tuple(elements.value.1))))
  {
    var input := [Ei.SMALL_TUPLE_EXT as uint8, arity] + rest;
    assert input[1..] == [arity] + rest;
    assert input[1..][..1] == [arity] && input[1..][1..] == rest;
    assert FromBigEndian([arity]) == arity as nat;
    assert ReadTupleSize(TupleSizeFormat.Small, [arity] + rest) == Ok((rest, arity as nat));
    assert DecodeTerm(input) == DecodeTuple([arity] + rest, TupleSizeFormat.Small);
  }

  lemma ElementsExample()
    ensures DecodeElements([97, 5, 119, 2, 111, 107], 2)
         == Ok(([], [Term.Integer(5), Term.Atom(Atom.Atom([111, 107]))]))
  {
    var ok: seq<uint8> := [119, 2, 111, 107];
    SmallIntegerTag(5, ok);
    assert [97 as uint8, 5] + ok == [97, 5, 119, 2, 111, 107];
    OneAtomElement();
    assert [Term.Integer(5)] + [Term.Atom(Atom.Atom([111, 107]))] == [Term.Integer(5), Term.Atom(Atom.Atom([111, 107]))];
  }

  lemma OneAtomElement()
    ensures DecodeElements([119, 2, 111, 107], 1) == Ok(([], [Term.Atom(Atom.Atom([111, 107]))]))
  {
    AtomExample();
    assert DecodeElements([], 0) == Ok(([], []));
    assert [Term.Atom(Atom.Atom([111, 107]))] + [] == [Term.Atom(Atom.Atom([111, 107]))];
  }

  /** `SMALL_ATOM_UTF8_EXT`: a one-byte length and the bytes, which must be valid UTF-8 of at most 255 characters. */
  lemma SmallAtomTag(text: seq<uint8>, rest: seq<uint8>)
    requires |text| < 0x100
    ensures var atom := Atoms.AtomFromBytes(text);
      && (atom.Ok? ==> DecodeTerm([Ei.SMALL_ATOM_UTF8_EXT as uint8, |text| as uint8] + text + rest) == Ok((rest, Term.Atom(atom.value))))
      && (atom.Err? ==> DecodeTerm([Ei.SMALL_ATOM_UTF8_EXT as uint8, |text| as uint8] + text + rest) == Err(atom.error))
  {
    var payload := [|text| as uint8] + text + rest;
    assert [Ei.SMALL_ATOM_UTF8_EXT as uint8, |text| as uint8] + text + rest == [Ei.SMALL_ATOM_UTF8_EXT as uint8] + payload;
    assert ([Ei.SMALL_ATOM_UTF8_EXT as uint8] + payload)[1..] == payload;
    assert payload[..1] == [|text| as uint8];
    assert FromBigEndian([|text| as uint8]) == |text|;
    assert payload[1..1 + |text|] == text && payload[1 + |text|..] == rest;
  }

  lemma AtomExample()
    ensures DecodeTerm([119, 2, 111, 107]) == Ok(([], Term.Atom(Atom.Atom([111, 107]))))
  {
    var text: seq<uint8> := [111, 107];
    Utf8.AsciiIsValid(text);
    Atoms.ShortTextIsAtom(text);
    SmallAtomTag(text, []);
    assert [Ei.SMALL_ATOM_UTF8_EXT as uint8, 2] + text + [] == [119, 2, 111, 107];
  }

  // ---------------------------------------------------------------------------
  // Each element takes at least one byte.

  lemma {:induction false} ElementsConsume(input: seq<uint8>, n: nat)
    ensures DecodeElements(input, n).Ok? ==> |DecodeElements(input, n).value.0| + n <= |input|
    decreases n
  {
    if n > 0 && DecodeElements(input, n).Ok? {
      var rest := DecodeTerm(input).value.0;
      ElementsConsume(rest, n - 1);
    }
  }

  // ---------------------------------------------------------------------------
  // Where the source departs from the external term format.

  /**
   * `read_new_float` as written skips 31 bytes past the eight of the value:
   * a float followed by fewer than 31 bytes panics on the slice, and the
   * corrected reader returns the float and exactly the bytes that followed.
   */
  lemma NewFloatSkipsTooFar(bits: uint64, rest: seq<uint8>)
    requires |rest| < 31
    ensures ReadNewFloatAsWritten(ToBigEndian(bits, 8) + rest) == Err(IndexOutOfRange)
    ensures ReadNewFloat(ToBigEndian(bits, 8) + rest) == Ok((rest, Term.Float(bits)))
  {
    BeU64RoundTrip(bits, rest);
  }

  /**
   * `read_list` as written computes the count plus one in 32 bits: the
   * largest count wraps to zero elements, so four 0xFF bytes decode to an
   * empty list and consume nothing more, where the format asks for 2^32
   * elements, which the corrected reader cannot find in what follows.
   */
  lemma ListCountWraps(rest: seq<uint8>)
    requires |rest| < 0x1_0000_0000
    ensures DecodeListAsWritten([0xFF, 0xFF, 0xFF, 0xFF] + rest) == Ok((rest, Term.List([])))
    ensures DecodeList([0xFF, 0xFF, 0xFF, 0xFF] + rest).Err?
  {
    ListAsWrittenWraps(rest);
    ListCountNotWrapped(rest);
  }

  lemma ListAsWrittenWraps(rest: seq<uint8>)
    ensures DecodeListAsWritten([0xFF, 0xFF, 0xFF, 0xFF] + rest) == Ok((rest, Term.List([])))
  {
    LargestCount(rest);
    assert (0xFFFF_FFFF + 1) % 0x1_0000_0000 == 0;
    assert CastLen(0) == Ok(0);
  }

  lemma ListCountNotWrapped(rest: seq<uint8>)
    requires |rest| < 0x1_0000_0000
    ensures DecodeList([0xFF, 0xFF, 0xFF, 0xFF] + rest).Err?
  {
    LargestCount(rest);
    assert CastLen(0x1_0000_0000) == Ok(0x1_0000_0000);
    ElementsConsume(rest, 0x1_0000_0000);
  }

  /** Four 0xFF bytes: the largest 32-bit count. */
  lemma LargestCount(rest: seq<uint8>)
    ensures BeU32([0xFF, 0xFF, 0xFF, 0xFF] + rest) == Ok((rest, 0xFFFF_FFFF))
  {
    var input := [0xFF, 0xFF, 0xFF, 0xFF] + rest;
    assert input[..4] == [0xFF, 0xFF, 0xFF, 0xFF] && input[4..] == rest;
    BigEndian4(input[..4]);
  }
}
