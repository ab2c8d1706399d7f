/**
 * Truncated input: decoding a proper prefix of the encoding of a well-formed
 * term fails with `TruncatedTerm`. The fields before the cut decode as in the
 * round trip (with the cut remainder as what follows), and the field that
 * holds the cut finds too few bytes; no other error, and no panic, is
 * reached first.
 */
module ExtTruncation {
  import opened Types
  import opened Read
  import Ei
  import Atoms
  import opened Ext
  import opened ExtRoundTrip

  /** Cutting a concatenation at or past the end of its first part keeps that part whole. */
  lemma CutAfter(a: seq<uint8>, b: seq<uint8>, j: nat)
    requires |a| <= j <= |a| + |b|
    ensures (a + b)[..j] == a + b[..j - |a|]
  {
    assert forall i :: 0 <= i < j ==> (a + b)[..j][i] == (a + b[..j - |a|])[i];
  }

  /** Cutting a concatenation inside its first part keeps only that part's prefix. */
  lemma CutBefore(a: seq<uint8>, b: seq<uint8>, j: nat)
    requires j <= |a|
    ensures (a + b)[..j] == a[..j]
  {
  }

  /** A cut term encoding is its tag followed by a cut payload. */
  lemma CutTag(tag: uint8, payload: seq<uint8>, k: nat)
    requires 1 <= k <= 1 + |payload|
    ensures DecodeTerm(([tag] + payload)[..k]) == DecodePayload(tag, payload[..k - 1])
  {
    CutAfter([tag], payload, k);
    TagPayload(tag, payload[..k - 1]);
  }

  // ---------------------------------------------------------------------------
  // The terms without nested terms.

  /** A cut integer: fewer than four value bytes follow the tag. */
  lemma IntegerTruncated(value: int32, k: nat)
    requires k < |Encode(Term.Integer(value))|
    ensures DecodeTerm(Encode(Term.Integer(value))[..k]) == Err(TruncatedTerm)
  {
    if k > 0 {
      CutTag(Ei.INTEGER_EXT as uint8, ToBigEndian(if value < 0 then value + 0x1_0000_0000 else value, 4), k);
    }
  }

  /** A cut float: fewer than eight bit-pattern bytes follow the tag. */
  lemma FloatTruncated(bits: uint64, k: nat)
    requires k < |Encode(Term.Float(bits))|
    ensures DecodeTerm(Encode(Term.Float(bits))[..k]) == Err(TruncatedTerm)
  {
    if k > 0 {
      CutTag(Ei.NEW_FLOAT_EXT as uint8, ToBigEndian(bits, 8), k);
    }
  }

  /** A cut atom: the length field or the text is incomplete. */
  lemma AtomTruncated(a: Atom, k: nat)
    requires Atoms.ValidAtom(a) && k < |EncodeAtom(a)|
    ensures DecodeTerm(EncodeAtom(a)[..k]) == Err(TruncatedTerm)
  {
    if k > 0 {
      AtomPayloadRoundTrip(a, []);
      assert Pow256(2) == 0x1_0000;
      var size := ToBigEndian(|a.text|, 2);
      var payload := size + a.text;
      Assoc([Ei.ATOM_UTF8_EXT as uint8], size, a.text);
      CutTag(Ei.ATOM_UTF8_EXT as uint8, payload, k);
      if k - 1 >= 2 {
        CutAfter(size, a.text, k - 1);
        assert payload[..k - 1][..2] == size;
        Atoms.AtomFitsCBuffer(a);
        FromToBigEndian(|a.text|, 2);
      }
    }
  }

  /** A cut binary: the length field or the bytes are incomplete. */
  lemma BinaryTruncated(bytes: seq<uint8>, k: nat)
    requires |bytes| < 0x1_0000_0000 && k < |Encode(Term.Binary(bytes))|
    ensures DecodeTerm(Encode(Term.Binary(bytes))[..k]) == Err(TruncatedTerm)
  {
    if k > 0 {
      var size := ToBigEndian(|bytes|, 4);
      var payload := size + bytes;
      Assoc([Ei.BINARY_EXT as uint8], size, bytes);
      CutTag(Ei.BINARY_EXT as uint8, payload, k);
      if k - 1 >= 4 {
        CutAfter(size, bytes, k - 1);
        assert payload[..k - 1][..4] == size;
        FromToBigEndian(|bytes|, 4);
      }
    }
  }

  // ---------------------------------------------------------------------------
  // Pids and references: a node atom, then fixed-width fields.

  /** A node name cut inside its atom is truncated. */
  lemma NodeNameTruncated(a: Atom, j: nat)
    requires Atoms.ValidAtom(a) && j < |EncodeAtom(a)|
    ensures DecodeNodeName(EncodeAtom(a)[..j]) == Err(TruncatedTerm)
  {
    AtomTruncated(a, j);
  }

  /** A pid payload cut inside its node atom or its id, serial and creation fields. */
  lemma PidPayloadTruncated(pid: Pid, j: nat)
    requires WellFormed(Term.Pid(pid))
    requires j < |EncodeAtom(pid.node.name)| + 9
    ensures var fields := ToBigEndian(pid.id, 4) + (ToBigEndian(pid.serial, 4) + [pid.node.serialNumber]);
      DecodePid((EncodeAtom(pid.node.name) + fields)[..j], CreationFormat.Old) == Err(TruncatedTerm)
  {
    var name := EncodeAtom(pid.node.name);
    var fields := ToBigEndian(pid.id, 4) + (ToBigEndian(pid.serial, 4) + [pid.node.serialNumber]);
    if j < |name| {
      CutBefore(name, fields, j);
      NodeNameTruncated(pid.node.name, j);
    } else {
      CutAfter(name, fields, j);
      NodeNameRoundTrip(pid.node.name, fields[..j - |name|]);
    }
  }

  /** A cut `PID_EXT` encoding. */
  lemma PidTruncated(pid: Pid, k: nat)
    requires WellFormed(Term.Pid(pid)) && k < |Encode(Term.Pid(pid))|
    ensures DecodeTerm(Encode(Term.Pid(pid))[..k]) == Err(TruncatedTerm)
  {
    var payload := EncodeAtom(pid.node.name) + (ToBigEndian(pid.id, 4) + (ToBigEndian(pid.serial, 4) + [pid.node.serialNumber]));
    PidLayout(pid);
    if k > 0 {
      PidPayloadTruncated(pid, k - 1);
      CutTag(Ei.PID_EXT as uint8, payload, k);
      PidDispatch(payload[..k - 1]);
    }
  }

  /** A reference payload cut inside its node atom or its id and creation fields. */
  lemma ReferencePayloadTruncated(reference: Reference, j: nat)
    requires WellFormed(Term.Reference(reference))
    requires j < |EncodeAtom(reference.node.name)| + 5
    ensures var fields := ToBigEndian(reference.id, 4) + [reference.node.serialNumber];
      DecodeReference((EncodeAtom(reference.node.name) + fields)[..j]) == Err(TruncatedTerm)
  {
    var name := EncodeAtom(reference.node.name);
    var fields := ToBigEndian(reference.id, 4) + [reference.node.serialNumber];
    if j < |name| {
      CutBefore(name, fields, j);
      NodeNameTruncated(reference.node.name, j);
    } else {
      CutAfter(name, fields, j);
      NodeNameRoundTrip(reference.node.name, fields[..j - |name|]);
    }
  }

  /** A cut `REFERENCE_EXT` encoding. */
  lemma ReferenceTruncated(reference: Reference, k: nat)
    requires WellFormed(Term.Reference(reference)) && k < |Encode(Term.Reference(reference))|
    ensures DecodeTerm(Encode(Term.Reference(reference))[..k]) == Err(TruncatedTerm)
  {
    if k > 0 {
      var name := EncodeAtom(reference.node.name);
      var fields := ToBigEndian(reference.id, 4) + [reference.node.serialNumber];
      ReferenceLayout(reference);
      CutTag(Ei.REFERENCE_EXT as uint8, name + fields, k);
      ReferenceDispatch((name + fields)[..k - 1]);
      ReferencePayloadTruncated(reference, k - 1);
    }
  }

  // ---------------------------------------------------------------------------
  // Tuples and lists: a count field, then the elements, one of which holds the cut.

  /** The tag and arity field a tuple is encoded with: small when the arity fits a byte. */
  function TupleTag(elements: seq<Term>): uint8 {
    if |elements| < 0x100 then Ei.SMALL_TUPLE_EXT as uint8 else Ei.LARGE_TUPLE_EXT as uint8
  }

  function TupleFormat(elements: seq<Term>): TupleSizeFormat {
    if |elements| < 0x100 then TupleSizeFormat.Small else TupleSizeFormat.Large
  }

  function TupleArity(elements: seq<Term>): (size: seq<uint8>)
    requires |elements| < 0x1_0000_0000
    ensures |size| == TupleSizeWidth(TupleFormat(elements)) && FromBigEndian(size) == |elements|
  {
    if |elements| < 0x100 then
      assert FromBigEndian([|elements| as uint8]) == |elements|;
      [|elements| as uint8]
    else
      FromToBigEndian(|elements|, 4);
      ToBigEndian(|elements|, 4)
  }

  /** A tuple's encoding: its tag, then the arity field and the elements. */
  lemma TupleLayout(elements: seq<Term>)
    requires WellFormed(Term.Tuple(elements))
    ensures Encode(Term.Tuple(elements)) == [TupleTag(elements)] + (TupleArity(elements) + EncodeAll(elements))
  {
    TupleHeader(elements, TupleTag(elements), TupleArity(elements), []);
    assert Encode(Term.Tuple(elements)) + [] == Encode(Term.Tuple(elements));
    assert TupleArity(elements) + EncodeAll(elements) + [] == TupleArity(elements) + EncodeAll(elements);
  }

  /** A cut tuple payload: the arity field is incomplete, or the elements are. */
  lemma TuplePayloadTruncated(format: TupleSizeFormat, size: seq<uint8>, elements: seq<Term>, j: nat)
    requires AllWellFormed(elements)
    requires |size| == TupleSizeWidth(format) && FromBigEndian(size) == |elements|
    requires j >= |size| ==> j - |size| <= |EncodeAll(elements)|
    requires j >= |size| ==> DecodeElements(EncodeAll(elements)[..j - |size|], |elements|) == Err(TruncatedTerm)
    ensures DecodeTuple((size + EncodeAll(elements))[..j], format) == Err(TruncatedTerm)
  {
    if j >= |size| {
      CutAfter(size, EncodeAll(elements), j);
      TupleSizeRoundTrip(format, size, EncodeAll(elements)[..j - |size|]);
    }
  }

  /** A cut tuple, given that cut elements are truncated. */
  lemma TupleTruncated(elements: seq<Term>, k: nat)
    requires WellFormed(Term.Tuple(elements)) && k < |Encode(Term.Tuple(elements))|
    requires var w := TupleSizeWidth(TupleFormat(elements));
      k > w ==> DecodeElements(EncodeAll(elements)[..k - 1 - w], |elements|) == Err(TruncatedTerm)
    ensures DecodeTerm(Encode(Term.Tuple(elements))[..k]) == Err(TruncatedTerm)
  {
    if k > 0 {
      var size, body := TupleArity(elements), EncodeAll(elements);
      TupleLayout(elements);
      CutTag(TupleTag(elements), size + body, k);
      assert DecodePayload(TupleTag(elements), (size + body)[..k - 1]) == DecodeTuple((size + body)[..k - 1], TupleFormat(elements));
      TuplePayloadTruncated(TupleFormat(elements), size, elements, k - 1);
    }
  }

  /** A cut list: the count field is incomplete, or the elements are, given that cut elements are truncated. */
  lemma ListTruncated(elements: seq<Term>, k: nat)
    requires WellFormed(Term.List(elements)) && k < |Encode(Term.List(elements))|
    requires k >= 5 ==> DecodeElements(EncodeAll(elements)[..k - 5], |elements|) == Err(TruncatedTerm)
    ensures DecodeTerm(Encode(Term.List(elements))[..k]) == Err(TruncatedTerm)
  {
    var payload := ToBigEndian(|elements| - 1, 4) + EncodeAll(elements);
    ListLayout(elements);
    if k > 0 {
      ListPayloadTruncated(elements, k - 1);
      CutTag(Ei.LIST_EXT as uint8, payload, k);
      ListDispatch(payload[..k - 1]);
    }
  }

  /** A list payload cut short: either the count or the elements are missing bytes. */
  lemma ListPayloadTruncated(elements: seq<Term>, j: nat)
    requires WellFormed(Term.List(elements)) && j < 4 + |EncodeAll(elements)|
    requires j >= 4 ==> DecodeElements(EncodeAll(elements)[..j - 4], |elements|) == Err(TruncatedTerm)
    ensures DecodeList((ToBigEndian(|elements| - 1, 4) + EncodeAll(elements))[..j]) == Err(TruncatedTerm)
  {
    var body := EncodeAll(elements);
    var count := ToBigEndian(|elements| - 1, 4);
    if j >= 4 {
      CutAfter(count, body, j);
      BeU32RoundTrip(|elements| - 1, body[..j - 4]);
      assert CastLen(|elements| - 1 + 1) == Ok(|elements|);
    } else {
      CutBefore(count, body, j);
    }
  }

  /** `LIST_EXT` is read by the list reader. */
  lemma ListDispatch(payload: seq<uint8>)
    ensures DecodePayload(Ei.LIST_EXT as uint8, payload) == DecodeList(payload)
  {
  }

  /** `PID_EXT` is read by the pid reader with a one-byte creation. */
  lemma PidDispatch(payload: seq<uint8>)
    ensures DecodePayload(Ei.PID_EXT as uint8, payload) == DecodePid(payload, CreationFormat.Old)
  {
  }

  /** `REFERENCE_EXT` is read by the reference reader. */
  lemma ReferenceDispatch(payload: seq<uint8>)
    ensures DecodePayload(Ei.REFERENCE_EXT as uint8, payload) == DecodeReference(payload)
  {
  }

  /** A pid's encoding: its tag, then the node atom and the fixed-width fields. */
  lemma PidLayout(pid: Pid)
    requires WellFormed(Term.Pid(pid))
    ensures Encode(Term.Pid(pid))
         == [Ei.PID_EXT as uint8]
            + (EncodeAtom(pid.node.name) + (ToBigEndian(pid.id, 4) + (ToBigEndian(pid.serial, 4) + [pid.node.serialNumber])))
  {
    PidShape(pid, []);
    assert [pid.node.serialNumber] + [] == [pid.node.serialNumber];
    assert Encode(Term.Pid(pid)) + [] == Encode(Term.Pid(pid));
  }

  /** A reference's encoding: its tag, then the node atom and the fixed-width fields. */
  lemma ReferenceLayout(reference: Reference)
    requires WellFormed(Term.Reference(reference))
    ensures Encode(Term.Reference(reference))
         == [Ei.REFERENCE_EXT as uint8] + (EncodeAtom(reference.node.name) + (ToBigEndian(reference.id, 4) + [reference.node.serialNumber]))
  {
    ReferenceShape(reference, []);
    assert [reference.node.serialNumber] + [] == [reference.node.serialNumber];
    assert Encode(Term.Reference(reference)) + [] == Encode(Term.Reference(reference));
  }

  /** A list's encoding: its tag, then the count and the elements. */
  lemma ListLayout(elements: seq<Term>)
    requires WellFormed(Term.List(elements))
    ensures Encode(Term.List(elements)) == [Ei.LIST_EXT as uint8] + (ToBigEndian(|elements| - 1, 4) + EncodeAll(elements))
  {
    ListShape(elements, []);
    assert Encode(Term.List(elements)) + [] == Encode(Term.List(elements));
    assert EncodeAll(elements) + [] == EncodeAll(elements);
  }

  // ---------------------------------------------------------------------------
  // The property.

  /**
   * Decoding any proper prefix of a well-formed term's encoding (one or more
   * trailing bytes removed) fails with `TruncatedTerm`.
   */
  lemma {:induction false} TruncatedPrefix(t: Term, k: nat)
    requires WellFormed(t) && k < |Encode(t)|
    ensures DecodeTerm(Encode(t)[..k]) == Err(TruncatedTerm)
    decreases t, 1
  {
    match t
    case Nil =>
      assert Encode(t)[..k] == [];
    case Integer(value) => IntegerTruncated(value, k);
    case Float(bits) => FloatTruncated(bits, k);
    case Atom(a) => AtomTruncated(a, k);
    case Pid(pid) => PidTruncated(pid, k);
    case Reference(reference) => ReferenceTruncated(reference, k);
    case Tuple(elements) =>
      var w := TupleSizeWidth(TupleFormat(elements));
      if k > w {
        TupleWidth(elements);
        TruncatedElements(elements, k - 1 - w);
      }
      TupleTruncated(elements, k);
    case List(elements) =>
      if k >= 5 {
        ListWidth(elements);
        TruncatedElements(elements, k - 5);
      }
      ListTruncated(elements, k);
    case Binary(bytes) => BinaryTruncated(bytes, k);
  }

  /**
   * Decoding the elements from any proper prefix of their encoding fails with
   * `TruncatedTerm`: the elements before the cut decode, and the one that
   * holds the cut is truncated.
   */
  lemma {:induction false} TruncatedElements(elements: seq<Term>, k: nat)
    requires AllWellFormed(elements) && k < |EncodeAll(elements)|
    ensures DecodeElements(EncodeAll(elements)[..k], |elements|) == Err(TruncatedTerm)
    decreases elements, 0
  {
    var first := Encode(elements[0]);
    var others := EncodeAll(elements[1..]);
    assert EncodeAll(elements) == first + others;
    if k < |first| {
      CutBefore(first, others, k);
      TruncatedPrefix(elements[0], k);
    } else {
      CutAfter(first, others, k);
      TruncatedElements(elements[1..], k - |first|);
      FirstElementWhole(elements, others[..k - |first|]);
    }
  }

  /** With the first element whole, the elements fail as the ones after it do. */
  lemma FirstElementWhole(elements: seq<Term>, tail: seq<uint8>)
    requires AllWellFormed(elements) && elements != []
    requires DecodeElements(tail, |elements| - 1).Err?
    ensures DecodeElements(Encode(elements[0]) + tail, |elements|) == DecodeElements(tail, |elements| - 1)
  {
    TermRoundTrip(elements[0], tail);
  }

  /** The encoding of a tuple is its tag, its arity field and its elements. */
  lemma TupleWidth(elements: seq<Term>)
    requires WellFormed(Term.Tuple(elements))
    ensures |Encode(Term.Tuple(elements))| == 1 + TupleSizeWidth(TupleFormat(elements)) + |EncodeAll(elements)|
  {
    TupleLayout(elements);
  }

  /** The encoding of a list is its tag, its four-byte count and its elements. */
  lemma ListWidth(elements: seq<Term>)
    requires WellFormed(Term.List(elements))
    ensures |Encode(Term.List(elements))| == 5 + |EncodeAll(elements)|
  {
  }
}
