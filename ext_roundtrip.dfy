/**
 * An encoder for the terms the decoder of `src/ext.rs` produces, and the
 * round trip: decoding an encoded term gives the term back and leaves exactly
 * the bytes that followed it. The encoder is the reference the decoder is
 * checked against; the crate itself does not encode.
 */
module ExtRoundTrip {
  import opened Types
  import opened Read
  import Ei
  import Atoms
  import Nodes
  import Pids
  import opened Ext

  /** A node the decoder can build: a valid atom name and a serial number `Node::new` accepts. */
  predicate WellFormedNode(node: Node) {
    Atoms.ValidAtom(node.name) && node.serialNumber <= Nodes.SERIAL_NUMBER_MAX
  }

  /**
   * The terms the decoder can produce: atoms, nodes and pids within their
   * limits, lengths that fit their fields, and lists that hold at least
   * their tail.
   */
  predicate WellFormed(t: Term)
    decreases t
  {
    match t
    case Atom(a) => Atoms.ValidAtom(a)
    case Pid(pid) => WellFormedNode(pid.node) && pid.id <= Pids.ID_MAX && pid.serial <= Pids.SERIAL_MAX
    case Reference(reference) => WellFormedNode(reference.node)
    case Tuple(elements) => |elements| < 0x1_0000_0000 && AllWellFormed(elements)
    case List(elements) => 1 <= |elements| <= 0x1_0000_0000 && AllWellFormed(elements)
    case Binary(bytes) => |bytes| < 0x1_0000_0000
    case _ => true
  }

  predicate AllWellFormed(elements: seq<Term>)
    decreases elements
  {
    forall i :: 0 <= i < |elements| ==> WellFormed(elements[i])
  }

  /** An atom as `ATOM_UTF8_EXT`: a two-byte length and the UTF-8 bytes. */
  function EncodeAtom(a: Atom): (bytes: seq<uint8>)
    requires Atoms.ValidAtom(a)
    ensures |bytes| == 3 + |a.text|
  {
    Atoms.AtomFitsCBuffer(a);
    [Ei.ATOM_UTF8_EXT as uint8] + ToBigEndian(|a.text|, 2) + a.text
  }

  /**
   * The external format of a term: integers as `INTEGER_EXT`, floats as
   * `NEW_FLOAT_EXT`, pids as `PID_EXT`, tuples small when their arity fits a
   * byte, a list as its count (its elements less the tail) and every element.
   */
  function Encode(t: Term): (bytes: seq<uint8>)
    requires WellFormed(t)
    ensures |bytes| >= 1
    decreases t
  {
    match t
    case Nil => [Ei.NIL_EXT as uint8]
    case Integer(value) => [Ei.INTEGER_EXT as uint8] + ToBigEndian(if value < 0 then value + 0x1_0000_0000 else value, 4)
    case Float(bits) => [Ei.NEW_FLOAT_EXT as uint8] + ToBigEndian(bits, 8)
    case Atom(a) => EncodeAtom(a)
    case Pid(pid) =>
      [Ei.PID_EXT as uint8] + EncodeAtom(pid.node.name) + ToBigEndian(pid.id, 4) + ToBigEndian(pid.serial, 4)
      + [pid.node.serialNumber]
    case Reference(reference) =>
      [Ei.REFERENCE_EXT as uint8] + EncodeAtom(reference.node.name) + ToBigEndian(reference.id, 4)
      + [reference.node.serialNumber]
    case Tuple(elements) =>
      (if |elements| < 0x100 then [Ei.SMALL_TUPLE_EXT as uint8] + [|elements| as uint8]
       else [Ei.LARGE_TUPLE_EXT as uint8] + ToBigEndian(|elements|, 4))
      + EncodeAll(elements)
    case List(elements) => [Ei.LIST_EXT as uint8] + ToBigEndian(|elements| - 1, 4) + EncodeAll(elements)
    case Binary(bytes) => [Ei.BINARY_EXT as uint8] + ToBigEndian(|bytes|, 4) + bytes
  }

  /** The elements one after the other. */
  function EncodeAll(elements: seq<Term>): (bytes: seq<uint8>)
    requires AllWellFormed(elements)
    ensures |bytes| >= |elements|
    decreases elements
  {
    if elements == [] then []
    else Encode(elements[0]) + EncodeAll(elements[1..])
  }

  // ---------------------------------------------------------------------------
  // The round trip.

  /** Every well-formed term is decoded back from its encoding, leaving the bytes that followed. */
  lemma {:induction false} TermRoundTrip(t: Term, rest: seq<uint8>)
    requires WellFormed(t)
    ensures DecodeTerm(Encode(t) + rest) == Ok((rest, t))
    decreases t, 1
  {
    match t
    case Nil => TagPayload(Ei.NIL_EXT as uint8, rest);
    case Integer(value) => IntegerRoundTrip(value, rest);
    case Float(bits) => FloatRoundTrip(bits, rest);
    case Atom(a) => AtomRoundTrip(a, rest);
    case Pid(pid) => PidRoundTrip(pid, rest);
    case Reference(reference) => ReferenceRoundTrip(reference, rest);
    case Tuple(elements) =>
      ElementsRoundTrip(elements, rest);
      TupleRoundTrip(elements, rest);
    case List(elements) =>
      ElementsRoundTrip(elements, rest);
      ListRoundTrip(elements, rest);
    case Binary(bytes) => BinaryRoundTrip(bytes, rest);
  }

  lemma {:induction false} ElementsRoundTrip(elements: seq<Term>, rest: seq<uint8>)
    requires AllWellFormed(elements)
    ensures DecodeElements(EncodeAll(elements) + rest, |elements|) == Ok((rest, elements))
    decreases elements, 0
  {
    if elements != [] {
      var following := EncodeAll(elements[1..]) + rest;
      assert EncodeAll(elements) + rest == Encode(elements[0]) + following;
      TermRoundTrip(elements[0], following);
      ElementsRoundTrip(elements[1..], rest);
      assert DecodeTerm(EncodeAll(elements) + rest) == Ok((following, elements[0]));
      assert DecodeElements(following, |elements| - 1) == Ok((rest, elements[1..]));
      assert [elements[0]] + elements[1..] == elements;
    } else {
      assert EncodeAll(elements) + rest == rest;
    }
  }

  /** The decoder reads the tag byte and hands the rest to the payload reader. */
  lemma TagPayload(tag: uint8, payload: seq<uint8>)
    ensures DecodeTerm([tag] + payload) == DecodePayload(tag, payload)
  {
    assert ([tag] + payload)[1..] == payload;
  }

  /** Concatenation regrouped to the right, one step at a time. */
  lemma Assoc(a: seq<uint8>, b: seq<uint8>, c: seq<uint8>)
    ensures a + b + c == a + (b + c)
  {
  }

  lemma Regroup3(a: seq<uint8>, b: seq<uint8>, c: seq<uint8>, rest: seq<uint8>)
    ensures a + b + c + rest == a + (b + (c + rest))
  {
    Assoc(a + b, c, rest);
    Assoc(a, b, c + rest);
  }

  lemma IntegerRoundTrip(value: int32, rest: seq<uint8>)
    ensures DecodeTerm(Encode(Term.Integer(value)) + rest) == Ok((rest, Term.Integer(value)))
  {
    var bytes := ToBigEndian(if value < 0 then value + 0x1_0000_0000 else value, 4);
    assert Encode(Term.Integer(value)) + rest == [Ei.INTEGER_EXT as uint8] + (bytes + rest);
    TagPayload(Ei.INTEGER_EXT as uint8, bytes + rest);
    BeI32RoundTrip(value, rest);
  }

  lemma FloatRoundTrip(bits: uint64, rest: seq<uint8>)
    ensures DecodeTerm(Encode(Term.Float(bits)) + rest) == Ok((rest, Term.Float(bits)))
  {
    var bytes := ToBigEndian(bits, 8);
    assert Encode(Term.Float(bits)) + rest == [Ei.NEW_FLOAT_EXT as uint8] + (bytes + rest);
    TagPayload(Ei.NEW_FLOAT_EXT as uint8, bytes + rest);
    BeU64RoundTrip(bits, rest);
  }

  /** The payload of an atom: its length, its bytes, then what follows. */
  lemma AtomPayloadRoundTrip(a: Atom, rest: seq<uint8>)
    requires Atoms.ValidAtom(a)
    ensures |a.text| < 0x1_0000
    ensures ReadAtomUtf8(ToBigEndian(|a.text|, 2) + a.text + rest, AtomSizeFormat.Regular) == Ok((rest, Term.Atom(a)))
  {
    Atoms.AtomFitsCBuffer(a);
    var payload := ToBigEndian(|a.text|, 2) + a.text + rest;
    assert payload[..2] == ToBigEndian(|a.text|, 2);
    FromToBigEndian(|a.text|, 2);
    assert payload[2..2 + |a.text|] == a.text;
    assert payload[2 + |a.text|..] == rest;
  }

  lemma AtomRoundTrip(a: Atom, rest: seq<uint8>)
    requires Atoms.ValidAtom(a)
    ensures DecodeTerm(EncodeAtom(a) + rest) == Ok((rest, Term.Atom(a)))
  {
    AtomPayloadRoundTrip(a, rest);
    var size := ToBigEndian(|a.text|, 2);
    var payload := size + a.text + rest;
    Assoc([Ei.ATOM_UTF8_EXT as uint8] + size, a.text, rest);
    Assoc([Ei.ATOM_UTF8_EXT as uint8], size, a.text + rest);
    Assoc(size, a.text, rest);
    TagPayload(Ei.ATOM_UTF8_EXT as uint8, payload);
    assert DecodePayload(Ei.ATOM_UTF8_EXT as uint8, payload) == ReadAtomUtf8(payload, AtomSizeFormat.Regular);
  }

  /** A node name decodes from the atom's encoding. */
  lemma NodeNameRoundTrip(a: Atom, rest: seq<uint8>)
    requires Atoms.ValidAtom(a)
    ensures DecodeNodeName(EncodeAtom(a) + rest) == Ok((rest, a))
  {
    AtomRoundTrip(a, rest);
  }

  lemma PidRoundTrip(pid: Pid, rest: seq<uint8>)
    requires WellFormed(Term.Pid(pid))
    ensures DecodeTerm(Encode(Term.Pid(pid)) + rest) == Ok((rest, Term.Pid(pid)))
  {
    var payload := EncodeAtom(pid.node.name) + (ToBigEndian(pid.id, 4) + (ToBigEndian(pid.serial, 4) + ([pid.node.serialNumber] + rest)));
    PidShape(pid, rest);
    TagPayload(Ei.PID_EXT as uint8, payload);
    PidPayloadRoundTrip(pid, rest);
  }

  lemma PidShape(pid: Pid, rest: seq<uint8>)
    requires WellFormed(Term.Pid(pid))
    ensures Encode(Term.Pid(pid)) + rest
         == [Ei.PID_EXT as uint8]
            + (EncodeAtom(pid.node.name) + (ToBigEndian(pid.id, 4) + (ToBigEndian(pid.serial, 4) + ([pid.node.serialNumber] + rest))))
  {
    var tag, name, id, serial, creation :=
      [Ei.PID_EXT as uint8], EncodeAtom(pid.node.name), ToBigEndian(pid.id, 4), ToBigEndian(pid.serial, 4), [pid.node.serialNumber];
    PidBytes(pid);
    Assoc(tag + name + id + serial, creation, rest);
    Assoc(tag + name + id, serial, creation + rest);
    Assoc(tag + name, id, serial + (creation + rest));
    Assoc(tag, name, id + (serial + (creation + rest)));
  }

  lemma PidBytes(pid: Pid)
    requires WellFormed(Term.Pid(pid))
    ensures Encode(Term.Pid(pid))
         == [Ei.PID_EXT as uint8] + EncodeAtom(pid.node.name) + ToBigEndian(pid.id, 4) + ToBigEndian(pid.serial, 4)
            + [pid.node.serialNumber]
  {
  }

  lemma PidPayloadRoundTrip(pid: Pid, rest: seq<uint8>)
    requires WellFormed(Term.Pid(pid))
    ensures var payload := EncodeAtom(pid.node.name) + (ToBigEndian(pid.id, 4) + (ToBigEndian(pid.serial, 4) + ([pid.node.serialNumber] + rest)));
      DecodePid(payload, CreationFormat.Old) == Ok((rest, Term.Pid(pid)))
  {
    var creation := [pid.node.serialNumber] + rest;
    var serial := ToBigEndian(pid.serial, 4) + creation;
    var id := ToBigEndian(pid.id, 4) + serial;
    NodeNameRoundTrip(pid.node.name, id);
    BeU32RoundTrip(pid.id, serial);
    BeU32RoundTrip(pid.serial, creation);
    assert creation[1..] == rest;
  }

  /**
   * `NEW_PID_EXT`: the node atom, the id, the serial and a four-byte
   * creation. A creation above 3 is refused by `Node::new`, then an id or a
   * serial out of range by `Pid::new`; otherwise the pid is read back.
   */
  lemma NewPidTag(name: Atom, id: uint32, serial: uint32, creation: uint32, rest: seq<uint8>)
    requires Atoms.ValidAtom(name)
    ensures var r := DecodeTerm([Ei.NEW_PID_EXT as uint8]
                                + (EncodeAtom(name) + (ToBigEndian(id, 4) + (ToBigEndian(serial, 4) + (ToBigEndian(creation, 4) + rest)))));
      && (creation > Nodes.SERIAL_NUMBER_MAX ==> r == Err(NodeSerialNumberOutOfRange(name, creation)))
      && (creation <= Nodes.SERIAL_NUMBER_MAX && (id > Pids.ID_MAX || serial > Pids.SERIAL_MAX) ==>
            r == Err(PidOutOfRange(Node.Node(name, creation as uint8), id, serial)))
      && (creation <= Nodes.SERIAL_NUMBER_MAX && id <= Pids.ID_MAX && serial <= Pids.SERIAL_MAX ==>
            r == Ok((rest, Term.Pid(Pid.Pid(Node.Node(name, creation as uint8), id as uint16, serial as uint16)))))
  {
    var c := ToBigEndian(creation, 4) + rest;
    var s := ToBigEndian(serial, 4) + c;
    var i := ToBigEndian(id, 4) + s;
    TagPayload(Ei.NEW_PID_EXT as uint8, EncodeAtom(name) + i);
    NodeNameRoundTrip(name, i);
    BeU32RoundTrip(id, s);
    BeU32RoundTrip(serial, c);
    BeU32RoundTrip(creation, rest);
  }

  lemma ReferenceRoundTrip(reference: Reference, rest: seq<uint8>)
    requires WellFormed(Term.Reference(reference))
    ensures DecodeTerm(Encode(Term.Reference(reference)) + rest) == Ok((rest, Term.Reference(reference)))
  {
    var payload := EncodeAtom(reference.node.name) + (ToBigEndian(reference.id, 4) + ([reference.node.serialNumber] + rest));
    ReferenceShape(reference, rest);
    TagPayload(Ei.REFERENCE_EXT as uint8, payload);
    ReferencePayloadRoundTrip(reference, rest);
  }

  lemma ReferenceShape(reference: Reference, rest: seq<uint8>)
    requires WellFormed(Term.Reference(reference))
    ensures Encode(Term.Reference(reference)) + rest
         == [Ei.REFERENCE_EXT as uint8]
            + (EncodeAtom(reference.node.name) + (ToBigEndian(reference.id, 4) + ([reference.node.serialNumber] + rest)))
  {
    var tag, name, id, creation :=
      [Ei.REFERENCE_EXT as uint8], EncodeAtom(reference.node.name), ToBigEndian(reference.id, 4), [reference.node.serialNumber];
    ReferenceBytes(reference);
    Assoc(tag + name + id, creation, rest);
    Assoc(tag + name, id, creation + rest);
    Assoc(tag, name, id + (creation + rest));
  }

  lemma ReferenceBytes(reference: Reference)
    requires WellFormed(Term.Reference(reference))
    ensures Encode(Term.Reference(reference))
         == [Ei.REFERENCE_EXT as uint8] + EncodeAtom(reference.node.name) + ToBigEndian(reference.id, 4)
            + [reference.node.serialNumber]
  {
  }

  lemma ReferencePayloadRoundTrip(reference: Reference, rest: seq<uint8>)
    requires WellFormed(Term.Reference(reference))
    ensures var payload := EncodeAtom(reference.node.name) + (ToBigEndian(reference.id, 4) + ([reference.node.serialNumber] + rest));
      DecodeReference(payload) == Ok((rest, Term.Reference(reference)))
  {
    var creation := [reference.node.serialNumber] + rest;
    var id := ToBigEndian(reference.id, 4) + creation;
    NodeNameRoundTrip(reference.node.name, id);
    BeU32RoundTrip(reference.id, creation);
    assert creation[1..] == rest;
  }

  lemma TupleRoundTrip(elements: seq<Term>, rest: seq<uint8>)
    requires WellFormed(Term.Tuple(elements))
    requires DecodeElements(EncodeAll(elements) + rest, |elements|) == Ok((rest, elements))
    ensures DecodeTerm(Encode(Term.Tuple(elements)) + rest) == Ok((rest, Term.Tuple(elements)))
  {
    if |elements| < 0x100 {
      var size := [|elements| as uint8];
      assert FromBigEndian(size) == |elements|;
      TupleHeader(elements, Ei.SMALL_TUPLE_EXT as uint8, size, rest);
      ArityRoundTrip(TupleSizeFormat.Small, size, elements, rest);
      TagPayload(Ei.SMALL_TUPLE_EXT as uint8, size + EncodeAll(elements) + rest);
    } else {
      LargeTupleRoundTrip(elements, rest);
    }
  }

  lemma LargeTupleRoundTrip(elements: seq<Term>, rest: seq<uint8>)
    requires WellFormed(Term.Tuple(elements)) && |elements| >= 0x100
    requires DecodeElements(EncodeAll(elements) + rest, |elements|) == Ok((rest, elements))
    ensures DecodeTerm(Encode(Term.Tuple(elements)) + rest) == Ok((rest, Term.Tuple(elements)))
  {
    var size := ToBigEndian(|elements|, 4);
    FromToBigEndian(|elements|, 4);
    TupleHeader(elements, Ei.LARGE_TUPLE_EXT as uint8, size, rest);
    ArityRoundTrip(TupleSizeFormat.Large, size, elements, rest);
    TagPayload(Ei.LARGE_TUPLE_EXT as uint8, size + EncodeAll(elements) + rest);
    LargeTuplePayload(size + EncodeAll(elements) + rest);
  }

  lemma LargeTuplePayload(payload: seq<uint8>)
    ensures DecodePayload(Ei.LARGE_TUPLE_EXT as uint8, payload) == DecodeTuple(payload, TupleSizeFormat.Large)
  {
  }

  /** The encoding of a tuple: its tag and arity field, then the elements. */
  lemma TupleHeader(elements: seq<Term>, tag: uint8, size: seq<uint8>, rest: seq<uint8>)
    requires WellFormed(Term.Tuple(elements))
    requires |elements| < 0x100 ==> tag == Ei.SMALL_TUPLE_EXT as uint8 && size == [|elements| as uint8]
    requires |elements| >= 0x100 ==> tag == Ei.LARGE_TUPLE_EXT as uint8 && size == ToBigEndian(|elements|, 4)
    ensures Encode(Term.Tuple(elements)) + rest == [tag] + (size + EncodeAll(elements) + rest)
  {
    var body := EncodeAll(elements);
    if |elements| < 0x100 {
      SmallTupleBytes(elements);
    } else {
      LargeTupleBytes(elements);
    }
    Assoc([tag] + size, body, rest);
    Assoc([tag], size, body + rest);
    Assoc(size, body, rest);
  }

  lemma SmallTupleBytes(elements: seq<Term>)
    requires WellFormed(Term.Tuple(elements)) && |elements| < 0x100
    ensures Encode(Term.Tuple(elements)) == [Ei.SMALL_TUPLE_EXT as uint8] + [|elements| as uint8] + EncodeAll(elements)
  {
  }

  lemma LargeTupleBytes(elements: seq<Term>)
    requires WellFormed(Term.Tuple(elements)) && |elements| >= 0x100
    ensures Encode(Term.Tuple(elements)) == [Ei.LARGE_TUPLE_EXT as uint8] + ToBigEndian(|elements|, 4) + EncodeAll(elements)
  {
  }

  /** An arity field followed by that many encoded elements decodes to the tuple of them. */
  lemma ArityRoundTrip(sizeFormat: TupleSizeFormat, size: seq<uint8>, elements: seq<Term>, rest: seq<uint8>)
    requires AllWellFormed(elements)
    requires |size| == TupleSizeWidth(sizeFormat) && FromBigEndian(size) == |elements|
    requires DecodeElements(EncodeAll(elements) + rest, |elements|) == Ok((rest, elements))
    ensures DecodeTuple(size + EncodeAll(elements) + rest, sizeFormat) == Ok((rest, Term.Tuple(elements)))
  {
    var body := EncodeAll(elements) + rest;
    Assoc(size, EncodeAll(elements), rest);
    TupleSizeRoundTrip(sizeFormat, size, body);
  }

  /** The arity field, read in either format, gives its value and leaves the elements. */
  lemma TupleSizeRoundTrip(sizeFormat: TupleSizeFormat, size: seq<uint8>, body: seq<uint8>)
    requires |size| == TupleSizeWidth(sizeFormat)
    ensures ReadTupleSize(sizeFormat, size + body) == Ok((body, FromBigEndian(size)))
  {
    assert (size + body)[..|size|] == size && (size + body)[|size|..] == body;
  }

  lemma ListRoundTrip(elements: seq<Term>, rest: seq<uint8>)
    requires WellFormed(Term.List(elements))
    requires DecodeElements(EncodeAll(elements) + rest, |elements|) == Ok((rest, elements))
    ensures DecodeTerm(Encode(Term.List(elements)) + rest) == Ok((rest, Term.List(elements)))
  {
    var payload := ToBigEndian(|elements| - 1, 4) + (EncodeAll(elements) + rest);
    ListShape(elements, rest);
    TagPayload(Ei.LIST_EXT as uint8, payload);
    ListPayloadRoundTrip(elements, rest);
  }

  lemma ListShape(elements: seq<Term>, rest: seq<uint8>)
    requires WellFormed(Term.List(elements))
    ensures Encode(Term.List(elements)) + rest
         == [Ei.LIST_EXT as uint8] + (ToBigEndian(|elements| - 1, 4) + (EncodeAll(elements) + rest))
  {
    ListBytes(elements);
    Regroup3([Ei.LIST_EXT as uint8], ToBigEndian(|elements| - 1, 4), EncodeAll(elements), rest);
  }

  lemma ListBytes(elements: seq<Term>)
    requires WellFormed(Term.List(elements))
    ensures Encode(Term.List(elements)) == [Ei.LIST_EXT as uint8] + ToBigEndian(|elements| - 1, 4) + EncodeAll(elements)
  {
  }

  lemma ListPayloadRoundTrip(elements: seq<Term>, rest: seq<uint8>)
    requires WellFormed(Term.List(elements))
    requires DecodeElements(EncodeAll(elements) + rest, |elements|) == Ok((rest, elements))
    ensures DecodeList(ToBigEndian(|elements| - 1, 4) + (EncodeAll(elements) + rest)) == Ok((rest, Term.List(elements)))
  {
    BeU32RoundTrip(|elements| - 1, EncodeAll(elements) + rest);
  }

  lemma BinaryRoundTrip(bytes: seq<uint8>, rest: seq<uint8>)
    requires |bytes| < 0x1_0000_0000
    ensures DecodeTerm(Encode(Term.Binary(bytes)) + rest) == Ok((rest, Term.Binary(bytes)))
  {
    var size := ToBigEndian(|bytes|, 4);
    var payload := size + bytes + rest;
    Assoc([Ei.BINARY_EXT as uint8] + size, bytes, rest);
    Assoc([Ei.BINARY_EXT as uint8], size, bytes + rest);
    Assoc(size, bytes, rest);
    TagPayload(Ei.BINARY_EXT as uint8, payload);
    assert payload[..4] == size;
    FromToBigEndian(|bytes|, 4);
    assert payload[4..4 + |bytes|] == bytes && payload[4 + |bytes|..] == rest;
  }

  /** Decoding is injective on well-formed terms: different terms never share an encoding. */
  lemma EncodeInjective(a: Term, b: Term)
    requires WellFormed(a) && WellFormed(b)
    requires Encode(a) == Encode(b)
    ensures a == b
  {
    TermRoundTrip(a, []);
    TermRoundTrip(b, []);
  }
}
