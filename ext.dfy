/**
 * The recursive-descent decoder of the External Term Format (`src/ext.rs`),
 * following the ERTS User's Guide, chapter "External Term Format", for the
 * tags the source implements.
 *
 * The `Decode*` functions are the decoder's meaning. The source's
 * `read_term`, `read_node_name`, `read_pid`, `read_reference`, `read_tuple`,
 * `read_list` and `read_string` are the `Read*` methods below: they fill
 * their element sequences in loops, as the source does, and each is proved
 * to return exactly what its `Decode*` function gives. The readers without
 * recursion or loops are plain functions used by both.
 */
module Ext {
  import opened Types
  import opened Read
  import Ei
  import Atoms
  import Nodes
  import Pids
  import Terms

  /** The largest `usize` on the 64-bit targets the crate is built for. */
  const USIZE_MAX: nat := 0xFFFF_FFFF_FFFF_FFFF

  datatype CreationFormat = Old | New

  /** The width of the creation field: one byte for `PID_EXT`, four for `NEW_PID_EXT`. */
  function CreationWidth(format: CreationFormat): nat {
    if format.Old? then 1 else 4
  }

  /** `CreationFormat::read`: one byte for `PID_EXT`, four big-endian bytes for `NEW_PID_EXT`. */
  function ReadCreation(format: CreationFormat, input: seq<uint8>): (r: IResult<uint32>)
    ensures r.Ok? <==> |input| >= CreationWidth(format)
    ensures r.Ok? ==> (r.value.0 == input[CreationWidth(format)..]
                    && r.value.1 == FromBigEndian(input[..CreationWidth(format)]))
    ensures r.Err? ==> r.error == TruncatedTerm
  {
    match format
    case Old =>
      var (input, creation) :- BeU8(input);
      assert FromBigEndian(input[..0]) == 0;
      Ok((input, creation as uint32))
    case New => BeU32(input)
  }

  datatype AtomSizeFormat = Small | Regular

  /** `AtomSizeFormat::read`: a one-byte length for small atoms, a two-byte one otherwise. */
  function ReadAtomSize(format: AtomSizeFormat, input: seq<uint8>): (r: IResult<nat>)
    ensures r.Ok? <==> |input| >= AtomSizeWidth(format)
    ensures r.Ok? ==> (r.value.0 == input[AtomSizeWidth(format)..]
                    && r.value.1 == FromBigEndian(input[..AtomSizeWidth(format)]))
    ensures r.Err? ==> r.error == TruncatedTerm
  {
    match format
    case Small =>
      var (input, size) :- BeU8(input);
      assert FromBigEndian(input[..0]) == 0;
      Ok((input, size))
    case Regular =>
      var (input, size) :- BeU16(input);
      Ok((input, size))
  }

  function AtomSizeWidth(format: AtomSizeFormat): nat {
    if format.Small? then 1 else 2
  }

  datatype TupleSizeFormat = Small | Large

  /** `TupleSizeFormat::read`: a one-byte arity for small tuples, a four-byte one for large. */
  function ReadTupleSize(format: TupleSizeFormat, input: seq<uint8>): (r: IResult<nat>)
    ensures r.Ok? <==> |input| >= TupleSizeWidth(format)
    ensures r.Ok? ==> (r.value.0 == input[TupleSizeWidth(format)..]
                    && r.value.1 == FromBigEndian(input[..TupleSizeWidth(format)]))
    ensures r.Err? ==> r.error == TruncatedTerm
  {
    match format
    case Small =>
      var (input, size) :- BeU8(input);
      assert FromBigEndian(input[..0]) == 0;
      Ok((input, size))
    case Large =>
      var (input, size) :- BeU32(input);
      Ok((input, size))
  }

  function TupleSizeWidth(format: TupleSizeFormat): nat {
    if format.Small? then 1 else 4
  }

  /** `cast_len`: a length converted to `usize`, which fails only above `USIZE_MAX`. */
  function CastLen(value: nat): (r: Result<nat>)
    ensures r.Ok? <==> value <= USIZE_MAX
    ensures r.Ok? ==> r.value == value
    ensures r.Err? ==> r.error == LenOutOfRange(value)
  {
    if value <= USIZE_MAX then Ok(value) else Err(LenOutOfRange(value))
  }

  function ReadSmallInteger(input: seq<uint8>): (r: IResult<Term>)
    ensures r.Ok? <==> |input| >= 1
    ensures r.Ok? ==> r.value == (input[1..], Term.Integer(input[0])) && 0 <= r.value.1.value < 256
    ensures r.Err? ==> r.error == TruncatedTerm
  {
    var (input, value) :- BeU8(input);
    Ok((input, Term.Integer(value)))
  }

  function ReadInteger(input: seq<uint8>): (r: IResult<Term>)
    ensures r.Ok? <==> |input| >= 4
    ensures r.Ok? ==> r.value == (input[4..], Term.Integer(AsInt32(FromBigEndian(input[..4]))))
    ensures r.Err? ==> r.error == TruncatedTerm
  {
    var (input, value) :- BeI32(input);
    Ok((input, Term.Integer(value)))
  }

  /**
   * `NEW_FLOAT_EXT`: the eight bytes of an IEEE 754 double, kept as their bit
   * pattern, with both the payload length and the float reading corrected.
   */
  function ReadNewFloat(input: seq<uint8>): (r: IResult<Term>)
    ensures r.Ok? <==> |input| >= 8
    ensures r.Ok? ==> r.value == (input[8..], Term.Float(FromBigEndian(input[..8])))
    ensures r.Err? ==> r.error == TruncatedTerm
  {
    var (input, value) :- BeF64(input);
    Ok((input, Term.Float(value)))
  }

  /**
   * `read_new_float` as written: after the eight value bytes it also skips 31
   * more, the size of the legacy `FLOAT_EXT` payload, and the slice
   * `&input[31..]` panics when fewer remain. Only the skip is modelled as
   * written here; the float is the bit pattern, as in `ReadNewFloat`.
   */
  function ReadNewFloatAsWritten(input: seq<uint8>): (r: IResult<Term>)
    ensures |input| < 8 ==> r == Err(TruncatedTerm)
    ensures 8 <= |input| < 39 ==> r == Err(IndexOutOfRange)
    ensures |input| >= 39 ==> r == Ok((input[39..], Term.Float(FromBigEndian(input[..8]))))
  {
    var (input, value) :- BeF64(input);
    if |input| < 31 then Err(IndexOutOfRange) else Ok((input[31..], Term.Float(value)))
  }

  /** `read_atom_utf8`: a length, that many bytes, then `str::from_utf8` and `Atom::new`. */
  function ReadAtomUtf8(input: seq<uint8>, sizeFormat: AtomSizeFormat): (r: IResult<Term>)
    ensures var w := AtomSizeWidth(sizeFormat);
      && (|input| < w ==> r == Err(TruncatedTerm))
      && (|input| >= w ==>
            var n := FromBigEndian(input[..w]);
            && (|input| < w + n ==> r == Err(TruncatedTerm))
            && (|input| >= w + n ==>
                  var atom := Atoms.AtomFromBytes(input[w..w + n]);
                  && (atom.Ok? ==> r == Ok((input[w + n..], Term.Atom(atom.value))))
                  && (atom.Err? ==> r == Err(atom.error))))
  {
    var (rest, size) :- ReadAtomSize(sizeFormat, input);
    var (rest', atomBytes) :- Take(rest, size);
    assert atomBytes == input[AtomSizeWidth(sizeFormat)..AtomSizeWidth(sizeFormat) + size];
    var atom :- Atoms.AtomFromBytes(atomBytes);
    Ok((rest', Terms.FromAtom(atom)))
  }

  /** `read_binary`: a four-byte length, then exactly that many bytes, copied. */
  function ReadBinary(input: seq<uint8>): (r: IResult<Term>)
    ensures |input| < 4 ==> r == Err(TruncatedTerm)
    ensures |input| >= 4 ==>
      var n := FromBigEndian(input[..4]);
      && (|input| < 4 + n ==> r == Err(TruncatedTerm))
      && (|input| >= 4 + n ==> r == Ok((input[4 + n..], Term.Binary(input[4..4 + n]))))
  {
    var (rest, len) :- BeU32(input);
    match CastLen(len)
    case Err(e) => Err(e)
    case Ok(len) =>
      var (rest', bytes) :- Take(rest, len);
      assert bytes == input[4..4 + len];
      Ok((rest', Term.Binary(bytes)))
  }

  /** The list elements of a `STRING_EXT`: one small integer per byte. */
  function StringElements(bytes: seq<uint8>): (elements: seq<Term>)
    ensures |elements| == |bytes|
    ensures forall i :: 0 <= i < |bytes| ==> elements[i] == Term.Integer(bytes[i])
  {
    seq(|bytes|, i requires 0 <= i < |bytes| => Term.Integer(bytes[i]))
  }

  // ---------------------------------------------------------------------------
  // The decoder's meaning. Termination is on the length of the input: every
  // successful `DecodeTerm` consumes at least its tag byte, and each element
  // of a tuple or list is decoded from what the previous one left.

  /** `read_term`: one tag byte, then the payload that tag announces. */
  function DecodeTerm(input: seq<uint8>): (r: IResult<Term>)
    ensures r.Ok? ==> |r.value.0| < |input|
    decreases |input|, 0
  {
    var (rest, tag) :- BeU8(input);
    DecodePayload(tag, rest)
  }

  /** The `match` of `read_term`: the payload of a term with tag `tag`. */
  function DecodePayload(tag: uint8, input: seq<uint8>): (r: IResult<Term>)
    ensures r.Ok? ==> |r.value.0| <= |input|
    decreases |input|, 3
  {
    if tag == Ei.ATOM_CACHE_REF then Err(Unimplemented("ATOM_CACHE_REF"))
    else if tag == Ei.NIL_EXT then Ok((input, Term.Nil))
    else if tag == Ei.SMALL_INTEGER_EXT then ReadSmallInteger(input)
    else if tag == Ei.INTEGER_EXT then ReadInteger(input)
    else if tag == Ei.SMALL_BIG_EXT then Err(Unimplemented("SMALL_BIG_EXT"))
    else if tag == Ei.LARGE_BIG_EXT then Err(Unimplemented("LARGE_BIG_EXT"))
    else if tag == Ei.REFERENCE_EXT then DecodeReference(input)
    else if tag == Ei.FLOAT_EXT then Err(Unimplemented("FLOAT_EXT"))
    else if tag == Ei.NEW_FLOAT_EXT then ReadNewFloat(input)
    else if tag == Ei.ATOM_UTF8_EXT then ReadAtomUtf8(input, AtomSizeFormat.Regular)
    else if tag == Ei.SMALL_ATOM_UTF8_EXT then ReadAtomUtf8(input, AtomSizeFormat.Small)
    else if tag == Ei.PID_EXT then DecodePid(input, CreationFormat.Old)
    else if tag == Ei.NEW_PID_EXT then DecodePid(input, CreationFormat.New)
    else if tag == Ei.SMALL_TUPLE_EXT then DecodeTuple(input, TupleSizeFormat.Small)
    else if tag == Ei.LARGE_TUPLE_EXT then DecodeTuple(input, TupleSizeFormat.Large)
    else if tag == Ei.LIST_EXT then DecodeList(input)
    else if tag == Ei.STRING_EXT then DecodeString(input)
    else if tag == Ei.BINARY_EXT then ReadBinary(input)
    else Err(UnknownTermTag(tag))
  }

  /** `read_node_name`: a nested term that must be an atom. */
  function DecodeNodeName(input: seq<uint8>): (r: IResult<Atom>)
    ensures r.Ok? ==> |r.value.0| < |input|
    decreases |input|, 1
  {
    var (rest, term) :- DecodeTerm(input);
    if term.Atom? then Ok((rest, term.atom)) else Err(NodeIsNotAnAtom(Terms.Kind(term)))
  }

  /** `read_pid`: node name, 4-byte id, 4-byte serial, creation; then `Node::new` and `Pid::new`. */
  function DecodePid(input: seq<uint8>, creationFormat: CreationFormat): (r: IResult<Term>)
    ensures r.Ok? ==> |r.value.0| < |input|
    decreases |input|, 2
  {
    var (input1, nodeName) :- DecodeNodeName(input);
    var (input2, id) :- BeU32(input1);
    var (input3, serial) :- BeU32(input2);
    var (input4, nodeSerialNumber) :- ReadCreation(creationFormat, input3);
    var node :- Nodes.NewNode(nodeName, nodeSerialNumber);
    var pid :- Pids.NewPid(node, id, serial);
    Ok((input4, Terms.FromPid(pid)))
  }

  /** `read_reference`: node name, 4-byte id, 1-byte creation; then `Node::new`. */
  function DecodeReference(input: seq<uint8>): (r: IResult<Term>)
    ensures r.Ok? ==> |r.value.0| < |input|
    decreases |input|, 2
  {
    var (input1, nodeName) :- DecodeNodeName(input);
    var (input2, id) :- BeU32(input1);
    var (input3, serialNumber) :- BeU8(input2);
    var node :- Nodes.NewNode(nodeName, serialNumber);
    Ok((input3, Terms.FromReference(Reference.Reference(node, id))))
  }

  /** `n` terms decoded one after the other, each from what the previous one left. */
  function DecodeElements(input: seq<uint8>, n: nat): (r: IResult<seq<Term>>)
    ensures r.Ok? ==> |r.value.1| == n && |r.value.0| <= |input|
    ensures r.Ok? && n > 0 ==> |r.value.0| < |input|
    decreases |input|, 1
  {
    if n == 0 then Ok((input, []))
    else
      var (rest, element) :- DecodeTerm(input);
      var (rest', elements) :- DecodeElements(rest, n - 1);
      Ok((rest', [element] + elements))
  }

  /** `read_tuple`: an arity, then that many elements. */
  function DecodeTuple(input: seq<uint8>, sizeFormat: TupleSizeFormat): (r: IResult<Term>)
    ensures r.Ok? ==> |r.value.0| < |input|
    decreases |input|, 2
  {
    var (rest, len) :- ReadTupleSize(sizeFormat, input);
    var (rest', elements) :- DecodeElements(rest, len);
    Ok((rest', Terms.FromTuple(elements)))
  }

  /**
   * `read_list`: a four-byte count N, then N elements and the tail. The count
   * plus one is computed without the 32-bit wrap-around of the source.
   */
  function DecodeList(input: seq<uint8>): (r: IResult<Term>)
    ensures r.Ok? ==> |r.value.0| < |input|
    decreases |input|, 2
  {
    var (rest, len) :- BeU32(input);
    match CastLen(len + 1)
    case Err(e) => Err(e)
    case Ok(lenWithTail) =>
      var (rest', elements) :- DecodeElements(rest, lenWithTail);
      Ok((rest', Term.List(elements)))
  }

  /** `read_list` as written: `len + 1` in 32-bit arithmetic, which wraps to 0 in a release build. */
  function DecodeListAsWritten(input: seq<uint8>): (r: IResult<Term>)
    ensures r.Ok? ==> |r.value.0| <= |input|
  {
    var (rest, len) :- BeU32(input);
    match CastLen((len + 1) % 0x1_0000_0000)
    case Err(e) => Err(e)
    case Ok(lenWithTail) =>
      var (rest', elements) :- DecodeElements(rest, lenWithTail);
      Ok((rest', Term.List(elements)))
  }

  /** `read_string`: a two-byte length, then that many bytes, each one a small integer of the list. */
  function DecodeString(input: seq<uint8>): (r: IResult<Term>)
    ensures r.Ok? ==> |r.value.0| < |input|
  {
    var (rest, len) :- BeU16(input);
    var (rest', bytes) :- Take(rest, len);
    Ok((rest', Term.List(StringElements(bytes))))
  }

  // ---------------------------------------------------------------------------
  // The source's readers, with their loops.

  /** Puts `prefix` in front of the elements of a successful result. */
  function Prepend(prefix: seq<Term>, r: IResult<seq<Term>>): IResult<seq<Term>> {
    match r
    case Ok((rest, elements)) => Ok((rest, prefix + elements))
    case Err(e) => Err(e)
  }

  lemma PrependNothing(r: IResult<seq<Term>>)
    ensures Prepend([], r) == r
  {
    if r.Ok? {
      assert [] + r.value.1 == r.value.1;
    }
  }

  lemma PrependTwice(a: seq<Term>, b: seq<Term>, r: IResult<seq<Term>>)
    ensures Prepend(a, Prepend(b, r)) == Prepend(a + b, r)
  {
    if r.Ok? {
      assert a + (b + r.value.1) == (a + b) + r.value.1;
    }
  }

  /** One step of `DecodeElements`: the first term, then the others from what it left. */
  lemma ElementsStep(input: seq<uint8>, n: nat)
    requires n > 0
    ensures DecodeTerm(input).Err? ==> DecodeElements(input, n) == Err(DecodeTerm(input).error)
    ensures DecodeTerm(input).Ok? ==>
      DecodeElements(input, n)
      == Prepend([DecodeTerm(input).value.1], DecodeElements(DecodeTerm(input).value.0, n - 1))
  {
  }

  /** The loop of `ReadElements` after it has read `elements` and left `rest`, reading one more term. */
  lemma ElementsAdvance(target: IResult<seq<Term>>, elements: seq<Term>, rest: seq<uint8>,
                        remaining: nat, next: IResult<Term>)
    requires remaining > 0
    requires target == Prepend(elements, DecodeElements(rest, remaining))
    requires next == DecodeTerm(rest)
    ensures next.Err? ==> target == Err(next.error)
    ensures next.Ok? ==>
      target == Prepend(elements + [next.value.1], DecodeElements(next.value.0, remaining - 1))
  {
    ElementsStep(rest, remaining);
    if next.Ok? {
      PrependTwice(elements, [next.value.1], DecodeElements(next.value.0, remaining - 1));
    }
  }

  method ReadTerm(input: seq<uint8>, atomCache: Atoms.AtomCache) returns (r: IResult<Term>)
    ensures r == DecodeTerm(input)
    decreases |input|, 0
  {
    var head :- BeU8(input);
    var (rest, tag) := head;
    if tag == Ei.ATOM_CACHE_REF {
      r := Err(Unimplemented("ATOM_CACHE_REF"));
    } else if tag == Ei.NIL_EXT {
      r := Ok((rest, Term.Nil));
    } else if tag == Ei.SMALL_INTEGER_EXT {
      r := ReadSmallInteger(rest);
    } else if tag == Ei.INTEGER_EXT {
      r := ReadInteger(rest);
    } else if tag == Ei.SMALL_BIG_EXT {
      r := Err(Unimplemented("SMALL_BIG_EXT"));
    } else if tag == Ei.LARGE_BIG_EXT {
      r := Err(Unimplemented("LARGE_BIG_EXT"));
    } else if tag == Ei.REFERENCE_EXT {
      r := ReadReference(rest, atomCache);
    } else if tag == Ei.FLOAT_EXT {
      r := Err(Unimplemented("FLOAT_EXT"));
    } else if tag == Ei.NEW_FLOAT_EXT {
      r := ReadNewFloat(rest);
    } else if tag == Ei.ATOM_UTF8_EXT {
      r := ReadAtomUtf8(rest, AtomSizeFormat.Regular);
    } else if tag == Ei.SMALL_ATOM_UTF8_EXT {
      r := ReadAtomUtf8(rest, AtomSizeFormat.Small);
    } else if tag == Ei.PID_EXT {
      r := ReadPid(rest, CreationFormat.Old, atomCache);
    } else if tag == Ei.NEW_PID_EXT {
      r := ReadPid(rest, CreationFormat.New, atomCache);
    } else if tag == Ei.SMALL_TUPLE_EXT {
      r := ReadTuple(rest, TupleSizeFormat.Small, atomCache);
    } else if tag == Ei.LARGE_TUPLE_EXT {
      r := ReadTuple(rest, TupleSizeFormat.Large, atomCache);
    } else if tag == Ei.LIST_EXT {
      r := ReadList(rest, atomCache);
    } else if tag == Ei.STRING_EXT {
      r := ReadString(rest);
    } else if tag == Ei.BINARY_EXT {
      r := ReadBinary(rest);
    } else {
      r := Err(UnknownTermTag(tag));
    }
  }

  method ReadNodeName(input: seq<uint8>, atomCache: Atoms.AtomCache) returns (r: IResult<Atom>)
    ensures r == DecodeNodeName(input)
    decreases |input|, 1
  {
    var named :- ReadTerm(input, atomCache);
    var (rest, term) := named;
    if term.Atom? {
      r := Ok((rest, term.atom));
    } else {
      r := Err(NodeIsNotAnAtom(Terms.Kind(term)));
    }
  }

  method ReadPid(input: seq<uint8>, creationFormat: CreationFormat, atomCache: Atoms.AtomCache)
    returns (r: IResult<Term>)
    ensures r == DecodePid(input, creationFormat)
    decreases |input|, 2
  {
    var name :- ReadNodeName(input, atomCache);
    var id :- BeU32(name.0);
    var serial :- BeU32(id.0);
    var creation :- ReadCreation(creationFormat, serial.0);
    var node :- Nodes.NewNode(name.1, creation.1);
    var pid :- Pids.NewPid(node, id.1, serial.1);
    r := Ok((creation.0, Terms.FromPid(pid)));
  }

  method ReadReference(input: seq<uint8>, atomCache: Atoms.AtomCache) returns (r: IResult<Term>)
    ensures r == DecodeReference(input)
    decreases |input|, 2
  {
    var name :- ReadNodeName(input, atomCache);
    var id :- BeU32(name.0);
    var serialNumber :- BeU8(id.0);
    var node :- Nodes.NewNode(name.1, serialNumber.1);
    r := Ok((serialNumber.0, Terms.FromReference(Reference.Reference(node, id.1))));
  }

  /** The `try_fold` loop shared by `read_tuple` and `read_list`: `len` terms pushed in order. */
  method ReadElements(input: seq<uint8>, len: nat, atomCache: Atoms.AtomCache)
    returns (r: IResult<seq<Term>>)
    ensures r == DecodeElements(input, len)
    decreases |input|, 1
  {
    ghost var target := DecodeElements(input, len);
    var elements: seq<Term> := [];
    var rest := input;
    var remaining := len;
    PrependNothing(target);
    while remaining > 0
      invariant |rest| <= |input|
      invariant target == Prepend(elements, DecodeElements(rest, remaining))
    {
      var next := ReadTerm(rest, atomCache);
      ElementsAdvance(target, elements, rest, remaining, next);
      if next.Err? {
        return Err(next.error);
      }
      elements, rest, remaining := elements + [next.value.1], next.value.0, remaining - 1;
    }
    assert elements + [] == elements;
    r := Ok((rest, elements));
  }

  method ReadTuple(input: seq<uint8>, sizeFormat: TupleSizeFormat, atomCache: Atoms.AtomCache)
    returns (r: IResult<Term>)
    ensures r == DecodeTuple(input, sizeFormat)
    decreases |input|, 2
  {
    var size :- ReadTupleSize(sizeFormat, input);
    var elements :- ReadElements(size.0, size.1, atomCache);
    r := Ok((elements.0, Terms.FromTuple(elements.1)));
  }

  method ReadList(input: seq<uint8>, atomCache: Atoms.AtomCache) returns (r: IResult<Term>)
    ensures r == DecodeList(input)
    decreases |input|, 2
  {
    var len :- BeU32(input);
    match CastLen(len.1 as nat + 1) {
      case Err(e) =>
        r := Err(e);
      case Ok(lenWithTail) =>
        var elements :- ReadElements(len.0, lenWithTail, atomCache);
        r := Ok((elements.0, Term.List(elements.1)));
    }
  }

  method ReadString(input: seq<uint8>) returns (r: IResult<Term>)
    ensures r == DecodeString(input)
  {
    var len :- BeU16(input);
    var taken :- Take(len.0, len.1);
    var (rest, bytes) := taken;
    var elements: seq<Term> := [];
    for i := 0 to |bytes|
      invariant |elements| == i
      invariant forall j :: 0 <= j < i ==> elements[j] == Term.Integer(bytes[j])
    {
      elements := elements + [Term.Integer(bytes[i])];
    }
    assert elements == StringElements(bytes);
    r := Ok((rest, Term.List(elements)));
  }
}
