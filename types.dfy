/**
 * The value types and the error taxonomy of the decoding core: the records of
 * `src/ty.rs` and the error kinds of `src/err.rs`, plus the fixed-width
 * integer ranges the Rust code relies on.
 */
module Types {
  type uint8 = x: int | 0 <= x < 0x100
  type uint16 = x: int | 0 <= x < 0x1_0000
  type uint32 = x: int | 0 <= x < 0x1_0000_0000
  type uint64 = x: int | 0 <= x < 0x1_0000_0000_0000_0000
  type int32 = x: int | -0x8000_0000 <= x < 0x8000_0000

  datatype Option<+T> = None | Some(value: T)

  /** Which kind of name a length or null-byte error is about. */
  datatype NameKind = Node | Alive | Host

  /** An atom: its text, kept as the UTF-8 bytes of a Rust `str`. */
  datatype Atom = Atom(text: seq<uint8>)

  /** A node identity; the serial (creation) number is a 2-bit value. */
  datatype Node = Node(name: Atom, serialNumber: uint8)

  datatype Reference = Reference(node: Node, id: uint32)

  /** A process identifier; `id` keeps 15 significant bits and `serial` 13. */
  datatype Pid = Pid(node: Node, id: uint16, serial: uint16)

  /**
   * A decoded term. `Nil`, `List` and `Binary` are the variants the decoder
   * builds even though the enum in `src/ty.rs` does not list them. A float is
   * kept as its IEEE 754 binary64 bit pattern, which is what the wire carries
   * (`src/read.rs` converts those bits numerically instead; see `Read.BeF64`).
   */
  datatype Term =
    | Nil
    | Integer(value: int32)
    | Float(bits: uint64)
    | Atom(atom: Atom)
    | Pid(pid: Pid)
    | Reference(reference: Reference)
    | Tuple(elements: seq<Term>)
    | List(elements: seq<Term>)
    | Binary(bytes: seq<uint8>)

  datatype TermKind = Nil | Integer | Float | Atom | Pid | Reference | Tuple | List | Binary

  datatype TraceToken = TraceToken(serial: int, previous: int, from: Pid, tokenLabel: int, flags: int)

  /**
   * The classified envelope of an inbound message. `RegisteredSend` names its
   * destination `toName` (as `erlang_msg.toname` does) because a Dafny
   * destructor shared by two constructors must have one type.
   */
  datatype ControlMessage =
    | Send(from: Pid, to: Pid, traceToken: Option<TraceToken>)
    | RegisteredSend(from: Pid, toName: Atom, traceToken: Option<TraceToken>)
    | Link(from: Pid, to: Pid)
    | Unlink(from: Pid, to: Pid)
    | Exit(from: Pid, to: Pid)

  /** A fully decoded inbound message: the envelope's fields plus the payload term. */
  datatype Message =
    | Send(from: Pid, to: Pid, traceToken: Option<TraceToken>, term: Term)
    | RegisteredSend(from: Pid, toName: Atom, traceToken: Option<TraceToken>, term: Term)

  datatype AtomCacheSegment = S0 | S1 | S2 | S3 | S4 | S5 | S6 | S7

  datatype AtomCacheKey = AtomCacheKey(segmentIndex: AtomCacheSegment, internalIndex: uint8)

  /**
   * The error kinds of the core. `Utf8` stands for `str::Utf8Error` and carries
   * its `valid_up_to` position; `LenOutOfRange` is raised by `cast_len`.
   * `Unimplemented` stands for a Rust `unimplemented!()` panic and
   * `IndexOutOfRange` for a slice-index panic: the model makes both explicit
   * outcomes instead of aborting.
   */
  datatype Error =
    | Utf8(validUpTo: nat)
    | UnsupportedProtocolVersion(version: uint8)
    | UnknownTermTag(tag: uint8)
    | NodeIsNotAnAtom(termKind: TermKind)
    | TruncatedTerm
    | UnknownMessageType(rawType: int)
    | NameLengthOutOfRange(name: seq<uint8>, nameKind: NameKind)
    | NameHasEmbeddedNullByte(name: seq<uint8>, nameKind: NameKind, position: nat)
    | AtomLengthOutOfRange(text: seq<uint8>, textLen: nat)
    | RunawayAtom(atom: seq<uint8>)
    | NodeSerialNumberOutOfRange(nodeName: Atom, serialNumber: uint32)
    | PidOutOfRange(node: Node, id: uint32, serial: uint32)
    | LenOutOfRange(value: nat)
    | Unimplemented(what: string)
    | IndexOutOfRange

  /** The crate's `Result`, usable with `:-` like Rust's `?`. */
  datatype Result<+T> = Ok(value: T) | Err(error: Error) {
    predicate IsFailure() { Err? }
    function PropagateFailure<U>(): Result<U> requires Err? { Err(error) }
    function Extract(): T requires Ok? { value }
  }

  /** A reader's result: the unread suffix of the input and the value read. */
  type IResult<T> = Result<(seq<uint8>, T)>

  /** `rest` is what is left of `input` after some prefix was consumed. */
  predicate IsSuffix(rest: seq<uint8>, input: seq<uint8>) {
    |rest| <= |input| && rest == input[|input| - |rest|..]
  }

  lemma DropIsSuffix(input: seq<uint8>, k: nat)
    requires k <= |input|
    ensures IsSuffix(input[k..], input)
  {
  }

  lemma SuffixOfSuffix(a: seq<uint8>, b: seq<uint8>, c: seq<uint8>)
    requires IsSuffix(a, b) && IsSuffix(b, c)
    ensures IsSuffix(a, c)
  {
    assert c[|c| - |a|..] == c[|c| - |b|..][|b| - |a|..];
  }

  /** The position of the first zero byte, if any (what `memchr(0, …)` finds). */
  function NulPosition(bytes: seq<uint8>): (p: Option<nat>)
    ensures p.None? <==> 0 !in bytes
    ensures p.Some? ==> p.value < |bytes| && bytes[p.value] == 0 && 0 !in bytes[..p.value]
  {
    if |bytes| == 0 then None
    else if bytes[0] == 0 then Some(0)
    else match NulPosition(bytes[1..])
      case None => None
      case Some(i) =>
        assert bytes[..i + 1] == [bytes[0]] + bytes[1..][..i];
        Some(i + 1)
  }
}
