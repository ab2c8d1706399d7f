/**
 * Conversions from the C structures the `ei` library fills in when it
 * receives a message (`src/c.rs`): the fixed-size atom buffer, `erlang_pid`
 * and `erlang_msg`. A C `char` is modelled as its byte.
 */
module CInterop {
  import opened Types
  import Ei
  import Utf8
  import Atoms
  import Nodes
  import Pids

  /** `CAtom`: a zero-terminated atom buffer of `MAXATOMLEN_UTF8` chars. */
  type CAtom = s: seq<uint8> | |s| == Ei.MAXATOMLEN_UTF8 witness Zeros(Ei.MAXATOMLEN_UTF8)

  function Zeros(n: nat): (s: seq<uint8>)
    ensures |s| == n && forall i :: 0 <= i < n ==> s[i] == 0
  {
    if n == 0 then [] else [0] + Zeros(n - 1)
  }

  /** A C `long` on the 64-bit targets the crate is built for. */
  type CLong = x: int | -0x8000_0000_0000_0000 <= x < 0x8000_0000_0000_0000

  /** The fields of `erlang_pid` the conversion reads (`c_uint` is 32 bits). */
  datatype CPid = CPid(node: CAtom, num: uint32, serial: uint32, creation: uint32)

  /** The fields of `erlang_msg` the conversion reads. */
  datatype CMsg = CMsg(msgtype: CLong, from: CPid, to: CPid, toname: CAtom)

  /** The text of a zero-terminated buffer: everything before its first zero (what `CStr::from_ptr` sees). */
  function CText(buffer: seq<uint8>): (text: seq<uint8>)
    requires 0 in buffer
    ensures 0 !in text && text + [0] <= buffer
  {
    var n := NulPosition(buffer).value;
    assert buffer[..n + 1] == buffer[..n] + [0];
    buffer[..n]
  }

  /**
   * `Atom::from_c`: a buffer with no zero is a runaway atom; otherwise its C
   * text goes through `str::to_str` (UTF-8) and `Atom::new`.
   */
  function AtomFromC(cAtom: CAtom): (r: Result<Atom>)
    ensures 0 !in cAtom <==> r == Err(RunawayAtom(cAtom))
    ensures 0 in cAtom ==> (r.Ok? <==> Utf8.Valid(CText(cAtom)) && Utf8.CharCount(CText(cAtom)) <= Atoms.MAX_ATOM_CHARS)
    ensures 0 in cAtom && !Utf8.Valid(CText(cAtom)) ==> r.Err? && r.error.Utf8?
    ensures 0 in cAtom && Utf8.Valid(CText(cAtom)) && r.Err? ==>
      r.error == AtomLengthOutOfRange(CText(cAtom), Utf8.CharCount(CText(cAtom)))
    ensures r.Ok? ==> r.value.text == CText(cAtom) && Atoms.ValidAtom(r.value)
  {
    if 0 !in cAtom then Err(RunawayAtom(cAtom))
    else Atoms.AtomFromBytes(CText(cAtom))
  }

  /** An atom written into a C buffer: its text, then zeros to the end. */
  function AtomToC(a: Atom): (cAtom: CAtom)
    requires Atoms.ValidAtom(a)
    ensures a.text + [0] <= cAtom
  {
    Atoms.AtomFitsCBuffer(a);
    a.text + Zeros(Ei.MAXATOMLEN_UTF8 - |a.text|)
  }

  /** Every valid atom without a zero byte survives the trip through a C buffer. */
  lemma AtomCRoundTrip(a: Atom)
    requires Atoms.ValidAtom(a) && 0 !in a.text
    ensures AtomFromC(AtomToC(a)) == Ok(a)
  {
    var cAtom := AtomToC(a);
    FirstZero(a.text, cAtom);
    assert CText(cAtom) == cAtom[..|a.text|] == a.text;
  }

  /** A zero-free text followed by a zero: the first zero of the buffer is right after the text. */
  lemma {:induction false} FirstZero(text: seq<uint8>, buffer: seq<uint8>)
    requires 0 !in text && text + [0] <= buffer
    ensures NulPosition(buffer) == Some(|text|)
  {
    if text != [] {
      assert buffer[0] == text[0];
      assert text[1..] + [0] <= buffer[1..];
      FirstZero(text[1..], buffer[1..]);
    }
  }

  /** A pid whose parts the conversions accept: a valid, zero-free node-name atom and in-range numbers. */
  predicate WellFormedPid(pid: Pid) {
    && Atoms.ValidAtom(pid.node.name) && 0 !in pid.node.name.text
    && pid.node.serialNumber <= Nodes.SERIAL_NUMBER_MAX
    && pid.id <= Pids.ID_MAX
    && pid.serial <= Pids.SERIAL_MAX
  }

  /**
   * `Pid::from_c`: the node atom, then `Node::new` with the creation, then
   * `Pid::new`; the first failure is the one returned.
   */
  function PidFromC(cPid: CPid): (r: Result<Pid>)
    ensures AtomFromC(cPid.node).Err? ==> r == Err(AtomFromC(cPid.node).error)
    ensures AtomFromC(cPid.node).Ok? && cPid.creation > Nodes.SERIAL_NUMBER_MAX ==>
      r == Err(NodeSerialNumberOutOfRange(AtomFromC(cPid.node).value, cPid.creation))
    ensures AtomFromC(cPid.node).Ok? && cPid.creation <= Nodes.SERIAL_NUMBER_MAX
            && (cPid.num > Pids.ID_MAX || cPid.serial > Pids.SERIAL_MAX) ==>
      r == Err(PidOutOfRange(Node.Node(AtomFromC(cPid.node).value, cPid.creation as uint8), cPid.num, cPid.serial))
    ensures r.Ok? ==>
      && WellFormedPid(r.value)
      && r.value.node.name == AtomFromC(cPid.node).value
      && r.value.node.serialNumber == cPid.creation
      && r.value.id == cPid.num && r.value.serial == cPid.serial
  {
    var nodeName :- AtomFromC(cPid.node);
    var node :- Nodes.NewNode(nodeName, cPid.creation);
    Pids.NewPid(node, cPid.num, cPid.serial)
  }

  /** A pid as `ei` would hand it over. */
  function PidToC(pid: Pid): (cPid: CPid)
    requires WellFormedPid(pid)
  {
    CPid(AtomToC(pid.node.name), pid.id, pid.serial, pid.node.serialNumber)
  }

  lemma PidCRoundTrip(pid: Pid)
    requires WellFormedPid(pid)
    ensures PidFromC(PidToC(pid)) == Ok(pid)
  {
    AtomCRoundTrip(pid.node.name);
  }

  /** The message codes `ControlMessage::from_c` recognises but leaves `unimplemented!()`. */
  predicate UnsupportedCode(code: int) {
    code == Ei.ERL_LINK || code == Ei.ERL_EXIT || code == Ei.ERL_UNLINK || code == Ei.ERL_NODE_LINK
    || code == Ei.ERL_GROUP_LEADER || code == Ei.ERL_EXIT2
  }

  /**
   * `ControlMessage::from_c`: `ERL_SEND` and `ERL_REG_SEND` give a send and
   * a registered send with no trace token, converting `from` before the
   * destination; the six other known codes are unsupported; any other code
   * is unknown.
   */
  function ControlMessageFromC(message: CMsg): (r: Result<ControlMessage>)
    ensures message.msgtype == Ei.ERL_SEND ==>
      && (r.Ok? <==> PidFromC(message.from).Ok? && PidFromC(message.to).Ok?)
      && (PidFromC(message.from).Err? ==> r == Err(PidFromC(message.from).error))
      && (PidFromC(message.from).Ok? && PidFromC(message.to).Err? ==> r == Err(PidFromC(message.to).error))
      && (r.Ok? ==> r.value == ControlMessage.Send(PidFromC(message.from).value, PidFromC(message.to).value, None))
    ensures message.msgtype == Ei.ERL_REG_SEND ==>
      && (r.Ok? <==> PidFromC(message.from).Ok? && AtomFromC(message.toname).Ok?)
      && (PidFromC(message.from).Err? ==> r == Err(PidFromC(message.from).error))
      && (PidFromC(message.from).Ok? && AtomFromC(message.toname).Err? ==> r == Err(AtomFromC(message.toname).error))
      && (r.Ok? ==> r.value == ControlMessage.RegisteredSend(PidFromC(message.from).value,
                                                            AtomFromC(message.toname).value, None))
    ensures UnsupportedCode(message.msgtype) ==> r.Err? && r.error.Unimplemented?
    ensures !(1 <= message.msgtype <= 8) <==> r == Err(UnknownMessageType(message.msgtype))
  {
    var code := message.msgtype;
    if code == Ei.ERL_LINK then Err(Unimplemented("ERL_LINK"))
    else if code == Ei.ERL_SEND then
      var from :- PidFromC(message.from);
      var to :- PidFromC(message.to);
      Ok(ControlMessage.Send(from, to, None))
    else if code == Ei.ERL_EXIT then Err(Unimplemented("ERL_EXIT"))
    else if code == Ei.ERL_UNLINK then Err(Unimplemented("ERL_UNLINK"))
    else if code == Ei.ERL_NODE_LINK then Err(Unimplemented("ERL_NODE_LINK"))
    else if code == Ei.ERL_REG_SEND then
      var from :- PidFromC(message.from);
      var to :- AtomFromC(message.toname);
      Ok(ControlMessage.RegisteredSend(from, to, None))
    else if code == Ei.ERL_GROUP_LEADER then Err(Unimplemented("ERL_GROUP_LEADER"))
    else if code == Ei.ERL_EXIT2 then Err(Unimplemented("ERL_EXIT2"))
    else Err(UnknownMessageType(code))
  }

  /** An all-zero atom buffer, for the fields a message type does not use. */
  const EmptyCAtom: CAtom := Zeros(Ei.MAXATOMLEN_UTF8)

  /** A zeroed `erlang_pid`: the `to` field of a registered send, which `ei` leaves unused. */
  const EmptyCPid: CPid := CPid(EmptyCAtom, 0, 0, 0)

  /** A send or registered send without a trace token, as `ei` would hand it over. */
  predicate Representable(control: ControlMessage) {
    match control
    case Send(from, to, traceToken) => traceToken.None? && WellFormedPid(from) && WellFormedPid(to)
    case RegisteredSend(from, toName, traceToken) => traceToken.None? && WellFormedPid(from) && Atoms.ValidAtom(toName) && 0 !in toName.text
    case _ => false
  }

  function ControlMessageToC(control: ControlMessage): (message: CMsg)
    requires Representable(control)
  {
    match control
    case Send(from, to, _) => CMsg(Ei.ERL_SEND, PidToC(from), PidToC(to), EmptyCAtom)
    case RegisteredSend(from, toName, _) => CMsg(Ei.ERL_REG_SEND, PidToC(from), EmptyCPid, AtomToC(toName))
  }

  /** Every send and registered send `ei` can describe is classified back to itself. */
  lemma ControlMessageCRoundTrip(control: ControlMessage)
    requires Representable(control)
    ensures ControlMessageFromC(ControlMessageToC(control)) == Ok(control)
  {
    match control
    case Send(from, to, _) =>
      PidCRoundTrip(from);
      PidCRoundTrip(to);
    case RegisteredSend(from, toName, _) =>
      PidCRoundTrip(from);
      AtomCRoundTrip(toName);
  }
}
