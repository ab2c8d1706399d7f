/**
 * Completing a classified control message with its payload term
 * (`ControlMessage::read_message`, `src/message.rs`).
 */
module Messages {
  import opened Types
  import Ext

  /** The envelope a message was completed from: the message without its term. */
  function ControlOf(message: Message): (control: ControlMessage)
    ensures control.Send? || control.RegisteredSend?
    ensures control.Send? <==> message.Send?
  {
    match message
    case Send(from, to, traceToken, _) => ControlMessage.Send(from, to, traceToken)
    case RegisteredSend(from, toName, traceToken, _) => ControlMessage.RegisteredSend(from, toName, traceToken)
  }

  /** The control messages whose completion the source leaves `unimplemented!()`. */
  predicate Unsupported(control: ControlMessage) {
    control.Link? || control.Unlink? || control.Exit?
  }

  /**
   * `read_message`: a send or registered send decodes exactly one term from
   * the payload and keeps every field of the envelope; the remainder is the
   * term decoder's. A decoding error is returned as it is. The atom cache the
   * source passes along is never consulted by the term decoder, so it is not
   * a parameter here.
   */
  function ReadMessage(control: ControlMessage, input: seq<uint8>): (r: IResult<Message>)
    ensures r.Ok? <==> !Unsupported(control) && Ext.DecodeTerm(input).Ok?
    ensures r.Ok? ==> ControlOf(r.value.1) == control
    ensures r.Ok? ==> (r.value.0, r.value.1.term) == Ext.DecodeTerm(input).value
    ensures !Unsupported(control) && Ext.DecodeTerm(input).Err? ==> r == Err(Ext.DecodeTerm(input).error)
    ensures Unsupported(control) ==> r.Err? && r.error.Unimplemented?
  {
    match control
    case Send(from, to, traceToken) =>
      var (input, term) :- Ext.DecodeTerm(input);
      Ok((input, Message.Send(from, to, traceToken, term)))
    case RegisteredSend(from, toName, traceToken) =>
      var (input, term) :- Ext.DecodeTerm(input);
      Ok((input, Message.RegisteredSend(from, toName, traceToken, term)))
    case Link(_, _) => Err(Unimplemented("ControlMessage::Link"))
    case Unlink(_, _) => Err(Unimplemented("ControlMessage::Unlink"))
    case Exit(_, _) => Err(Unimplemented("ControlMessage::Exit"))
  }

  /** A message is recovered from its envelope and any payload that decodes to its term. */
  lemma ReadMessageRecovers(message: Message, input: seq<uint8>)
    requires Ext.DecodeTerm(input).Ok? && Ext.DecodeTerm(input).value.1 == message.term
    ensures ReadMessage(ControlOf(message), input) == Ok((Ext.DecodeTerm(input).value.0, message))
  {
  }
}
