/**
 * What `CNode::receive` does with a message once `ei_xreceive_msg` has
 * filled the buffer and the `erlang_msg` (`src/c_node.rs`): the distribution
 * header feeds the connection's atom cache, the C envelope is classified, and
 * the payload term completes the message. The socket, the receive call and
 * the tick loop around it are not modelled.
 */
module Connection {
  import opened Types
  import Ei
  import Ext
  import Atoms
  import Protocol
  import CInterop
  import Messages

  /** The message a received buffer and envelope give, in the order the source decodes them. */
  function Received(buffer: seq<uint8>, cMessage: CInterop.CMsg): (r: Result<Message>)
    ensures Protocol.DistributionHeader(buffer).result.Err? ==> r == Err(Protocol.DistributionHeader(buffer).result.error)
    ensures Protocol.DistributionHeader(buffer).result.Ok? && CInterop.ControlMessageFromC(cMessage).Err? ==>
      r == Err(CInterop.ControlMessageFromC(cMessage).error)
    ensures r.Ok? ==> Messages.ControlOf(r.value) == CInterop.ControlMessageFromC(cMessage).value
    ensures Protocol.DistributionHeader(buffer).result.Ok? && CInterop.ControlMessageFromC(cMessage).Ok? ==>
      var payload := Protocol.DistributionHeader(buffer).result.value.0;
      && (Messages.Unsupported(CInterop.ControlMessageFromC(cMessage).value) ==> r.Err? && r.error.Unimplemented?)
      && (!Messages.Unsupported(CInterop.ControlMessageFromC(cMessage).value) ==>
            && (r.Ok? <==> Ext.DecodeTerm(payload).Ok?)
            && (r.Ok? ==> r.value.term == Ext.DecodeTerm(payload).value.1)
            && (Ext.DecodeTerm(payload).Err? ==> r == Err(Ext.DecodeTerm(payload).error)))
  {
    var (input, _) :- Protocol.DistributionHeader(buffer).result;
    var control :- CInterop.ControlMessageFromC(cMessage);
    var (_, message) :- Messages.ReadMessage(control, input);
    Ok(message)
  }

  /** A buffer with no distribution header carries the payload term from its first byte. */
  lemma NoHeaderPayload(buffer: seq<uint8>, cMessage: CInterop.CMsg)
    requires |buffer| >= 1 && buffer[0] != Ei.DIST_HEADER
    requires CInterop.ControlMessageFromC(cMessage).Ok?
    requires CInterop.ControlMessageFromC(cMessage).value.Send?
    ensures Ext.DecodeTerm(buffer).Ok? ==>
      Received(buffer, cMessage).Ok? && Received(buffer, cMessage).value.term == Ext.DecodeTerm(buffer).value.1
    ensures Ext.DecodeTerm(buffer).Err? ==> Received(buffer, cMessage) == Err(Ext.DecodeTerm(buffer).error)
  {
  }

  /**
   * The receive path: the header is decoded into the connection's cache
   * first, so its bindings stay even when the envelope or the payload is
   * then rejected.
   */
  method Receive(buffer: seq<uint8>, cMessage: CInterop.CMsg, atomCache: Atoms.AtomCache) returns (r: Result<Message>)
    modifies atomCache
    ensures r == Received(buffer, cMessage)
    ensures atomCache.entries == Protocol.Apply(old(atomCache.entries), Protocol.DistributionHeader(buffer).inserts)
  {
    var header :- Protocol.ReadDistributionHeader(buffer, atomCache);
    var control :- CInterop.ControlMessageFromC(cMessage);
    var completed :- Messages.ReadMessage(control, header.0);
    r := Ok(completed.1);
  }
}
