/** `Node::new` (`src/node.rs`): the serial (creation) number has 2 significant bits. */
module Nodes {
  import opened Types

  const SERIAL_NUMBER_MAX: nat := 3

  function NewNode(name: Atom, serialNumber: uint32): (r: Result<Node>)
    ensures r.Ok? <==> serialNumber <= SERIAL_NUMBER_MAX
    ensures r.Ok? ==> r.value.name == name && r.value.serialNumber == serialNumber < 4
    ensures r.Err? ==> r.error == NodeSerialNumberOutOfRange(name, serialNumber)
  {
    if serialNumber <= SERIAL_NUMBER_MAX then Ok(Node.Node(name, serialNumber))
    else Err(NodeSerialNumberOutOfRange(name, serialNumber))
  }
}
