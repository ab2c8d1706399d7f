/**
 * `Pid::new` and `Pid::id` (`src/pid.rs`): the wire reserves 32 bits for the
 * id and the serial, but only the low 15 and 13 bits are significant, and
 * larger values are refused rather than truncated.
 */
module Pids {
  import opened Types

  const ID_MAX: nat := 0x7FFF
  const SERIAL_MAX: nat := 0x1FFF

  function NewPid(node: Node, id: uint32, serial: uint32): (r: Result<Pid>)
    ensures r.Ok? <==> id <= ID_MAX && serial <= SERIAL_MAX
    ensures r.Ok? ==> r.value.node == node && r.value.id == id && r.value.serial == serial
    ensures r.Ok? ==> Id(r.value) == id
    ensures r.Err? ==> r.error == PidOutOfRange(node, id, serial)
  {
    if id <= ID_MAX && serial <= SERIAL_MAX then Ok(Pid.Pid(node, id, serial))
    else Err(PidOutOfRange(node, id, serial))
  }

  /** `Pid::id`: the 16-bit id widened to 32 bits. */
  function Id(pid: Pid): (id: uint32)
    ensures id < 0x1_0000
  {
    pid.id
  }

  /** The first id past the 15-bit range is refused whatever the serial. */
  lemma IdBoundary(node: Node)
    ensures NewPid(node, ID_MAX, 0).Ok?
    ensures NewPid(node, ID_MAX + 1, 0) == Err(PidOutOfRange(node, 0x8000, 0))
  {
  }
}
