/**
 * Constants of the Erlang/OTP `ei` interface (`ei.h`) that the decoding core
 * uses: the External Term Format tags, the distribution-header and version
 * bytes, the control-message type codes and the atom length limits.
 */
module Ei {
  // Term tags (ERTS User's Guide, chapter "External Term Format").
  const NEW_FLOAT_EXT: int := 70
  const ATOM_CACHE_REF: int := 82
  const NEW_PID_EXT: int := 88
  const SMALL_INTEGER_EXT: int := 97
  const INTEGER_EXT: int := 98
  const FLOAT_EXT: int := 99
  const REFERENCE_EXT: int := 101
  const PID_EXT: int := 103
  const SMALL_TUPLE_EXT: int := 104
  const LARGE_TUPLE_EXT: int := 105
  const NIL_EXT: int := 106
  const STRING_EXT: int := 107
  const LIST_EXT: int := 108
  const BINARY_EXT: int := 109
  const SMALL_BIG_EXT: int := 110
  const LARGE_BIG_EXT: int := 111
  const ATOM_UTF8_EXT: int := 118
  const SMALL_ATOM_UTF8_EXT: int := 119

  // Framing bytes ("Distribution Header" section of the same chapter).
  const DIST_HEADER: int := 68
  const VERSION_MAGIC: int := 131

  // Control-message type codes of `erlang_msg.msgtype`.
  const ERL_LINK: int := 1
  const ERL_SEND: int := 2
  const ERL_EXIT: int := 3
  const ERL_UNLINK: int := 4
  const ERL_NODE_LINK: int := 5
  const ERL_REG_SEND: int := 6
  const ERL_GROUP_LEADER: int := 7
  const ERL_EXIT2: int := 8

  /** Size of an atom buffer counted in characters, terminator included: `(255 + 1)` in `ei.h`. */
  const MAXATOMLEN: nat := 255 + 1
  /** Size of the fixed, zero-terminated atom buffers of `erlang_pid` and `erlang_msg`. */
  const MAXATOMLEN_UTF8: nat := 255 * 4 + 1
}
