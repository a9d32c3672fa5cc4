/** The protocol's messages, field by field as protocol/proto/api.proto declares them. */
module Messages {
  import opened Words

  const CFGADD: int32 := 1
  const CFGREM: int32 := 2

  /** A log entry. `etype` ranges over every `int`, because a proto3 enumeration is open. */
  datatype Entry = Entry(
    etype: int32, term: uint32, nodeId: uint32, port: uint32, host: seq<byte>, writeIt: uint32)

  datatype AppendQ = AppendQ(
    term: uint32, prevIndex: uint32, prevTerm: uint32, leaderCommit: uint32, entries: seq<Entry>)

  datatype AppendR = AppendR(term: uint32, success: bool, isHeartbeat: bool)
}
