/** The command objects the CRDT example reducers return to the host:
    `{ command: "PNCounter", key, value }` with the amount rendered as a
    decimal string, since a bigint cannot cross into the host as a number. */
module CrdtCommand {
  datatype Command = PNCounter(key: string, value: string)
}
