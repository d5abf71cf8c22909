/** The entries both sides exchange and keep: operations (internal/oplog/op.go) and
    materialized records (internal/record/record.go).

    `Op` holds the fields the originating device fixes once and for all.  ServerSeq, the
    one field that storage fills in, is a column of the log row that holds the op. */
module Oplog {
  import opened Wrappers
  import opened Vectors
  import opened Hlc

  datatype Kind = Create | Update | Delete

  datatype Key = Key(collection: string, recordId: string)

  datatype Op = Op(
    id: string, deviceId: string, collection: string, recordId: string,
    kind: Kind, payload: Option<string>, vv: Vector, hlc: Timestamp)

  datatype Record = Record(
    collection: string, recordId: string, payload: Option<string>, deleted: bool,
    vv: Vector, hlc: Timestamp, winningOpId: string)

  function KeyOf(op: Op): Key {
    Key(op.collection, op.recordId)
  }

  function KeyOfRecord(rec: Record): Key {
    Key(rec.collection, rec.recordId)
  }

  /** Op.Validate returns nil. */
  predicate Validates(op: Op) {
    && op.id != ""
    && op.deviceId != ""
    && op.collection != ""
    && op.recordId != ""
    && (op.kind.Delete? || op.payload.Some?)
    && op.hlc.nodeId != ""
  }
}
