/** One retained identity interval: who held a terminal user ID, and when ADD saw it. */
module IdentityRecords {
  import opened Options

  datatype Record = Record(
    id: nat, zkt: int, deviceUser: int, serial: string, userId: string, uid: string,
    fingerprint: Option<string>, cnic: string,
    firstSnapshot: nat, lastSnapshot: nat, lastRevision: int,
    from: int, until: int, closed: bool, revoked: bool)
}
