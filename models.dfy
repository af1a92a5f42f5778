/** The directory record kept by the database-backed server and mirrored by the client. */
module Models {
  import opened Basics

  /** `models.Device` of the shared package, without its database-assigned `ID`. The database
      declares a unique index on `PubKey`. */
  datatype Device = Device(
    name: string,
    pubKey: string,
    ip: string,
    port: string,
    endpoint: string,
    lastSeen: Time,
    connected: bool)
}
