/** Where a peer can be reached, and how. */
module Endpoints {

  import opened ByteStrings

  datatype Endpoint = Endpoint(host: Bytes, port: uint16, cryptOptions: uint16, userHash: Bytes)
}
