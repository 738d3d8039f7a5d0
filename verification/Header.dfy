/** The control part of a message, common to both header encodings. */
module Headers {
  import opened Basics

  type text = seq<byte>

  datatype Header = Header(requestID: uint64, service: text, method_: text, error: text,
                           codec: byte, compression: byte)

  const ZERO := Header(0, [], [], [], 0, 0)
}
