/** Raw bytes, as carried by a buffer list or a byte string. */
module ByteString {

  type Bytes = seq<bv8>
}
