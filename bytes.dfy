/** Bytes and the growable byte container (`std::vector<u8>`) that the
    encoder and the HTTP buffer append to. */
module Bytes {

  type Byte = b: int | 0 <= b < 256

  /** A byte vector whose only update is appending at the end. */
  class ByteVector {
    var items: seq<Byte>

    constructor ()
      ensures items == []
    {
      items := [];
    }

    /** `push_back(b)` */
    method PushBack(b: Byte)
      modifies this
      ensures items == old(items) + [b]
    {
      items := items + [b];
    }

    /** `insert(end(), first, last)` */
    method Append(data: seq<Byte>)
      modifies this
      ensures items == old(items) + data
    {
      items := items + data;
    }
  }
}
