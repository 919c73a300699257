// Byte buffers as the non-blocking handler uses them.
module Buffers {
  import opened Stream

  // A byte buffer up to its limit, and how many of its bytes were consumed.
  datatype Buf = Buf(data: seq<byte>, pos: nat)

  function Remaining(b: Buf): seq<byte>
  {
    if b.pos <= |b.data| then b.data[b.pos..] else []
  }

  predicate HasRemaining(b: Buf)
  {
    b.pos < |b.data|
  }
}
