// What a UDP socket delivers into a fixed buffer.
module Sockets {
  import opened Words
  import opened Packets

  type Address = nat

  datatype Errno = TimedOut | TryAgain | OtherError

  // An outcome of recvfrom: a datagram of any length, the empty one included, or an error.
  datatype Received = Datagram(sender: Address, bytes: seq<byte>) | Failed(errno: Errno)

  // The return value: a datagram longer than the buffer is cut to it.
  function ReceivedBytes(r: Received): int {
    match r
    case Datagram(_, bytes) => if |bytes| < PACKET_SIZE then |bytes| else PACKET_SIZE
    case Failed(_) => -1
  }

  // The buffer afterwards: a short datagram leaves the old tail in place.
  function BufferAfter(buf: seq<byte>, r: Received): (after: seq<byte>)
    requires |buf| == PACKET_SIZE
    ensures |after| == PACKET_SIZE
  {
    match r
    case Datagram(_, bytes) => bytes[..ReceivedBytes(r)] + buf[ReceivedBytes(r)..]
    case Failed(_) => buf
  }

  predicate FillsBuffer(r: Received) { r.Datagram? && |r.bytes| >= PACKET_SIZE }

  predicate IsTimeout(r: Received) { r.Failed? && r.errno != OtherError }

  method RecvFrom(buf: array<byte>, r: Received) returns (n: int)
    requires buf.Length == PACKET_SIZE
    modifies buf
    ensures n == ReceivedBytes(r)
            == if r.Failed? then -1 else if |r.bytes| < 48 then |r.bytes| else 48
    ensures buf[..] == BufferAfter(old(buf[..]), r)
    ensures forall i :: 0 <= i < 48 ==> buf[i] == if r.Datagram? && i < |r.bytes| then r.bytes[i] else old(buf[i])
  {
    n := ReceivedBytes(r);
    if r.Datagram? {
      forall i | 0 <= i < n {
        buf[i] := r.bytes[i];
      }
    }
  }
}
