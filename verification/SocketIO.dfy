/** The socket loops: receive all, send all, drain, over partial transfers and interrupts. */
module SocketIO {
  import opened ByteStrings

  datatype IoResult = Interrupted | Failed | Moved(n: nat)

  /** One end of a connection. The stream is everything that the peer ever sends; how it is cut into
      pieces on the way is decided anew at every call. On a connection that is not healthy any call of
      recv may fail with an error other than an interrupt. */
  class Socket {
    const stream: Bytes
    const healthy: bool
    var pos: nat
    var interrupts: nat
    var sent: Bytes

    constructor (stream: Bytes, healthy: bool, interrupts: nat)
      ensures this.stream == stream && this.healthy == healthy
      ensures pos == 0 && sent == [] && this.interrupts == interrupts
    {
      this.stream := stream;
      this.healthy := healthy;
      this.interrupts := interrupts;
      pos, sent := 0, [];
    }

    /** recv: an interrupt, an error, or between one and size bytes of what is left; 0 at the end of the
        stream. */
    method Recv(size: nat) returns (t: IoResult)
      requires 0 < size && pos <= |stream|
      modifies `pos, `interrupts
      ensures t.Interrupted? ==> interrupts < old(interrupts) && pos == old(pos)
      ensures !t.Interrupted? ==> interrupts == old(interrupts)
      ensures t.Moved? ==> t.n <= size && pos == old(pos) + t.n <= |stream| && (t.n == 0 <==> old(pos) == |stream|)
      ensures t.Failed? ==> !healthy && pos == old(pos)
    {
      var fails: bool := *;
      if fails && !healthy {
        return Failed;
      }
      var interrupted: bool := *;
      if interrupted && 0 < interrupts {
        interrupts := interrupts - 1;
        return Interrupted;
      }
      var n: nat :| n <= size && pos + n <= |stream| && (n == 0 <==> pos == |stream|);
      pos := pos + n;
      t := Moved(n);
    }

    /** send: an interrupt, a failure, or between one and all of the bytes. */
    method Send(data: Bytes) returns (t: IoResult)
      requires data != []
      modifies `sent, `interrupts
      ensures t.Interrupted? ==> interrupts < old(interrupts)
      ensures !t.Interrupted? ==> interrupts == old(interrupts)
      ensures t.Moved? ==> 0 < t.n <= |data| && sent == old(sent) + data[..t.n]
      ensures !t.Moved? ==> sent == old(sent)
    {
      var choice: int := *;
      if choice == 0 && 0 < interrupts {
        interrupts := interrupts - 1;
        return Interrupted;
      }
      if choice == 1 {
        return Failed;
      }
      var n: nat :| 0 < n <= |data|;
      sent := sent + data[..n];
      t := Moved(n);
    }

    /** sockutil_recvall: exactly size bytes, unless the stream ends before or an error comes between. */
    method RecvAll(size: nat) returns (ok: bool, data: Bytes)
      requires pos <= |stream|
      modifies `pos, `interrupts
      ensures old(pos) <= pos <= |stream| && data == stream[old(pos)..pos]
      ensures ok ==> pos == old(pos) + size
      ensures !ok ==> pos < old(pos) + size
      ensures healthy ==> ok == (old(pos) + size <= |stream|) && (!ok ==> pos == |stream|)
    {
      ok, data := true, [];
      var total := 0;
      while total < size
        invariant total <= size && old(pos) <= pos == old(pos) + total <= |stream| && data == stream[old(pos)..pos]
        invariant ok
        decreases size - total, interrupts
      {
        var before := pos;
        var t := Recv(size - total);
        match t {
          case Interrupted => continue;
          case Failed => ok := false; return;
          case Moved(n) =>
            if n == 0 {
              ok := false;
              return;
            }
            data := data + stream[before..pos];
            total := total + n;
        }
      }
    }

    /** sockutil_sendall: all of the data, or a beginning of it when a send fails. */
    method SendAll(data: Bytes) returns (ok: bool)
      modifies `sent, `interrupts
      ensures ok ==> sent == old(sent) + data
      ensures old(sent) <= sent <= old(sent) + data
    {
      var total := 0;
      ok := true;
      while total < |data|
        invariant ok && total <= |data| && sent == old(sent) + data[..total]
        decreases |data| - total, interrupts
      {
        var t := Send(data[total..]);
        match t {
          case Interrupted => continue;
          case Failed => ok := false; return;
          case Moved(n) =>
            assert data[..total] + data[total..][..n] == data[..total + n];
            total := total + n;
        }
      }
    }

    /** sockutil_drain: size bytes are thrown away, a buffer at a time. */
    method Drain(size: nat, chunkSize: nat) returns (ok: bool)
      requires 0 < chunkSize && pos <= |stream|
      modifies `pos, `interrupts
      ensures old(pos) <= pos <= |stream|
      ensures ok ==> pos == old(pos) + size
      ensures !ok ==> pos < old(pos) + size
      ensures healthy ==> ok == (old(pos) + size <= |stream|) && (!ok ==> pos == |stream|)
    {
      var left := size;
      while 0 < left
        invariant 0 <= left <= size && pos == old(pos) + size - left <= |stream|
      {
        var chunk := if left < chunkSize then left else chunkSize;
        var received, data := RecvAll(chunk);
        if !received {
          return false;
        }
        left := left - chunk;
      }
      ok := true;
    }
  }
}
