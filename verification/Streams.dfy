/** The two ends of a connection: io.ReadFull on finite input, and Write to a peer that may stop listening. */
module Streams {
  import opened Bytes

  datatype ReadError = EOF | UnexpectedEOF

  datatype ReadStatus = Filled | Short(error: ReadError)

  /** What io.ReadFull reports when n bytes are wanted and `data` is all that is left. */
  function ReadStatusOf(data: seq<Byte>, n: nat): ReadStatus {
    if n <= |data| then Filled else if data == [] then Short(EOF) else Short(UnexpectedEOF)
  }

  /** What is left unread after that call: a short read uses up the stream. */
  function AfterRead(data: seq<Byte>, n: nat): seq<Byte> {
    if n <= |data| then data[n..] else []
  }

  class Source {
    var data: seq<Byte>

    constructor (data: seq<Byte>)
      ensures this.data == data
    {
      this.data := data;
    }

    /** io.ReadFull(r, buf) */
    method ReadFull(buf: array<Byte>) returns (status: ReadStatus)
      modifies this, buf
      ensures status == ReadStatusOf(old(data), buf.Length)
      ensures data == AfterRead(old(data), buf.Length)
      ensures status.Filled? ==> buf[..] == old(data)[..buf.Length]
    {
      var n := buf.Length;
      status := ReadStatusOf(data, n);
      if n <= |data| {
        forall i | 0 <= i < n {
          buf[i] := data[i];
        }
        data := data[n..];
      } else {
        data := [];
      }
    }
  }

  /** The far end of a client connection: it accepts `room` more bytes, then every write fails. */
  class Sink {
    var received: seq<Byte>
    var room: nat

    constructor (room: nat)
      ensures received == [] && this.room == room
    {
      received, this.room := [], room;
    }

    /** w.Write(b); a failing write may have delivered a prefix. */
    method Write(b: seq<Byte>) returns (ok: bool)
      modifies this
      ensures ok <==> |b| <= old(room)
      ensures received == old(received) + Clip(b, old(room))
      ensures room == old(room) - |Clip(b, old(room))|
    {
      ok := |b| <= room;
      var c := Clip(b, room);
      received, room := received + c, room - |c|;
    }
  }
}
