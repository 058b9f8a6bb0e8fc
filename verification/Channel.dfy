/**
 The channel's message object and its session (libchannelserver/ChannelMessage.h, ChannelSession.cpp), changed in place.
 */
module Channel {
  import opened BigEndian
  import opened Framing

  class Message {
    var length: nat
    var kind: nat
    var tag: seq<byte>
    var result: int
    var data: seq<byte>

    ghost function Value(): Frame
      reads this
    {
      Frame(kind, tag, result, data)
    }

    constructor ()
    {
      length, kind, tag, result, data := 0, 0, [], 0, [];
    }

    method Encode(buffer: seq<byte>) returns (out: seq<byte>)
      ensures out == buffer + Encoded(Value())
    {
      out := buffer;
      out := out + ToBytes(HEADER_LENGTH + |data|, 4);
      out := out + ToBytes(kind, 2);
      out := out + tag;
      out := out + ToBytes(Unsigned(result), 4);
      out := out + data;
    }

    /**
     `undefined` stands for a length below the header's: the source would then
     take a range that ends before it begins.
     */
    method Decode(buffer: seq<byte>) returns (r: int, undefined: bool)
      modifies this
      ensures undefined <==> Decoded(buffer) == Undefined
      ensures match Decoded(buffer)
              case Got(frame, n) => r == n > 0 && Value() == frame && length == n
              case More => r == 0
              case TooLong => r == -1
              case Undefined => true
    {
      undefined := false;
      if |buffer| < HEADER_LENGTH { return 0, false; }
      length := FromBytes(buffer[..4]);
      if length > MAX_LENGTH { return -1, false; }
      if |buffer| < length { return 0, false; }
      kind := FromBytes(buffer[4..6]);
      tag := buffer[6..38];
      result := Signed(FromBytes(buffer[38..42]));
      if length < HEADER_LENGTH { return length, true; }
      data := buffer[HEADER_LENGTH..length];
      r := length;
    }
  }

  class ChannelSession {
    var delivered: seq<Frame>
    var buffer: seq<byte>
    var open: bool

    ghost function State(): Session
      reads this
    {
      Session(delivered, buffer, open)
    }

    constructor ()
      ensures State() == Session([], [], true)
    {
      delivered, buffer, open := [], [], true;
    }

    /** One read has brought `chunk`; messages go to the handler in the order they are cut off. */
    method OnRead(chunk: seq<byte>)
      requires open
      modifies this
      ensures State() == Read(old(State()), chunk)
    {
      buffer := buffer + chunk;
      while true
        invariant open && Drained(State()) == Read(old(State()), chunk)
        decreases |buffer|
      {
        var message := new Message();
        var n, undefined := message.Decode(buffer);
        if undefined {
          open := false;
          break;
        } else if n > 0 {
          delivered := delivered + [Frame(message.kind, message.tag, message.result, message.data)];
          buffer := buffer[n..];
        } else if n == 0 {
          break;
        } else {
          open := false;
          break;
        }
      }
    }
  }
}
