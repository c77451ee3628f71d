/** The send queue that ClientConnection (src/dap_mux/client.py) and UpstreamConnection
    (src/dap_mux/upstream.py) both own, with the write loop that drains it. */
module Connections {
  import opened Messages

  class SendQueue {
    // The client it belongs to; None for the adapter's.
    const owner: Option<ClientId>
    var waiting: seq<Message>
    ghost var written: seq<Message>

    /** Everything ever put on the queue, in order. */
    ghost function Everything(): seq<Message>
      reads this
    {
      written + waiting
    }

    constructor (owner: Option<ClientId>)
      ensures this.owner == owner && Everything() == []
    {
      this.owner := owner;
      waiting, written := [], [];
    }

    method Send(msg: Message)
      modifies this
      ensures Everything() == old(Everything()) + [msg] && written == old(written)
    {
      waiting := waiting + [msg];
    }

    /** One turn of the write loop. */
    method WriteNext() returns (msg: Message)
      requires waiting != []
      modifies this
      ensures Everything() == old(Everything())
      ensures msg == old(waiting)[0] && waiting == old(waiting)[1..] && written == old(written) + [msg]
    {
      msg := waiting[0];
      waiting := waiting[1..];
      written := written + [msg];
    }

    /** The write loop, until it has to wait: everything is on the wire, in the order it was queued. */
    method WriteAll() returns (wire: seq<Message>)
      modifies this
      ensures waiting == [] && written == old(written) + wire
      ensures wire == old(waiting) && Everything() == old(Everything())
    {
      wire := [];
      while waiting != []
        invariant wire + waiting == old(waiting) && written == old(written) + wire
        decreases |waiting|
      {
        ghost var before := waiting;
        var msg := WriteNext();
        assert before == [msg] + waiting && wire + ([msg] + waiting) == wire + [msg] + waiting;
        assert old(written) + wire + [msg] == old(written) + (wire + [msg]);
        wire := wire + [msg];
      }
    }
  }
}
