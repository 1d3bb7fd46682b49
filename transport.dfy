/** Stand-ins for the transport objects the duologue uses but does not
    implement: the peer address type, the outbound channel (publication) and
    the inbound channel (subscription). Their failures are not decided here:
    every fallible call takes the exception it throws, if any, as a parameter. */
module Transport {
  import opened Wrappers
  import opened Exceptions

  /** A network address, compared by its raw bytes as `InetAddress.equals` does. */
  datatype InetAddress = InetAddress(bytes: seq<bv8>)

  /** The outbound channel: how often `close()` was called, every message
      handed to it for sending, and the messages that went out. */
  class Publication {
    var closeCalls: nat
    var offered: seq<string>
    var delivered: seq<string>

    constructor Open()
      ensures closeCalls == 0 && offered == [] && delivered == []
    {
      closeCalls, offered, delivered := 0, [], [];
    }

    /** Sending one text message (encoded into the session's send buffer);
        `fault` is the exception the send throws, if it fails. */
    method SendMessage(text: string, fault: Option<Exn>) returns (thrown: Option<Exn>)
      modifies this
      ensures thrown == fault
      ensures offered == old(offered) + [text]
      ensures delivered == old(delivered) + (if fault.None? then [text] else [])
      ensures closeCalls == old(closeCalls)
    {
      offered := offered + [text];
      if fault.None? {
        delivered := delivered + [text];
      }
      thrown := fault;
    }

    method Close(fault: Option<Exn>) returns (thrown: Option<Exn>)
      modifies this
      ensures thrown == fault
      ensures closeCalls == old(closeCalls) + 1
      ensures offered == old(offered) && delivered == old(delivered)
    {
      closeCalls := closeCalls + 1;
      thrown := fault;
    }
  }

  /** The inbound channel: how often `close()` was called and how many peer
      images are currently live on it (kept up to date by the transport). */
  class Subscription {
    var closeCalls: nat
    var imageCount: nat

    constructor Open()
      ensures closeCalls == 0 && imageCount == 0
    {
      closeCalls, imageCount := 0, 0;
    }

    method Close(fault: Option<Exn>) returns (thrown: Option<Exn>)
      modifies this
      ensures thrown == fault
      ensures closeCalls == old(closeCalls) + 1
      ensures imageCount == old(imageCount)
    {
      closeCalls := closeCalls + 1;
      thrown := fault;
    }
  }
}
