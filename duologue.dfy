/** The per-client session object: one conversation between the server and
    one peer, bound to a session identifier and a data/control port pair,
    owning one publication and one subscription.

    Every method runs on the session's executor thread; the model treats the
    events as sequential calls. Each state-changing method is proved to
    perform exactly the step that `DuologueModel` defines for it. */
module Duologue {
  import opened Wrappers
  import opened Exceptions
  import opened EchoProtocol
  import opened Transport
  import M = DuologueModel

  class EchoServerDuologue {
    const initialExpire: int
    const owner: InetAddress
    const portData: int
    const portControl: int
    const session: int
    var closed: bool
    var publication: Publication?
    var subscription: Subscription?

    /** Both channel handles are attached. */
    ghost predicate Attached()
      reads this
    {
      publication != null && subscription != null
    }

    /** The session's state as the pure model sees it. */
    ghost function Abstract(): M.State
      reads this, publication, subscription
      requires Attached()
    {
      M.State(closed, publication.closeCalls, subscription.closeCalls,
              publication.offered, publication.delivered, subscription.imageCount)
    }

    /** Attached, and each channel closed exactly when the session is, once. */
    ghost predicate Valid()
      reads this, publication, subscription
    {
      Attached() && M.Released(Abstract())
    }

    /** The private constructor: fixed identity and deadline, open, no
        channel attached yet. */
    constructor (initialExpire: int, owner: InetAddress, session: int, portData: int, portControl: int)
      ensures this.initialExpire == initialExpire && this.owner == owner
      ensures this.session == session && this.portData == portData && this.portControl == portControl
      ensures !closed && publication == null && subscription == null
    {
      this.initialExpire := initialExpire;
      this.owner := owner;
      this.session := session;
      this.portData := portData;
      this.portControl := portControl;
      this.closed := false;
      this.publication := null;
      this.subscription := null;
    }

    /** Attaches the two channel handles. */
    method SetPublicationSubscription(pub: Publication, sub: Subscription)
      modifies this
      ensures publication == pub && subscription == sub
      ensures closed == old(closed)
    {
      publication := pub;
      subscription := sub;
    }

    /** `create`: opens the publication, builds the session, opens the
        subscription and attaches both. A failure before the publication is
        open propagates as it is. A failure after it closes the publication
        once and propagates the original exception, carrying any failure of
        that close as a suppressed exception. `publicationOpened` is the
        publication this call opened, if it got that far. */
    static method Create(now: int, owner: InetAddress, session: int, portData: int, portControl: int,
                         f: M.CreateFaults)
      returns (r: Result<EchoServerDuologue, Exn>, ghost publicationOpened: Publication?)
      ensures f.publicationOpen.Some? ==> r == Failure(f.publicationOpen.value) && publicationOpened == null
      ensures f.publicationOpen.None? ==> publicationOpened != null && fresh(publicationOpened)
      ensures f.publicationOpen.None? && f.subscriptionOpen.Some? ==>
        && r == Failure(AddSuppressed(f.subscriptionOpen.value, f.publicationClose))
        && publicationOpened.closeCalls == 1
        && publicationOpened.offered == []
      ensures f.publicationOpen.None? && f.subscriptionOpen.None? ==>
        && r.Success? && fresh(r.value) && fresh(r.value.subscription)
        && r.value.publication == publicationOpened
        && r.value.Valid() && r.value.Abstract() == M.Initial()
        && r.value.initialExpire == M.InitialExpire(now)
        && r.value.owner == owner && r.value.session == session
        && r.value.portData == portData && r.value.portControl == portControl
    {
      var expire := M.InitialExpire(now);
      if f.publicationOpen.Some? {
        return Failure(f.publicationOpen.value), null;
      }
      var pub := new Publication.Open();
      publicationOpened := pub;
      var duologue := new EchoServerDuologue(expire, owner, session, portData, portControl);
      if f.subscriptionOpen.Some? {
        var cleanup := pub.Close(f.publicationClose);
        return Failure(AddSuppressed(f.subscriptionOpen.value, cleanup)), publicationOpened;
      }
      var sub := new Subscription.Open();
      duologue.SetPublicationSubscription(pub, sub);
      r := Success(duologue);
    }

    /** `close()`, as `DuologueModel.Close`: idempotent, both channels closed
        in order whatever the first close does, `closed` set in any case. */
    method Close(f: M.CloseFaults) returns (thrown: Option<Exn>)
      requires Valid()
      modifies this, publication, subscription
      ensures Valid() && publication == old(publication) && subscription == old(subscription)
      ensures M.Step(Abstract(), thrown) == M.Close(old(Abstract()), f)
    {
      thrown := None;
      if !closed {
        var publicationFailure := publication.Close(f.publication);
        var subscriptionFailure := subscription.Close(f.subscription);
        closed := true;
        thrown := Finally(Finally(publicationFailure, subscriptionFailure), None);
      }
    }

    /** `onMessageReceived`, as `DuologueModel.ReceiveMessage`: echo a
        matching message; answer anything else with the error reply and
        close, in a finally block. */
    method OnMessageReceived(message: string, f: M.Faults) returns (thrown: Option<Exn>)
      requires Valid()
      modifies this, publication, subscription
      ensures Valid() && publication == old(publication) && subscription == old(subscription)
      ensures M.Step(Abstract(), thrown) == M.ReceiveMessage(old(Abstract()), message, f)
    {
      var payload := Parse(message);
      if payload.Some? {
        thrown := publication.SendMessage(EchoPrefix + payload.value, f.send);
        return;
      }
      var sendFailure := publication.SendMessage(ErrorReply, f.send);
      var closeFailure := Close(f.close);
      thrown := Finally(sendFailure, closeFailure);
    }

    /** The fragment handler installed by the constructor, as
        `DuologueModel.HandleFragment`: an `IOException` from
        `onMessageReceived` is caught and the session closed. */
    method HandleFragment(message: string, f: M.Faults) returns (thrown: Option<Exn>)
      requires Valid()
      modifies this, publication, subscription
      ensures Valid() && publication == old(publication) && subscription == old(subscription)
      ensures M.Step(Abstract(), thrown) == M.HandleFragment(old(Abstract()), message, f)
    {
      thrown := OnMessageReceived(message, f);
      if thrown.Some? && thrown.value.kind == IOFailure {
        thrown := Close(f.close);
      }
    }

    /** The disconnect task, as `DuologueModel.ClientDisconnected`: close the
        session once the subscription has no image left. */
    method OnClientDisconnected(f: M.CloseFaults) returns (thrown: Option<Exn>)
      requires Valid()
      modifies this, publication, subscription
      ensures Valid() && publication == old(publication) && subscription == old(subscription)
      ensures M.Step(Abstract(), thrown) == M.ClientDisconnected(old(Abstract()), f)
    {
      thrown := None;
      if subscription.imageCount == 0 {
        thrown := Close(f);
      }
    }

    /** The connect task: `remote` is the address extracted from the new
        image's source identity. It changes no state; the answer only
        chooses between the debug line for the owner and the error line for
        any other address. */
    method OnClientConnected(remote: InetAddress) returns (correctPeer: bool)
      ensures correctPeer <==> remote == owner
    {
      correctPeer := remote == owner;
    }

    /** `isExpired(now)`: no live image and `now` strictly after the deadline. */
    method IsExpired(now: int) returns (expired: bool)
      requires Attached()
      ensures expired == M.Expired(subscription.imageCount, now, initialExpire)
    {
      expired := subscription.imageCount == 0 && now > initialExpire;
    }

    /** `isClosed()`: whether `close()` has run, that is, whether both
        channels have been released, once each. */
    method IsClosed() returns (r: bool)
      requires Valid()
      ensures r == closed
      ensures r <==> publication.closeCalls == 1 && subscription.closeCalls == 1
    {
      r := closed;
    }
  }

  /** Session 7 for 10.0.0.5: its owner connects, `ECHO hi` is echoed,
      `STOP` is refused and ends the session, and a late close is a no-op. */
  method OwnerScenario(t0: int)
  {
    var owner := InetAddress([10, 0, 0, 5]);
    var none := M.CloseFaults(None, None);
    var created, _ := EchoServerDuologue.Create(t0, owner, 7, 9000, 9001, M.CreateFaults(None, None, None));
    var d := created.value;
    d.subscription.imageCount := 1;
    var correct := d.OnClientConnected(owner);
    assert correct;
    var e1 := d.HandleFragment("ECHO hi", M.Faults(None, none));
    ParseEcho("hi");
    assert EchoPrefix + "hi" == "ECHO hi";
    assert d.publication.delivered == ["ECHO hi"] && !d.closed;
    var e2 := d.HandleFragment("STOP", M.Faults(None, none));
    ParseExamples();
    assert d.publication.delivered == ["ECHO hi", ErrorReply];
    var isClosed := d.IsClosed();
    assert isClosed && e2 == None;
    var e3 := d.Close(none);
    assert d.publication.closeCalls == 1 && d.subscription.closeCalls == 1;
  }

  /** Two images under one session: the first disconnect leaves the session
      open, the second closes it. */
  method TwoImageScenario(t0: int)
  {
    var none := M.CloseFaults(None, None);
    var created, _ := EchoServerDuologue.Create(t0, InetAddress([10, 0, 0, 5]), 7, 9000, 9001,
                                                M.CreateFaults(None, None, None));
    var d := created.value;
    d.subscription.imageCount := 1;
    var e1 := d.OnClientDisconnected(none);
    assert !d.closed;
    d.subscription.imageCount := 0;
    var e2 := d.OnClientDisconnected(none);
    assert d.closed && d.publication.closeCalls == 1;
  }

  /** A session no peer joins is kept nine seconds after creation and may be
      reaped eleven seconds after it. */
  method UnjoinedSessionExpires(t0: int)
  {
    var created, _ := EchoServerDuologue.Create(t0, InetAddress([10, 0, 0, 5]), 7, 9000, 9001,
                                                M.CreateFaults(None, None, None));
    var d := created.value;
    var early := d.IsExpired(t0 + 9 * M.NanosPerSecond);
    var late := d.IsExpired(t0 + 11 * M.NanosPerSecond);
    assert !early && late;
  }
}
