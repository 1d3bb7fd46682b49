/** The duologue as a pure state machine: its mutable state and the state of
    the two channels it owns, one function per event it reacts to, the
    expiry rule, and whole lifetimes as sequences of events.

    The class `Duologue.EchoServerDuologue` is proved to follow these
    functions step by step; the lemmas here say what the steps mean. */
module DuologueModel {
  import opened Wrappers
  import opened Exceptions
  import opened EchoProtocol
  import Transport

  const NanosPerSecond: int := 1_000_000_000

  /** A session that no peer has joined may be reaped this long after its
      creation; the deadline is fixed then and never renewed. */
  const ExpiryDelay: int := 10 * NanosPerSecond

  /** The expiry instant of a session created at `created` (instants are
      nanoseconds on the clock's time line). */
  function InitialExpire(created: int): int
  {
    created + ExpiryDelay
  }

  /** `isExpired(now)`: no live image and `now` strictly after the deadline. */
  predicate Expired(images: nat, now: int, initialExpire: int)
  {
    images == 0 && now > initialExpire
  }

  /** The deadline is exclusive, a live image always prevents expiry, and
      being expired is a matter of elapsed time since creation alone. */
  lemma ExpiryBoundary(created: int, now: int, images: nat)
    ensures !Expired(images, InitialExpire(created), InitialExpire(created))
    ensures Expired(0, InitialExpire(created) + 1, InitialExpire(created))
    ensures images > 0 ==> !Expired(images, now, InitialExpire(created))
    ensures Expired(images, now, InitialExpire(created))
        <==> images == 0 && now - created > 10 * NanosPerSecond
  {
  }

  /** With no image, a session that has expired stays expired as time passes. */
  lemma ExpiredStaysExpired(now: int, later: int, initialExpire: int)
    requires Expired(0, now, initialExpire) && now <= later
    ensures Expired(0, later, initialExpire)
  {
  }

  /** A session created at `t0` that no peer joins is not expired nine
      seconds later and is expired eleven seconds later. */
  lemma ExpiryScenario(t0: int)
    ensures !Expired(0, t0 + 9 * NanosPerSecond, InitialExpire(t0))
    ensures Expired(0, t0 + 11 * NanosPerSecond, InitialExpire(t0))
  {
  }

  /** The duologue's mutable state together with what it owns: the `closed`
      flag, the number of `close()` calls on the publication and on the
      subscription, the publication's send log (every message handed to it
      and those that went out), and the subscription's live image count. */
  datatype State = State(
    closed: bool,
    publicationCloses: nat,
    subscriptionCloses: nat,
    offered: seq<string>,
    delivered: seq<string>,
    images: nat)

  /** A freshly created session: open, nothing sent, no peer yet. */
  function Initial(): State
  {
    State(false, 0, 0, [], [], 0)
  }

  /** The ownership invariant: both channels are closed together, exactly
      once, and exactly when the session is closed. */
  predicate Released(s: State)
  {
    s.publicationCloses == s.subscriptionCloses == (if s.closed then 1 else 0)
  }

  /** The exceptions the two channel closes throw, if any. */
  datatype CloseFaults = CloseFaults(publication: Option<Exn>, subscription: Option<Exn>)

  /** The exception the reply's send throws, if any, and those of the closes
      that handling one message may perform. */
  datatype Faults = Faults(send: Option<Exn>, close: CloseFaults)

  /** The exceptions thrown while creating a session: opening the
      publication, opening the subscription, and closing the publication
      during clean-up. */
  datatype CreateFaults = CreateFaults(
    publicationOpen: Option<Exn>,
    subscriptionOpen: Option<Exn>,
    publicationClose: Option<Exn>)

  /** Channel closes only throw unchecked exceptions: `close()` declares none. */
  predicate CloseFaultsUnchecked(f: CloseFaults)
  {
    (f.publication.Some? ==> f.publication.value.kind == Unchecked)
    && (f.subscription.Some? ==> f.subscription.value.kind == Unchecked)
  }

  /** The state after one operation and the exception it throws, if any. */
  datatype Step = Step(after: State, thrown: Option<Exn>)

  /** `close()`: nothing once closed; otherwise close the publication, then
      the subscription whatever the first close did, then set `closed`
      whatever either did. Nested try/finally: a subscription failure
      replaces a publication failure. */
  function Close(s: State, f: CloseFaults): Step
  {
    if s.closed then Step(s, None)
    else
      Step(s.(closed := true,
              publicationCloses := s.publicationCloses + 1,
              subscriptionCloses := s.subscriptionCloses + 1),
           Finally(Finally(f.publication, f.subscription), None))
  }

  /** Sending one message on the publication. */
  function Send(s: State, text: string, fault: Option<Exn>): Step
  {
    Step(s.(offered := s.offered + [text],
            delivered := s.delivered + (if fault.None? then [text] else [])),
         fault)
  }

  /** `onMessageReceived`: a matching message is answered with `"ECHO "` and
      its payload; any other is answered with the error reply, and the
      session is closed in a finally block. */
  function ReceiveMessage(s: State, message: string, f: Faults): Step
  {
    match Parse(message)
    case Some(payload) => Send(s, EchoPrefix + payload, f.send)
    case None =>
      var sent := Send(s, ErrorReply, f.send);
      var closed := Close(sent.after, f.close);
      Step(closed.after, Finally(sent.thrown, closed.thrown))
  }

  /** The fragment handler: `onMessageReceived`, and `close()` when that
      throws an `IOException`, which is then not rethrown. */
  function HandleFragment(s: State, message: string, f: Faults): Step
  {
    var received := ReceiveMessage(s, message, f);
    if received.thrown.Some? && received.thrown.value.kind == IOFailure
    then Close(received.after, f.close)
    else received
  }

  /** The disconnect task: close the session when no image remains. */
  function ClientDisconnected(s: State, f: CloseFaults): Step
  {
    if s.images == 0 then Close(s, f) else Step(s, None)
  }

  /** `close()` sets `closed`; the first call closes each channel once and
      keeps the send log, the later failure being the one thrown; a later
      call changes nothing and throws nothing. */
  lemma CloseReleases(s: State, f: CloseFaults)
    requires Released(s)
    ensures Close(s, f).after.closed && Released(Close(s, f).after)
    ensures Close(s, f).after.offered == s.offered && Close(s, f).after.delivered == s.delivered
    ensures !s.closed ==> Close(s, f).after.publicationCloses == 1
                          && Close(s, f).after.subscriptionCloses == 1
    ensures !s.closed ==> Close(s, f).thrown
                          == (if f.subscription.Some? then f.subscription else f.publication)
    ensures s.closed ==> Close(s, f) == Step(s, None)
  {
  }

  /** `close()` is idempotent: a second call, with any faults, is a no-op. */
  lemma CloseIdempotent(s: State, f: CloseFaults, g: CloseFaults)
    ensures Close(Close(s, f).after, g) == Step(Close(s, f).after, None)
  {
  }

  /** Every `"ECHO " + p` with a one-line payload sends exactly the reply
      `"ECHO " + p`, throws only what the send throws, and leaves `closed`
      and both channels as they were. */
  lemma EchoReply(s: State, p: string, f: Faults)
    requires NoLineTerminator(p)
    ensures ReceiveMessage(s, EchoPrefix + p, f).after
         == s.(offered := s.offered + [EchoPrefix + p],
               delivered := s.delivered + (if f.send.None? then [EchoPrefix + p] else []))
    ensures ReceiveMessage(s, EchoPrefix + p, f).thrown == f.send
  {
    ParseEcho(p);
  }

  /** Every message the rule rejects sends exactly one error reply and
      leaves the session closed, even when the send fails; the channels
      are closed once in all. */
  lemma BadMessageCloses(s: State, m: string, f: Faults)
    requires Parse(m).None? && Released(s)
    ensures ReceiveMessage(s, m, f).after.offered == s.offered + [ErrorReply]
    ensures ReceiveMessage(s, m, f).after.closed
    ensures Released(ReceiveMessage(s, m, f).after)
    ensures !s.closed && f.close == CloseFaults(None, None) ==> ReceiveMessage(s, m, f).thrown == f.send
  {
  }

  /** The handler ends with the session closed whenever sending the reply
      throws an `IOException`, on either path; the second `close()` on the
      error path changes nothing, so each channel is still closed once. */
  lemma SendFailureCloses(s: State, m: string, f: Faults)
    requires Released(s)
    requires f.send.Some? && f.send.value.kind == IOFailure
    ensures HandleFragment(s, m, f).after.closed
    ensures Released(HandleFragment(s, m, f).after)
    ensures HandleFragment(s, m, f).after.offered
         == s.offered + [if Parse(m).Some? then m else ErrorReply]
  {
    match Parse(m)
    case Some(p) =>
      assert m == EchoPrefix + p;
    case None =>
  }

  /** No `IOException` leaves the handler: a send failure of that kind is
      caught, and channel closes throw only unchecked exceptions. */
  lemma HandlerSwallowsIOFailures(s: State, m: string, f: Faults)
    requires CloseFaultsUnchecked(f.close)
    ensures HandleFragment(s, m, f).thrown.Some? ==> HandleFragment(s, m, f).thrown.value.kind == Unchecked
  {
  }

  /** A disconnect closes the session exactly when no image remains, and
      otherwise changes nothing. */
  lemma DisconnectClosesIffNoImage(s: State, f: CloseFaults)
    requires Released(s)
    ensures ClientDisconnected(s, f).after.closed <==> s.closed || s.images == 0
    ensures s.images > 0 ==> ClientDisconnected(s, f) == Step(s, None)
    ensures Released(ClientDisconnected(s, f).after)
  {
  }

  /** What happens to a session, one event at a time: a fragment reaching the
      handler, the transport reporting an image available or unavailable
      (with the live image count it leaves), or the owner calling `close()`. */
  datatype Event =
    | Fragment(message: string, faults: Faults)
    | ImageAvailable(remote: Transport.InetAddress, live: nat)
    | ImageUnavailable(live: nat, closeFaults: CloseFaults)
    | CloseCall(closeFaults: CloseFaults)

  /** One event; a connecting peer only leads to a log line, whatever its address. */
  function Apply(s: State, e: Event): Step
  {
    match e
    case Fragment(m, f) => HandleFragment(s, m, f)
    case ImageAvailable(_, live) => Step(s.(images := live), None)
    case ImageUnavailable(live, f) => ClientDisconnected(s.(images := live), f)
    case CloseCall(f) => Close(s, f)
  }

  /** The state after a sequence of events; exceptions go to the caller and
      do not stop later events. */
  function Run(s: State, events: seq<Event>): State
    decreases |events|
  {
    if events == [] then s else Run(Apply(s, events[0]).after, events[1..])
  }

  /** One event keeps the ownership invariant, never reopens the session,
      and only appends to the send log. */
  lemma ApplyKeeps(s: State, e: Event)
    requires Released(s)
    ensures Released(Apply(s, e).after)
    ensures s.closed ==> Apply(s, e).after.closed
    ensures s.offered <= Apply(s, e).after.offered
    ensures s.delivered <= Apply(s, e).after.delivered
  {
  }

  /** Over any lifetime, the channels are closed together and at most once,
      `closed` never goes back to false, and the send log only grows. */
  lemma {:induction false} RunKeeps(s: State, events: seq<Event>)
    requires Released(s)
    ensures Released(Run(s, events))
    ensures s.closed ==> Run(s, events).closed
    ensures Run(s, events).publicationCloses <= 1 && Run(s, events).subscriptionCloses <= 1
    ensures s.offered <= Run(s, events).offered
    ensures s.delivered <= Run(s, events).delivered
    decreases |events|
  {
    if events != [] {
      ApplyKeeps(s, events[0]);
      RunKeeps(Apply(s, events[0]).after, events[1..]);
    }
  }
}
