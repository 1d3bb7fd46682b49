# EchoServerDuologue, modelled in Dafny

This project models the per-client session object of the Aeron echo server,
`EchoServerDuologue`. A duologue is one conversation between the server and
one remote peer. It is bound to a session identifier, a data port, a control
port and the owner's address. It owns one publication (the outbound channel)
and one subscription (the inbound channel), and it runs the echo protocol:

- a message matching `^ECHO (.*)$` gets the reply `ECHO <payload>`;
- anything else gets `ERROR bad message`, and the session is closed.

It also closes the session when its last peer image disconnects. It reports
itself expired when no image is live and the instant ten seconds after its
creation has passed.

Files and modules:

- `wrappers.dfy` (`Wrappers`): `Option` and `Result`.
- `exceptions.dfy` (`Exceptions`): Java exceptions. An exception is an
  `IOException` or an unchecked one, with an identity and a suppressed list.
  `Finally` gives the exception that leaves a `try`/`finally`. `AddSuppressed`
  models `addSuppressed`.
- `echo_protocol.dfy` (`EchoProtocol`): the grammar rule. `Matches` is a
  reference definition of what the regular expression accepts under Java's
  rules. This covers `^`, `$` (which may sit before a final line terminator),
  literals, and `.*` (which never matches a line terminator). Java's `$`
  also refuses the position between the `\r` and `\n` of a final `\r\n`;
  that case is not modelled, because in this rule `$` ends the pattern and
  the rest of the input after it must be empty anyway. Full-input
  matching, as `Matcher.matches()` requires, is `Matches(p, s, 0)`. `Parse`
  is the explicit check: the prefix `"ECHO "`, then a payload with no line
  terminator. It is proved to accept exactly what the pattern accepts.
  Group 1 is the text after the five-character prefix.
- `duologue_model.dfy` (`DuologueModel`): the session as a pure state
  machine. The state holds:
  - `closed`;
  - the close counts of both channels;
  - the publication's send log (every message handed to it, and the ones
    that went out);
  - the subscription's live image count.

  It has one function per event, the expiry rule, and whole lifetimes
  (`Run` over a sequence of events). Its lemmas state the protocol and the
  resource properties.
- `transport.dfy` (`Transport`): stand-ins for the transport objects: the
  peer address, and the publication and subscription handles. Each is
  reduced to close counts, a send log and an image count. A fallible call
  takes the exception it throws, if any, as a parameter.
- `duologue.dfy` (`Duologue`): the class `EchoServerDuologue`. It has the
  source's fields and its methods. Each state-changing method is proved to
  perform exactly the matching `DuologueModel` step. `Valid()` carries the
  ownership invariant: both channels are closed together, exactly once, and
  exactly when `closed` is set.
  - The accessors `session()`, `portData()`, `portControl()` and
    `ownerAddress()` are the `const` fields `session`, `portData`,
    `portControl` and `owner`. They cannot change after construction, and
    `Create` ensures they hold the arguments it was given.
  - Three client methods (`OwnerScenario`, `TwoImageScenario`,
    `UnjoinedSessionExpires`) walk through three typical lifecycles using only the
    contracts.

Three behaviours of the code, modelled as written:

- **Closing both channels.** In `close()`, the closes are nested
  `try`/`finally` blocks. If both the publication close and the
  subscription close throw, the subscription's exception propagates and the
  publication's is lost. It is not attached as a secondary cause.
  `DuologueModel.CloseReleases` states this.
- **Payload contents.** The payload may not contain a line terminator
  (`\n`, `\r`, U+0085, U+2028 or U+2029). Java's `.` does not match one, and
  `matches()` must consume the whole input. So `"ECHO a\nb"` and
  `"ECHO x\n"` are rejected.
- **Failed error reply.** On the error path, a send failure is not always
  swallowed at that point. If the close in the `finally` block succeeds, the
  `IOException` reaches the fragment handler. The handler catches it and
  calls `close()` again, which changes nothing. If that first close throws,
  its exception replaces the `IOException` and leaves the handler.

## Model

| member | source | states |
|---|---|---|
| `EchoProtocol.Parse` | src/main/java/com/io7m/aeron_guide/take2/EchoServerDuologue.java:195-200 | a message yields a payload exactly when `^ECHO (.*)$` matches all of it; the message is then `"ECHO "` plus the payload, and the payload holds no line terminator |
| `EchoProtocol.EchoPatternShape` | src/main/java/com/io7m/aeron_guide/take2/EchoServerDuologue.java:34-35 | the pattern accepts exactly the messages that start with `"ECHO "` and continue with no line terminator |
| `EchoProtocol.PrefixPatternShape` | src/main/java/com/io7m/aeron_guide/take2/EchoServerDuologue.java:34-35 | `^w(.*)$` with a literal `w` accepts exactly `w` followed by a rest free of line terminators |
| `EchoProtocol.AnyRunToEnd` | src/main/java/com/io7m/aeron_guide/take2/EchoServerDuologue.java:34-35 | `(.*)$` matches the rest of a whole-input match exactly when that rest holds no line terminator, even a final one |
| `EchoProtocol.ParseEcho` | src/main/java/com/io7m/aeron_guide/take2/EchoServerDuologue.java:195-201 | `"ECHO " + p` is accepted, with payload `p`, if and only if `p` has no line terminator |
| `EchoProtocol.ParseExamples` | src/main/java/com/io7m/aeron_guide/take2/EchoServerDuologue.java:195-215 | `PING`, the empty message, `ECHOX y`, `ECHO`, `STOP` and two-line payloads are rejected; `ECHO ` (empty payload) and `ECHO hi` are accepted |
| `Exceptions.AddSuppressed` | src/main/java/com/io7m/aeron_guide/take2/EchoServerDuologue.java:156-163 | the original exception keeps its kind and identity; a clean-up failure is appended to its suppressed list and never replaces it |
| `DuologueModel.ExpiryBoundary` | src/main/java/com/io7m/aeron_guide/take2/EchoServerDuologue.java:123-124 | the session is expired exactly when no image is live and more than ten seconds have passed since creation; it is not expired at the deadline itself, and it is never expired while an image is live |
| `DuologueModel.ExpiredStaysExpired` | src/main/java/com/io7m/aeron_guide/take2/EchoServerDuologue.java:276-277 | with no image, an expired session stays expired at every later instant, because the deadline is fixed |
| `DuologueModel.ExpiryScenario` | src/main/java/com/io7m/aeron_guide/take2/EchoServerDuologue.java:269-278 | a session no peer joins is not expired 9 s after creation and is expired 11 s after it |
| `DuologueModel.CloseReleases` | src/main/java/com/io7m/aeron_guide/take2/EchoServerDuologue.java:292-307 | after `close()` the session is closed; the first call closes each channel exactly once, attempts the subscription close even when the publication close fails, and throws the later failure; a call on a closed session changes nothing and throws nothing |
| `DuologueModel.CloseIdempotent` | src/main/java/com/io7m/aeron_guide/take2/EchoServerDuologue.java:296-306 | a second `close()`, whatever its channels would do, leaves the state as the first left it and throws nothing |
| `DuologueModel.EchoReply` | src/main/java/com/io7m/aeron_guide/take2/EchoServerDuologue.java:195-201 | `"ECHO " + p` with a one-line payload sends exactly one message, `"ECHO " + p`, throws only what that send throws, and changes neither `closed` nor the channels |
| `DuologueModel.BadMessageCloses` | src/main/java/com/io7m/aeron_guide/take2/EchoServerDuologue.java:204-215 | a message the rule rejects sends exactly one `ERROR bad message`, and the session ends closed even when that send fails; each channel is closed once |
| `DuologueModel.SendFailureCloses` | src/main/java/com/io7m/aeron_guide/take2/EchoServerDuologue.java:72-79 | when the reply's send throws an `IOException`, the handler leaves the session closed on both paths; the second `close()` on the error path adds no channel close |
| `DuologueModel.HandlerSwallowsIOFailures` | src/main/java/com/io7m/aeron_guide/take2/EchoServerDuologue.java:72-79 | no `IOException` leaves the fragment handler; only unchecked exceptions from channel closes or sends can |
| `DuologueModel.DisconnectClosesIffNoImage` | src/main/java/com/io7m/aeron_guide/take2/EchoServerDuologue.java:236-241 | a disconnect closes the session if and only if no image remains; otherwise the state is unchanged |
| `DuologueModel.ApplyKeeps` | src/main/java/com/io7m/aeron_guide/take2/EchoServerDuologue.java:228-260 | every event, a connect from any address included, keeps both channels closed together and at most once, never reopens the session, and only appends to the send log |
| `DuologueModel.RunKeeps` | src/main/java/com/io7m/aeron_guide/take2/EchoServerDuologue.java:45-47 | over any sequence of events, `closed` never goes from true back to false, each channel is closed at most once and only together with the other, and the send log only grows |
| `Duologue.EchoServerDuologue.constructor` | src/main/java/com/io7m/aeron_guide/take2/EchoServerDuologue.java:49-80 | the session starts open, with its identity, ports, owner and deadline as given, and no channel attached |
| `Duologue.EchoServerDuologue.SetPublicationSubscription` | src/main/java/com/io7m/aeron_guide/take2/EchoServerDuologue.java:218-226 | attaches the two handles and leaves `closed` alone |
| `Duologue.EchoServerDuologue.Create` | src/main/java/com/io7m/aeron_guide/take2/EchoServerDuologue.java:99-164 | a failure to open the publication propagates unchanged; a failure after it was opened closes that publication exactly once and propagates the original failure, with any clean-up failure as its suppressed exception; on success, a valid open session with fresh channels, deadline `now + 10 s` and the given session, ports and owner |
| `Duologue.EchoServerDuologue.Close` | src/main/java/com/io7m/aeron_guide/take2/EchoServerDuologue.java:291-307 | performs exactly the `DuologueModel.Close` step on the session and its channels, keeping the ownership invariant |
| `Duologue.EchoServerDuologue.OnMessageReceived` | src/main/java/com/io7m/aeron_guide/take2/EchoServerDuologue.java:176-216 | performs exactly the `DuologueModel.ReceiveMessage` step: echo on a match; otherwise an error reply and then a close in a finally block |
| `Duologue.EchoServerDuologue.HandleFragment` | src/main/java/com/io7m/aeron_guide/take2/EchoServerDuologue.java:72-79 | performs exactly the `DuologueModel.HandleFragment` step: an `IOException` from message handling is caught and the session closed |
| `Duologue.EchoServerDuologue.OnClientDisconnected` | src/main/java/com/io7m/aeron_guide/take2/EchoServerDuologue.java:228-243 | performs exactly the `DuologueModel.ClientDisconnected` step: close when the subscription has no image left |
| `Duologue.EchoServerDuologue.OnClientConnected` | src/main/java/com/io7m/aeron_guide/take2/EchoServerDuologue.java:245-260 | changes no state; reports the peer as correct exactly when its address equals the owner's |
| `Duologue.EchoServerDuologue.IsExpired` | src/main/java/com/io7m/aeron_guide/take2/EchoServerDuologue.java:269-278 | true exactly when the subscription has no live image and `now` is strictly after the creation deadline; reads state only |
| `Duologue.EchoServerDuologue.IsClosed` | src/main/java/com/io7m/aeron_guide/take2/EchoServerDuologue.java:284-289 | whether `close()` has run; on a valid session, true exactly when both channels have been closed, once each |

## Left out

- `poll()` and the fragment delivery inside `Subscription.poll` and
  `FragmentAssembler`. These include the limit of ten fragments per poll and
  what happens to later fragments of the same poll once a bad message has
  closed the session. Each delivered message is modelled as one
  `HandleFragment` call.
- The executor hand-off (`exec.execute`) and `assertIsExecutorThread`. Every
  operation is modelled as a sequential call on the session's own thread.
  What the executor or the poller does with an exception thrown out of a
  task or handler is not modelled; the model returns it.
- UTF-8 decoding (`EchoMessages.parseMessageUTF8`) and message encoding into
  the 1024-byte send buffer (`EchoMessages.sendMessage`, including any retry
  it does). These are not part of this model. Messages are strings. A send
  appends to the publication's log of offered messages. It reaches the
  delivered log unless its fault parameter says it throws.
- Channel construction (`EchoChannels`), the Aeron instance, stream ids and
  the local bind address. Opening a channel either yields a fresh handle or
  throws the exception given as a parameter. Live image counts are kept by
  the transport: the model reads the subscription's count and does not
  decide when it changes.
- `EchoAddresses.extractAddress`. The connect event is given the address it
  extracts. An address is compared by its bytes.
- `Clock` and `Instant`. Instants are integers counting nanoseconds. An
  overflow in `Instant.plus` is not modelled.
- The `Objects.requireNonNull` checks. Dafny's non-null types rule out the
  null arguments, so the `NullPointerException` paths are not modelled.
- `Duologue.EchoServerDuologue.Create`: failures inside the private
  constructor are not modelled. In the source, only an allocation failure
  there is possible, and it is an `Error` that `catch (Exception e)` would
  not catch.
- Logging. Its only observable effect is the log, so the connect handler's
  choice of log line is returned as `correctPeer`.
- `DuologueModel.HandlerSwallowsIOFailures`: this holds only when channel
  closes throw unchecked exceptions. That matches Java, where `close()`
  declares no checked exception. Elsewhere the model lets a fault of any
  kind stand for a close failure.
