# Verified model of a hub-and-spoke chat over byte streams

A host room accepts peers over byte streams. A peer shows 32 bytes (an invite nonce and a random
discriminator), is answered with one byte, sends its name in a frame and from then on exchanges framed
JSON messages with the host. Invites travel as Base58 tokens. This project models that protocol in Dafny
and proves what it promises: over every input of the codecs, every cut of the byte streams, and every
interleaving of the host's tasks.

`dafny verify dfyconfig.toml` checks everything.

| module | what it models |
|---|---|
| `Utf8`, `Json`, `JsonForms`, `Wire` | RFC 3629 UTF-8, RFC 8259 string escaping, the three-field object, length-prefixed frames (`wire.rs`) |
| `Numerals`, `Codecs`, `Invite` | base conversion, Base58, hex, decimal, colon splitting, the invite token and its clock checks (`invite.rs`) |
| `Stream` | a byte stream delivered in arbitrary pieces, `read_frame`, both hub handshakes and the joiner's |
| `Room` | the host room as a transition system: every lock-protected block, channel operation and `select!` arm is a step, and so is every stretch of bytes the stream takes of a write that has no time limit |
| `Host` | the main loop among the other tasks, on an object updated in place, and what its `biased` select gives over runs |
| `RoomNonces`, `RoomPeers`, `RoomNames`, `RoomOrder`, `RoomHost`, `RoomTexts`, `RoomFifo`, `RoomReports`, `RoomBroadcast`, `RoomLimits` | what holds over every run of the room: nonces, peer map, ids and names as sent, event order and channel, the host's own reports, its texts, the peers' chats, broadcasts, capacities |
| `RoomTwins` | two peers with one discriminator |
| `RoomDrain`, `RoomStall`, `RoomLate` | shutdown: which handlers can go on, which stall and what they hold up; messages after a leave |
| `App`, `Screen` | the client that folds the event stream into its peer list, its lines and its mode |
| `Joiner` | the joiner's run loops, local buffer and reader |
| `Handshake` | joiner and hub handshakes composed over two byte channels |
| `EndToEnd` | joiner loops and host room put together |
| `Handles` | clones, `quit` and the non-atomic drop of room handles |
| `RoomHandles` | the handles and the room run jointly |
| `Hub`, `HubRelay` | reader and two-queue writer of one peer in `hub.rs`; the hub's tasks together |

The model's `char` is a Unicode scalar value, as in Rust. Loops that take their inputs from
several tasks take a schedule as a parameter, and whether a `try_send` finds room is an arbitrary function
of its number; the theorems hold for all of them. "History" fields of states only record what happened.

## Where the code and its documents differ

The model follows the code.

- The room does not pass one joiner's chats on to the others: the broadcast sender handed to the reader is
  unused (crates/core/src/room.rs:661). Only `hub.rs` does, and it also echoes to the sender.
- A peer's message can be reported after its leave, contrary to docs/tasks/phase5.md:70. `RoomLate` says
  exactly when, whatever the reader is doing, and constructs a run that leads there.
- Shutdown does not end every task in time, contrary to docs/tasks/phase5.md:79. Two writes have no time
  limit and heed no shutdown: the join notice (crates/core/src/room.rs:518), during which the peer is already
  in the map, and the reject byte (crates/core/src/room.rs:626), which is written under the nonce lock. A
  peer whose stream takes no bytes and does not break keeps its handler in the first, and all handshakes
  waiting with the second. `RoomDrain.HasStepExactly` gives the exact condition, `RoomStall` the runs.
- The joiner's final flush pops from the end, so what it delivers comes reversed
  (crates/core/src/joiner.rs:276).
- Message type tags are written as `Chat`, `System`, `Ping`, `Pong` (crates/core/src/wire.rs:19-29).
- The joiner checks a time to live of 300 whatever the host configured (crates/core/src/joiner.rs:77), and
  the host does not check expiry at all. `Invite` keeps the time to live a parameter.
- `validate_address` lets `:` through (crates/core/src/invite.rs:106-118), so a payload can encode and not
  come back; nor does an empty name. `Invite.RoundTrip` gives the exact condition, `ColonIsLost` and
  `EmptyNameIsLost` the inputs.
- A write error, as opposed to a timeout, goes unnoticed by both writers (crates/core/src/room.rs:551-564,
  crates/core/src/hub.rs:601, crates/core/src/hub.rs:623).

## Model

| member | source | states |
|---|---|---|
| Utf8.RoundTrip | crates/core/src/wire.rs:84-135 | decoding undoes encoding for every string of scalar values |
| Utf8.Canonical | crates/core/src/invite.rs:40-56 | whatever decodes is the encoding of the result: overlong forms, surrogates and stray bytes are refused |
| Utf8.EncodedForm | crates/core/src/wire.rs:84-103 | every scalar value takes the one to four bytes, with the lead and tail bits, of the table in section 3 of RFC 3629 |
| Json.RoundTrip | crates/core/src/wire.rs:84-135 | for every kind, name and text (quotes, backslashes, controls, non-ASCII) the parser recovers exactly the printed message |
| JsonForms.PrintedText | crates/core/src/wire.rs:19-42 | the printed object, character by character: three members in this order, no spaces, the type as a string |
| JsonForms.EscapedText | crates/core/src/wire.rs:84-103 | quote, backslash and controls are escaped, in the short form or with four lower-case hex digits, and nothing else is |
| JsonForms.ReadsExactly | crates/core/src/wire.rs:19-42 | an object of string members, in any order and with any white space, is read exactly if all its keys are known, none comes twice, the type is one of the four and nothing follows it; a missing name or text is empty |
| JsonForms.OtherEscapes | crates/core/src/wire.rs:105-135 | the escapes nothing here writes are read as well: the slash, hex digits of either case, surrogate pairs |
| JsonForms.RefusedChars | crates/core/src/wire.rs:105-135 | refused inside a string: bare control characters, a lone backslash, unknown escapes, half a surrogate pair |
| Wire.MessageRoundTrip | crates/core/src/wire.rs:84-135 | whatever `encode_message` accepts decodes to exactly that message, through escaping, UTF-8 and the header |
| Wire.FramesFailOnlyInJson | crates/core/src/wire.rs:105-178 | on any frame `read_frame` returned, `decode_message` can fail only in JSON parsing |
| Wire.UniquelyDecodable | crates/core/src/wire.rs:142-178 | equal concatenations of frames come from equal lists of frames |
| Wire.CutStream | crates/core/src/wire.rs:142-178 | a stream of frames cut at any byte yields exactly the frames before the cut and then a short read |
| Wire.CutMessages | crates/core/src/wire.rs:84-178 | the same for encoded messages, decoded: never a wrong message |
| Wire.ReadsPrefix | crates/core/src/wire.rs:142-178 | for arbitrary bytes, reading a prefix of a stream yields a prefix of its frames |
| Wire.SizeBounds | crates/core/src/wire.rs:84-124 | 6(name+text)+37 bytes up to 16384 always encode, chats above 16349 bytes never do, and no payload is empty or cut by its header |
| Wire.EncodesExactly | crates/core/src/wire.rs:84-103 | a message encodes if and only if 31 bytes, the type and the escaped name and text come to at most 16384, and then behind a big-endian length; else the error names the size and the limit |
| Wire.TakesExactly | crates/core/src/wire.rs:142-178 | `read_frame` takes exactly a header of 1 to 16384 with as many bytes of UTF-8, and names what else it is |
| Wire.LimitTaken | crates/core/src/wire.rs:142-178 | a payload of 16384 bytes is taken, a header of 16385 refused |
| Wire.DecodesExactly | crates/core/src/wire.rs:105-135 | which error every malformed frame gets from `decode_message`, and that it accepts exactly what parses |
| Codecs.Base58RoundTrip | crates/core/src/invite.rs:24-56 | Base58 decoding undoes encoding, leading zero bytes included |
| Codecs.Base58Canonical | crates/core/src/invite.rs:40-56 | encoding undoes decoding for every valid Base58 string |
| Codecs.Base58Means | crates/core/src/invite.rs:24-33 | the Base58 text is, in the alphabet spelled out, the same number as the bytes, with a `1` for each zero byte in front |
| Codecs.Base58Accepts | crates/core/src/invite.rs:40-56 | a text is Base58 if and only if it keeps to that alphabet |
| Codecs.HexRoundTrip | crates/core/src/invite.rs:24-75 | lowercase hex of any bytes is read back as those bytes |
| Codecs.HexMeans | crates/core/src/invite.rs:24-33 | two lower-case hex digits a byte, high half first |
| Codecs.HexEitherCase | crates/core/src/invite.rs:63-75 | upper-case hex is read as well |
| Codecs.DecimalRoundTrip | crates/core/src/invite.rs:24-80 | the decimal text of any 64-bit number parses to that number |
| Codecs.ParseU64Exactly | crates/core/src/invite.rs:76-80 | which texts `parse` accepts as a 64-bit number, and as which |
| Codecs.PrintNatMeans | crates/core/src/invite.rs:24-33 | the decimal text of a number has no leading zero and stands for it |
| Invite.RoundTrip | crates/core/src/invite.rs:24-118 | an encodable payload comes back from its token if and only if its address has no colon, its name is not the empty string, its text fits the Base58 decoder's limit (any, or none) and the clock checks pass |
| Invite.ColonIsLost | crates/core/src/invite.rs:106-118 | an address with a colon that encodes and never comes back |
| Invite.EmptyNameIsLost | crates/core/src/invite.rs:77-81 | a payload with an empty name that encodes and never comes back |
| Invite.RoundTripErrors | crates/core/src/invite.rs:24-104 | with a colon-free address and no empty name, success or precisely the decoder's or the clock's error |
| Invite.WindowExact | crates/core/src/invite.rs:83-104 | the clock checks pass if and only if the timestamp is at most 300 s ahead and not expired, and neither 64-bit sum wraps past the check |
| Invite.WindowErrors | crates/core/src/invite.rs:83-104 | which of the two errors an invite outside the window gets |
| Invite.HugeTtlExpires | crates/core/src/invite.rs:92-104 | a time to live near 2^64 makes a fresh invite look expired |
| Invite.Canonicalises | crates/core/src/invite.rs:24-104 | every accepted token, however its fields are spelled, re-encodes to a token that gives the same payload at the same clock if and only if its text fits the decoder's limit, always without one |
| Invite.ThreeFieldsAtLimit | crates/core/src/invite.rs:40-81 | for every payload without a name the three-field token is accepted when its text just fits the limit, and its re-encoding is then refused |
| Invite.TokensDistinct | crates/core/src/invite.rs:24-33 | distinct well-formed invites have distinct tokens |
| Invite.EncodesExactly | crates/core/src/invite.rs:24-118 | a payload encodes if and only if its address ends in `.onion` and has at least 62 bytes, and then to the Base58 of the colon-joined text; else with the error for the address |
| Invite.AcceptsExactly | crates/core/src/invite.rs:40-118 | a token is accepted as a payload if and only if its text spells it (address, hex nonce, number, perhaps a name), the nonce has 16 bytes, the address ends in `.onion` and has 62 bytes, and the clock checks pass |
| Invite.RefusesInOrder | crates/core/src/invite.rs:40-80 | which error every other token gets |
| Invite.OtherAddressRefused | crates/core/src/invite.rs:57-118 | a token of three or four fields with any other address is refused at every clock, time to live and limit, with the error for the address |
| Stream.ByteStream.ReadFrame | crates/core/src/wire.rs:142-178 | however the bytes are cut into reads, the frame or error and the unread rest depend only on their concatenation |
| Stream.ByteStream.ReadFrames | crates/core/src/room.rs:664-687 | repeated reading returns the same frames under any splitting, whether the stream closes, fails or falls silent |
| Stream.FillHello | crates/core/src/hub.rs:477-495 | the chunked loop ends, never reads past 32 bytes, fills the buffer exactly when the stream holds 32, and else says how the stream ended |
| Stream.HubHandshake | crates/core/src/hub.rs:473-532 | peer or error, answer byte, used nonces and unread rest are a function of the concatenated bytes, of how they end (closed, error, time limit), of how each write and flush fares, and of the nonce set |
| Stream.RoomHandshake | crates/core/src/room.rs:602-652 | the same for the room's handshake with its name frame |
| Stream.OnceEach | crates/core/src/hub.rs:505-532 | in any series of handshakes of either hub, whatever is sent and however streams end or fail, no two answer the same nonce with the accept byte |
| Stream.PeerIdsDistinct | crates/core/src/hub.rs:505-514 | different discriminators give different peer ids |
| Stream.JoinerHandshake | crates/core/src/joiner.rs:104-150 | result, bytes written and bytes left unread are a function of the hub's bytes, of how they end and of how each write and flush fares |
| Stream.SidesFit | crates/core/src/joiner.rs:104-150 | if the joiner succeeds, the hub reading what it wrote admits it under the same id and name and stands right behind the name frame when the nonce is fresh and its accept byte gets out; with a used nonce no answer of the hub lets a joiner succeed |
| Stream.BothSucceed | crates/core/src/joiner.rs:104-150 | conversely: with a fresh nonce, an encodable name and working writes the hub admits what the joiner writes, and the joiner, fed the answer and anything behind it, returns its id having written just hello and name frame, and stands right behind the answer |
| Stream.JoinerExactly | crates/core/src/joiner.rs:104-150 | the joiner succeeds if and only if its writes get out, the first byte of the answer is zero and its name encodes |
| Stream.RoomExactly | crates/core/src/room.rs:602-652 | the room admits if and only if the 32 bytes come, the nonce is fresh, the accept byte gets out and a name frame follows; a used nonce is the only cause of its error and is answered with 1 |
| Stream.HubExactly | crates/core/src/hub.rs:473-532 | the hub admits if and only if the 32 bytes come, the nonce is fresh whoever came before, and the accept byte gets out; under the Base58 of the discriminator and a name made of its first four bytes |
| RoomNonces.NoncesHold | crates/core/src/room.rs:616-630 | in every reachable state the used set is exactly the nonces that passed the check, pairwise different |
| RoomNonces.SingleUse | crates/core/src/room.rs:616-640 | no two connections ever get the accept byte for the same nonce |
| RoomNonces.NoncesStay | crates/core/src/room.rs:616-651 | the used set only grows, whatever happens later |
| RoomPeers.PeerMap | crates/core/src/room.rs:498-592 | the map's keys are ids of connections between insert and remove; if no two connections that passed the nonce check share a discriminator, exactly those, each with its name |
| RoomPeers.LastTouchCounts | crates/core/src/room.rs:507-592 | with any discriminators the map holds an id if and only if the last connection with it to touch the map put its entry in, and holds that entry |
| RoomNames.AnnouncedAsSent | crates/core/src/room.rs:503-596 | in every run each join tried carries the Base58 of bytes 16 to 32 of what its connection sent and, as its name, the text of the name frame right behind them; each leave that id |
| RoomNames.MappedAsSent | crates/core/src/room.rs:503-592 | with any discriminators each map entry is what some connection between insert and remove sent, id and name |
| RoomNames.EachMappedAsSent | crates/core/src/room.rs:503-592 | with distinct discriminators each such connection is in the map under the id and with the name it sent |
| RoomTwins.TwinVanishes | crates/core/src/room.rs:588-592 | for any two hellos that differ in the nonce alone there is a run in which the second peer is registered and not in the map, its entry gone with the first |
| RoomDrain.RankDrops | crates/core/src/room.rs:432-599 | once accepting has stopped each handler step lowers the rank and no step raises it |
| RoomDrain.HasStepExactly | crates/core/src/room.rs:488-652 | after the signal an unfinished handler has an enabled step if and only if it is not in an untimed write whose stream neither takes the bytes nor breaks, nor waiting for the nonce lock behind one |
| RoomStall.StallLasts | crates/core/src/room.rs:515-519 | such a handler takes no step however the run goes on, as long as its stream stays so; and with the reject byte no handshake passes the nonce check either |
| RoomStall.StuckStaysMapped | crates/core/src/room.rs:507-519 | a handler stuck in the notice keeps its peer in the map through a shutdown |
| RoomStall.NoticeStalls | crates/core/src/room.rs:507-519 | for any hello and any name whose frame and notice encode there is such a run |
| RoomStall.RejectStalls | crates/core/src/room.rs:622-630 | for any two nonces there is a run in which a replayed one keeps the lock and the other waits for it |
| RoomDrain.Drained | crates/core/src/room.rs:588-592 | at rank zero the map is empty |
| RoomDrain.DrainBound | crates/core/src/room.rs:432-599 | after that, whatever else interleaves, handlers take at most `Rank` more steps, and having taken them the map is empty |
| RoomLimits.TwelveEach | crates/core/src/room.rs:432-599 | that is at most twelve steps for each connection |
| RoomLimits.LeavesForCause | crates/core/src/room.rs:576-592 | nobody is taken out of the map before its reader has ended or shutdown was signalled |
| RoomLimits.PhasesByStep | crates/core/src/room.rs:488-652 | in every run a peer gets past its accept byte only if that was written and flushed, and else fails; its reader starts, its writer subscribes and its handler goes on to the leave by their own steps alone; an ended reader or writer stays ended |
| RoomOrder.LogHolds | crates/core/src/room.rs:323-406 | the event log, the phases and the channel from the readers fit together in every reachable state |
| RoomOrder.EventOrder | crates/core/src/room.rs:323-406 | RoomReady before every join; a connection's join before its leave and every message of it; each at most once; at most one RoomClosed, and no message after it |
| RoomOrder.Channel | crates/core/src/room.rs:376-406 | consumed and waiting events are exactly what the bootstrap left and then the accepted ones, in order; an event is refused only at 256 waiting, the bootstrap's included, or for good after the receiver is gone |
| RoomLimits.BoundsHold | crates/core/src/room.rs:32-34 | in every reachable state at most 256 events, 128 messages and 64 texts wait |
| RoomLimits.PlacesExactly | crates/core/src/room.rs:32-34 | a text is held up exactly by 64 others or a closed channel, a message exactly by 128 others while the loop serves |
| RoomLimits.ArmsExactly | crates/core/src/room.rs:323-406 | in every reachable state, exactly when each arm of the main loop can run and when its launch or a progress report is held up |
| RoomHost.HostReports | crates/core/src/room.rs:323-406 | in every run the host itself reports, in order and no more: ready or failed once launched, the first part of the texts pushed as messages from `[hub]` under its name, and closed if it took the closing arm; it ends by that arm or by the end of the handles |
| RoomHost.ProgressFirst | crates/core/src/bootstrap.rs:185-197 | the client gets the progress reported while it listened and then the accepted events |
| RoomTexts.TextsHold | crates/core/src/room.rs:376-389 | in every reachable state the host has reported and broadcast the same first part of the texts pushed, in order and under its own name, and the rest waits |
| RoomFifo.Fifo | crates/core/src/room.rs:391-404 | chats tried for a connection are a prefix, in order, of those its reader read, and all of them when the channel holds none of it and the loop serves |
| RoomFifo.EndToEnd | crates/core/src/room.rs:664-687 | from a joiner's bytes to the reported chats: same order, nothing invented, own name |
| RoomReports.RefusedOnly | crates/core/src/room.rs:391-404 | the chats of a connection that went into the event channel are those tried, in order, less the refused; the attempt of each refused one was itself turned away at 256 waiting events or for a receiver gone |
| RoomReports.SpeaksForItself | crates/core/src/room.rs:391-404 | what the listener gets under a peer's id is exactly that: neither another peer nor the host speaks with it |
| RoomFifo.HandlerRefinesHandshake | crates/core/src/room.rs:602-652 | under any interleaving the step-by-step handler reaches what the sequential handshake computes on all bytes sent, and its reader has the first frames of the rest |
| RoomBroadcast.Delivery | crates/core/src/room.rs:516-574 | a peer reads exactly its join notice and the kept chats, each decoding to what was sent, also behind a torn write; each chat's fate is true: too large, more than 256 behind, or failed |
| RoomBroadcast.KeptPositions | crates/core/src/room.rs:544-574 | the kept chats are the host's at increasing positions since the subscription |
| RoomBroadcast.NothingSkipped | crates/core/src/room.rs:544-574 | if every fate is "written", the kept chats are all of them |
| RoomLimits.SinceSubscription | crates/core/src/room.rs:544-545 | in every run the stretch of chats meant for a peer starts, for good, where the host's chats ended when it subscribed |
| RoomLimits.NextExactly | crates/core/src/room.rs:544-571 | a writer at most 256 chats behind takes the next for writing or passes over it if it does not encode; one further behind loses just enough to be 256 behind |
| RoomLimits.NoticeSpelled | crates/core/src/room.rs:516-519 | the notice decodes to a system message of the peer's name and " joined" |
| RoomLate.MessageAfterLeave | crates/core/src/room.rs:576-596 | after a leave a message can still be reported if and only if the loop serves and a chat of that connection is queued, or in its reader's hand, or the reader still runs and its unread bytes can be continued to a chat |
| RoomLate.LeaveOvertakesMessage | crates/core/src/room.rs:588-596 | for any name and chat that encode there is a run in which it is |
| Host.Host.CheckNonce | crates/core/src/room.rs:616-630 | the locked check changes the shared state exactly as the transition does |
| Host.Host.MainTurn | crates/core/src/room.rs:366-406 | one turn of the biased select is the enabled arm of highest priority, or nothing when no arm is enabled |
| Host.Host.RunLoop | crates/core/src/room.rs:366-406 | the loop, turn by turn among any steps of the other tasks, performs a run of the room that keeps to the bias |
| Host.OneTurnAfterSignal | crates/core/src/room.rs:366-374 | once the signal is given the loop takes at most one more turn, which ends it, and reports no message any more |
| Host.TextsFirst | crates/core/src/room.rs:376-404 | a peer's message is taken only when no signal is given, a handle is still there and every text pushed so far has been reported and broadcast |
| Host.Biased | crates/core/src/room.rs:366-406 | the arm chosen is enabled, and none is chosen only if none is enabled |
| App.Client.HandleEvent | crates/cli/src/main.rs:124-172 | the in-place handler computes the fold's step, with all fields |
| App.Client.Follow | crates/cli/src/main.rs:739-742 | the client, event after event, ends in the fold of the stream |
| App.ShownUnique | crates/cli/src/main.rs:143-155 | no id is ever listed twice |
| App.MirrorHolds | crates/cli/src/main.rs:143-155 | with ids distinct among those that passed the nonce check and no join or leave refused, folding the accepted events lists exactly the announced connections |
| App.ObserverMirrors | crates/cli/src/main.rs:143-155 | the client that has consumed every event shows exactly those, each once, and exactly the peer map when no connection is between a map change and its event |
| Screen.LinesExactly | crates/cli/src/main.rs:113-172 | after any events the client shows one line for each but the progress ones, in order, with the sender's name and text |
| Screen.ModeExactly | crates/cli/src/main.rs:124-168 | it is shutting down if and only if the room was closed and has not become ready since, and shows the bootstrap, with the last progress, if and only if the room has neither become ready nor closed and nobody joined |
| Handshake.InvHolds | crates/core/src/room.rs:602-652 | what each side has written and read, in every reachable state of the composition |
| Handshake.Agreement | crates/core/src/joiner.rs:104-150 | whenever both sides succeed: same id, same name, both on a frame boundary, what is in flight is exactly what followed |
| Handshake.UsedNonceRefused | crates/core/src/joiner.rs:125-145 | neither side succeeds with a used nonce |
| Handshake.AdmittedIsVerdict | crates/core/src/room.rs:602-652 | a hub that has admitted the joiner has come to what the sequential handshake computes on everything the joiner wrote |
| Handshake.JoinedIsOutcome | crates/core/src/joiner.rs:104-150 | a joiner that has succeeded has come to what its sequential handshake computes on everything the hub wrote: id, bytes written, bytes left |
| Handshake.NeverStuck | crates/core/src/joiner.rs:104-150 | healthy and unfinished implies an enabled handshake step |
| Handshake.Completes | crates/core/src/joiner.rs:104-150 | without timeouts, with a fresh nonce and an encodable name: neither side fails, and within 67 + 2 frame lengths both are admitted |
| Joiner.Task.FlushPending | crates/core/src/joiner.rs:275-283 | the in-place loop computes the flush |
| Joiner.Task.RunLoop | crates/core/src/joiner.rs:206-413 | the in-place loop computes the run the lemmas speak about |
| Joiner.RunSound | crates/core/src/joiner.rs:206-413 | for every schedule: the messages of the texts shown, with the joiner's id, its name and the text, are those delivered, pending or dropped, as multisets; nothing pending on an Ok exit; nothing that arrived is missing or reordered |
| Joiner.ConnectedRun | crates/core/src/joiner.rs:338-413 | bytes written are the frames of a prefix W of the texts and at most a torn frame; on Ok the echoes are W then the drained texts, each once |
| Joiner.ShownInOrder | crates/core/src/joiner.rs:206-283 | each text shown has had one try, in order; those that found room are delivered and the others wait in the order shown, and an Ok exit is the final flush of such a state |
| Joiner.FlushIntoSlots | crates/core/src/joiner.rs:275-283 | flushing into k slots delivers the last min(k, n) pending events reversed and drops the rest |
| Joiner.LosslessRun | crates/core/src/joiner.rs:252-283 | if no `try_send` fails, nothing is pending or dropped and deliveries are the echoes in order |
| Joiner.LosslessEnds | crates/core/src/joiner.rs:206-283 | then each delivery is a message from the joiner's id, under its name, with the text shown, and on an Ok exit those are all texts given to the loop, in order |
| Joiner.HowItEnds | crates/core/src/joiner.rs:206-240 | which arms end either loop, and with which result |
| Joiner.SendsExactly | crates/core/src/joiner.rs:393-434 | a received text goes out whole and is then shown, or ends the loop with the error of its encoding, write or flush and is shown nowhere |
| Joiner.WorkedOff | crates/core/src/joiner.rs:338-413 | with the senders gone the loop takes one turn for each text left and ends Ok, every text on the wire when connected, shown otherwise |
| Joiner.ReaderLoop | crates/core/src/joiner.rs:302-334 | the reader reports, in order, exactly the frames that decode among those read before the stream's first error, end or silence; a frame that does not decode is skipped |
| EndToEnd.TextsArriveInOrder | crates/core/src/joiner.rs:338-413 | joiner loop, any cut of the bytes and any interleaving in the host: reported chats are a prefix of the joiner's texts, under its name |
| EndToEnd.TextsAreHeard | crates/core/src/room.rs:391-404 | and what the listener gets under that peer's id is those texts in order, less exactly the refused ones |
| EndToEnd.AgreementInRoom | crates/core/src/room.rs:602-652 | in a room with any number of connections, one that has been sent a successful joiner's bytes is known under the id and name of that joiner, its reader starting right behind the name frame |
| EndToEnd.JoinerIsKnown | crates/core/src/room.rs:503-514 | a joiner that succeeded as N is announced as N and nothing else, mapped as N while in the map, and shown as N by a client that has consumed every event |
| EndToEnd.ChatsReachJoiner | crates/core/src/room.rs:516-574 | what a joiner's reader reports is a prefix of the join notice and the host's kept chats |
| EndToEnd.TextsReachJoiner | crates/core/src/room.rs:376-389 | that is, of the notice and of texts pushed through the room handles, at increasing positions, under the host's name |
| Handles.InvHolds | crates/core/src/room.rs:169-195 | count, flag, signals and pending signals balance in every interleaving of clone, quit and the stages of drop |
| Handles.QuittingDropIsLast | crates/core/src/room.rs:169-178 | a drop that goes on to quit is the last holder |
| Handles.SignalledOnce | crates/core/src/room.rs:180-189 | shutdown is sent at most once, and has been if the flag is set and no call is in between |
| Handles.AllGoneWakes | crates/core/src/room.rs:169-195 | once all handles are gone the sender is closed, and a set flag was signalled |
| Handles.FlagExactly | crates/core/src/room.rs:169-195 | with all handles gone the flag is set if and only if somebody quit or a drop read a count of one |
| Handles.RacingDrops | crates/core/src/room.rs:169-178 | two drops can race past the count check and leave the flag unset |
| Handles.ClosedForGood | crates/core/src/room.rs:129-167 | every send or invite that starts after the flag is set is refused; the only texts that still come are those of sends already past their check |
| Handles.OpenTillThen | crates/core/src/room.rs:125-160 | as long as the flag is unset no call is refused: every send is posted, lost at a closed channel or on its way, every invite made |
| Handles.SendPosts | crates/core/src/room.rs:125-137 | a send checked before the flag can post, also when the flag is set in between |
| Handles.LastDropCutsNothing | crates/core/src/room.rs:169-189 | when a drop quits no send is in flight, and none is posted or lost after it |
| RoomHandles.TiedHolds | crates/core/src/room.rs:203-235 | in every joint run of handles and room, the room is signalled exactly when shutdown was sent or its sender is gone, its texts are open as long as a handle is held, and what was pushed is what was posted |
| RoomHandles.CallsGoOn | crates/core/src/room.rs:165-195 | the tie holds up no call but a post, which needs a free place in the channel |
| RoomHandles.TextGoesIn | crates/core/src/room.rs:125-137 | such a text goes into the room's channel, behind all sent before, if and only if the loop has not ended and fewer than 64 wait |
| RoomHandles.SignalledExactly | crates/core/src/room.rs:169-195 | the room is signalled if and only if shutdown was sent, which somebody asked for, or every handle is gone |
| RoomHandles.AllGoneEnds | crates/core/src/room.rs:366-374 | once every handle is gone, however the drops raced, the main loop has an arm that ends it and the bias runs that one |
| RoomHandles.AllGoneQuiets | crates/core/src/room.rs:366-406 | from then on it takes at most one more turn and reports nothing any more |
| Hub.ReaderTask | crates/core/src/hub.rs:536-585 | messages forwarded, events broadcast and pongs queued are those of the stream's frames up to the first bad one, the stream's end or its silence |
| Hub.RelayedSnoc | crates/core/src/hub.rs:552-580 | one more frame: a chat is forwarded and broadcast under the hub's id and name for the peer, a ping answered with a pong, anything else forwarded |
| Hub.RelayedStops | crates/core/src/hub.rs:545-552 | a frame that does not decode ends the relaying |
| Hub.Writer.TakeBroadcast | crates/core/src/hub.rs:604-637 | one event written, passed over or lost to lag, with the books kept in balance |
| Hub.Writer.Run | crates/core/src/hub.rs:587-641 | for every schedule the books balance; whole writes unless a write fails; on a closed queue everything queued has been tried |
| Hub.StreamIntegrity | crates/core/src/hub.rs:587-641 | the peer reads the frames of all writes up to the first cut one, in order; all of them, ending on a boundary, if none was cut |
| Hub.BroadcastReads | crates/core/src/hub.rs:608-620 | a broadcast decodes to what its event stands for, under the hub's name for the speaker |
| Hub.BroadcastSpelled | crates/core/src/hub.rs:608-620 | that is the chat under the name and with the text of the event, or a system message of a name or id and " joined" or " left" |
| Hub.QueueFirst | crates/core/src/hub.rs:592-602 | frames queued when a broadcast is taken have gone out before it, each once and in order |
| Hub.BroadcastsInOrder | crates/core/src/hub.rs:604-637 | broadcasts are written in channel order, none twice |
| Hub.BroadcastsMissed | crates/core/src/hub.rs:604-637 | those not written are exactly the ones not for the wire, not encodable, or more than 256 behind |
| HubRelay.FitsHolds | crates/core/src/hub.rs:290-585 | in every reachable state of the hub's tasks the broadcast channel holds exactly the chats its readers decoded, of each speaker in order and once, and the hub's own events; no queue holds a chat |
| HubRelay.ReadersAgree | crates/core/src/hub.rs:536-585 | in every reachable state what the tasks have broadcast of a peer is what `reader_task` broadcasts for the frames it has read |
| HubRelay.StopsForGood | crates/core/src/hub.rs:536-585 | a reader that has stopped, or met a bad frame, reads no more |
| HubRelay.ChatsAreRelayed | crates/core/src/hub.rs:536-641 | every chat a peer reads before the first cut write is the hub's announcement or a frame some peer's reader decoded, with its text and the hub's name for the speaker |
| HubRelay.ChatsInOrder | crates/core/src/hub.rs:587-641 | and those of one speaker come in the order of his frames |

## Left out

- Tor bootstrap, onion service launch and the Tor connector: an accepted connection is a fresh pair of byte channels.
- Real time: a timeout is a step that may happen at any moment the code waits; the clock of the invite check is a parameter.
- Randomness: nonces and discriminators are inputs; distinctness is assumed where a theorem names it.
- General JSON: unknown fields, nested values, numbers, the array form of a struct and the map form of an enum tag are refused by `Json.Parse`, where serde_json would accept some of them; nothing the program writes has them.
- The `base58` and `hex` crates are not part of this model; their behaviour is taken from the published formats. A limit of the Base58 decoder is a parameter, counted in bytes.
- Overflow in the invite's sums wraps, as in a release build; a debug build would panic instead.
- `Room` lets any ready arm of a `select!` run, so its theorems cover more runs than the `biased` loops have; `Host` adds the order of the main loop. One turn is one step: a signal that comes between the polls of a turn counts as coming after it.
- An aborted reader or writer may still take steps until it is seen to end, which covers every moment at which the abort can take effect.
- After a failed write to a peer the room's stream takes no further bytes from its writer (a broken stream stays broken); `Hub.Writer` does not assume this.
- Host.Host.Local: a connection is a value in the object's sequence, so a handler's own step replaces it instead of updating fields, and nothing is said about aliasing between handlers.
- Stream.HubHandshake: a reject write that never ends counts as failed; what it holds up is modelled for `room.rs`, in `RoomStall`, and the same lock in crates/core/src/hub.rs:505-512 is not.
- `RoomReady` does not carry the address and port, and peers not the time they joined.
- `PeerRegistry`'s own map, `Hub::next_event` and the messages readers forward to it: single map or channel operations without interplay. In `HubRelay` the bytes a peer will send are fixed when it joins, and a writer may have got as far as any part of the channel and its queue.
- The mock host and joiner paths: near copies of the modelled ones.
- The line editor, key handling, rendering, name persistence and command line of the client.
- Log output and the wording of errors.
