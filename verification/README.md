# IRC client library: a verified model

The library connects to an IRC server, negotiates IRCv3 capabilities and SASL, parses and prints
lines, and tracks the channels and users the client sees. This project models its three cores in
Dafny and proves properties of the model.

**Negotiation.** `Wire` is the connection: whether the n-th send succeeds is a function of n that every
theorem quantifies over. `EventBus` is the handler table and the queue; `Capabilities`, `Sasl`,
`Registration` and `Keepalive` are the handlers, as classes whose methods update fields in place, each
method proved equal to a function on values. `Negotiation` puts those functions together into one
transition system: lines, dispatch, handler calls, timers that fire only while armed, waiters that count
ready tokens, aborts and resets by the application. `Factory` makes the subscriptions in the order of the
source, and `Session` proves that the objects wired together take exactly the system's steps. Over every
run, `NegotiationSafety` counts signals against rounds, `NegotiationRounds` says how many rounds and
CAP ENDs there are, `NegotiationSignals` which sessions end without a signal, `NegotiationOnce` and
`NegotiationProgress` what this means for the end of the negotiation, `NegotiationClosed` what happens
after it, `RegistrationRuns` how often a failed registration is reported, `CapabilityAccounting` what becomes of each name, and `NegotiationDrain` that the queue empties.
`CapabilityText` and `SaslOffer` say what the handlers make of the text of CAP lines and of challenges, from
the advertisement to AUTHENTICATE, and `Vocabulary` which lines the library sends at all.
`NegotiationExamples` has concrete runs that the theorems turn on.

**Codec.** `Message` holds the parser and printer, `TagEscaping` the six replacement passes each way,
`Utf8` the validity check of the parser, `CodecTheorems` what printing and parsing preserve, `LineReading`
which lines are accepted and what they mean, without reference to the parser or the printer. A string is a
sequence of bytes. `Events` turns messages into events and
`EventPayloads` says which event each line becomes; `Echo` is the connection's own state and the local
echo of sent messages.

**Tracking.** `TrackedHeap` has the client, its channels and their users as objects updated in place;
`Tracking` says on values what each handler does; `TrackingTheorems` proves that this is a plain
relation between channels and nicks, and the rules for MODE; `TrackingRuns` states it end to end on the
heap, `LineEffects` says what each line does to every channel, user and mode, and `Nicks` compares the client's nick with the connection's. `Modes` and `Prefixes` are the mode
lists and the prefix characters of NAMES.

Where the code and its intent differ the model follows the code, and a theorem says exactly when the
intent is met:

- A tag value with a backslash directly before `:`, `s`, `r`, `n` or `0` does not survive escaping and
  unescaping (`TagEscaping.RoundTripExactlyWhenSafe`).
- An accepted line may print as one that reads differently (`CodecTheorems.PrintingNormalises`,
  `CodecTheorems.ReprintCanFail`).
- Spaces between the parameters of a line do not matter, but a second space in front of the command makes
  the command empty (`LineReading.SpacesDoNotMatter`, `LineReading.SpaceHidesCommand`).
- SASL data of exactly one chunk is never completed for the server, and other data longer than a chunk
  and no multiple of it is followed by an empty response (`Sasl.ServerReadsOneResponseExactlyWhen`).
- CAP END may be sent more than once: once for each opening step of the run, and at most once if and only
  if the run has at most one (`NegotiationRounds.AtMostOneEndExactlyWhen`). Two CAP LS lines that
  advertise nothing wanted make two (`NegotiationExamples.CapEndTwice`).
- Abort, the SASL timer, Reset and a failed send end a session without a ready signal; every CapPreEnd is
  answered if and only if no session ended so and none is active
  (`NegotiationSignals.AllSignalledExactlyWhen`). With one round and listeners that signal once, only a
  waiter's timer can then send CAP END (`NegotiationSignals.SilentEndNeedsTimer`,
  `NegotiationExamples.AbortWaitsForTimer`).
- An ACK after CAP END has no effect, so what CAP NEW made the library request stays pending
  (`NegotiationClosed.AnswerTakesEffectExactlyWhen`, `NegotiationClosed.AnswersAreIgnored`,
  `NegotiationExamples.LateAckIsLost`).
- A failed registration may be reported twice: once for a refused line and once for the timer, which stays
  armed. It is reported exactly once if and only if exactly one of the two happened, and never twice,
  whatever the timer still does, if and only if no line was refused
  (`RegistrationRuns.ReportedOnceExactlyWhen`, `RegistrationRuns.NeverTwiceExactlyWhen`,
  `NegotiationExamples.CollisionReportedTwice`).
- Renaming a user to the nick they have deletes them (`TrackingTheorems.NickRefinesExactlyWhen`).
- Prefixes of NAMES are read as bytes and written as runes, so the entries of a NAMES line render back,
  whatever the order of the reverse map, if and only if every prefix they can have is ASCII and shares its
  mode with no other (`Prefixes.AlwaysRendersBackExactlyWhen`, `Prefixes.SharedModeShows`,
  `Prefixes.AccentedPrefixShows`).
- The welcome renames the connection and not the client. `Nicks.NicksAgreeExactlyWhen` says when the two
  nicks are equal; after a collision they are not (`Nicks.CollisionParts`), and the own nick of
  `TrackingTheorems` is the client's.

A step of the transition system is one handler call, one timer callback or one iteration of a waiter.
All proofs are for every input, every outcome of the sends, every map order and every run.

## Model

| member | source | states |
|---|---|---|
| TagEscaping.EscapeIsOneSubstitution | parser/message.go:200-208 | the six replacement passes of escapeTagValue, which could interact, are one substitution per character |
| TagEscaping.EscapedIsClean | parser/message.go:200-208 | an escaped value never holds `;`, space, CR, LF or NUL, so it cannot break the tag section; only the empty value escapes to the empty text |
| TagEscaping.UnescapeIsSafe | parser/message.go:155-163 | every unescaped value has no backslash directly before `:`, `s`, `r`, `n` or `0` |
| TagEscaping.UnescapeIsDecoderExactlyWhen | parser/message.go:155-163 | the six passes of unescapeTagValue equal one left-to-right decoder that keeps unknown escapes if and only if no doubled backslash, read left to right, stands directly before an escape letter |
| TagEscaping.NoDoubleBackslashIsUnambiguous | parser/message.go:155-163 | that condition holds for every text without two adjacent backslashes |
| TagEscaping.RoundTripExactlyWhenSafe | parser/message.go:155-208 | unescape(escape(v)) = v if and only if no backslash in v is directly followed by one of `:`, `s`, `r`, `n`, `0` |
| TagEscaping.UnescapeNormalises | parser/message.go:155-208 | unescape(escape(unescape(w))) = unescape(w) for every text w |
| TagEscaping.RoundTripFails | parser/message.go:155-208 | a concrete value that does not survive: backslash, then n |
| Message.ParseMessage | parser/message.go:31-123 | the moving-position parser, with its error cases in the order of the code, computes the parse of the whole line |
| Message.ParseAfterTags | parser/message.go:76-122 | from any position, what follows the tags is parsed as source, command and parameters |
| Message.ParseParams | parser/message.go:98-111 | the loop collects the parameters of the space-separated pieces: empty pieces skipped, everything from the first one that begins with `:` joined into one |
| Message.ParseTags | parser/message.go:125-153 | the loop builds the tag map of the section, later keys winning, and fails exactly on an empty key before `=` |
| Message.ToString | parser/message.go:165-198 | whatever order the tag map is enumerated in, the line is the printed form for some enumeration of the tags |
| CodecTheorems.PrintThenParse | parser/message.go:31-198 | parsing the printed form of a well-formed message with an ASCII command returns its tags, source, command and parameters, for every tag order |
| CodecTheorems.ParseYields | parser/message.go:31-153 | every accepted line gives clean tag keys, round-trip-safe tag values, a space-free source, an upper-case space-free command and proper middle parameters |
| CodecTheorems.RoundTripExactlyWhen | parser/message.go:31-198 | for all messages with an ASCII command and all tag orders: print then parse returns the same fields if and only if the message is well formed and the line is valid UTF-8 within the length limit |
| CodecTheorems.PrintingNormalises | parser/message.go:31-198 | for every accepted line without LF and with an ASCII command: reprinting and parsing returns the same fields if and only if the message is reprintable and the reprint fits the limit, for every tag order |
| CodecTheorems.TagSectionRoundTrip | parser/message.go:125-179 | the printed tag section of clean tags parses back to the same map, in every order |
| CodecTheorems.PrintValid | parser/message.go:165-198 | printing valid UTF-8 fields gives valid UTF-8 |
| CodecTheorems.LineEndIsLost | parser/message.go:46 | a message whose last piece ends in CR LF never round-trips: the parser takes the CR LF for the line's end |
| CodecTheorems.NotReprintable | parser/message.go:59-84 | a message without command text, or whose command would be read as a source or tag section, never round-trips |
| CodecTheorems.ReprintCanFail | parser/message.go:76-96 | an accepted line, `: :a`, whose reprint reads differently |
| LineReading.ReadsExactly | parser/message.go:31-123 | for all lines and messages: the parser returns exactly this message if and only if the line is valid UTF-8 of at most 8704 bytes and is written as tags, source, command, middle parameters and trailing parameter with any number of spaces between the parameters, meaning that message |
| LineReading.BodyRead | parser/message.go:90-111 | a command, middle parameters behind one or more spaces each, and spaces or a trailing parameter at the end: exactly those parameters are read |
| LineReading.SectionRead | parser/message.go:125-153 | a tag section of any pieces, empty and repeated ones included: refused exactly for an empty key before `=`, otherwise the last piece for each key counts |
| LineReading.SpacesDoNotMatter | parser/message.go:98-111 | two texts that differ only in the number of spaces behind the command give the same fields |
| LineReading.SpaceHidesCommand | parser/message.go:76-96 | a second space in front of the command makes the command empty and its name the first parameter |
| LineReading.RefusedExactly | parser/message.go:34-88 | each reason for a refusal, in terms of the text |
| LineReading.UpperExactly | parser/message.go:96 | the command is changed in the 26 small letters and nowhere else |
| LineReading.PrintsExactly | parser/message.go:165-198 | what is printed, byte by byte: single spaces, and a colon exactly before a last parameter that is empty, holds a space or begins with a colon |
| Utf8.ValidExactlyWhen | parser/message.go:34 | the valid strings are exactly those that some sequence of runes is written as |
| EventPayloads.MembershipLines | parser/events.go:361-388 | JOIN, PART, QUIT, KICK and NICK: the one event and its payload, from the nick in the source and the parameters; KICK names the second parameter |
| EventPayloads.ChannelLines | parser/events.go:389-424 | MODE, TOPIC and INVITE: the one event and its payload |
| EventPayloads.TalkLines | parser/events.go:401-430 | PRIVMSG, NOTICE and actions: target, nick and text; an action and a CTCP message are told by their text |
| EventPayloads.ServerLines | parser/events.go:349-360 | PING, PONG, ERROR and AUTHENTICATE: the one event, with the last parameter |
| EventPayloads.CapLines | parser/events.go:145-160 | CAP: the event of the second parameter, or unknown |
| EventPayloads.SaslNumerics | parser/events.go:163-167 | 900 and 903 are success, 901, 902 and 904 to 908 failure |
| EventPayloads.OtherNumerics | parser/events.go:168-183 | 001 registers and is passed on; WHOIS, WHO and LIST replies are not passed on with parameters; 353, 366 and every other numeric are |
| EventPayloads.OtherLines | parser/events.go:178-183 | every other command is unknown |
| EventPayloads.FromExactly | parser/events.go:444-455 | the nick of a source is what stands before the first exclamation mark |
| Events.CreateEventFromMessage | parser/events.go:337-442 | the loop builds exactly one event per determined type, in order, or stops where the code panics |
| Events.PanicsExactlyWhen | parser/events.go:388-396 | building events panics if and only if the message is a MODE with fewer than two parameters |
| Events.ServerCannotForge | parser/events.go:111-317 | no line from a server produces CapPreEnd, CapEndReady, CapEnd, CapAdded, CapRemoved, Connected, Disconnected or NamesComplete; a line causes at most two events, each carrying it |
| Events.EventsForFields | parser/events.go:337-442 | types and payloads depend on source, command and parameters only, not on tags or raw text |
| EventBus.EventBus.Subscribe | parser/eventbus.go:84-96 | hands out the next number and appends the entry at the end of its type |
| EventBus.EventBus.UnsubscribeByID | parser/eventbus.go:104-116 | the backward loop removes the last entry with that number, keeping the others in order, or changes nothing |
| EventBus.EventBus.CountListeners | parser/eventbus.go:98-102 | the number of entries of the type |
| EventBus.EventBus.Take | parser/eventbus.go:46-68 | the oldest event leaves the queue and a snapshot of its entries is taken |
| EventBus.EventBus.Emit | parser/eventbus.go:118-123 | the event goes to the end of the queue |
| Subscriptions.NumberedAlways | parser/eventbus.go:84-116 | over every interleaving of two-step Subscribe and UnsubscribeByID every number in the table or in flight is below the next one, stands for the one subscription it was issued to, and occurs once across all types |
| Subscriptions.UnsubscribeRemovesOnlyItsOwn | parser/eventbus.go:104-116 | in every reachable state removal drops at most the one subscription the number was issued for, keeps the order of the rest, and touches no other type |
| Subscriptions.ClaimsPersist | parser/eventbus.go:84-96 | what a number was issued for never changes later |
| Capabilities.CapabilitiesHandler.HandleConnected | parser/capabilities.go:73-86 | negotiating exactly if CAP LS could be sent |
| Capabilities.CapabilitiesHandler.HandleCapLS | parser/capabilities.go:88-116 | request the wanted names; end the negotiation if nothing was requested or nothing is pending; stop on a send failure |
| Capabilities.CapabilitiesHandler.HandleCapACK | parser/capabilities.go:118-147 | the loop adds each word, takes it off pendingCaps and emits CapAdded for it, in order, then checks for the end |
| Capabilities.CapabilitiesHandler.HandleCapNAK | parser/capabilities.go:149-169 | every word leaves pendingCaps, then the end is checked |
| Capabilities.CapabilitiesHandler.HandleCapDEL | parser/capabilities.go:171-193 | every word leaves the shared map with one CapRemoved each, in order |
| Capabilities.CapabilitiesHandler.HandleCapNEW | parser/capabilities.go:195-209 | new names are recorded and the wanted ones requested |
| Capabilities.CapabilitiesHandler.RequestCapabilities | parser/capabilities.go:211-247 | the two loops: exactly the advertised names become pending and are requested in one line; nothing is sent if there are none |
| Capabilities.CapabilitiesHandler.EndCapabilityNegotiation | parser/capabilities.go:249-311 | only while negotiating: emits CapPreEnd with the acknowledged names and values and leaves a waiter |
| Capabilities.CapabilitiesHandler.StartWaiter | parser/capabilities.go:273-287 | the waiter counts the listeners of CapPreEnd; with none it sends CAP END at once |
| Capabilities.CapabilitiesHandler.ReceiveReady | parser/capabilities.go:289-298 | one ready token is consumed; at the expected count CAP END is sent and the waiter ends |
| Capabilities.CapabilitiesHandler.TimeOut | parser/capabilities.go:299-302 | the 30 s timer makes the waiter send CAP END |
| Capabilities.CapabilitiesHandler.Cancel | parser/capabilities.go:303-305 | a cancelled waiter ends without sending |
| Capabilities.CapabilitiesHandler.HandleCapEnd | parser/capabilities.go:313-324 | CAP END is sent; negotiating is cleared only if that worked |
| Capabilities.CapabilitiesHandler.HandleCapEndReady | parser/capabilities.go:326-333 | a token is added unless the buffer of 100 is full |
| Capabilities.CapabilitiesHandler.AddCapability | parser/capabilities.go:353-371 | a name already acknowledged keeps its value; a new one gets its advertised value |
| Capabilities.CapabilitiesHandler.ParseAvailableCapabilities | parser/capabilities.go:428-448 | the loop records every advertised name with its value |
| Capabilities.CapabilitiesHandler.ProcessNewCapabilities | parser/capabilities.go:461-490 | records what is advertised and requests what is wanted of it, in advertised order |
| Capabilities.CapabilitiesHandler.Reset | parser/capabilities.go:415-426 | a fresh map replaces the shared one; pendingCaps is not cleared |
| CapabilityText.FieldsExactly | parser/capabilities.go:429 | the words of a text are exactly those it lists between white space, whatever the white space |
| CapabilityText.ProcessesText | parser/capabilities.go:428-490 | for every list of `name` and `name=value` words, however spaced: each name gets the value of its last word, the wanted names go out in one REQ line, in order, and are pending; nothing else changes |
| CapabilityText.HandlesLS | parser/capabilities.go:88-116 | CAP LS with such a text while negotiating, and whether the negotiation ends |
| CapabilityText.HandlesNEW | parser/capabilities.go:195-209 | CAP NEW with such a text |
| CapabilityText.HandlesACK | parser/capabilities.go:118-147 | CAP ACK: every word is active, with its old value, or the advertised one, or none; one CapAdded each, in order, and the end if nothing is pending |
| CapabilityText.HandlesNAK | parser/capabilities.go:149-169 | CAP NAK: no word is pending any more, and the end if nothing is |
| CapabilityText.HandlesDEL | parser/capabilities.go:171-193 | CAP DEL: no word is active any more, one CapRemoved each, in order |
| CapabilityText.ValueReachesPreEnd | parser/capabilities.go:249-271 | advertised, requested and acknowledged, a capability is in the CapPreEnd event with the value it was advertised with |
| CapabilityText.Forgets | parser/capabilities.go:415-426 | what Reset forgets and what it keeps |
| SaslOffer.OfferDecides | parser/sasl.go:372-409 | an idle handler with both credentials tries AUTHENTICATE PLAIN if and only if PLAIN is in the comma-separated value, or there is no value; otherwise SASLFail and one ready signal |
| SaslOffer.NoOffer | parser/sasl.go:346-403 | the other branches of handleSasl: what each announces, and that none opens a session |
| SaslOffer.ChallengeAnswered | parser/sasl.go:411-537 | while requesting, the challenge `+` is answered with the whole encoded user NUL user NUL password, in pieces; anything else with AUTHENTICATE * |
| SaslOffer.ChallengeOtherwise | parser/sasl.go:413-430 | outside that state a challenge is ignored; without a mechanism it aborts |
| SaslOffer.Endings | parser/sasl.go:298-609 | the state, the announcements and the line with which each way of ending leaves a session |
| SaslOffer.OfferReachesServer | parser/sasl.go:372-409 | end to end: `sasl` advertised with a list of mechanisms, requested and acknowledged; AUTHENTICATE PLAIN is tried if and only if PLAIN is in the list |
| Sasl.PlainMechanism.Start | parser/sasl.go:39-72 | the response encodes username NUL username NUL password; both credential buffers are overwritten with zeros and dropped; a second start fails |
| Sasl.PlainMechanism.CopyAt | parser/sasl.go:47-55 | the loop copies the source buffer to its place and leaves the rest of the target alone |
| Sasl.PlainMechanism.Wipe | parser/sasl.go:59-67 | the loop leaves only zero bytes |
| Sasl.PlainPayloadSplits | parser/sasl.go:44-55 | the server can split the payload into the three parts if and only if neither credential holds a NUL |
| Sasl.SASLHandler.StartAuth | parser/sasl.go:247-296 | only from the inactive state, with a mechanism the server lists: AUTHENTICATE PLAIN, then the timer; a send failure leaves the state failed |
| Sasl.SASLHandler.StartPlainAuthentication | parser/sasl.go:629-642 | needs PLAIN on offer and both credentials; installs a fresh mechanism and starts |
| Sasl.SASLHandler.HandlePreEnd | parser/sasl.go:346-409 | every branch of handleSasl: exactly one ready signal unless a session was started |
| Sasl.SASLHandler.Abort | parser/sasl.go:298-307 | only an active session; it fails, the timer stops, AUTHENTICATE * is sent, and no ready signal is emitted |
| Sasl.SASLHandler.HandleAuthenticate | parser/sasl.go:411-472 | only while requesting; answers the empty challenge, aborts on anything else |
| Sasl.SASLHandler.SendData | parser/sasl.go:474-537 | the sending loop sends the chunks and the closing `+` one by one and stops at the first failure |
| Sasl.SASLHandler.HandleSASLSuccess | parser/sasl.go:539-564 | an active session ends, SASLSuccess is re-emitted, then one ready signal |
| Sasl.SASLHandler.HandleSASLFail | parser/sasl.go:566-599 | an active session ends, its mechanism is reset, SASLFail is re-emitted with the reason, then one ready signal |
| Sasl.SASLHandler.TimerFired | parser/sasl.go:309-334 | the timer fails the session and emits SASLFail, without a ready signal |
| Sasl.SASLHandler.Reset | parser/sasl.go:601-609 | inactive again, timer off, mechanism reset |
| Sasl.LongDataIsChunked | parser/sasl.go:474-537 | for data longer than a chunk: all sends succeed and the accepted payloads are ceil(n/size) pieces that concatenate to the data, then `+`; or one fails and what was accepted is a prefix, the state is failed and exactly one SASLFail is emitted |
| Sasl.PiecesShape | parser/sasl.go:503-511 | there are ceil(n/size) pieces, all but the last exactly size long |
| Sasl.PiecesConcat | parser/sasl.go:503-511 | the pieces concatenate to the data |
| Sasl.SendEachLog | parser/sasl.go:504-536 | what goes out is the accepted payloads in order and at most one refused one |
| Sasl.ServerReadsOneResponseExactlyWhen | parser/sasl.go:489-536 | under the chunk rule of IRCv3 SASL 3.1 the server reads exactly the one response if and only if it is shorter than a chunk or a longer multiple of the chunk size; one full chunk never completes, other long data is followed by an empty extra response |
| Keepalive.PingHandler.HandlePing | parser/ping.go:62-77 | PING is answered with PONG and what it carried; a failed send causes one Error event |
| Keepalive.PingHandler.HandleRaw | parser/ping.go:54-60 | every line restarts the timer once it exists |
| Keepalive.PingHandler.HandleWelcome | parser/ping.go:35-39 | the welcome makes the timer, once |
| Keepalive.PingHandler.TimerFired | parser/ping.go:41-52 | the timer sends PING; a failed send causes one Error event |
| Registration.RegistrationHandler.constructor | parser/registration.go:59-77 | three subscriptions in order; the number of the numeric one is kept |
| Registration.RegistrationHandler.SendRegistrationCommands | parser/registration.go:120-160 | on the objects: PASS if there is one, NICK, USER, stopping at the first failure |
| Registration.RegistrationSends | parser/registration.go:120-203 | a registration that starts gets accepted the longest prefix of PASS, NICK, USER that the sends allow; the first refused line is the last, fails the registration and causes exactly one Error event; the timer is armed either way |
| RegistrationRuns.ReportsExactly | parser/registration.go:120-229 | over every run: the Error events of the registration handler are one if a line of its own was refused (PASS, NICK, USER or the NICK that answers a collision) plus one if its timer fired; the registration has failed exactly if there was any |
| RegistrationRuns.ReportedOnceExactlyWhen | parser/registration.go:162-229 | over every run: at most one report if and only if not both happened; a failed registration is reported exactly once if and only if exactly one did |
| RegistrationRuns.NeverTwiceExactlyWhen | parser/registration.go:162-178 | whatever its timer still does, the handler reports at most one failure if and only if no line of its own was refused in the run |
| RegistrationRuns.CollisionAnswered | parser/registration.go:205-219 | 433 while active, and nothing else, is answered with NICK and the nick with an underscore |
| RegistrationRuns.WelcomeAnswered | parser/registration.go:231-249 | the welcome completes an active registration, once, and is passed on with the name of the server |
| RegistrationRuns.StepReports | parser/registration.go:120-249 | per step of every world: one Error event for a refused line, one for the timer, none otherwise, and what becomes of state and timer |
| NegotiationExamples.CollisionReportedTwice | parser/registration.go:205-229 | a run in which PASS, NICK and USER are accepted, the nick is taken, the NICK that answers is refused and the timer fires: two reports |
| Registration.FailureReportedTwice | parser/registration.go:162-203 | started and timed out in a row, a registration reports twice if and only if PASS, NICK or USER was refused, and once otherwise |
| Registration.RegistrationHandler.HandleConnected | parser/registration.go:191-203 | starts only from the inactive state |
| Registration.RegistrationHandler.HandleNumeric | parser/registration.go:205-229 | 433 while active tries the nick with an underscore |
| Registration.RegistrationHandler.HandleWelcome | parser/registration.go:231-249 | an active registration completes, its own numeric entry leaves the table, and Registered is re-emitted |
| Registration.RegistrationHandler.TimerFired | parser/registration.go:170-178 | the timer fails the registration with an Error event |
| NegotiationSafety.CountedAlways | parser/capabilities.go:249-333 | over every run: ready signals by SASL + (1 if its session is active) <= CapPreEnd events it handled; tokens taken, waiting, queued and being dispatched <= signals given; CAP END only after enough tokens or a timeout |
| NegotiationSafety.CapEndMeansReady | parser/capabilities.go:273-311 | with at most one CapPreEnd round, other listeners that signal at most once, and no timeout: once CAP END was sent every listener has signalled, the SASL handler exactly once, and SASL is not active |
| NegotiationSafety.NotActiveEverAfter | parser/sasl.go:539-599 | the same at the end of every continuation of the run |
| NegotiationSafety.OnPreEndPays | parser/sasl.go:346-409 | handling CapPreEnd gives at most one signal, or activates the session, never both |
| NegotiationSafety.OnFailPays | parser/sasl.go:566-599 | a failure signals only by ending an active session |
| NegotiationSafety.OnSuccessPays | parser/sasl.go:539-564 | a success signals only by ending an active session |
| NegotiationOnce.OneRoundAlways | parser/capabilities.go:88-169 | over a well-behaved connection (made once, one CAP LS, no CAP NEW before CAP END was accepted, every ACK or NAK names something pending, no Reset): at most one round, its waiters and CAP ENDs together at most one, nothing pending while it is open |
| NegotiationOnce.EndsOnceAndAnswered | parser/capabilities.go:249-324 | over a well-behaved connection the guard of EndCapabilityNegotiation passes at most once, CAP END goes out at most once, and the step that sends it finds every requested name answered |
| NegotiationOnce.OrderlyEnd | parser/capabilities.go:249-333 | over a well-behaved connection, CAP END before any timeout means every listener has signalled, the SASL handler exactly once, SASL is not active, and every requested name was answered |
| NegotiationRounds.StepBalanced | parser/capabilities.go:88-169 | per step, in every world not handling CapEnd: a round opens exactly at an opening step (an ACK or NAK that names all that is pending, a CAP LS with nothing requested or nothing pending and nothing wanted on offer), and each round has a waiter, a CAP END or a cancelled waiter |
| NegotiationRounds.RoundsAreOpenings | parser/capabilities.go:249-311 | over every run: CapPreEnd rounds = opening steps, and waiters + CAP ENDs + cancelled waiters = opening steps |
| NegotiationRounds.EndsAreOpenings | parser/capabilities.go:273-311 | without cancelled waiters, once no waiter is left, CAP END was sent exactly once per opening step |
| NegotiationRounds.AtMostOneEndExactlyWhen | parser/capabilities.go:249-311 | for every run without cancelled waiters: whatever its waiters still do at most one CAP END is sent, if and only if at most one of its steps is opening |
| NegotiationSignals.EndSignalsExactly | parser/sasl.go:298-599 | every step of every world that ends an active SASL session emits one ready signal if it handles success or failure, and none otherwise (abort, timer, reset, failed send) |
| NegotiationSignals.SignalsConserved | parser/sasl.go:346-409 | over every run: CapPreEnd events handled by SASL = ready signals it gave + (1 if a session is active) + sessions that ended silently |
| NegotiationSignals.AllSignalledExactlyWhen | parser/sasl.go:298-599 | over every run: each CapPreEnd got its signal if and only if no session is active and none ended silently |
| NegotiationSignals.SilentEndNeedsTimer | parser/capabilities.go:288-302 | after a silent end, with one round and listeners that signal once, CAP END is sent only because a waiter timed out |
| NegotiationClosed.AnswerTakesEffectExactlyWhen | parser/capabilities.go:118-169 | ACK and NAK change something if and only if they are handled while negotiating, with a message, and name something (NAK: something pending) or nothing is pending |
| NegotiationClosed.OpenExactly | parser/capabilities.go:73-86 | every step of every world: the negotiation is opened by an accepted CAP LS on Connected and closed by a refused one, by an accepted CAP END and by Reset, and by nothing else |
| NegotiationClosed.AcceptedEndCloses | parser/capabilities.go:313-324 | a step of any world that raises the number of CAP ENDs raises it by one, and the negotiation is closed after it if the send was accepted |
| NegotiationClosed.AnswersAreIgnored | parser/capabilities.go:118-169 | from a closed negotiation on, until Connected is handled again, no run of steps adds an acknowledged name or takes a name off pendingCaps |
| NegotiationProgress.NoneLostAlways | parser/capabilities.go:326-333 | over every run with one round, listeners that signal once and at most 100 of them: signals given = queued + being handled + buffered + received |
| NegotiationProgress.EndSentExactlyWhenAllReady | parser/capabilities.go:273-311 | at rest, after one round, without cancelled or timed-out waiters: CAP END was sent if and only if every listener has signalled, the SASL handler too |
| NegotiationExamples.CapEndTwice | parser/capabilities.go:88-116 | a run of the library as factory.go configures it, with two CAP LS lines that advertise nothing wanted, in which CAP END is sent twice |
| NegotiationExamples.LateAckIsLost | parser/capabilities.go:118-121 | a run with CAP END, CAP NEW, REQ and ACK: sasl stays pending and never gets active, in every continuation in which Connected is not handled |
| NegotiationExamples.AbortWaitsForTimer | parser/sasl.go:298-307 | a run in which the session is aborted and the library comes to rest without CAP END; in every continuation with one round and single signals only a waiter timeout sends it |
| CapabilityAccounting.ClientIsReplica | parser/capabilities.go:133-144 | in every run without Reset, handling the queued CapAdded and CapRemoved events would make the client's capability names equal to those of ackedCaps; they are equal once the queue is empty |
| CapabilityAccounting.ClientReplays | client/client.go:588-606 | of all the event handlers of the client only those of CapAdded and CapRemoved touch its capability names, and they add or remove exactly the name in the event |
| CapabilityAccounting.PendingAccounted | parser/capabilities.go:211-247 | over every run each name ever pending is still pending or was named in an ACK or NAK handled while negotiating |
| CapabilityAccounting.PendingIsAdvertised | parser/capabilities.go:216-236 | in runs without Reset only advertised names are pending |
| NegotiationDrain.QueueDrains | parser/eventbus.go:46-82 | from any state, no run of dispatches, handler calls and waiter iterations is longer than the measure, although three handlers re-emit their own event type, every send announces RawOutgoing and the end of NAMES announces NamesComplete; a run that cannot go on has emptied the queue |
| NegotiationDrain.SelfStepDecreases | parser/sasl.go:539-599 | each such step lowers the measure of queued events, pending handler calls, lines still to be sent, active sessions, waiters and tokens by more than the lines it sends |
| NegotiationDrain.DispatchedWeight | parser/eventbus.go:56-82 | an event weighs more than all the handler calls it leads to |
| Vocabulary.SpeaksAlways | parser/factory.go:8-15 | over every run the library sends only CAP LS 302, CAP REQ of requested names, CAP END, AUTHENTICATE with one argument, PASS, NICK or the fallback NICK, USER, PONG and its own PING |
| Vocabulary.PingAnswered | parser/ping.go:62-77 | a PING line is answered with PONG and its last parameter |
| Vocabulary.PingReported | parser/ping.go:41-77 | a failed PING or PONG is reported with one Error event, and an accepted one with none |
| Vocabulary.TimersWhileArmed | parser/registration.go:162-189 | in every world the SASL, registration and ping timers do nothing unless armed, and are not armed after firing |
| Vocabulary.PingTimerSteps | parser/ping.go:35-60 | what the welcome, a line and the timer itself make of the ping timer |
| Session.NewSession | parser/factory.go:8-15 | bus, handlers, client and subscriptions in the order of the source, the SASL handler only with credentials, give the table and the state every run starts from; the Parser shares the capability map |
| Session.Session.ConnectionUp | parser/connection.go:83-101 | the connection is on and not registered, and Connected is emitted, as that step of the transition system |
| Session.Session.ConnectionDown | parser/connection.go:118-128 | the connection is off and Disconnected is emitted, as that step of the transition system |
| Session.Session.Dispatch | parser/eventbus.go:46-70 | one event is taken and its handlers, by the table, become the calls to make |
| Session.Session.RunCapsTask | parser/capabilities.go:73-209 | a call of a capability handler on the objects is that step of the transition system |
| Session.Session.RunSaslTask | parser/sasl.go:346-472 | likewise for handleSasl and HandleAuthenticate |
| Session.Session.RunSaslResultTask | parser/sasl.go:539-599 | likewise for success and failure |
| Session.Session.RunRegTask | parser/registration.go:191-229 | likewise for the connection event and the nick collision |
| Session.Session.RunWelcomeTask | parser/registration.go:231-249 | likewise for the welcome; an active registration takes its own entry out of the numeric list, and the rest, the client's among them, keep their order |
| Session.Session.RunPingTask | parser/ping.go:35-77 | likewise for PING and its timer |
| Session.Session.RunClientTask | client/client.go:255-272 | likewise for the client's thirteen subscriptions: the tracked objects follow, and the end of NAMES is announced |
| Session.Session.StepWaiter | parser/capabilities.go:273-307 | likewise for every iteration of a waiter |
| Session.Session.CapsReset | parser/capabilities.go:415-426 | after Reset the Parser holds the old map, which no ACK reaches any more |
| Session.Session.Take | parser/eventbus.go:39-82 | every step on the objects is the step of the transition system, and keeps them wired together |
| Session.Play | parser/factory.go:8-15 | for every sequence of steps the objects end exactly in the state the theorems about runs speak of |
| Factory.OwnEntryRemoved | parser/registration.go:239-241 | whatever else listens for numerics, as long as the numbers differ, removing the kept number takes out exactly the own entry; the rest keep their order and no other type is touched |
| Factory.AllSubscriptions | parser/factory.go:8-15 | the subscriptions of the four handlers, the client and the application, concatenated in source order, are the table the steps read |
| Factory.SubscribeClient | client/client.go:255-272 | the client's thirteen subscriptions come behind whatever is there; its numeric entry gets a later number than every one before |
| Echo.Parser.Privmsg | parser/parser.go:125-142 | only once registered; a successful send is echoed locally exactly if echo-message is not in the shared map |
| Echo.Parser.Notice | parser/parser.go:144-160 | the same for NOTICE |
| Echo.Parser.GenerateFakeEcho | parser/parser.go:162-178 | the loop queues the events of the faked message, in order |
| Echo.Parser.HandleMessage | parser/connection.go:223-255 | the connection's own nick and state follow 001 and NICK, then the events of the line are queued in order |
| Echo.RegisteredExactlyWhen | parser/connection.go:50-129 | over every history of connects, lines, disconnects and errors: registered if and only if there was a 001 and only lines since |
| Echo.Parser.Connect | parser/connection.go:50-102 | the states of a connect that succeeds or fails |
| Echo.Parser.Disconnect | parser/connection.go:104-129 | the states of a disconnect |
| Echo.Parser.TransitionToDisconnected | parser/connection.go:332-351 | after an error the connection is off, and says so exactly if it was not already off or closing |
| Nicks.NicksAgreeExactlyWhen | client/client.go:292-302 | over every history of a connection: client and connection have the same nick if and only if at some point a welcome named the client or a NICK made one nick the other, and no welcome has named another nick since |
| Nicks.ClientMoves | client/client.go:292-302 | of all that a connection tells the client only NICK lines move its nick, as they would move the connection's |
| Nicks.CollisionParts | parser/connection.go:223-234 | after a welcome under the fallback nick the client keeps the configured one, through every continuation without a NICK or a welcome |
| Echo.SaysExactly | parser/parser.go:125-178 | nothing before the welcome; afterwards one line with target and text, and exactly if it went out and echo-message is not active, the event its echo would have caused |
| Echo.EchoIsReal | parser/parser.go:162-178 | the line the server would send back parses to the faked message if and only if nick, host, target and text are clean; then the faked events equal the real ones, type by type and payload by payload |
| Echo.EchoIsPrinted | parser/message.go:165-198 | a printed message with a source is `:`, the source, a space, and the line the sender wrote |
| Echo.EchoNick | parser/parser.go:164-170 | one event with the target and text given; the sender is read back if and only if the nick holds no `!` |
| Modes.AddModeMeaning | parser/types.go:186-198 | AddMode is a map update; a new letter goes to the end, and the list stays free of repeats |
| Modes.RemoveModeMeaning | parser/types.go:200-209 | RemoveMode is a map removal on lists without repeats |
| Modes.ChangesAt | client/client.go:319-330 | position by position: the j-th mode letter gets the last sign before it, `+` at first, and Args[j] or the empty parameter |
| Modes.LastOccurrenceRule | client/client.go:319-361 | after any number of changes a letter is set iff its last occurrence was under `+`, with that parameter, or it did not occur and was set before; no repeats |
| TrackedHeap.User.AddMode | parser/types.go:49-61 | the loop replaces the first entry for the letter in place or appends one |
| TrackedHeap.User.RemoveMode | parser/types.go:63-72 | the loop removes the first entry for the letter |
| TrackedHeap.User.HasMode | parser/types.go:38-47 | true exactly if the list has an entry for the letter |
| TrackedHeap.User.GetPrefixString | parser/types.go:85-103 | whatever order the reverse map is filled in, the result renders the modes through some inverse of the prefix map, each prefix as the bytes of its rune |
| TrackedHeap.Channel.AddUser | parser/types.go:125-129 | the user is filed under its nick, replacing whoever was |
| TrackedHeap.Channel.RemoveUser | parser/types.go:131-135 | the nick leaves the channel |
| TrackedHeap.Channel.RenameUser | parser/types.go:159-167 | the object gets the new nick and key, then the old key goes, also when both are equal; keys stay nicks |
| TrackedHeap.Channel.AddMode | parser/types.go:186-198 | as for users |
| TrackedHeap.Channel.RemoveMode | parser/types.go:200-209 | as for users |
| TrackedHeap.Channel.ApplyChange | client/client.go:332-351 | one mode letter changes the channel's list and that of the named user, if present |
| TrackedHeap.State.AddUserMode | client/state.go:358-368 | as for users |
| TrackedHeap.State.RemoveUserMode | client/state.go:370-379 | as for users |
| TrackedHeap.State.NotShared | parser/types.go:111 | no User object is filed under two keys or in two channels |
| TrackedHeap.State.OneChannel | client/state.go:400-416 | updating, adding or replacing one channel leaves every other channel and the ownership of users as they were |
| TrackedHeap.ServerInfo.ParseChannelPrefixes | client/state.go:190-220 | the loop replaces the map by the value's pairs, later ones winning, or keeps it when the value is refused |
| TrackedHeap.Client.HandleNick | client/client.go:292-307 | own nick updated, then the rename in every channel, in any order |
| TrackedHeap.Client.HandleMode | client/client.go:309-363 | the loop over the sign and mode runes is the fold of its changes over the tracked state |
| TrackedHeap.Client.HandleJoin | client/client.go:365-386 | one's own JOIN starts a new channel object; anybody else is added to a tracked channel |
| TrackedHeap.Client.HandleLeave | client/client.go:388-435 | PART and KICK: one's own drops the channel, another's the user |
| TrackedHeap.Client.HandleQuit | client/client.go:406-417 | the nick leaves every channel, in any order; its own tracked channels stay |
| TrackedHeap.Client.HandleNames | client/client.go:451-498 | an untracked channel is created; every entry with a nick files a new user with the modes of its prefixes |
| TrackedHeap.Client.SplitEntry | client/client.go:476-487 | the loop strips exactly the leading prefix characters and collects their modes |
| TrackedHeap.Client.HandleNamesEnd | client/client.go:500-537 | NamesComplete is emitted exactly if the channel named is tracked |
| TrackedHeap.Client.Receive | client/client.go:255-272 | one event: what it announces goes on the queue and the view follows |
| TrackedHeap.Client.HandleISupport | client/client.go:547-556 | the middle parameters, in order, of which PREFIX changes the prefix map |
| TrackedHeap.Client.HandleDisconnected | client/client.go:279-285 | no channel is tracked any more |
| TrackedHeap.Client.Handle | client/client.go:255-272 | each event type reaches its handler; channel keys stay names, user keys nicks, and users unshared |
| TrackedHeap.Client.HandleAll | client/client.go:255-272 | over every event sequence the heap holds the view of the fold, whatever the map orders, and its ownership is kept |
| TrackingTheorems.AlwaysTidy | parser/types.go:49-72 | over every event sequence keys are names and nicks, and no mode list has a repeated letter |
| TrackingTheorems.ChannelModeRule | client/client.go:309-363 | MODE on a tracked channel: every letter of the channel, and of each named user, is judged by its last occurrence; nobody joins or leaves; nothing else changes |
| TrackingTheorems.OwnModeRule | client/client.go:353-359 | MODE on the own nick follows the same rule; any other target has no effect |
| TrackingTheorems.NickRefinesExactlyWhen | parser/types.go:159-167 | a rename does what a rename should if and only if it is not the rename of somebody present to the nick they have, which deletes them |
| TrackingTheorems.NamesRefines | client/client.go:451-498 | NAMES adds exactly the clean nicks of its entries to the channel |
| TrackingTheorems.RefinesExactlyWhen | client/client.go:279-498 | every event does to the tracked objects what it does to the channel/nick relation, if and only if it is not such a rename |
| TrackingTheorems.RunRefines | client/client.go:279-498 | over every event sequence without such a rename the tracked state is the relation |
| TrackingTheorems.OwnNickExactlyWhen | client/client.go:292-498 | the own nick stays a member of every tracked channel exactly when the event is no QUIT of it, no rename of it to itself, and no NAMES that tracks a channel without it |
| TrackingTheorems.OwnNickAlways | client/client.go:292-498 | with such events only, over every run, the own nick is a member of every tracked channel, across renames of oneself and of others onto existing nicks |
| TrackingRuns.Track | client/client.go:22-45 | end to end: a new client that handles any event sequence holds on the heap exactly the relation of those events unless one renames somebody to the nick they have; keys and lists are consistent; with harmless events it is a member of every channel it tracks |
| LineEffects.JoinLine | client/client.go:365-386 | a JOIN line: one's own starts the channel afresh with oneself alone, another's adds the user without modes; everything else stays |
| LineEffects.PartLine | client/client.go:388-404 | a PART line takes the sender out, or untracks the channel if it is oneself; everybody else keeps channel and modes |
| LineEffects.KickLine | client/client.go:419-435 | a KICK line by anybody does this to its second parameter |
| LineEffects.QuitLine | client/client.go:406-417 | a QUIT line takes the sender out of every channel and stops no tracking |
| LineEffects.NickLine | parser/types.go:159-167 | a NICK line files the sender under the first parameter in every channel, modes and all; nobody else moves |
| LineEffects.ModeLine | client/client.go:309-363 | a MODE line: a tracked channel, named by # or &, and its users are judged by the last change to each letter; or one's own modes; anything else has no effect |
| LineEffects.NamesLine | client/client.go:451-498 | a 353 line: every nick of the list is filed with exactly the modes its prefixes in the last entry stand for; everybody else and everything else stays |
| LineEffects.NamesShown | parser/types.go:85-103 | end to end: under an accepted PREFIX with ASCII prefixes and distinct modes a user whom NAMES lists is from then on shown with the prefixes of the last entry, repeats removed |
| LineEffects.EndOfNamesLine | client/client.go:500-537 | a 366 line announces NamesComplete if and only if its second parameter is tracked |
| LineEffects.StateEffects | client/client.go:274-290 | what the events about the connection and the capabilities do, and that they do nothing else |
| LineEffects.ISupportLine | client/client.go:547-556 | a 005 line: the last accepted PREFIX among its middle parameters sets the prefixes; without one nothing changes |
| Prefixes.ParsePrefixesExactlyWhen | client/state.go:195-211 | PREFIX is accepted if and only if it reads `(modes)prefixes` with as many prefixes as modes |
| Prefixes.DistinctModesAreInjective | client/state.go:216-219 | pairwise distinct modes give a map in which no two prefixes share a mode |
| Prefixes.RenderLeading | parser/types.go:85-103 | leading prefixes that are ASCII and that their modes are rendered as come back, repeats removed in first-occurrence order |
| Prefixes.RendersBackExactlyWhen | parser/types.go:85-103 | for each filling of the reverse map: every entry that a NAMES line can carry with a nick is rendered with its own leading prefixes, repeats removed, if and only if every prefix such an entry can have is ASCII and is what its mode is rendered as |
| Prefixes.AlwaysRendersBackExactlyWhen | parser/types.go:85-103 | every filling of the reverse map does so if and only if every prefix an entry can have is ASCII and shares its mode with no other |
| Prefixes.AdvertisedRendersBackExactlyWhen | client/state.go:190-220 | for an accepted PREFIX value of valid UTF-8: if and only if its prefixes are ASCII and none but white space shares its mode with another |
| Prefixes.SharedModeShows | parser/types.go:85-103 | PREFIX `(oo)@+`: the entries `@x` and `+x` are rendered alike, whatever the order |
| Prefixes.AccentedPrefixShows | client/client.go:476-487 | PREFIX `(ov)é`: the entry `éx` counts as two prefixes and is rendered as four bytes |
| Utf8.DecodeEncoded | client/client.go:319-322 | a rune written as UTF-8 bytes is the rune read back, whatever follows |
| Utf8.RunesOfEncoded | client/client.go:319-322 | ranging over an encoded sequence of runes yields that sequence |

## Left out

- Sockets, TLS, read and write loops, deadlines and flushing in `parser/connection.go`; a send is one step that succeeds or fails, a line that arrives or a connection that ends is one step.
- NegotiationDrain.QueueDrains: RawOutgoing events are a count and not queue entries, because no handler of the library listens to them; the Disconnected events that a critical write error causes are steps from outside (`ConnectionDown`), not consequences of a send.
- TrackedHeap.Client.HandleNamesEnd: the payload of NamesComplete, a pointer to the channel object, is left out, because no handler of the library reads it.
- The topic handler, the connection's own copy of ISUPPORT, and the thin send wrappers: single-branch members.
- TrackedHeap.Client.HandleISupport: ISUPPORT keys other than PREFIX (numeric limits, CHANMODES, CHANLIMIT) are left out, because each is one assignment.
- Session.Session.ConnectionUp: a connect that succeeds is one step, so no line is read between the change of state and the Connected event, whose server name no handler reads.
- The bounded event queue blocking its sender at 100 events: the queue is unbounded. A signal dropped at 100 ready tokens is modelled.
- Mutexes and data races: each step is atomic, except that Subscribe takes its number and appends in two steps (`Subscriptions`). Goroutine scheduling is the free choice of the next step.
- Base64 is an arbitrary encoder and decoder; the statement about what the server reads assumes only that no chunk is a lone `+`.
- CodecTheorems.RoundTripExactlyWhen, PrintThenParse and PrintingNormalises: stated for ASCII commands, because ToUpper maps ASCII letters only; Fields splits at ASCII white space only.
- Wall-clock time (the text of the library's own PING is an input), server-time tags, logging and the wording of error payloads. Recovery from a handler's panic is modelled only where the modelled handlers can panic (Registered without a message).
- A MODE line with fewer than two parameters stops the Go program while it builds the events (`Events.PanicsExactlyWhen`); in the runs of `Negotiation` such a line is not a step.
- Sasl.SASLHandler.StartAuth: for PLAIN only, the one mechanism the library has; SetMechanism would allow others.
- The order of the active capability names in CapPreEnd, which comes from a map: it is a set here.
- CapabilityAccounting.ClientIsReplica: stated for runs without Reset, because Reset empties ackedCaps and emits no CapRemoved.
- CapabilityAccounting.PendingIsAdvertised: stated for runs without Reset, because Reset forgets what was advertised and keeps pendingCaps.
- NegotiationOnce.EndsOnceAndAnswered: stated for well-behaved connections; for any other the number of CAP ENDs is in `NegotiationRounds.RoundsAreOpenings`.
- NegotiationProgress.EndSentExactlyWhenAllReady: stated for one round without a timeout, because a timeout sends CAP END whoever has signalled.
- Lifecycle of the client (Start, Stop, contexts) and getters that only read a field.
