# Autobahn|Python, verified

A model in Dafny of the parts of Autobahn|Python that decide what a peer may believe about the other
one: octets on the wire, values in a message, and what happens when a connection fails. `dafny
verify dfyconfig.toml` checks everything.

The project has six parts, one for each component of the library. Code that changes things step by
step is modelled as classes with the same fields and as methods with the same loops and branches;
each is proved against a function of everything the object has seen, and the theorems are about that
function.

**UTF-8 validation** (`Utf8`, `Utf8Validator`, `EncodeTruncate`). The grammar of section 4 of RFC
3629 is written down independently of the automaton. The automaton is proved to accept exactly this
grammar from each of its states, and the three forms of the C code (two table lookups, an unrolled
cascade, sixteen octets at a time with an ASCII shortcut) are proved to compute its run, for any
start state and any split of the input. The sixteen-octet form is modelled for every head length up
to the length of the data; alignment, which determines the head length, is no part of the model. The
code subtracts the head length from the length as unsigned numbers, so it relies on the same bound.
`nvx_utf8vld_validate` at present sends the sixteen-octet choices to the table form, and so does the
model. `encode_truncate` is proved to return the longest prefix that fits.

**RawSocket** (`RawSocket`, `RawSocketTheorems`, `RawSocketWire`, `TwistedRawSocket`). `Receive`
says what a connection has done after some octets; the asyncio object, with its buffer and its
cached header, is proved to follow it under any chunking, up to and including the first error.
`RawSocketWire` writes the frames and the handshake out in octets and numbers, and says what a
receiver makes of every first octet, every length and every four octets of an opening. A frame of exactly 2^24
octets is admitted by `sendString` although its prefix cannot carry that length; `FramesRoundTrip`
states that this is the only payload that is lost, and `FrameOfMaximalSizeIsLost` shows one.
`ConnectedEndToEnd` speaks of two such objects. The length exponent that the constructor always sets
to 15 may be any of 0 to 15 in the model. The hook that decides on a serializer is the set of
supported serializers. The Twisted side is modelled up to the point where Twisted's own string
receiver takes over; it does not look at the reserved octets, and calling `abort()` before there is
a session raises, which ends the handshake.

**Reconnecting** (`Reconnect`). Transports with their counters and delays, the cyclic search, and
the loop of checks and attempts, against an environment that settles each attempt. The documentation
of `Component` (`autobahn/wamp/component.py:446-449`) gives other defaults than the code (1.5
seconds initially, 300 at most, jitter by a normal distribution); the model takes the values as
parameters. `docs/wamp/programming.rst:216` says that the first retry waits for the initial delay,
but the code lets the delay grow before the first retry (`DefaultFirstDelay`); `FirstDelayIsInitial`
and `DelaysAreDocumented` say exactly when the two agree. With jitter a delay may be negative
(`NegativeDelay`), exactly as `DelayIsNonNegative` and `DelaysAreNonNegative` state. `on_join`
resets a transport only if the component has a main function, and so does the model. A component
that has ended may be started again and then goes on with what its transports have left.

**Messages and URIs** (`Regex`, `Uri`, `Values`, `Messages`, `MessageTheorems`, `MessageReparse`,
`MessageFormats`, `MessageChecks`, `MessageMethods`, `MessageFields`, `MessageClasses`,
`MessageGrammar`, `MessageAcceptance`, `Patterns`, `PatternMatching`). Regular expressions have a
declarative semantics, in which `$` also matches before one trailing newline, as it does in Python.
The six URI expressions and the compiler of URI patterns are proved to mean what splitting at the
dots means. The fifteen message classes with options share one shape, so they are described by data
(positions, optional fields in the order `parse` looks at them, whether a payload follows) and one
pair of functions `Marshal` and `Parse` interprets the description. `MessageFormats` writes the
fifteen raw lists out as the classes document them and proves that these are what the description
yields. `MessageGrammar` writes down, without the description, which raw lists are messages (type
codes, lengths, positions, field names and their types, payloads), what the objects made of them
hold, which error refuses any other list, and what is written of an object; `MessageAcceptance`
proves that `Parse` and `Marshal` do exactly this. `MessageMethods` and `MessageClasses` have `parse`
of all fifteen classes spelled out as the code has it, field by field, and `marshal` of ERROR and
REGISTER, and prove that they compute the same functions. In the loops over `forward_for`,
leaving early does not prevent the value from being valid; what is checked is what the constructors
assert, which is every entry in every class except UNREGISTER (`ForwardersAreChecked`), whose
constructor asserts nothing about it, so that `parse` keeps any list (`UnregisterKeepsForwarders`). A
publication with octets as its arguments is the only message that comes back as a different one
(`ComesBackChanged`). A pattern without a wildcard is not compared with the URI at all
(`ExactMatchesOtherUris`); matching compares components exactly for the patterns that have a
wildcard (`ComparesIfWildcard`).

**SSH key blobs** (`SshBlob`, `OpenSshLayout`). The writer, both readers, and the reader of OpenSSH private keys
behind the base64 decoding, proved to accept exactly the files of one layout, which `OpenSshLayout`
writes out octet by octet. The magic at the start is skipped without being compared.

**The asyncio receive queue** (`ReceiveQueue`). A state machine over all interleavings of arriving
data, callbacks and connection loss, and the adapter object that makes its steps.

`Octets`, `Powers` and `Wrappers` hold what the parts share: octets and big-endian numbers, powers
of two, and the option and result types.

## Model

| member | source | states |
|---|---|---|
| Utf8Validator.RunAccepts | autobahn/nvx/_utf8validator.c:176-243 | From every state, the automaton accepts exactly the octets that complete the pending character and continue with well-formed UTF-8 in the sense of section 4 of RFC 3629 |
| Utf8Validator.ExtendableUnlessRejected | autobahn/nvx/_utf8validator.c:163-169 | Octets are not rejected exactly if some continuation makes them well-formed |
| Utf8Validator.Verdict | autobahn/nvx/_utf8validator.c:159-170 | The return codes: 0 exactly for well-formed octets, 1 exactly for others that can be completed, -1 exactly for those that cannot |
| Utf8Validator.Completion | autobahn/nvx/_utf8validator.c:176-243 | Every state but rejection can reach acceptance, by these octets |
| Utf8Validator.RunConcat | autobahn/nvx/_utf8validator.c:149-157 | Keeping only the state between calls is enough: a run over two chunks is the run over their concatenation |
| Utf8Validator.RejectAbsorbs | autobahn/nvx/_utf8validator.c:239-240 | Nothing leads out of the rejecting state |
| Utf8Validator.TableRefinesCascade | autobahn/nvx/_utf8validator.c:125-154 | The two lookups in the table make the transition of the cascade, for each of the nine states and 256 octets |
| Utf8Validator.LookUp | autobahn/nvx/_utf8validator.c:153-155 | One step of the table form |
| Utf8Validator.ShiftRightAt | autobahn/nvx/_utf8validator.c:367-369 | Shifting the register down repeatedly brings up its octets in order |
| Utf8Validator.TransitionsRun | autobahn/nvx/_utf8validator.c:361-440 | Sixteen transitions without a check for rejection make the run of the block, for both ways to extract octets |
| Utf8Validator.AsciiStaysAccepting | autobahn/nvx/_utf8validator.c:354-354 | A block without high bits may be skipped in the accepting state |
| Utf8Validator.Block | autobahn/nvx/_utf8validator.c:526-590 | The block transitions of either instruction set compute the run |
| Utf8Validator.ScanOctets | autobahn/nvx/_utf8validator.c:254-263 | The octet-wise loop computes the run of what it consumed and leaves octets only after a rejection |
| Utf8Validator.ScanBlocks | autobahn/nvx/_utf8validator.c:347-443 | So does the loop over blocks with its shortcut |
| Utf8Validator.Validator.constructor | autobahn/nvx/_utf8validator.c:110-115 | A new validator is reset and has the best implementation: 2, 3 or 4 by what was compiled in |
| Utf8Validator.Validator.Reset | autobahn/nvx/_utf8validator.c:101-107 | Forgets everything fed |
| Utf8Validator.Validator.SetImpl | autobahn/nvx/_utf8validator.c:61-98 | Requests beyond what was compiled in are ignored, zero selects the best |
| Utf8Validator.Validator.ValidateTable | autobahn/nvx/_utf8validator.c:145-171 | New state and return code are those of the run over the whole chunk |
| Utf8Validator.Validator.ValidateUnrolled | autobahn/nvx/_utf8validator.c:246-279 | The same state and code |
| Utf8Validator.Validator.ValidateSimd | autobahn/nvx/_utf8validator.c:315-474 | The same state and code, for every head length up to the length of the data |
| Utf8Validator.Validator.Validate | autobahn/nvx/_utf8validator.c:628-648 | The last call returns the verdict on everything fed since the reset, in whatever chunks |
| EncodeTruncate.DecodeEncodeChar | autobahn/util.py:130-142 | Encoding a character and decoding it gives it back |
| EncodeTruncate.EncodeDecodeChar | autobahn/util.py:139-142 | The grammar of RFC 3629 has no encodings but those of characters |
| EncodeTruncate.EncodingKeepsOrder | autobahn/util.py:130-142 | Octet strings are ordered as the characters they encode, as section 1 of RFC 3629 says; with the row above, this leaves one possible encoding |
| EncodeTruncate.EncodeTruncate | autobahn/util.py:126-147 | No text gives nothing, and exactly the texts with a surrogate raise |
| EncodeTruncate.DecodeCut | autobahn/util.py:135-139 | Cutting the octets and decoding with errors ignored gives the characters that fit as a whole |
| EncodeTruncate.FittingIsMaximal | autobahn/util.py:133-139 | No longer prefix fits, and fewer than four octets of the limit are wasted |
| EncodeTruncate.TruncatesToLongestPrefix | autobahn/util.py:126-147 | Both kinds of result are the longest prefix whose encoding fits, and the validator accepts it |
| RawSocket.ParseOneFrame | autobahn/asyncio/rawsocket.py:143-156 | A complete frame at the front is taken whatever follows it |
| RawSocket.ParseConcat | autobahn/asyncio/rawsocket.py:124-162 | Parsing in two steps, with the rest kept in between, is parsing at once |
| RawSocket.RestIsIncomplete | autobahn/asyncio/rawsocket.py:143-162 | What stays in the buffer holds no complete frame and no error |
| RawSocket.ErrorIsFinal | autobahn/asyncio/rawsocket.py:106-108 | After an error, further octets change nothing |
| RawSocket.ReceiveMoreFrames | autobahn/asyncio/rawsocket.py:203-220 | After the handshake, further octets only add frames to what has happened |
| RawSocket.SendLimitBound | autobahn/asyncio/rawsocket.py:193-195 | Whatever the peer announces, the limit for sending is at most 2^24 |
| RawSocket.RawSocketProtocol.constructor | autobahn/asyncio/rawsocket.py:258-264 | A new connection has sent its opening octets and seen nothing |
| RawSocket.RawSocketProtocol.ReadHeader | autobahn/asyncio/rawsocket.py:130-141 | A cached header is the one in the buffer; a bad one closes the transport with its error |
| RawSocket.RawSocketProtocol.ReceiveFrame | autobahn/asyncio/rawsocket.py:128-160 | The body of the loop advances: what has happened and what is left to parse are together the parse of the rest |
| RawSocket.RawSocketProtocol.FrameReceived | autobahn/asyncio/rawsocket.py:151-156 | One complete frame is handed over and the buffer goes on behind it; `RawSocketWire.FrameArrives` says which hook gets the payload of which type |
| RawSocket.RawSocketProtocol.FramesReceived | autobahn/asyncio/rawsocket.py:124-162 | The events are those of the old buffer and the new data; the cached header is set exactly if a prefix is buffered, equals it, and its frame is incomplete |
| RawSocket.RawSocketProtocol.ProcessHandshake | autobahn/asyncio/rawsocket.py:189-198 | Reply, error, limit and serializer are those of the handshake, for both sides |
| RawSocket.RawSocketProtocol.ProcessOpening | autobahn/asyncio/rawsocket.py:209-216 | The first four octets decide the handshake |
| RawSocket.RawSocketProtocol.HandshakeReceived | autobahn/asyncio/rawsocket.py:207-220 | The opening is collected over chunks until it has four octets |
| RawSocket.RawSocketProtocol.SplitReceived | autobahn/asyncio/rawsocket.py:209-220 | The object follows `Receive` also when frames come in the chunk of the handshake |
| RawSocket.RawSocketProtocol.DataReceived | autobahn/asyncio/rawsocket.py:203-220 | After every call the whole state is a function of all octets received |
| RawSocket.RawSocketProtocol.SendResponse | autobahn/asyncio/rawsocket.py:276-278 | The four octets of a reply |
| RawSocket.RawSocketProtocol.SendString | autobahn/asyncio/rawsocket.py:110-116 | Hands over the frame exactly if the payload is within the limit at the time, in any state of the connection |
| RawSocketTheorems.Deliver | autobahn/asyncio/rawsocket.py:203-220 | Any chunks leave the object in the state of their concatenation |
| RawSocketTheorems.RunReceivesAll | autobahn/asyncio/rawsocket.py:124-220 | The outcome after the last chunk is that of all octets at once |
| RawSocketTheorems.ChunkingIsIrrelevant | autobahn/asyncio/rawsocket.py:124-220 | Two ways to cut the same octets give the same events including the first error, and without one the same buffer |
| RawSocketTheorems.HandshakeAgreement | autobahn/asyncio/rawsocket.py:246-283 | Client and server agree on the serializer and on each other's limits exactly if the server supports it; otherwise both see the error |
| RawSocketTheorems.FramePrefix | autobahn/asyncio/rawsocket.py:110-138 | A prefix reads back as type 0 and the length, but as an empty ping for 2^24 octets |
| RawSocketTheorems.FramesRoundTrip | autobahn/asyncio/rawsocket.py:110-156 | Payloads within the limit arrive exactly and in order if and only if each is shorter than 2^24 |
| RawSocketTheorems.FrameOfMaximalSizeIsLost | autobahn/asyncio/rawsocket.py:110-142 | A payload of 2^24 octets passes `sendString` and does not arrive |
| RawSocketTheorems.PayloadsArrive | autobahn/asyncio/rawsocket.py:110-220 | After any chunking of an accepted opening and frames, the events are the session and the payloads |
| RawSocketTheorems.EndToEnd | autobahn/asyncio/rawsocket.py:110-283 | Both directions of a connection deliver what the other side sent, with one serializer |
| RawSocketTheorems.SendAll | autobahn/asyncio/rawsocket.py:110-116 | Payloads handed to `sendString` one by one are written as their frames in order |
| RawSocketTheorems.ConnectedEndToEnd | autobahn/asyncio/rawsocket.py:110-283 | Two objects whose writes are delivered to each other, in any chunks, have received exactly the payloads handed to `sendString`, agree on the serializer, and send by each other's limits |
| RawSocketWire.PrefixReads | autobahn/asyncio/rawsocket.py:130-138 | A first octet and three octets of length read back as type and length |
| RawSocketWire.FrameArrives | autobahn/asyncio/rawsocket.py:136-160 | For every first octet, payload and limit: types 0, 1 and 2 hand the payload to the string, ping and pong hook, other types fail, and so does a length over the limit, in this order |
| RawSocketWire.FrameIsAwaited | autobahn/asyncio/rawsocket.py:128-150 | An incomplete frame calls nothing, unless its prefix is complete and wrong |
| RawSocketWire.FrameIsWritten | autobahn/asyncio/rawsocket.py:110-116 | What is written for a payload, in octets |
| RawSocketWire.LimitOfNibble | autobahn/asyncio/rawsocket.py:193-195 | The sixteen limits from 512 to 16777216 |
| RawSocketWire.ClientOpens | autobahn/asyncio/rawsocket.py:258-264 | The four octets of a client, and the limits it starts with |
| RawSocketWire.ServerWaits | autobahn/asyncio/rawsocket.py:258-264 | A server sends nothing first, and the limits it starts with |
| RawSocketWire.ServerAnswers | autobahn/asyncio/rawsocket.py:189-283 | For any four octets: the error, the reply, the serializer and the limit of a server |
| RawSocketWire.ClientConcludes | autobahn/asyncio/rawsocket.py:189-256 | For any four octets: the error, the serializer and the limit of a client |
| TwistedRawSocket.SettledByFourOctets | autobahn/twisted/rawsocket.py:263-345 | When four octets have arrived, which ones complete the handshake, with which serializer and limit, and what is passed on |
| TwistedRawSocket.OpeningInOctets | autobahn/twisted/rawsocket.py:358-375 | The opening octets and the receive limit for each maximum size |
| TwistedRawSocket.ExponentFits | autobahn/twisted/rawsocket.py:318-327 | The exponent is that of the least power of two not below the maximum size, and fits its nibble |
| TwistedRawSocket.ReceiveLimitBounds | autobahn/twisted/rawsocket.py:363-367 | The receive limit is at least the configured size and less than twice it |
| TwistedRawSocket.OpeningFields | autobahn/twisted/rawsocket.py:371-375 | The peer decodes serializer and limit as they were meant |
| TwistedRawSocket.LimitsAgree | autobahn/twisted/rawsocket.py:263-431 | Each side sends by the limit the other receives by, if the server supports the serializer |
| TwistedRawSocket.OpenedConnection | autobahn/twisted/rawsocket.py:293-322 | The same for two objects that have opened a connection, in any chunks |
| TwistedRawSocket.ClientSend | autobahn/twisted/rawsocket.py:211-218 | A payload passes the client's check exactly if the server receives it |
| TwistedRawSocket.ServerSend | autobahn/twisted/rawsocket.py:211-218 | A payload passes the server's check exactly if the client receives it |
| TwistedRawSocket.OpensLikeAsyncio | autobahn/twisted/rawsocket.py:326-330 | The opening octets and the limit are those of the asyncio transport |
| TwistedRawSocket.WampRawSocketProtocol.constructor | autobahn/twisted/rawsocket.py:358-375 | A client has sent its opening when the connection is made |
| TwistedRawSocket.WampRawSocketProtocol.DataReceived | autobahn/twisted/rawsocket.py:263-345 | Handshake octets are collected over any chunks, and exactly the rest goes to the string receiver |
| TwistedRawSocket.WampRawSocketProtocol.CompleteHandshake | autobahn/twisted/rawsocket.py:271-334 | Limit, serializer and reply after the fourth octet |
| TwistedRawSocket.WampRawSocketProtocol.Choose | autobahn/twisted/rawsocket.py:301-330 | The server's choice, its receive limit and its reply, or the abort |
| TwistedRawSocket.WampRawSocketProtocol.MaySend | autobahn/twisted/rawsocket.py:211-218 | A payload passes exactly if it is within the limit the peer announced |
| Reconnect.FirstEligibleIsUnique | autobahn/wamp/component.py:700-706 | The search has one possible result |
| Reconnect.RunBalance | autobahn/wamp/component.py:591-706 | How often two transports were picked differs by what the position of the cycle tells |
| Reconnect.Fairness | autobahn/wamp/component.py:591-706 | Over any run of picks, two transports that stay eligible are picked equally often, up to one |
| Reconnect.NothingRemains | autobahn/wamp/component.py:543-548 | No transport can reconnect exactly if no attempts are left |
| Reconnect.RunUsesBudget | autobahn/wamp/component.py:326-331 | Each failed attempt uses up budget: one unit if not fatal, at least one otherwise |
| Reconnect.Exhaustion | autobahn/wamp/component.py:610-717 | From any budgets, a run of failures never exceeds what remains, and when exhausted without fatal errors has exactly that length |
| Reconnect.FreshExhaustion | autobahn/wamp/component.py:610-717 | From untried transports, that is the sum of max_retries + 1 |
| Reconnect.BackoffCapsCompound | autobahn/wamp/component.py:340-344 | Growing and capping in every step is growing and capping once, for growth of at least one |
| Reconnect.CompoundIsPower | autobahn/wamp/component.py:340-340 | Repeated growth is a power |
| Reconnect.BackoffClosedForm | autobahn/wamp/component.py:340-344 | The k-th delay is min(max_retry_delay, initial_retry_delay * growth^k) |
| Reconnect.FirstDelayIsInitial | autobahn/wamp/component.py:336-344 | The documented first delay, the initial one, is what the first retry waits for if and only if it is within the limit and nothing grows or the limit cuts the growth off |
| Reconnect.DelaysAreDocumented | autobahn/wamp/component.py:336-344 | All delays are the documented ones if and only if growth is one or the initial delay reaches the limit |
| Reconnect.DefaultFirstDelay | autobahn/wamp/component.py:270-274 | With the defaults they differ: 2.25 seconds instead of 1.5 |
| Reconnect.DelayIsNonNegative | autobahn/wamp/component.py:340-343 | Exactly when the next delay is not negative, in terms of the delay before, the growth, the jitter, the sample and the limit |
| Reconnect.DelaysAreNonNegative | autobahn/wamp/component.py:340-343 | For positive settings, no delay since a reset is negative if and only if the first factor 1 + jitter * sample that is not positive, if any, is zero |
| Reconnect.NegativeDelay | autobahn/wamp/component.py:270-274 | A sample that makes a delay negative with the defaults |
| Reconnect.Transport.constructor | autobahn/wamp/component.py:296-307 | A new transport has made no attempt and has the initial delay |
| Reconnect.Transport.Reset | autobahn/wamp/component.py:309-316 | Counters and delay are back at their initial values |
| Reconnect.Transport.Failed | autobahn/wamp/component.py:318-324 | The transport is marked for good |
| Reconnect.Transport.CanReconnect | autobahn/wamp/component.py:326-331 | Whether the transport has not failed for good and has unlimited retries or attempts left |
| Reconnect.Transport.NextDelay | autobahn/wamp/component.py:333-344 | Raises for no transport that can reconnect; otherwise nothing at first, then exactly the grown delay with jitter, capped by the maximum |
| Reconnect.Transport.CountAttempt | autobahn/wamp/component.py:798-860 | What an attempt does to all counters, to the delay and to the permanent failure |
| Reconnect.DelayWithoutJitter | autobahn/wamp/component.py:340-344 | Without jitter the delay of a transport is the initial one compounded over its retries and capped |
| Reconnect.PickFollows | autobahn/wamp/component.py:700-706 | A pick keeps the invariant of the scheduler |
| Reconnect.AttemptFollows | autobahn/wamp/component.py:610-658 | So does an attempt, however it ends |
| Reconnect.Component.constructor | autobahn/wamp/component.py:590-595 | A component on its transports, whatever they have been through |
| Reconnect.Component.Begin | autobahn/wamp/component.py:590-595 | A start sets up a new cycle on what the transports have left |
| Reconnect.Component.CanReconnect | autobahn/wamp/component.py:543-548 | Whether any transport has budget left |
| Reconnect.Component.NextTransport | autobahn/wamp/component.py:700-706 | Within one lap the search ends at the first eligible transport in cyclic order |
| Reconnect.Component.Pick | autobahn/wamp/component.py:691-706 | Ends the component exactly if nothing can reconnect, and otherwise picks |
| Reconnect.Component.TransportCheck | autobahn/wamp/component.py:688-717 | Ends the component exactly if nothing can reconnect; otherwise the pick and its delay, which is always defined |
| Reconnect.RoundRobin | autobahn/wamp/component.py:591-706 | While all transports can be tried, they are taken in turn |
| Reconnect.UnlimitedNeverExhausts | autobahn/wamp/component.py:326-331 | A component with a transport of `max_retries` -1 that has not failed for good is never exhausted |
| Reconnect.ExhaustedMeansUsedUp | autobahn/wamp/component.py:326-331 | An exhausted component has no transport with an attempt left |
| Reconnect.UnlimitedKeepsTrying | autobahn/wamp/component.py:610-717 | With such a transport and no fatal errors, a start makes every attempt that is settled and waits for the next |
| Reconnect.Component.Settle | autobahn/wamp/component.py:610-686 | The counters of the transport that was tried, which alone change |
| Reconnect.Component.AttemptConnect | autobahn/wamp/component.py:610-686 | Success finishes the component, failure leads back to the check, a fatal error fails the transport |
| Reconnect.Component.Start | autobahn/wamp/component.py:565-722 | A running component is left alone; any other is started from what its transports have left, and stops only when it joined, is exhausted, or waits for the next attempt |
| Reconnect.Component.Reconnect | autobahn/wamp/component.py:610-722 | The loop of checks and attempts |
| Reconnect.ComponentExhaustion | autobahn/wamp/component.py:688-717 | With finite budgets and failures only, the component ends exhausted, after exactly as many attempts as its transports had left at the start if none is fatal and after at most as many otherwise |
| Reconnect.FreshComponentExhaustion | autobahn/wamp/component.py:307-316 | On a first start that is the sum of max_retries + 1 |
| Regex.StarThen | autobahn/wamp/message.py:95-111 | A repetition followed by more either goes round once or is over |
| Regex.ClassesByCharacter | autobahn/wamp/message.py:95-111 | The character classes of the expressions, by their characters |
| Regex.MatchesLineIfParses | autobahn/wamp/uri.py:181-216 | A string matches an expression exactly if it does so with some captures |
| Uri.PatternMatchesComponents | autobahn/wamp/message.py:95-111 | Each of the six expressions matches exactly the strings whose dot-separated components meet its rule |
| Uri.PatternAccepts | autobahn/wamp/message.py:290-308 | The check accepts exactly these, and these with one trailing newline |
| Uri.PatternInclusion | autobahn/wamp/message.py:95-111 | Strict URIs are loose URIs; non-empty is within last-empty, which is within any-empty |
| Patterns.TextTest | autobahn/wamp/uri.py:112-112 | Which components count as plain text |
| Patterns.NameTest | autobahn/wamp/uri.py:117-117 | Which components are names, and that the one group of the expression captures this name and can capture nothing else |
| Patterns.NameAndTypeTest | autobahn/wamp/uri.py:125-125 | Which components are names with a type, and that the two groups capture exactly these |
| Patterns.Compile | autobahn/wamp/uri.py:169-239 | Compiles exactly the patterns whose components all stand for something, to `Compiled` of them, and raises for all others |
| Patterns.CompileComponent | autobahn/wamp/uri.py:178-227 | One round of the loop: the fragment, the group count and the binding that a component adds |
| Patterns.NotCompilable | autobahn/wamp/uri.py:181-227 | What stops the loop leaves no way to read the whole pattern |
| PatternMatching.JoinParses | autobahn/wamp/uri.py:232-232 | The joined expression matches a string with given captures exactly if the components match one by one and these are the captures |
| PatternMatching.LineParses | autobahn/wamp/uri.py:232-233 | The same for the anchored expression |
| PatternMatching.SearchFinds | autobahn/wamp/uri.py:293-294 | A search has one possible outcome, so any search strategy gives it |
| PatternMatching.GroupOfWildcard | autobahn/wamp/uri.py:296-296 | The group of a wildcard, named or numbered among named ones, holds the component at its place |
| PatternMatching.NamesOfWildcards | autobahn/wamp/uri.py:193-224 | The names bound are exactly the keys of the wildcards, each with its own conversion |
| PatternMatching.NumbersByText | autobahn/wamp/uri.py:181-200 | `<name:int>` is the only kind of component that stands for a number |
| PatternMatching.StringsByText | autobahn/wamp/uri.py:181-215 | `<name>` and `<name:str>`, `<name:string>` and `<name:suffix>` are the only ones that stand for a named string |
| PatternMatching.OthersByText | autobahn/wamp/uri.py:216-228 | The empty component is the only one that stands for a string without a name, and text stands for itself |
| PatternMatching.SuffixesByText | autobahn/wamp/uri.py:181-188 | A pattern is refused for a suffix exactly if `<name:suffix>` is not its last component |
| PatternMatching.MatchIsComponentwise | autobahn/wamp/uri.py:277-301 | Matching a compiled pattern with a wildcard is comparing components: no match exactly if they differ, an error exactly if an int wildcard stands for no number, and otherwise a string wildcard is bound to the component itself and an int wildcard to its number; a pattern without a wildcard matches everything and binds nothing |
| PatternMatching.ComparesIfWildcard | autobahn/wamp/uri.py:229-239 | That matching fails exactly on URIs that differ from the pattern holds, for all URIs, if and only if the pattern has a wildcard |
| PatternMatching.ExactMatchesOtherUris | autobahn/wamp/uri.py:290-291 | The pattern com.example matches the URI com.other |
| PatternMatching.LiteralsMatchOtherUris | autobahn/wamp/uri.py:290-291 | So does every pattern of two literal components with another second component |
| PatternMatching.ExactWithoutWildcards | autobahn/wamp/uri.py:229-239 | A pattern is exact precisely if it has no wildcard |
| Messages.OptionsAt | autobahn/wamp/message.py:1671-1703 | The dictionary stands at one position of a message |
| MessageTheorems.MarshalParts | autobahn/wamp/message.py:1671-1703 | `parse` takes a marshalled list apart where `marshal` put it together |
| MessageTheorems.SlotsOfMarshal | autobahn/wamp/message.py:1557-1574 | The positions of a marshalled message pass exactly if its ids and URIs are valid |
| MessageTheorems.PolicyOfMarshal | autobahn/wamp/message.py:4813-4845 | A procedure is checked by the match policy that was written, or by exact matching if it was omitted |
| MessageTheorems.FieldsOfMarshal | autobahn/wamp/message.py:4148-4215 | The optional fields of a marshalled message pass exactly if timeout, reason and forward_for are as `parse` wants them |
| MessageTheorems.FillingRestores | autobahn/wamp/message.py:4786-4792 | The constructor fills in what `marshal` omitted |
| MessageTheorems.ParseBodyOfMarshal | autobahn/wamp/message.py:2442-2475 | The payload part comes back as what it was: a payload, or arguments |
| MessageTheorems.RoundTrip | autobahn/wamp/message.py:1542-1703 | For all fifteen classes, parsing what `marshal` wrote gives the message in normal form if and only if ids, URIs, timeout, reason and forward_for are valid and the arguments are a list, which a publication must have along with keyword arguments |
| MessageTheorems.NormalMarshalsTheSame | autobahn/wamp/message.py:1671-1703 | The normal form is a message that marshals to the same raw list |
| MessageFormats.MarshalsAsDocumented | autobahn/wamp/message.py:1406-1415 | For each of the fifteen classes, the raw list is the one that its documentation shows, type code included |
| MessageAcceptance.ParsesAsDocumented | autobahn/wamp/message.py:1542-5963 | For all fifteen classes and every raw list: `parse` returns an object if and only if the list is in the grammar of the class, and the object holds exactly what the list says, each field under its name |
| MessageAcceptance.RefusesAsDocumented | autobahn/wamp/message.py:1542-5963 | Every other list is refused, and with which of the three errors |
| MessageAcceptance.MarshalHoldsMessage | autobahn/wamp/message.py:1671-5997 | The raw list of an object has its type code, its positions, an entry for each attribute that is not a default, and its payload or arguments |
| MessageAcceptance.FieldsMayBeSet | autobahn/wamp/message.py:1869-1924 | Any optional field may be set to any value of its type, and the raw list then holds it |
| MessageAcceptance.AssertedAsDocumented | autobahn/wamp/message.py:1869-1924 | What the constructor asserts of a field is what the grammar says of it, but for timeout, reason and forwarders |
| MessageAcceptance.AcknowledgeIsParsed | autobahn/wamp/message.py:2487-2493 | A parsed publication has the option acknowledge exactly if the dictionary has, with its value, which is a boolean |
| MessageAcceptance.AcknowledgeArrives | autobahn/wamp/message.py:2421-2663 | A publication may ask for an acknowledgement, its dictionary says so, and it is parsed as one that asks |
| MessageChecks.CheckOrRaiseId | autobahn/wamp/message.py:350-368 | Accepts exactly the integers from 0 to 2^53 |
| MessageChecks.CheckOrRaiseExtra | autobahn/wamp/message.py:371-388 | Accepts exactly the dictionaries whose keys are strings |
| MessageChecks.CheckOrRaiseUri | autobahn/wamp/message.py:260-308 | Which of the six expressions is chosen, and that it accepts the strings whose components meet the rule, character by character |
| MessageChecks.CheckRequestType | autobahn/wamp/message.py:1557-1566 | Accepts exactly the seven type codes of requests |
| MessageChecks.CustomByRule | autobahn/wamp/message.py:113-114 | The custom attributes, character by character |
| MessageChecks.IsValidEncAlgo | autobahn/wamp/message.py:168-190 | Accepts the three algorithms and custom ones |
| MessageChecks.IsValidEncSerializer | autobahn/wamp/message.py:191-213 | Accepts the five serializers and custom ones |
| MessageChecks.AssertForwarders | autobahn/wamp/message.py:1510-1519 | The entries of forward_for, one by one |
| MessageChecks.AssertBody | autobahn/wamp/message.py:1499-1509 | The assertions on arguments, payload and encryption |
| MessageChecks.AssertRevocation | autobahn/wamp/message.py:3101-3116 | Only a revocation names what is revoked |
| MessageFields.TakeAllByTable | autobahn/wamp/message.py:2482-2605 | Taking the fields one after the other gives what the schema says, errors included |
| MessageFields.TakeBool | autobahn/wamp/message.py:2487-2493 | A boolean field, or its error |
| MessageFields.TakeInt | autobahn/wamp/message.py:3736-3743 | An integer field, or its error |
| MessageFields.TakeStr | autobahn/wamp/message.py:2580-2584 | A string field, or its error |
| MessageFields.TakeInts | autobahn/wamp/message.py:2503-2513 | A list of session ids, or its error |
| MessageFields.TakeStrs | autobahn/wamp/message.py:2515-2525 | A list of strings, or its error |
| MessageFields.TakeTimeout | autobahn/wamp/message.py:4148-4158 | A number that is not negative, or its error |
| MessageFields.TakeReason | autobahn/wamp/message.py:5668-5672 | A URI without empty components, or its error |
| MessageFields.TakeMatch | autobahn/wamp/message.py:2841-2851 | One of the three match policies, or its error |
| MessageFields.TakeMode | autobahn/wamp/message.py:4366-4376 | A mode of the class, or its error |
| MessageFields.TakeForwarders | autobahn/wamp/message.py:2585-2603 | A list, or its error |
| MessageClasses.TakePublishBody | autobahn/wamp/message.py:2442-2482 | The payload part of a publication, whose arguments may be text or octets |
| MessageClasses.TakeBinaryBody | autobahn/wamp/message.py:3691-3734 | The payload part of an event, an invocation and a yield, where only octets are a payload |
| MessageClasses.TakeTextBody | autobahn/wamp/message.py:4105-4145 | The payload part of a call and a result, where text is a payload as well |
| MessageClasses.ParsePublish | autobahn/wamp/message.py:2421-2623 | `Publish.parse`, statement by statement, computes `Parse` |
| MessageClasses.ParseEvent | autobahn/wamp/message.py:3675-3821 | So does `Event.parse` |
| MessageClasses.ParseCall | autobahn/wamp/message.py:4087-4233 | So does `Call.parse` |
| MessageClasses.ParseResult | autobahn/wamp/message.py:4547-4667 | So does `Result.parse` |
| MessageClasses.ParseInvocation | autobahn/wamp/message.py:5357-5513 | So does `Invocation.parse` |
| MessageClasses.ParseYield | autobahn/wamp/message.py:5842-5963 | So does `Yield.parse` |
| MessageClasses.ParseSubscribe | autobahn/wamp/message.py:2818-2878 | So does `Subscribe.parse` |
| MessageClasses.ParseUnsubscribe | autobahn/wamp/message.py:3019-3062 | So does `Unsubscribe.parse` |
| MessageClasses.ParseUnsubscribed | autobahn/wamp/message.py:3126-3161 | So does `Unsubscribed.parse` |
| MessageClasses.ParseCancel | autobahn/wamp/message.py:4343-4397 | So does `Cancel.parse` |
| MessageClasses.ParseUnregister | autobahn/wamp/message.py:5041-5084 | So does `Unregister.parse` |
| MessageClasses.ParseUnregistered | autobahn/wamp/message.py:5147-5182 | So does `Unregistered.parse` |
| MessageClasses.ParseInterrupt | autobahn/wamp/message.py:5633-5691 | So does `Interrupt.parse` |
| MessageReparse.MarshalIsInjective | autobahn/wamp/message.py:2625-2680 | Messages that can be sent share a raw list exactly if they share their normal form; so no payload is taken for arguments |
| MessageReparse.BytesArgumentsBecomePayload | autobahn/wamp/message.py:2442-2466 | A publication with octets as its arguments comes back with these as its payload |
| MessageReparse.ComesBackChanged | autobahn/wamp/message.py:2442-2466 | A message comes back as a different one if and only if it is such a publication and everything else about it can be sent; all others come back in normal form or are refused |
| MessageReparse.RegisterUriClass | autobahn/wamp/message.py:4813-4845 | A marshalled registration parses exactly if its id is valid and its procedure is in the URI class of its match policy |
| MessageReparse.ParsedCanBeSentOn | autobahn/wamp/message.py:1542-1703 | What `parse` returns is a message, and sending it on preserves it up to normal form, unless it is a publication with octets or text as arguments and no keyword arguments |
| MessageReparse.ForwardersAreChecked | autobahn/wamp/message.py:5019-5038 | All parsed messages of a class have well-formed forwarders if and only if the class is not UNREGISTER |
| MessageReparse.UnregisterKeepsForwarders | autobahn/wamp/message.py:5056-5084 | `parse` of UNREGISTER keeps every non-empty list of forwarders, well-formed or not |
| MessageReparse.UnregisterKeepsBadForwarders | autobahn/wamp/message.py:5056-5084 | For example a list with a number in it |
| MessageMethods.ForwardForValid | autobahn/wamp/message.py:1637-1653 | The loop over the entries ends early at a bad one, and the list is valid all the same |
| MessageMethods.ParseErrorBody | autobahn/wamp/message.py:1575-1611 | The payload part of an error, as the schema describes it |
| MessageMethods.CheckErrorSlots | autobahn/wamp/message.py:1557-1573 | The positions of an error in the order of the checks, each with its error |
| MessageMethods.ParseErrorFields | autobahn/wamp/message.py:1613-1653 | The optional fields of an error |
| MessageMethods.ParseError | autobahn/wamp/message.py:1542-1669 | `Error.parse`, statement by statement, computes the schema-driven `Parse` |
| MessageMethods.MarshalErrorDetails | autobahn/wamp/message.py:1678-1695 | The dictionary that is filled in place |
| MessageMethods.MarshalError | autobahn/wamp/message.py:1671-1703 | `Error.marshal` computes the schema-driven `Marshal` |
| MessageMethods.CheckProcedure | autobahn/wamp/message.py:4813-4845 | The match policy, exact by default, and the URI check that it selects, with their errors |
| MessageMethods.TakeInvoke | autobahn/wamp/message.py:4847-4857 | The invocation policy, or single, or its error |
| MessageMethods.TakeConcurrency | autobahn/wamp/message.py:4859-4868 | The concurrency, at least one if present |
| MessageMethods.TakeForceReregister | autobahn/wamp/message.py:4870-4878 | A boolean, or what Python takes to equal one |
| MessageMethods.TakeForwardFor | autobahn/wamp/message.py:4879-4895 | The forwarders, of which only the type is looked at |
| MessageMethods.ParseRegisterFields | autobahn/wamp/message.py:4847-4895 | The optional fields of a registration, starting from the defaults |
| MessageMethods.DefaultsMayBePassed | autobahn/wamp/message.py:4788-4789 | Passing the defaults to the constructor is leaving them out, whatever else is wrong with the message |
| MessageMethods.ParseRegister | autobahn/wamp/message.py:4794-4900 | `Register.parse` computes `Parse` |
| MessageMethods.MarshalRegisterOptions | autobahn/wamp/message.py:4902-4920 | `Register.marshal_options` writes exactly the options that are not defaults |
| MessageMethods.MarshalRegister | autobahn/wamp/message.py:4922-4929 | `Register.marshal` computes `Marshal` |
| SshBlob.Pack | autobahn/wamp/cryptosign.py:73-81 | Packs exactly the lists whose parts are shorter than 2^32 |
| SshBlob.Unpack | autobahn/wamp/cryptosign.py:56-70 | The loop computes `Parts`, also for blobs it cannot read |
| SshBlob.UnpackOfPack | autobahn/wamp/cryptosign.py:56-81 | Unpacking what was packed gives the parts back, empty ones included |
| SshBlob.PackOfUnpack | autobahn/wamp/cryptosign.py:56-81 | Packing what was unpacked gives the blob back if and only if no length prefix overruns |
| SshBlob.SSHPacketReader.constructor | autobahn/wamp/cryptosign.py:127-130 | The cursor starts at the front |
| SshBlob.SSHPacketReader.GetRemainingPayload | autobahn/wamp/cryptosign.py:132-133 | What has not been read |
| SshBlob.SSHPacketReader.GetBytes | autobahn/wamp/cryptosign.py:135-141 | The next octets, or an exception without moving |
| SshBlob.SSHPacketReader.GetUint32 | autobahn/wamp/cryptosign.py:143-144 | The next number |
| SshBlob.SSHPacketReader.GetString | autobahn/wamp/cryptosign.py:146-147 | The next string; the cursor never passes the end |
| SshBlob.ReadAllStrings | autobahn/wamp/cryptosign.py:122-147 | Repeated reading terminates, succeeds exactly on well-framed blobs, and gives the parts of `_unpack` |
| SshBlob.ReadPrivateKey | autobahn/wamp/cryptosign.py:195-252 | Behind fifteen octets that are not looked at, exactly the files of the layout give a seed and a comment, and these; errors come in the order of the checks |
| SshBlob.DecodedAcceptance | autobahn/wamp/cryptosign.py:184-252 | The same of the specification: both directions, on the whole decoded file, with the layout in octets |
| SshBlob.ReadFile | autobahn/wamp/cryptosign.py:184-252 | Reading a whole file, magic included, gives back the first half of its secret key and its comment |
| SshBlob.ReadKeySection | autobahn/wamp/cryptosign.py:222-230 | The part behind the outer layer |
| SshBlob.ReadKeyPair | autobahn/wamp/cryptosign.py:232-252 | Keys, comment and padding |
| SshBlob.KeyFileReadsBack | autobahn/wamp/cryptosign.py:197-252 | Every key file of the layout, whatever its comment, gives its seed and comment |
| SshBlob.OnlyKeyFilesRead | autobahn/wamp/cryptosign.py:197-252 | Whatever is accepted has this layout, ending in padding 1, 2, 3 and so on shorter than 8 |
| SshBlob.KeyFileAcceptance | autobahn/wamp/cryptosign.py:197-252 | Both directions: a seed and a comment are returned exactly for the files that hold them |
| ReceiveQueue.StepKeepsInvariant | autobahn/asyncio/websocket.py:98-113 | Every step keeps the number of drains and the order of the chunks |
| ReceiveQueue.RunKeepsInvariant | autobahn/asyncio/websocket.py:90-113 | So does every run |
| ReceiveQueue.NoLostWakeup | autobahn/asyncio/websocket.py:98-113 | After any interleaving, queued data has exactly one drain, scheduled or running |
| ReceiveQueue.NothingLostWhileConnected | autobahn/asyncio/websocket.py:101-113 | While connected, delivered and then queued chunks are the received ones |
| ReceiveQueue.NothingDeliveredOnceLost | autobahn/asyncio/websocket.py:101-105 | Whatever happens after the connection is lost, nothing more is delivered |
| ReceiveQueue.DrainingDelivers | autobahn/asyncio/websocket.py:101-108 | From every reachable state the loop gets to deliver everything |
| ReceiveQueue.WebSocketAdapterProtocol.constructor | autobahn/asyncio/websocket.py:85-86 | The adapter starts with an empty queue and a fresh waiter |
| ReceiveQueue.WebSocketAdapterProtocol.DataReceived | autobahn/asyncio/websocket.py:110-113 | Makes the step of arriving data |
| ReceiveQueue.WebSocketAdapterProtocol.ConnectionLost | autobahn/asyncio/websocket.py:90-96 | Makes the step of losing the connection |
| ReceiveQueue.WebSocketAdapterProtocol.HandOver | autobahn/asyncio/websocket.py:105-105 | Delivers one chunk, whatever the application calls back meanwhile |
| ReceiveQueue.WebSocketAdapterProtocol.Process | autobahn/asyncio/websocket.py:101-106 | The callback empties the queue and replaces the waiter; if still connected, everything received is delivered |

## Left out

- The WebSocket protocol engine (`autobahn/websocket/protocol.py`) and the WAMP session (`autobahn/wamp/protocol.py`): not part of this model.
- Twisted and asyncio themselves, TLS, endpoints, factories, the runners and the command line: input and output. Twisted's string receiver appears only as the octets passed on to it.
- `current_index` and `total_index` of the validator, which are never read; memory, alignment and prefetching.
- What an asyncio transport does with octets handed to it, before and after it is closed. The override of `supports_serializer` at `autobahn/asyncio/rawsocket.py:399-414`, whose `abort()` raises before there is a session.
- Utf8Validator.Validator.ValidateSimd: requires the head to be no longer than the data, which the C code does not check when it takes the head length from the alignment; octets beyond the data are no part of this model, and the dispatcher sends no data to these forms.
- Chunks after an error: asyncio delivers nothing once the transport is closed.
- Futures, logging, user callbacks and `stop()` of the component: each attempt has an outcome chosen by the environment. Jitter is an arbitrary real, so the distribution of the delays is not modelled; real arithmetic stands for floating point.
- The search strategy of Python's regular expressions: a search is any match with its captures, and there is proved to be only one. `\d` is the decimal digits of Unicode 14, `\s` its white space. `int()` in `Pattern.match` is a parameter.
- Message classes with nothing but ids, and Hello, Welcome, Abort, Challenge, Authenticate, Goodbye: their dictionaries hold more fields, not harder ones. FlatBuffers (`build`, `cast`), serialization to octets, and correlation attributes.
- `marshal` of the message classes other than Error and Register is modelled on values through the schema, not as dictionaries filled in place. Keys of dictionaries are the field names the classes know, or any other string, or no string.
- Values that are not made of null, booleans, numbers, strings, octets, lists, tuples and dictionaries.
- Cryptography, base64, the public key reader and the agent protocol around the blobs.
- An exception raised by `_dataReceived` inside the callback of the receive queue, which would leave the waiter resolved.
- Token generation, trackers, configuration checks, interfaces and the like: easy members only.
