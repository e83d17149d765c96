# Socket.IO packet codec, modelled in Dafny

This project models the client-side packet codec of SocketIO-Kit, a Swift
client for the Socket.IO protocol, together with its list of system event
names.

A Socket.IO packet travels as text of the form
`<idDigit><keyDigit>[<nsp>[,]][<payload>]`:

- the first digit is the engine-level kind (`PacketTypeID`: Open, Close,
  Ping, Pong, Message, Upgrade, Noop);
- the second digit is the socket-level kind (`PacketTypeKey`: Connect,
  Disconnect, Event, Ack, Error, BinaryEvent, BinaryAck);
- an optional namespace follows;
- an optional JSON array `[event, args...]` comes last.

`SocketIOPacket` builds such text through a family of `encode` overloads.
Its two `decode` functions read the text back into
`(ok, id, key, data)`. On any failure they return the sentinel
`(false, Close, Error, [])`.

Every member of the source is a static function of its arguments, so the
Dafny model is made of datatypes, functions and lemmas.

Files and modules:

- `wrappers.dfy` (`Wrappers`): `Option`, for Swift's optionals.
- `json.dfy` (`JsonValues`): a closed `Json` value type, and `JsonLibrary`.
  `JsonLibrary` holds the three JSON calls the codec makes: Foundation's
  `NSJSONSerialization.isValidJSONObject` and
  `NSJSONSerialization.JSONObjectWithData`, and the project's own
  `SocketIOUtilities.arrayToJSON`, whose source is not part of this model.
  Each is a field of function type,
  passed to the codec as a parameter. Round-trip lemmas assume
  `RoundTrips(lib)`: a value the library calls valid serializes to
  non-empty text that parses back to the same value.
- `packet_types.dfy` (`PacketTypes`): the two kind enumerations, their raw
  values, their `value` digit strings and `init(rawValue:)`.
- `packet_codec.dfy` (`PacketCodec`): every `encode` overload, both
  `decode`s, and the round trips and examples proved about them.
- `namespace_match.dfy` (`NamespaceMatch`): how the namespaced decode finds
  the end of the namespace (see Findings).
- `socketio_event.dfy` (`SystemEvents`): the `SocketIOEvent` enumeration,
  its raw values and `description`.

The source's regular expressions are modelled as a literal prefix check:
`^[0-9][0-9]` matches two ASCII digits, and `^[0-9][0-9]` + nsp matches
the same digits followed by `nsp` character for character. The match length
is `2` or `2 + |nsp|`. The decoders cut the remaining data at that offset,
as the source does.

Two behaviours of the code are worth stating on their own:

- When a JSON-payload encode fails, it returns the bare two digits, without
  the namespace, even when a namespace was given. `EncodeEventPayload`
  states this.
- The namespaced decoder accepts an expected namespace that is a proper
  prefix of the packet's namespace: a decoder bound to `/a` accepts the
  packet `42/ab`. See Findings.

## Model

| member | source | states |
|---|---|---|
| PacketTypes.PacketTypeID.RawValue | Source/SocketIOPacket.swift:12-20 | the raw value of every engine-level kind is at most 6 |
| PacketTypes.PacketTypeID.Value | Source/SocketIOPacket.swift:22-24 | `value` is one decimal digit character whose number is the raw value |
| PacketTypes.PacketTypeKey.RawValue | Source/SocketIOPacket.swift:28-36 | the raw value of every socket-level kind is at most 6 |
| PacketTypes.PacketTypeKey.Value | Source/SocketIOPacket.swift:38-40 | `value` is one decimal digit character whose number is the raw value |
| PacketTypes.ParseDigit | Source/SocketIOPacket.swift:178-179 | `Int` of a one-character string is defined exactly on the digits 0-9, and is the inverse of writing the digit |
| PacketTypes.PacketTypeIDFromRaw | Source/SocketIOPacket.swift:178 | `PacketTypeID(rawValue: n)` exists exactly for 0 <= n <= 6, and the case it gives has raw value n |
| PacketTypes.PacketTypeKeyFromRaw | Source/SocketIOPacket.swift:179 | `PacketTypeKey(rawValue: n)` exists exactly for 0 <= n <= 6, and the case it gives has raw value n |
| PacketTypes.PacketTypeIDRawRoundTrip | Source/SocketIOPacket.swift:12-24 | building a `PacketTypeID` from a case's raw value gives back that case |
| PacketTypes.PacketTypeKeyRawRoundTrip | Source/SocketIOPacket.swift:28-40 | building a `PacketTypeKey` from a case's raw value gives back that case |
| PacketTypes.PacketTypeIDValueInjective | Source/SocketIOPacket.swift:22-24 | two engine-level kinds have the same wire digit if and only if they are the same kind |
| PacketTypes.PacketTypeKeyValueInjective | Source/SocketIOPacket.swift:38-40 | two socket-level kinds have the same wire digit if and only if they are the same kind |
| PacketCodec.Encode | Source/SocketIOPacket.swift:67-69 | the bare packet is exactly two digit characters, the id's raw value followed by the key's |
| PacketCodec.EncodeNamespace | Source/SocketIOPacket.swift:71-73 | the namespace packet is the two digits followed by the namespace verbatim, with no separator |
| PacketCodec.EncodeNamespacedEventMessage | Source/SocketIOPacket.swift:79-92 | all four branches have one shape: the digits, then `nsp,` when the namespace is non-empty, then `["event","message"]` when the event is non-empty |
| PacketCodec.EncodeEventMessage | Source/SocketIOPacket.swift:75-77 | the three-argument form is the digits, followed by `["event","message"]` only when the event is non-empty (the default namespace) |
| PacketCodec.EncodeEventPayload | Source/SocketIOPacket.swift:98-113 | an error is returned exactly when the event is empty or `[event, payload]` is not valid JSON; the error text is the bare two digits, even with a namespace, and the error says "Invalid JSON Object"; otherwise there is no error and the text is the digits, the namespace segment, then the serialized array (empty if serializing fails) |
| PacketCodec.EncodeNamespacedEventList | Source/SocketIOPacket.swift:98-113 | the list encode: error exactly when the event is empty or `[event, list]` is invalid JSON, and then the bare digits; otherwise digits, namespace segment and JSON text |
| PacketCodec.EncodeEventList | Source/SocketIOPacket.swift:94-96 | the default-namespace list encode: same error rule; on success the JSON text follows the digits directly |
| PacketCodec.EncodeNamespacedEventDictionary | Source/SocketIOPacket.swift:119-134 | the dictionary encode: error exactly when the event is empty or `[event, dict]` is invalid JSON, and then the bare digits; otherwise digits, namespace segment and JSON text |
| PacketCodec.EncodeEventDictionary | Source/SocketIOPacket.swift:115-117 | the default-namespace dictionary encode: same error rule; on success the JSON text follows the digits directly |
| PacketCodec.FirstMatch | Source/SocketIOPacket.swift:46-62 | the anchored digits-then-namespace pattern matches exactly when the text starts with two ASCII digits followed by the namespace verbatim, and the match then has length two plus the namespace's length and fits in the text |
| PacketCodec.PayloadData | Source/SocketIOPacket.swift:157-175 | no data for empty text; any data returned is exactly what the text parses to as an array; text that parses to an array always yields that array |
| PacketCodec.PacketFromDigits | Source/SocketIOPacket.swift:177-185 | the kinds are read from the first two characters; this succeeds exactly when both are digits 0-6, and the two characters are then the encoding of the kinds returned; otherwise the result is the sentinel |
| PacketCodec.Decode | Source/SocketIOPacket.swift:139-186 | `ok` holds exactly when the text starts with two digits 0-6; a failure is the sentinel; on success the first two characters encode the returned kinds and the data is the lenient payload of the rest |
| PacketCodec.DecodeNamespaced | Source/SocketIOPacket.swift:188-238 | with an empty namespace this is `decode(value)`; otherwise `ok` holds exactly when two digits 0-6 are immediately followed by the namespace; a failure is the sentinel; on success the data is empty if nothing follows the namespace, and otherwise the lenient payload after skipping exactly one character |
| PacketCodec.DecodePrefixed | Source/SocketIOPacket.swift:139-186 | decoding the encoding of `(id, key)` followed by any text gives `(true, id, key, payload of that text)` |
| PacketCodec.DecodeEncode | Source/SocketIOPacket.swift:139-186 | `decode(encode(id, key)) == (true, id, key, [])` for every pair of kinds |
| PacketCodec.DecodeNamespacedSkipsOne | Source/SocketIOPacket.swift:199-227 | under a non-empty namespace, the digits, the namespace, any single character and a rest decode to the kinds and the rest's payload |
| PacketCodec.DecodeNamespacedEncodeNamespace | Source/SocketIOPacket.swift:188-238 | `decode(encode(id, key, nsp), withNamespace: nsp) == (true, id, key, [])` for every namespace, the empty one included |
| PacketCodec.DecodeEncodedEventMessage | Source/SocketIOPacket.swift:79-92 | a string-message packet decodes under its own namespace to its own kinds; it has no data when the event is empty, and otherwise the library's reading of `["event","message"]` |
| PacketCodec.DecodeEncodedEventPayload | Source/SocketIOPacket.swift:98-113 | with a round-tripping library, a valid non-empty-event payload encodes without error and decodes under its own namespace to `(true, id, key, [event, payload])` |
| PacketCodec.EncodeEventPayloadFailureIsBare | Source/SocketIOPacket.swift:101-103 | a failed JSON-payload encode decodes to `(true, id, key, [])`, and a decoder bound to a non-empty namespace refuses it with the sentinel |
| PacketCodec.DecodeEncodedEventList | Source/SocketIOPacket.swift:94-113 | list packets round-trip: `[event, list]` comes back as the data, through both the namespaced and the default-namespace encode |
| PacketCodec.DecodeEncodedEventDictionary | Source/SocketIOPacket.swift:115-134 | dictionary packets round-trip: `[event, dict]` comes back as the data, through both the namespaced and the default-namespace encode |
| PacketCodec.DecodeRejectsMalformed | Source/SocketIOPacket.swift:185 | `""`, `"4"`, `"x9"`, `"99"`, `"47"` and `"74[]"` all decode to the sentinel |
| PacketCodec.DecodeChatMessage | Source/SocketIOPacket.swift:146 | `42["chat message","example"]` decodes to a Message/Event packet whose data is the parsed pair |
| PacketCodec.DecodeGalleryMessage | Source/SocketIOPacket.swift:196 | `42/gallery,["chat message","msg"]` decodes under `/gallery` to a Message/Event packet with the parsed pair |
| PacketCodec.DecodeGalleryMessageOtherNamespace | Source/SocketIOPacket.swift:199 | the same text decoded under `/other` is the sentinel |
| NamespaceMatch.AsWrittenAcceptsLongerNamespace | Source/SocketIOPacket.swift:199-206 | as written, a decoder bound to `nsp` accepts the packet of any longer namespace that starts with `nsp` |
| NamespaceMatch.AsWrittenAcceptsOtherNamespace | Source/SocketIOPacket.swift:55-62 | as written, `42/ab` (the encoding of Message/Event for `/ab`) decoded under `/a` gives `(true, Message, Event, [])` |
| NamespaceMatch.DecodeNamespacedStrict | Source/SocketIOPacket.swift:188-238 | corrected namespaced decode: succeeds exactly when the as-written decode would AND the namespace is followed by the end of text or a comma, and then agrees with it; a failure is the sentinel |
| NamespaceMatch.StrictRejectsOtherNamespace | Source/SocketIOPacket.swift:199-206 | with the correction, and namespaces without commas, a packet for one namespace, with or without a payload, is refused under every other namespace |
| NamespaceMatch.StrictAgreesOnWellFormed | Source/SocketIOPacket.swift:199-227 | the correction keeps the round trips: `digits + nsp` and `digits + nsp + "," + rest` decode as before |
| SystemEvents.SocketIOEvent.RawValue | Source/SocketIOEvent.swift:12-17 | every case's raw value is one of the four names |
| SystemEvents.SocketIOEvent.Description | Source/SocketIOEvent.swift:19-21 | `description` equals the raw value |
| SystemEvents.FromRawValue | Source/SocketIOEvent.swift:12-17 | a string gives a case exactly when it is one of the four names, and the case has that string as its raw value |
| SystemEvents.RawValueRoundTrip | Source/SocketIOEvent.swift:12-17 | building the enum from a case's raw value gives back that case |
| SystemEvents.RawValueInjective | Source/SocketIOEvent.swift:12-17 | two cases have the same raw value if and only if they are the same case |
| SystemEvents.RawValuesAreTheCases | Source/SocketIOEvent.swift:14-17 | the raw values are exactly "connected", "disconnected", "connect_error" and "reconnect_attempt", in declaration order, and pairwise distinct |

## Left out

- Regular expressions: `NSRegularExpression` is replaced by a literal prefix check. The source's `.CaseInsensitive` option is not modelled, so `42/Gallery` does not match `/gallery` here. Neither are regex metacharacters in a namespace (the namespace is spliced into the pattern unescaped). Neither is a pattern that fails to compile, which the source turns into the sentinel.
- String indexing: the source measures text with `characters.count` and cuts it with `NSString` UTF-16 ranges. The model uses one `char` per position and does not capture where the two counts differ.
- JSON: JSON syntax is not modelled. Validity, serialization and parsing are the fields of the `JsonLibrary` parameter. Numbers are integers, so floating point is not captured. `dataUsingEncoding` is treated as always succeeding on non-empty text.
- DecodeEncodedEventMessage: the string-message encode builds `["event","message"]` by hand, with no escaping. The lemma gives whatever the library parses out of that text; it does not claim the data is `[event, message]`, because that would depend on JSON syntax.
- Debug logging: the `#if DEBUG` `println` calls in both decoders are output only.
- `SocketIOError`: its definition is not part of this model. It is a record of the message and info strings the encodes pass to it.
- `Source/SocketIOConnection.swift`: `emit` only calls `performEvent` and `performGlobalEvents` of `SocketIOEventHandler`, which is not part of this model. The handler registry and its synchronisation are left out with it.
- Transport: sending, receiving, reconnection and heartbeats are not in the modelled files.

## Findings

| source | as written | input that shows it | evidently intended | confidence | as-written member | corrected member |
|---|---|---|---|---|---|---|
| Source/SocketIOPacket.swift:199-206 | the expected namespace only has to be a prefix of the text after the digits, and then one character is skipped whatever it is | `"42/ab"`, the encoding of Message/Event for namespace `/ab`, decoded with namespace `/a` gives `(true, Message, Event, [])` | the namespace ends at a comma or at the end of the text, so packets of other namespaces are refused: the pattern comment at Source/SocketIOPacket.swift:57 reads `<packet type>/nsp,[<data>]`, and the namespaced encodes at lines 88, 90 and 111 always write the namespace followed by a comma | medium; not executed | NamespaceMatch.AsWrittenAcceptsOtherNamespace | NamespaceMatch.DecodeNamespacedStrict |
