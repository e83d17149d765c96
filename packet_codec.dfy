/**
 * The Socket.IO packet codec (`SocketIOPacket`): building the wire text
 * `<idDigit><keyDigit>[<nsp>[,]][<payload>]` and reading it back.
 *
 * The regular expressions of the source (`^[0-9][0-9]`, and the same
 * followed by the namespace) are modelled as a literal prefix match; the JSON
 * library is the `lib` parameter.
 */
module PacketCodec {
  import opened Wrappers
  import opened JsonValues
  import opened PacketTypes

  /** `SocketIOError(message:withInfo:)`. */
  datatype SocketIOError = SocketIOError(message: string, info: seq<string>)

  /** The `(String, SocketIOError?)` pair returned by the JSON-payload encodes. */
  datatype Encoded = Encoded(text: string, error: Option<SocketIOError>)

  /** The `(Bool, PacketTypeID, PacketTypeKey, NSArray)` tuple returned by the decodes. */
  datatype Decoded = Decoded(ok: bool, id: PacketTypeID, key: PacketTypeKey, data: seq<Json>)

  /** The failure result; its `Close`/`Error` pair is not a real packet. */
  const Sentinel: Decoded := Decoded(false, Close, Error, [])

  /** The text starts with the wire digits of some packet kind pair. */
  predicate StartsWithPacketDigits(value: string) {
    |value| >= 2 && '0' <= value[0] <= '6' && '0' <= value[1] <= '6'
  }

  // ---------------------------------------------------------------- Encode

  /** `encode(id, withKey:)`: the bare two-digit packet. */
  function Encode(id: PacketTypeID, key: PacketTypeKey): (s: string)
    ensures |s| == 2
    ensures IsDecimalDigit(s[0]) && DigitValue(s[0]) == id.RawValue()
    ensures IsDecimalDigit(s[1]) && DigitValue(s[1]) == key.RawValue()
  {
    id.Value() + key.Value()
  }

  /** `encode(id, withKey:, andNamespace:)`: the namespace follows the digits verbatim, with no separator. */
  function EncodeNamespace(id: PacketTypeID, key: PacketTypeKey, nsp: string): (s: string)
    ensures |s| == 2 + |nsp|
    ensures s[..2] == Encode(id, key) && s[2..] == nsp
  {
    id.Value() + key.Value() + nsp
  }

  /** The hand-built payload `["event","message"]`; neither string is escaped. */
  function QuotedPair(event: string, message: string): string {
    "[\"" + event + "\",\"" + message + "\"]"
  }

  /** The namespace and its comma, or nothing for the default namespace. */
  function NamespaceSegment(nsp: string): string {
    if nsp == [] then [] else nsp + ","
  }

  /** `encode(id, withKey:, andNamespace:, andEvent:, andMessage:)`. */
  function EncodeNamespacedEventMessage(id: PacketTypeID, key: PacketTypeKey, nsp: string, event: string, message: string): (s: string)
    ensures s == Encode(id, key) + NamespaceSegment(nsp) + (if event == [] then [] else QuotedPair(event, message))
  {
    if nsp == [] then
      if event == [] then id.Value() + key.Value()
      else id.Value() + key.Value() + QuotedPair(event, message)
    else
      if event == [] then id.Value() + key.Value() + nsp + ","
      else id.Value() + key.Value() + nsp + "," + QuotedPair(event, message)
  }

  /** `encode(id, withKey:, andEvent:, andMessage:)`: the default namespace. */
  function EncodeEventMessage(id: PacketTypeID, key: PacketTypeKey, event: string, message: string): (s: string)
    ensures s == Encode(id, key) + (if event == [] then [] else QuotedPair(event, message))
  {
    EncodeNamespacedEventMessage(id, key, "", event, message)
  }

  /** The error the JSON-payload encodes report. */
  function InvalidJsonObject(event: string): SocketIOError {
    SocketIOError("Invalid JSON Object", ["Event: " + event])
  }

  /** `[event, payload]`, the array the JSON-payload encodes serialize. */
  function EventArray(event: string, payload: Json): Json {
    JArray([JString(event), payload])
  }

  /**
   * The body shared by the list and dictionary encodes: an empty event or an
   * array that is not valid JSON gives the bare two digits and an error (the
   * namespace is dropped); otherwise the serialized array follows the digits
   * and the namespace segment, and there is no error.
   */
  function EncodeEventPayload(id: PacketTypeID, key: PacketTypeKey, nsp: string, event: string, payload: Json, lib: JsonLibrary): (r: Encoded)
    ensures r.error.Some? <==> event == [] || !lib.isValidJSONObject(EventArray(event, payload))
    ensures r.error.Some? ==> r.text == Encode(id, key) && r.error.value == InvalidJsonObject(event)
    ensures r.error.None? ==> r.text == Encode(id, key) + NamespaceSegment(nsp) + lib.serialize(EventArray(event, payload)).GetOr([])
  {
    var arr := EventArray(event, payload);
    if event == [] || !lib.isValidJSONObject(arr) then
      Encoded(id.Value() + key.Value(), Some(InvalidJsonObject(event)))
    else
      var message := lib.serialize(arr).GetOr([]);
      if nsp == [] then Encoded(id.Value() + key.Value() + message, None)
      else Encoded(id.Value() + key.Value() + nsp + "," + message, None)
  }

  /** `encode(id, withKey:, andNamespace:, andEvent:, andList:)`. */
  function EncodeNamespacedEventList(id: PacketTypeID, key: PacketTypeKey, nsp: string, event: string, list: seq<Json>, lib: JsonLibrary): (r: Encoded)
    ensures r.error.Some? <==> event == [] || !lib.isValidJSONObject(JArray([JString(event), JArray(list)]))
    ensures r.error.Some? ==> r.text == Encode(id, key)
    ensures r.error.None? ==> r.text == Encode(id, key) + NamespaceSegment(nsp) + lib.serialize(JArray([JString(event), JArray(list)])).GetOr([])
  {
    EncodeEventPayload(id, key, nsp, event, JArray(list), lib)
  }

  /** `encode(id, withKey:, andEvent:, andList:)`: the default namespace. */
  function EncodeEventList(id: PacketTypeID, key: PacketTypeKey, event: string, list: seq<Json>, lib: JsonLibrary): (r: Encoded)
    ensures r.error.Some? <==> event == [] || !lib.isValidJSONObject(JArray([JString(event), JArray(list)]))
    ensures r.error.Some? ==> r.text == Encode(id, key)
    ensures r.error.None? ==> r.text == Encode(id, key) + lib.serialize(JArray([JString(event), JArray(list)])).GetOr([])
  {
    EncodeNamespacedEventList(id, key, "", event, list, lib)
  }

  /** `encode(id, withKey:, andNamespace:, andEvent:, andDictionary:)`. */
  function EncodeNamespacedEventDictionary(id: PacketTypeID, key: PacketTypeKey, nsp: string, event: string, dict: map<string, Json>, lib: JsonLibrary): (r: Encoded)
    ensures r.error.Some? <==> event == [] || !lib.isValidJSONObject(JArray([JString(event), JObject(dict)]))
    ensures r.error.Some? ==> r.text == Encode(id, key)
    ensures r.error.None? ==> r.text == Encode(id, key) + NamespaceSegment(nsp) + lib.serialize(JArray([JString(event), JObject(dict)])).GetOr([])
  {
    EncodeEventPayload(id, key, nsp, event, JObject(dict), lib)
  }

  /** `encode(id, withKey:, andEvent:, andDictionary:)`: the default namespace. */
  function EncodeEventDictionary(id: PacketTypeID, key: PacketTypeKey, event: string, dict: map<string, Json>, lib: JsonLibrary): (r: Encoded)
    ensures r.error.Some? <==> event == [] || !lib.isValidJSONObject(JArray([JString(event), JObject(dict)]))
    ensures r.error.Some? ==> r.text == Encode(id, key)
    ensures r.error.None? ==> r.text == Encode(id, key) + lib.serialize(JArray([JString(event), JObject(dict)])).GetOr([])
  {
    EncodeNamespacedEventDictionary(id, key, "", event, dict, lib)
  }

  // ---------------------------------------------------------------- Decode

  /**
   * `firstMatchInString` for the anchored pattern `^[0-9][0-9]` followed by
   * `nsp`, read literally: the length of the match, if there is one.
   */
  function FirstMatch(value: string, nsp: string): (m: Option<nat>)
    ensures m.Some? <==> |value| >= 2 + |nsp| && IsDecimalDigit(value[0]) && IsDecimalDigit(value[1]) && value[2..2 + |nsp|] == nsp
    ensures m.Some? ==> m.value == 2 + |nsp| <= |value|
  {
    if |value| >= 2 + |nsp| && IsDecimalDigit(value[0]) && IsDecimalDigit(value[1]) && value[2..2 + |nsp|] == nsp
    then Some(2 + |nsp|)
    else None
  }

  /**
   * The lenient payload rule: empty text, text that does not parse and text
   * that parses to something other than an array all give no data.
   */
  function PayloadData(remaining: string, lib: JsonLibrary): (data: seq<Json>)
    ensures remaining == [] ==> data == []
    ensures data != [] ==> lib.parse(remaining) == Some(JArray(data))
    ensures remaining != [] && lib.parse(remaining).Some? && lib.parse(remaining).value.JArray? ==>
              data == lib.parse(remaining).value.elements
  {
    if remaining == [] then []
    else
      match lib.parse(remaining)
      case Some(JArray(elements)) => elements
      case _ => []
  }

  /** The closing step of both decodes: the two leading digits read as packet kinds. */
  function PacketFromDigits(value: string, data: seq<Json>): (r: Decoded)
    requires |value| >= 2
    ensures r.ok <==> StartsWithPacketDigits(value)
    ensures !r.ok ==> r == Sentinel
    ensures r.ok ==> value[..2] == Encode(r.id, r.key) && r.data == data
  {
    match (ParseDigit(value[0]), ParseDigit(value[1]))
    case (Some(first), Some(second)) =>
      (match (PacketTypeIDFromRaw(first), PacketTypeKeyFromRaw(second))
       case (Some(id), Some(key)) => Decoded(true, id, key, data)
       case _ => Sentinel)
    case _ => Sentinel
  }

  /** `decode(value)`. */
  function Decode(value: string, lib: JsonLibrary): (r: Decoded)
    ensures r.ok <==> StartsWithPacketDigits(value)
    ensures !r.ok ==> r == Sentinel
    ensures r.ok ==> value[..2] == Encode(r.id, r.key) && r.data == PayloadData(value[2..], lib)
  {
    match FirstMatch(value, "")
    case None => Sentinel
    case Some(length) =>
      var data := PayloadData(value[length..], lib);
      PacketFromDigits(value, data)
  }

  /**
   * `decode(value, withNamespace: nsp)`: the namespace must follow the digits
   * immediately; exactly one character after it (meant to be the comma) is
   * skipped before the payload.
   */
  function DecodeNamespaced(value: string, nsp: string, lib: JsonLibrary): (r: Decoded)
    ensures nsp == [] ==> r == Decode(value, lib)
    ensures nsp != [] ==>
              (r.ok <==> StartsWithPacketDigits(value) && |value| >= 2 + |nsp| && value[2..2 + |nsp|] == nsp)
    ensures !r.ok ==> r == Sentinel
    ensures r.ok && nsp != [] ==>
              && value[..2] == Encode(r.id, r.key)
              && r.data == (if 2 + |nsp| < |value| then PayloadData(value[3 + |nsp|..], lib) else [])
  {
    if nsp == [] then Decode(value, lib)
    else
      match FirstMatch(value, nsp)
      case None => Sentinel
      case Some(length) =>
        var data := if length < |value| then PayloadData(value[length + 1..], lib) else [];
        PacketFromDigits(value, data)
  }

  // ---------------------------------------------------------------- Round trips

  /** Decoding digits followed by any text gives those kinds and that text's payload. */
  lemma DecodePrefixed(id: PacketTypeID, key: PacketTypeKey, rest: string, lib: JsonLibrary)
    ensures Decode(Encode(id, key) + rest, lib) == Decoded(true, id, key, PayloadData(rest, lib))
  {
    var r := Decode(Encode(id, key) + rest, lib);
    PacketTypeIDValueInjective(r.id, id);
    PacketTypeKeyValueInjective(r.key, key);
  }

  /** `decode(encode(id, key)) == (true, id, key, [])`. */
  lemma DecodeEncode(id: PacketTypeID, key: PacketTypeKey, lib: JsonLibrary)
    ensures Decode(Encode(id, key), lib) == Decoded(true, id, key, [])
  {
    DecodePrefixed(id, key, [], lib);
    assert Encode(id, key) + [] == Encode(id, key);
  }

  /**
   * Decoding with a non-empty namespace text that holds the digits, the
   * namespace, any one character and a rest gives the rest's payload.
   */
  lemma DecodeNamespacedSkipsOne(id: PacketTypeID, key: PacketTypeKey, nsp: string, c: char, rest: string, lib: JsonLibrary)
    requires nsp != []
    ensures DecodeNamespaced(EncodeNamespace(id, key, nsp) + [c] + rest, nsp, lib) == Decoded(true, id, key, PayloadData(rest, lib))
  {
    var value := EncodeNamespace(id, key, nsp) + [c] + rest;
    DecodePrefixed(id, key, nsp + [c] + rest, lib);
    assert value == Encode(id, key) + (nsp + [c] + rest);
    assert value[2..2 + |nsp|] == nsp;
    assert value[3 + |nsp|..] == rest;
  }

  /** `decode(encode(id, key, nsp), withNamespace: nsp) == (true, id, key, [])`. */
  lemma DecodeNamespacedEncodeNamespace(id: PacketTypeID, key: PacketTypeKey, nsp: string, lib: JsonLibrary)
    ensures DecodeNamespaced(EncodeNamespace(id, key, nsp), nsp, lib) == Decoded(true, id, key, [])
  {
    var value := EncodeNamespace(id, key, nsp);
    if nsp == [] {
      DecodeEncode(id, key, lib);
      assert value == Encode(id, key);
    } else {
      DecodePrefixed(id, key, nsp, lib);
      assert value == Encode(id, key) + nsp;
    }
  }

  /**
   * Every string-message packet decodes, under its own namespace, to its own
   * kinds; its data is what the library makes of the hand-built pair, and
   * nothing when the event is empty.
   */
  lemma DecodeEncodedEventMessage(id: PacketTypeID, key: PacketTypeKey, nsp: string, event: string, message: string, lib: JsonLibrary)
    ensures DecodeNamespaced(EncodeNamespacedEventMessage(id, key, nsp, event, message), nsp, lib)
              == Decoded(true, id, key, if event == [] then [] else PayloadData(QuotedPair(event, message), lib))
  {
    var payload := if event == [] then [] else QuotedPair(event, message);
    var value := EncodeNamespacedEventMessage(id, key, nsp, event, message);
    if nsp == [] {
      DecodePrefixed(id, key, payload, lib);
      assert value == Encode(id, key) + payload;
    } else {
      DecodeNamespacedSkipsOne(id, key, nsp, ',', payload, lib);
      assert value == EncodeNamespace(id, key, nsp) + [','] + payload;
    }
  }

  /**
   * With a library that round-trips, a successful JSON-payload encode decodes,
   * under its own namespace, to `(true, id, key, [event, payload])`.
   */
  lemma DecodeEncodedEventPayload(id: PacketTypeID, key: PacketTypeKey, nsp: string, event: string, payload: Json, lib: JsonLibrary)
    requires RoundTrips(lib)
    requires event != [] && lib.isValidJSONObject(EventArray(event, payload))
    ensures EncodeEventPayload(id, key, nsp, event, payload, lib).error.None?
    ensures DecodeNamespaced(EncodeEventPayload(id, key, nsp, event, payload, lib).text, nsp, lib)
              == Decoded(true, id, key, [JString(event), payload])
  {
    var arr := EventArray(event, payload);
    var text := lib.serialize(arr).value;
    var value := EncodeEventPayload(id, key, nsp, event, payload, lib).text;
    assert lib.parse(text) == Some(arr);
    assert PayloadData(text, lib) == [JString(event), payload];
    if nsp == [] {
      DecodePrefixed(id, key, text, lib);
      assert value == Encode(id, key) + text;
    } else {
      DecodeNamespacedSkipsOne(id, key, nsp, ',', text, lib);
      assert value == EncodeNamespace(id, key, nsp) + [','] + text;
    }
  }

  /**
   * A failed JSON-payload encode gives the bare digits: they decode to the
   * packet kinds with no data, and are refused by a decoder bound to a
   * non-empty namespace.
   */
  lemma EncodeEventPayloadFailureIsBare(id: PacketTypeID, key: PacketTypeKey, nsp: string, event: string, payload: Json, lib: JsonLibrary)
    requires EncodeEventPayload(id, key, nsp, event, payload, lib).error.Some?
    ensures Decode(EncodeEventPayload(id, key, nsp, event, payload, lib).text, lib) == Decoded(true, id, key, [])
    ensures nsp != [] ==> DecodeNamespaced(EncodeEventPayload(id, key, nsp, event, payload, lib).text, nsp, lib) == Sentinel
  {
    DecodeEncode(id, key, lib);
  }

  /** The list encodes round-trip through `decode(value, withNamespace:)`. */
  lemma DecodeEncodedEventList(id: PacketTypeID, key: PacketTypeKey, nsp: string, event: string, list: seq<Json>, lib: JsonLibrary)
    requires RoundTrips(lib)
    requires event != [] && lib.isValidJSONObject(JArray([JString(event), JArray(list)]))
    ensures EncodeNamespacedEventList(id, key, nsp, event, list, lib).error.None?
    ensures DecodeNamespaced(EncodeNamespacedEventList(id, key, nsp, event, list, lib).text, nsp, lib)
              == Decoded(true, id, key, [JString(event), JArray(list)])
    ensures Decode(EncodeEventList(id, key, event, list, lib).text, lib)
              == Decoded(true, id, key, [JString(event), JArray(list)])
  {
    DecodeEncodedEventPayload(id, key, nsp, event, JArray(list), lib);
    DecodeEncodedEventPayload(id, key, "", event, JArray(list), lib);
  }

  /** The dictionary encodes round-trip through `decode(value, withNamespace:)`. */
  lemma DecodeEncodedEventDictionary(id: PacketTypeID, key: PacketTypeKey, nsp: string, event: string, dict: map<string, Json>, lib: JsonLibrary)
    requires RoundTrips(lib)
    requires event != [] && lib.isValidJSONObject(JArray([JString(event), JObject(dict)]))
    ensures EncodeNamespacedEventDictionary(id, key, nsp, event, dict, lib).error.None?
    ensures DecodeNamespaced(EncodeNamespacedEventDictionary(id, key, nsp, event, dict, lib).text, nsp, lib)
              == Decoded(true, id, key, [JString(event), JObject(dict)])
    ensures Decode(EncodeEventDictionary(id, key, event, dict, lib).text, lib)
              == Decoded(true, id, key, [JString(event), JObject(dict)])
  {
    DecodeEncodedEventPayload(id, key, nsp, event, JObject(dict), lib);
    DecodeEncodedEventPayload(id, key, "", event, JObject(dict), lib);
  }

  // ---------------------------------------------------------------- Examples

  /** Texts without two leading digits 0-6 decode to the sentinel. */
  lemma DecodeRejectsMalformed(lib: JsonLibrary)
    ensures Decode("", lib) == Sentinel
    ensures Decode("4", lib) == Sentinel
    ensures Decode("x9", lib) == Sentinel
    ensures Decode("99", lib) == Sentinel
    ensures Decode("47", lib) == Sentinel
    ensures Decode("74[]", lib) == Sentinel
  {
  }

  /** `42["chat message","example"]` is an event message packet. */
  lemma DecodeChatMessage(lib: JsonLibrary)
    requires lib.parse("[\"chat message\",\"example\"]") == Some(JArray([JString("chat message"), JString("example")]))
    ensures Decode("42[\"chat message\",\"example\"]", lib)
              == Decoded(true, Message, Event, [JString("chat message"), JString("example")])
  {
    DecodePrefixed(Message, Event, "[\"chat message\",\"example\"]", lib);
    assert Encode(Message, Event) == "42";
  }

  /** The text of a chat message for the `/gallery` namespace. */
  const GalleryPacket: string := "42/gallery" + "," + GalleryPayload

  /** The hand-built pair carried by `GalleryPacket`. */
  const GalleryPayload: string := "[\"chat message\",\"msg\"]"

  /** `42/gallery,[...]` is accepted under `/gallery`. */
  lemma DecodeGalleryMessage(lib: JsonLibrary)
    requires lib.parse(GalleryPayload) == Some(JArray([JString("chat message"), JString("msg")]))
    ensures DecodeNamespaced(GalleryPacket, "/gallery", lib)
              == Decoded(true, Message, Event, [JString("chat message"), JString("msg")])
  {
    DecodeNamespacedSkipsOne(Message, Event, "/gallery", ',', GalleryPayload, lib);
    assert EncodeNamespace(Message, Event, "/gallery") == "42/gallery";
  }

  /** `42/gallery,[...]` is refused under `/other`. */
  lemma DecodeGalleryMessageOtherNamespace(lib: JsonLibrary)
    ensures DecodeNamespaced(GalleryPacket, "/other", lib) == Sentinel
  {
    assert GalleryPacket[3] == 'g';
    assert GalleryPacket[2..8] != "/other" by {
      assert GalleryPacket[2..8][1] == 'g' != "/other"[1];
    }
  }
}
