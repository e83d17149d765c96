/**
 * How `decode(value, withNamespace:)` delimits the namespace.
 *
 * The decoder accepts the expected namespace as soon as it is a prefix of the
 * text after the digits, and then skips one character whatever it is. A
 * decoder bound to `/a` therefore accepts packets addressed to `/ab`. This
 * module shows that as the source has it (`DecodeNamespaced`) and gives the
 * evidently intended reading (`DecodeNamespacedStrict`), in which the
 * namespace must be followed by the comma or by the end of the text.
 */
module NamespaceMatch {
  import opened Wrappers
  import opened JsonValues
  import opened PacketTypes
  import opened PacketCodec

  /** A namespace `nsp` accepts every longer namespace it is a prefix of. */
  lemma AsWrittenAcceptsLongerNamespace(id: PacketTypeID, key: PacketTypeKey, nsp: string, suffix: string, lib: JsonLibrary)
    requires nsp != [] && suffix != []
    ensures DecodeNamespaced(EncodeNamespace(id, key, nsp + suffix), nsp, lib) == Decoded(true, id, key, PayloadData(suffix[1..], lib))
  {
    DecodeNamespacedSkipsOne(id, key, nsp, suffix[0], suffix[1..], lib);
    assert EncodeNamespace(id, key, nsp + suffix) == EncodeNamespace(id, key, nsp) + [suffix[0]] + suffix[1..];
  }

  /** The input that shows it: `42/ab` decoded under `/a` is a message event for `/a`. */
  lemma AsWrittenAcceptsOtherNamespace(lib: JsonLibrary)
    ensures EncodeNamespace(Message, Event, "/ab") == "42/ab"
    ensures DecodeNamespaced("42/ab", "/a", lib) == Decoded(true, Message, Event, [])
  {
    AsWrittenAcceptsLongerNamespace(Message, Event, "/a", "b", lib);
    assert "/a" + "b" == "/ab";
  }

  /** After the namespace there is nothing, or a comma. */
  predicate NamespaceDelimited(value: string, nsp: string) {
    |value| == 2 + |nsp| || (|value| > 2 + |nsp| && value[2 + |nsp|] == ',')
  }

  /**
   * The corrected `decode(value, withNamespace:)`: as the source, except that
   * the namespace must end where the text ends or at a comma.
   */
  function DecodeNamespacedStrict(value: string, nsp: string, lib: JsonLibrary): (r: Decoded)
    ensures nsp == [] ==> r == Decode(value, lib)
    ensures nsp != [] ==>
              (r.ok <==> StartsWithPacketDigits(value) && |value| >= 2 + |nsp| && value[2..2 + |nsp|] == nsp
                         && NamespaceDelimited(value, nsp))
    ensures !r.ok ==> r == Sentinel
    ensures nsp != [] && r.ok ==> r == DecodeNamespaced(value, nsp, lib)
  {
    if nsp == [] then Decode(value, lib)
    else
      match FirstMatch(value, nsp)
      case None => Sentinel
      case Some(length) =>
        if length < |value| && value[length] != ',' then Sentinel
        else
          var data := if length < |value| then PayloadData(value[length + 1..], lib) else [];
          PacketFromDigits(value, data)
  }

  /**
   * The intended property: where namespaces hold no comma, a packet for one
   * namespace, with or without payload, is refused under any other.
   */
  lemma {:induction false} StrictRejectsOtherNamespace(id: PacketTypeID, key: PacketTypeKey, nsp: string, other: string, rest: string, lib: JsonLibrary)
    requires nsp != [] && nsp != other
    requires ',' !in nsp && ',' !in other
    ensures DecodeNamespacedStrict(EncodeNamespace(id, key, other), nsp, lib) == Sentinel
    ensures DecodeNamespacedStrict(EncodeNamespace(id, key, other) + "," + rest, nsp, lib) == Sentinel
  {
    var full := EncodeNamespace(id, key, other) + "," + rest;
    assert full[2 + |other|] == ',';
  }

  /** On well-formed packets the correction changes nothing: the round trips hold. */
  lemma StrictAgreesOnWellFormed(id: PacketTypeID, key: PacketTypeKey, nsp: string, rest: string, lib: JsonLibrary)
    requires nsp != []
    ensures DecodeNamespacedStrict(EncodeNamespace(id, key, nsp), nsp, lib) == Decoded(true, id, key, [])
    ensures DecodeNamespacedStrict(EncodeNamespace(id, key, nsp) + "," + rest, nsp, lib) == Decoded(true, id, key, PayloadData(rest, lib))
  {
    DecodeNamespacedEncodeNamespace(id, key, nsp, lib);
    DecodeNamespacedSkipsOne(id, key, nsp, ',', rest, lib);
    var full := EncodeNamespace(id, key, nsp) + "," + rest;
    assert full == EncodeNamespace(id, key, nsp) + [','] + rest;
    assert full[2 + |nsp|] == ',';
  }
}
