/**
 * The two packet-kind enumerations of the Socket.IO wire format: the
 * engine-level `PacketTypeID` and the socket-level `PacketTypeKey`. Each is a
 * Swift `Int`-backed enum whose raw value is the case's position, and whose
 * `value` is that raw value written in decimal.
 */
module PacketTypes {
  import opened Wrappers

  /** An ASCII decimal digit: a character the class `[0-9]` matches. */
  predicate IsDecimalDigit(c: char) {
    '0' <= c <= '9'
  }

  /** The number a decimal digit stands for. */
  function DigitValue(c: char): (d: nat)
    requires IsDecimalDigit(c)
    ensures d <= 9
  {
    c as int - '0' as int
  }

  /** `String(d)` for a single-digit `d`. */
  function DigitChar(d: nat): (c: char)
    requires d <= 9
    ensures IsDecimalDigit(c) && DigitValue(c) == d
  {
    ('0' as int + d) as char
  }

  /** `Int(s)` for a one-character string `[c]`: defined exactly on digits. */
  function ParseDigit(c: char): (r: Option<nat>)
    ensures r.Some? <==> IsDecimalDigit(c)
    ensures r.Some? ==> r.value <= 9 && DigitChar(r.value) == c
  {
    if IsDecimalDigit(c) then Some(DigitValue(c)) else None
  }

  datatype PacketTypeID = Open | Close | Ping | Pong | Message | Upgrade | Noop {

    /** The raw value: the case's position in declaration order. */
    function RawValue(): (n: nat)
      ensures n <= 6
    {
      match this
      case Open => 0
      case Close => 1
      case Ping => 2
      case Pong => 3
      case Message => 4
      case Upgrade => 5
      case Noop => 6
    }

    /** `value`: the raw value as a one-character decimal string. */
    function Value(): (s: string)
      ensures |s| == 1 && IsDecimalDigit(s[0]) && DigitValue(s[0]) == RawValue()
    {
      [DigitChar(RawValue())]
    }
  }

  datatype PacketTypeKey = Connect | Disconnect | Event | Ack | Error | BinaryEvent | BinaryAck {

    /** The raw value: the case's position in declaration order. */
    function RawValue(): (n: nat)
      ensures n <= 6
    {
      match this
      case Connect => 0
      case Disconnect => 1
      case Event => 2
      case Ack => 3
      case Error => 4
      case BinaryEvent => 5
      case BinaryAck => 6
    }

    /** `value`: the raw value as a one-character decimal string. */
    function Value(): (s: string)
      ensures |s| == 1 && IsDecimalDigit(s[0]) && DigitValue(s[0]) == RawValue()
    {
      [DigitChar(RawValue())]
    }
  }

  /** `PacketTypeID(rawValue: n)`: the case at position `n`, if there is one. */
  function PacketTypeIDFromRaw(n: int): (r: Option<PacketTypeID>)
    ensures r.Some? <==> 0 <= n <= 6
    ensures r.Some? ==> r.value.RawValue() == n
  {
    if n == 0 then Some(Open)
    else if n == 1 then Some(Close)
    else if n == 2 then Some(Ping)
    else if n == 3 then Some(Pong)
    else if n == 4 then Some(Message)
    else if n == 5 then Some(Upgrade)
    else if n == 6 then Some(Noop)
    else None
  }

  /** `PacketTypeKey(rawValue: n)`: the case at position `n`, if there is one. */
  function PacketTypeKeyFromRaw(n: int): (r: Option<PacketTypeKey>)
    ensures r.Some? <==> 0 <= n <= 6
    ensures r.Some? ==> r.value.RawValue() == n
  {
    if n == 0 then Some(Connect)
    else if n == 1 then Some(Disconnect)
    else if n == 2 then Some(Event)
    else if n == 3 then Some(Ack)
    else if n == 4 then Some(Error)
    else if n == 5 then Some(BinaryEvent)
    else if n == 6 then Some(BinaryAck)
    else None
  }

  /** Reading a case's raw value back gives that case. */
  lemma PacketTypeIDRawRoundTrip(id: PacketTypeID)
    ensures PacketTypeIDFromRaw(id.RawValue()) == Some(id)
  {
  }

  /** Reading a case's raw value back gives that case. */
  lemma PacketTypeKeyRawRoundTrip(key: PacketTypeKey)
    ensures PacketTypeKeyFromRaw(key.RawValue()) == Some(key)
  {
  }

  /** Distinct cases have distinct wire digits. */
  lemma PacketTypeIDValueInjective(a: PacketTypeID, b: PacketTypeID)
    ensures a.Value() == b.Value() <==> a == b
  {
  }

  /** Distinct cases have distinct wire digits. */
  lemma PacketTypeKeyValueInjective(a: PacketTypeKey, b: PacketTypeKey)
    ensures a.Value() == b.Value() <==> a == b
  {
  }
}
