/**
 * The system event names (`SocketIOEvent`): a closed `String`-backed enum
 * whose `description` is its raw value.
 */
module SystemEvents {
  import opened Wrappers

  /** The four raw values, in declaration order. */
  const RawValues: seq<string> := ["connected", "disconnected", "connect_error", "reconnect_attempt"]

  datatype SocketIOEvent = Connected | Disconnected | ConnectError | ReconnectAttempt {

    /** The raw value: the event name the transport layer emits. */
    function RawValue(): (s: string)
      ensures s in RawValues
    {
      match this
      case Connected => "connected"
      case Disconnected => "disconnected"
      case ConnectError => "connect_error"
      case ReconnectAttempt => "reconnect_attempt"
    }

    /** `description` (the `Printable` conformance). */
    function Description(): (s: string)
      ensures s == RawValue()
    {
      this.RawValue()
    }
  }

  /** `SocketIOEvent(rawValue: s)`: the case with that raw value, if any. */
  function FromRawValue(s: string): (r: Option<SocketIOEvent>)
    ensures r.Some? <==> s in RawValues
    ensures r.Some? ==> r.value.RawValue() == s
  {
    if s == "connected" then Some(Connected)
    else if s == "disconnected" then Some(Disconnected)
    else if s == "connect_error" then Some(ConnectError)
    else if s == "reconnect_attempt" then Some(ReconnectAttempt)
    else None
  }

  /** Constructing from a case's raw value gives back that case. */
  lemma RawValueRoundTrip(e: SocketIOEvent)
    ensures FromRawValue(e.RawValue()) == Some(e)
  {
  }

  /** The raw values are pairwise distinct. */
  lemma RawValueInjective(a: SocketIOEvent, b: SocketIOEvent)
    ensures a.RawValue() == b.RawValue() <==> a == b
  {
  }

  /** Each of the four raw values names exactly one case, in declaration order. */
  lemma RawValuesAreTheCases()
    ensures |RawValues| == 4
    ensures RawValues == [Connected.RawValue(), Disconnected.RawValue(), ConnectError.RawValue(), ReconnectAttempt.RawValue()]
    ensures forall i, j :: 0 <= i < j < |RawValues| ==> RawValues[i] != RawValues[j]
  {
  }
}
