/**
 * The framing SproutConnection puts around every datagram: a 16-bit
 * little-endian length, then the serialized delivery forecast (when the
 * packet carries one), then the application payload.
 */
module ForecastPackets {
  import opened Bytes

  datatype Option<T> = None | Some(value: T)

  /**
   * The delivery-forecast message a receiver sends back to its sender: the
   * time it was made, how many bytes the receiver has seen arrive or be lost,
   * and the cumulative count of packets it expects to be delivered after each
   * tick from now. Its wire form is produced and read by the serializer and
   * parser passed in as function parameters.
   */
  datatype DeliveryForecast = DeliveryForecast(time: nat, receivedOrLostCount: nat, counts: seq<int>)

  /** A message with no field set, as a fresh protobuf object is. */
  const EMPTY_FORECAST := DeliveryForecast(0, 0, [])

  /** The largest serialized forecast a 16-bit length prefix can describe. */
  const MAX_FORECAST_BYTES: nat := 65535

  datatype ForecastPacket = ForecastPacket(forecast: seq<byte>, data: seq<byte>)

  /** A packet with no forecast update, only payload. */
  function WithoutForecast(data: seq<byte>): (p: ForecastPacket)
    ensures !HasForecast(p) && p.data == data
  {
    ForecastPacket([], data)
  }

  /** Attach a serialized forecast; the payload stays as it was. */
  function AddForecast(p: ForecastPacket, serialized: seq<byte>): (r: ForecastPacket)
    requires |serialized| <= MAX_FORECAST_BYTES
    ensures r.data == p.data && r.forecast == serialized
    ensures HasForecast(r) <==> |serialized| > 0
  {
    p.(forecast := serialized)
  }

  predicate HasForecast(p: ForecastPacket)
  {
    |p.forecast| > 0
  }

  /** The two bytes of n as a little-endian uint16. */
  function LittleEndian16(n: nat): (r: seq<byte>)
    requires n < 0x1_0000
    ensures |r| == 2 && Uint16At(r) == n
  {
    [(n % 256) as byte, (n / 256) as byte]
  }

  /** The uint16 stored little-endian in the first two bytes of b. */
  function Uint16At(b: seq<byte>): (n: nat)
    requires |b| >= 2
    ensures n < 0x1_0000
  {
    b[0] as int + 256 * b[1] as int
  }

  /**
   * The wire form. The length field is the forecast's size narrowed to
   * 16 bits, and the forecast bytes are written only when that field is
   * non-zero.
   */
  function ToBytes(p: ForecastPacket): (r: seq<byte>)
    ensures |r| >= 2 && Uint16At(r) == |p.forecast| % 0x1_0000
    ensures |p.forecast| <= MAX_FORECAST_BYTES ==> |r| == 2 + |p.forecast| + |p.data|
    ensures |r| >= 2 + |p.data| && r[|r| - |p.data|..] == p.data
  {
    var size := |p.forecast| % 0x1_0000;
    LittleEndian16(size) + (if size != 0 then p.forecast else []) + p.data
  }

  /**
   * Read a packet off the wire. The forecast takes the number of bytes the
   * length field announces, or all that is left when fewer remain; the
   * payload is everything after it.
   */
  function Parse(incoming: seq<byte>): (p: ForecastPacket)
    requires |incoming| >= 2
    ensures |p.forecast| <= Uint16At(incoming)
    ensures incoming == incoming[..2] + p.forecast + p.data
  {
    var end := if 2 + Uint16At(incoming) <= |incoming| then 2 + Uint16At(incoming) else |incoming|;
    ForecastPacket(incoming[2..end], incoming[end..])
  }

  /** Every packet whose forecast fits the length field survives the wire unchanged. */
  lemma {:induction false} ParseToBytes(p: ForecastPacket)
    requires |p.forecast| <= MAX_FORECAST_BYTES
    ensures Parse(ToBytes(p)) == p
  {
    var b := ToBytes(p);
    var size := |p.forecast|;
    assert b[2..2 + size] == p.forecast;
    assert b[2 + size..] == p.data;
  }

  /** Conversely, every well-formed datagram is the wire form of the packet read from it. */
  lemma {:induction false} ToBytesParse(incoming: seq<byte>)
    requires |incoming| >= 2 && 2 + Uint16At(incoming) <= |incoming|
    ensures ToBytes(Parse(incoming)) == incoming
  {
    var p := Parse(incoming);
    assert |p.forecast| == Uint16At(incoming);
    assert LittleEndian16(Uint16At(incoming)) == incoming[..2];
    if Uint16At(incoming) == 0 {
      assert incoming == incoming[..2] + p.data;
    }
  }

  /** A packet without a forecast is two zero bytes followed by the payload, and reads back as such. */
  lemma {:induction false} NoForecastWire(data: seq<byte>)
    ensures ToBytes(WithoutForecast(data)) == [0, 0] + data
    ensures !HasForecast(Parse([0, 0] + data)) && Parse([0, 0] + data).data == data
  {
    assert ([0, 0] + data)[2..] == data;
  }

  /** A length field announcing more bytes than remain gives the forecast everything and leaves no payload. */
  lemma {:induction false} ParseTruncated(incoming: seq<byte>)
    requires |incoming| >= 2 && 2 + Uint16At(incoming) > |incoming|
    ensures Parse(incoming) == ForecastPacket(incoming[2..], [])
  {
  }

  /**
   * Why the 16-bit bound matters: a forecast of exactly 65536 bytes gets a
   * zero length field, is not written at all, and the receiver sees no
   * forecast.
   */
  lemma {:induction false} OversizedForecastVanishes(p: ForecastPacket)
    requires |p.forecast| == 0x1_0000
    ensures !HasForecast(Parse(ToBytes(p))) && Parse(ToBytes(p)).data == p.data
  {
    var b := ToBytes(p);
    assert b == LittleEndian16(0) + p.data;
    assert b[2..] == p.data;
  }

  /**
   * The forecast accessor as written: the parse happens inside an assert,
   * so a build with assertions compiled out never runs it and hands back
   * the empty message.
   */
  function ForecastAsWritten(p: ForecastPacket, parse: seq<byte> -> Option<DeliveryForecast>,
                             assertionsEnabled: bool): (fc: DeliveryForecast)
    requires HasForecast(p) || !assertionsEnabled
    requires assertionsEnabled ==> parse(p.forecast).Some?
    ensures assertionsEnabled ==> Some(fc) == parse(p.forecast)
    ensures !assertionsEnabled ==> fc == EMPTY_FORECAST
  {
    if assertionsEnabled then parse(p.forecast).value else EMPTY_FORECAST
  }

  /** With assertions off, every forecast the sender attaches is lost on arrival. */
  lemma {:induction false} ForecastLostWithoutAssertions(fc: DeliveryForecast, data: seq<byte>,
                                                         serialize: DeliveryForecast -> seq<byte>,
                                                         parse: seq<byte> -> Option<DeliveryForecast>)
    requires 0 < |serialize(fc)| <= MAX_FORECAST_BYTES && parse(serialize(fc)) == Some(fc)
    requires fc != EMPTY_FORECAST
    ensures HasForecast(Parse(ToBytes(AddForecast(WithoutForecast(data), serialize(fc)))))
    ensures ForecastAsWritten(Parse(ToBytes(AddForecast(WithoutForecast(data), serialize(fc)))), parse, false) != fc
  {
    ParseToBytes(AddForecast(WithoutForecast(data), serialize(fc)));
  }

  /** The forecast accessor with the parse taken out of the assert: what the packet carries. */
  function ForecastOf(p: ForecastPacket, parse: seq<byte> -> Option<DeliveryForecast>): (fc: DeliveryForecast)
    requires HasForecast(p) && parse(p.forecast).Some?
    ensures Some(fc) == parse(p.forecast)
  {
    parse(p.forecast).value
  }

  /**
   * A forecast attached by the sender is the forecast the receiver reads,
   * and the payload comes through beside it.
   */
  lemma {:induction false} ForecastSurvivesWire(fc: DeliveryForecast, data: seq<byte>,
                                                serialize: DeliveryForecast -> seq<byte>,
                                                parse: seq<byte> -> Option<DeliveryForecast>)
    requires 0 < |serialize(fc)| <= MAX_FORECAST_BYTES && parse(serialize(fc)) == Some(fc)
    ensures var q := Parse(ToBytes(AddForecast(WithoutForecast(data), serialize(fc))));
            HasForecast(q) && parse(q.forecast).Some? && ForecastOf(q, parse) == fc && q.data == data
  {
    ParseToBytes(AddForecast(WithoutForecast(data), serialize(fc)));
  }
}
