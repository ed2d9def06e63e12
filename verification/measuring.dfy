/** The measurement query for one channel and the decoding of its
    three-field reply, in the device's order: current, voltage, power. */
module Measuring {
  import opened Wrappers
  import opened Errors
  import opened Text
  import opened Channels
  import opened Transport

  /** One reading of one channel. */
  datatype Measurement = Measurement(channel: Channel, voltage: real, current: real, power: real)

  /** Decimal number parsing (strconv.ParseFloat): None where the text is
      not a number. Its internals are not modelled. */
  type Parser = string -> Option<real>

  /** Every measurement query starts with this text. */
  const QueryHead: string := "MEAS:ALL? "

  /** The measurement query for channel `c`. */
  function Query(c: Channel): string {
    QueryHead + Token(c)
  }

  /** A query is the head followed by the channel's token, on one line. */
  lemma QueryShape(c: Channel)
    ensures Query(c)[..|QueryHead|] == QueryHead && Query(c)[|QueryHead|..] == Token(c)
    ensures '\n' !in Query(c)
  {
  }

  /** Queries for different channels differ. */
  lemma QueryInjective(a: Channel, b: Channel)
    requires Query(a) == Query(b)
    ensures a == b
  {
    QueryShape(a);
    QueryShape(b);
    TokenInjective(a, b);
  }

  /** The aggregate query is the head alone, so it ends in a bare space. */
  lemma AggregateQuery()
    ensures Query(ChCur) == "MEAS:ALL? "
    ensures Query(ChCur)[|Query(ChCur)| - 1] == ' '
  {
  }

  /** Field `i` of a split reply, parsed as a number. */
  function ParseField(fields: seq<string>, i: nat, parse: Parser): (r: Result<real, Error>)
    ensures i >= |fields| ==> r == Failure(FieldMissing(i, |fields|))
    ensures i < |fields| && parse(fields[i]).None? ==> r == Failure(NotANumber(i, fields[i]))
    ensures i < |fields| && parse(fields[i]).Some? ==> r == Success(parse(fields[i]).value)
  {
    if i >= |fields| then Failure(FieldMissing(i, |fields|))
    else match parse(fields[i])
      case None => Failure(NotANumber(i, fields[i]))
      case Some(x) => Success(x)
  }

  /** Field `i` of `fields` is present and parses. */
  predicate Parses(fields: seq<string>, i: nat, parse: Parser) {
    i < |fields| && parse(fields[i]).Some?
  }

  /** `e` is the error for field `i`, the first of the three that is
      missing or does not parse. */
  predicate FirstBadField(fields: seq<string>, parse: Parser, i: nat, e: Error) {
    && i < 3
    && (forall j :: 0 <= j < i ==> Parses(fields, j, parse))
    && !Parses(fields, i, parse)
    && e == (if i < |fields| then NotANumber(i, fields[i]) else FieldMissing(i, |fields|))
  }

  /** Decodes a measurement reply for channel `c`: fields 0, 1 and 2 are
      current, voltage and power. Fields are examined in that order and the
      first one that is missing or not a number is the error. The channel
      of the result is `c`; the reply carries none. */
  function Decode(c: Channel, s: string, parse: Parser): (r: Result<Measurement, Error>)
    ensures var a := Split(s, ',');
      r.Success? <==> Parses(a, 0, parse) && Parses(a, 1, parse) && Parses(a, 2, parse)
    ensures var a := Split(s, ',');
      r.Success? ==> r.value == Measurement(c, parse(a[1]).value, parse(a[0]).value, parse(a[2]).value)
    ensures r.Failure? ==> exists i :: FirstBadField(Split(s, ','), parse, i, r.error)
  {
    var a := Split(s, ',');
    match ParseField(a, 0, parse)
    case Failure(e) =>
      assert FirstBadField(a, parse, 0, e);
      Failure(e)
    case Success(current) =>
      match ParseField(a, 1, parse)
      case Failure(e) =>
        assert FirstBadField(a, parse, 1, e);
        Failure(e)
      case Success(voltage) =>
        match ParseField(a, 2, parse)
        case Failure(e) =>
          assert FirstBadField(a, parse, 2, e);
          Failure(e)
        case Success(power) =>
          Success(Measurement(c, voltage, current, power))
  }

  /** A reply of fewer than three fields never decodes. */
  lemma FewFieldsFail(c: Channel, s: string, parse: Parser)
    requires Occurrences(s, ',') < 2
    ensures Decode(c, s, parse).Failure?
  {
  }

  /** Three comma-free numbers joined by commas decode in the order
      current, voltage, power. */
  lemma DecodeFields(c: Channel, x: string, y: string, z: string, parse: Parser)
    requires ',' !in x && ',' !in y && ',' !in z
    requires parse(x).Some? && parse(y).Some? && parse(z).Some?
    ensures Decode(c, x + "," + y + "," + z, parse)
         == Success(Measurement(c, parse(y).value, parse(x).value, parse(z).value))
  {
    var fs := [x, y, z];
    assert Join(fs, ',') == x + "," + y + "," + z by {
      assert fs[1..] == [y, z] && [y, z][1..] == [z];
      assert Join([y, z], ',') == y + [','] + z;
      assert Join(fs, ',') == x + [','] + (y + [','] + z);
    }
    SplitJoin(fs, ',');
  }

  /** Fields after the third are never examined. */
  lemma ExtraFieldsIgnored(c: Channel, s: string, extra: string, parse: Parser)
    requires Occurrences(s, ',') >= 2
    ensures Decode(c, s + "," + extra, parse) == Decode(c, s, parse)
  {
    SplitAppend(s, extra, ',');
    var a := Split(s, ',');
    var b := Split(extra, ',');
    assert forall i :: 0 <= i < 3 ==> (a + b)[i] == a[i];
  }

  /** The same reply read for two channels gives the same numbers; only
      the channel differs. */
  lemma ChannelFromArgument(a: Channel, b: Channel, s: string, parse: Parser)
    ensures Decode(a, s, parse).Success? == Decode(b, s, parse).Success?
    ensures Decode(a, s, parse).Success? ==>
      Decode(b, s, parse).value == Decode(a, s, parse).value.(channel := b)
  {
  }

  /** A reply whose first field is not a number fails on field 0, whatever
      the other fields hold. */
  lemma FirstFieldFirst(c: Channel, s: string, parse: Parser)
    requires parse(Split(s, ',')[0]).None?
    ensures Decode(c, s, parse) == Failure(NotANumber(0, Split(s, ',')[0]))
  {
  }

  /** Sends the query for channel `c` as exchange `k` and decodes the reply. */
  function Measure(c: Channel, device: Device, k: nat, parse: Parser): (r: Result<Measurement, Error>)
    ensures r.Success? ==> r.value.channel == c
    ensures Command(Query(c), device, k).Failure? ==> r == Failure(Command(Query(c), device, k).error)
    ensures Command(Query(c), device, k).Success? ==> r == Decode(c, Command(Query(c), device, k).value, parse)
  {
    var s :- Command(Query(c), device, k);
    Decode(c, s, parse)
  }

  /** A device that answers the query for `c` with three comma-free
      numbers gives the measurement they spell, current first. */
  lemma MeasureFields(c: Channel, device: Device, k: nat, x: string, y: string, z: string, rest: string, parse: Parser)
    requires ',' !in x && ',' !in y && ',' !in z
    requires '\n' !in x && '\n' !in y && '\n' !in z
    requires parse(x).Some? && parse(y).Some? && parse(z).Some?
    requires device(k, Frame(Query(c))) == Link(true, x + "," + y + "," + z + "\r\n" + rest)
    ensures Measure(c, device, k, parse) == Success(Measurement(c, parse(y).value, parse(x).value, parse(z).value))
  {
    var p := x + "," + y + "," + z;
    assert p + ['\r', '\n'] + rest == x + "," + y + "," + z + "\r\n" + rest;
    assert '\n' !in p by {
      assert forall ch :: ch in p ==> ch in x || ch in y || ch in z || ch == ',';
    }
    CommandPayload(Query(c), device, k, p, '\r', rest);
    DecodeFields(c, x, y, z, parse);
  }

  /** The reply "1.234,5.678,9.012" to the channel 1 query is read as
      current 1.234, voltage 5.678 and power 9.012. */
  lemma MeasureExample(device: Device, k: nat, parse: Parser, rest: string)
    requires device(k, Frame(Query(Ch1))) == Link(true, "1.234" + "," + "5.678" + "," + "9.012" + "\r\n" + rest)
    requires parse("1.234") == Some(1.234) && parse("5.678") == Some(5.678) && parse("9.012") == Some(9.012)
    ensures Measure(Ch1, device, k, parse) == Success(Measurement(Ch1, 5.678, 1.234, 9.012))
  {
    MeasureFields(Ch1, device, k, "1.234", "5.678", "9.012", rest, parse);
  }
}
