/** The identification handshake: the `*IDN?` query, the decoding of its
    reply into an instrument identity, and the model check made when
    connecting. */
module Handshake {
  import opened Wrappers
  import opened Errors
  import opened Text
  import opened Transport

  /** The identification query. */
  const IdnQuery: string := "*IDN?"

  /** The only model the client accepts. */
  const ExpectedModel: string := "DP832"

  /** Identity of the connected device. */
  datatype Instrument = Instrument(manufacturer: string, model: string, serial: string, version: string)

  /** The identity fields in the order the device reports them. */
  function Fields(i: Instrument): (fs: seq<string>)
    ensures |fs| == 4
  {
    [i.manufacturer, i.model, i.serial, i.version]
  }

  /** The reply a device with identity `i` gives. */
  function Encode(i: Instrument): (s: string)
  {
    Join(Fields(i), ',')
  }

  /** The reply written out: the four fields with a comma between each. */
  lemma EncodeFlat(i: Instrument)
    ensures Encode(i) == i.manufacturer + "," + i.model + "," + i.serial + "," + i.version
  {
    var fs := Fields(i);
    assert fs[1..][1..][1..] == [i.version];
    assert Join(fs[1..][1..], ',') == i.serial + "," + i.version;
    assert Join(fs[1..], ',') == i.model + "," + i.serial + "," + i.version;
  }

  /** Maps the comma-separated fields of an identification reply, by
      position, to manufacturer, model, serial and version. A reply with
      fewer than four fields fails at the first missing one; fields after
      the fourth are ignored. */
  function Decode(s: string): (r: Result<Instrument, Error>)
    ensures r.Success? <==> Occurrences(s, ',') >= 3
    ensures r.Success? ==> SeparatorFree(Fields(r.value), ',')
    ensures r.Success? ==> s == Encode(r.value) || Encode(r.value) + "," <= s
    ensures r.Failure? ==> r.error == FieldMissing(Occurrences(s, ',') + 1, Occurrences(s, ',') + 1)
  {
    var a := Split(s, ',');
    if |a| < 4 then Failure(FieldMissing(|a|, |a|))
    else
      var i := Instrument(a[0], a[1], a[2], a[3]);
      assert Fields(i) == a[..4];
      LeadingFields(s, 4, ',');
      Success(i)
  }

  /** The first `n` fields of a split string, joined, are all of it or are
      followed in it by a separator. */
  lemma LeadingFields(s: string, n: nat, sep: char)
    requires 1 <= n <= |Split(s, sep)|
    ensures var a := Split(s, sep);
      s == Join(a[..n], sep) || Join(a[..n], sep) + [sep] <= s
  {
    var a := Split(s, sep);
    JoinSplit(s, sep);
    if n == |a| {
      assert a[..n] == a;
    } else {
      assert a == a[..n] + a[n..];
      JoinAppend(a[..n], a[n..], sep);
    }
  }

  /** Decoding the reply of a device whose identity fields hold no comma
      gives that identity back. */
  lemma DecodeEncode(i: Instrument)
    requires SeparatorFree(Fields(i), ',')
    ensures Decode(Encode(i)) == Success(i)
  {
    SplitJoin(Fields(i), ',');
  }

  /** Whatever follows the fourth field does not change the identity. */
  lemma ExtraFieldsIgnored(s: string, extra: string)
    requires Occurrences(s, ',') >= 3
    ensures Decode(s + "," + extra) == Decode(s)
  {
    SplitAppend(s, extra, ',');
    var a := Split(s, ',');
    assert (a + Split(extra, ','))[..4] == a[..4];
  }

  /** Four comma-free fields joined by commas decode to the identity they
      spell, in order. */
  lemma DecodeFields(m: string, mo: string, se: string, v: string)
    requires ',' !in m && ',' !in mo && ',' !in se && ',' !in v
    ensures Decode(m + "," + mo + "," + se + "," + v) == Success(Instrument(m, mo, se, v))
  {
    var i := Instrument(m, mo, se, v);
    EncodeFlat(i);
    DecodeEncode(i);
  }

  /** The identification reply of a Rigol DP832. */
  lemma DecodeRigol()
    ensures Decode("RIGOL TECHNOLOGIES" + "," + "DP832" + "," + "DP8A123456789" + "," + "00.01.02.03")
         == Success(Instrument("RIGOL TECHNOLOGIES", "DP832", "DP8A123456789", "00.01.02.03"))
  {
    DecodeFields("RIGOL TECHNOLOGIES", "DP832", "DP8A123456789", "00.01.02.03");
  }

  /** Sends the identification query as exchange `k` and decodes the reply. */
  function Identify(device: Device, k: nat): (r: Result<Instrument, Error>)
    ensures Command(IdnQuery, device, k).Failure? ==> r == Failure(Command(IdnQuery, device, k).error)
    ensures Command(IdnQuery, device, k).Success? ==> r == Decode(Command(IdnQuery, device, k).value)
  {
    var s :- Command(IdnQuery, device, k);
    Decode(s)
  }

  /** Opens the connection (when `dialOk`), identifies the device on the
      first exchange and accepts it only if its model is exactly DP832. */
  function Connect(dialOk: bool, device: Device): (r: Outcome<Error>)
    ensures r.Pass? <==> dialOk && Identify(device, 0).Success? && Identify(device, 0).value.model == ExpectedModel
    ensures !dialOk ==> r == Fail(DialFailed)
    ensures dialOk && Identify(device, 0).Failure? ==> r == Fail(Identify(device, 0).error)
    ensures dialOk && Identify(device, 0).Success? && Identify(device, 0).value.model != ExpectedModel
      ==> r == Fail(WrongModel(Identify(device, 0).value.model))
  {
    if !dialOk then Fail(DialFailed)
    else match Identify(device, 0)
      case Failure(e) => Fail(e)
      case Success(i) =>
        if i.model != ExpectedModel then Fail(WrongModel(i.model)) else Pass
  }

  /** A device that identifies itself with comma-free fields is accepted
      exactly when the model it reports is DP832; otherwise the error
      carries the reported model. */
  lemma ConnectVerdict(device: Device, m: string, mo: string, se: string, v: string, rest: string)
    requires ',' !in m && ',' !in mo && ',' !in se && ',' !in v
    requires '\n' !in m && '\n' !in mo && '\n' !in se && '\n' !in v
    requires device(0, Frame(IdnQuery)) == Link(true, m + "," + mo + "," + se + "," + v + "\r\n" + rest)
    ensures mo == ExpectedModel ==> Connect(true, device) == Pass
    ensures mo != ExpectedModel ==> Connect(true, device) == Fail(WrongModel(mo))
  {
    var p := m + "," + mo + "," + se + "," + v;
    assert p + ['\r', '\n'] + rest == m + "," + mo + "," + se + "," + v + "\r\n" + rest;
    assert '\n' !in p by {
      assert forall x :: x in p ==> x in m || x in mo || x in se || x in v || x == ',';
    }
    CommandPayload(IdnQuery, device, 0, p, '\r', rest);
    DecodeFields(m, mo, se, v);
  }

  /** A device that answers the handshake as a DP831 is refused. */
  lemma RefuseDP831(device: Device, rest: string)
    requires device(0, Frame(IdnQuery))
          == Link(true, "RIGOL TECHNOLOGIES" + "," + "DP831" + "," + "DP8A123456789" + "," + "00.01.02.03" + "\r\n" + rest)
    ensures Connect(true, device) == Fail(WrongModel("DP831"))
  {
    ConnectVerdict(device, "RIGOL TECHNOLOGIES", "DP831", "DP8A123456789", "00.01.02.03", rest);
  }
}
