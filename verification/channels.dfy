/** The channel registry of the DP832 client: the closed channel
    enumeration, the protocol token and display name of each channel, and
    the table of rated ranges. */
module Channels {
  import opened Wrappers
  import opened Errors

  /** The aggregate pseudo-channel and the three outputs, in declaration order. */
  datatype Channel = ChCur | Ch1 | Ch2 | Ch3

  /** The integer Go assigns each channel through iota: its position in
      declaration order. */
  function Code(c: Channel): (n: int)
    ensures 0 <= n <= 3 && [ChCur, Ch1, Ch2, Ch3][n] == c
  {
    match c
    case ChCur => 0
    case Ch1 => 1
    case Ch2 => 2
    case Ch3 => 3
  }

  /** The channel an integer denotes, if any. */
  function FromCode(n: int): (c: Option<Channel>)
    ensures c.Some? <==> 0 <= n <= 3
    ensures c.Some? ==> Code(c.value) == n
  {
    if n == 0 then Some(ChCur)
    else if n == 1 then Some(Ch1)
    else if n == 2 then Some(Ch2)
    else if n == 3 then Some(Ch3)
    else None
  }

  /** The argument a measurement query carries for channel `c`. */
  function Token(c: Channel): string {
    match c
    case ChCur => ""
    case Ch1 => "CH1"
    case Ch2 => "CH2"
    case Ch3 => "CH3"
  }

  /** Looks an integer channel value up in the token table; a value that is
      not a channel yields the empty string, as indexing a Go map with a
      missing key does. */
  function TokenOfCode(n: int): (t: string)
    ensures FromCode(n).Some? ==> t == Token(FromCode(n).value)
    ensures FromCode(n).None? ==> t == ""
  {
    match FromCode(n)
    case Some(c) => Token(c)
    case None => ""
  }

  /** Only the aggregate channel has an empty token; output n has "CHn". */
  lemma TokenShape(c: Channel)
    ensures Token(c) == TokenOfCode(Code(c))
    ensures Token(c) == "" <==> c == ChCur
    ensures c != ChCur ==> Token(c) == ['C', 'H', ['1', '2', '3'][Code(c) - 1]]
  {
  }

  /** Distinct channels have distinct protocol tokens. */
  lemma TokenInjective(a: Channel, b: Channel)
    requires Token(a) == Token(b)
    ensures a == b
  {
  }

  /** A code outside the enumeration is sent exactly like the aggregate channel. */
  lemma UnknownCodeToken(n: int)
    requires FromCode(n).None?
    ensures TokenOfCode(n) == Token(ChCur)
  {
  }

  /** The display name of a channel. */
  function Name(c: Channel): (s: string)
    ensures |s| == 3 && s[..2] == "Ch"
    ensures c == ChCur <==> s[2] == 'C'
    ensures c != ChCur ==> s[2] == ['1', '2', '3'][Code(c) - 1]
  {
    match c
    case ChCur => "ChC"
    case Ch1 => "Ch1"
    case Ch2 => "Ch2"
    case Ch3 => "Ch3"
  }

  /** Distinct channels have distinct display names. */
  lemma NameInjective(a: Channel, b: Channel)
    requires Name(a) == Name(b)
    ensures a == b
  {
  }

  /** The display name of an arbitrary integer channel value: defined on
      the four codes and an error everywhere else. */
  function NameOfCode(n: int): (r: Result<string, Error>)
    ensures r.Success? <==> FromCode(n).Some?
    ensures r.Success? ==> r.value == Name(FromCode(n).value)
    ensures r.Failure? ==> r.error == InvalidChannel(n)
  {
    match FromCode(n)
    case Some(c) => Success(Name(c))
    case None => Failure(InvalidChannel(n))
  }

  /** The name logged for a channel never equals the token sent for it. */
  lemma NameIsNotToken(c: Channel)
    ensures Name(c) != Token(c)
  {
    assert |Name(c)| == 3;
  }

  /** Rated envelope of one output. */
  datatype ChannelRange = ChannelRange(voltageMin: real, voltageMax: real, currentMin: real, currentMax: real) {
    predicate Valid() {
      && 0.0 <= voltageMin <= voltageMax
      && 0.0 <= currentMin <= currentMax
    }
  }

  /** Rated ranges of the three outputs; the aggregate channel has none. */
  const RangeTable: map<Channel, ChannelRange> := map[
    Ch1 := ChannelRange(0.0, 32.0, 0.0, 3.2),
    Ch2 := ChannelRange(0.0, 32.0, 0.0, 3.2),
    Ch3 := ChannelRange(0.0, 5.3, 0.0, 3.2)
  ]

  /** The rated range of a channel. */
  function RangeOf(c: Channel): (r: Option<ChannelRange>)
    ensures r.Some? <==> c != ChCur
    ensures r.Some? ==> r.value.Valid() && r.value.currentMax == 3.2
    ensures r.Some? ==> r.value.voltageMax == (if c == Ch3 then 5.3 else 32.0)
  {
    match c
    case ChCur => None
    case Ch1 => Some(RangeTable[Ch1])
    case Ch2 => Some(RangeTable[Ch2])
    case Ch3 => Some(RangeTable[Ch3])
  }
}
