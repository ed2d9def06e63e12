/** The client's main loop: connect and identify once, then on every tick
    measure channels 1, 2 and 3 in that order, logging each reading and
    stopping at the first error. The timer is not modelled; a run is a
    given number of ticks. */
module Polling {
  import opened Wrappers
  import opened Errors
  import opened Channels
  import opened Transport
  import opened Handshake
  import opened Measuring

  /** The channels one tick measures, in order. */
  const PassOrder: seq<Channel> := [Ch1, Ch2, Ch3]

  /** A command the client sends. */
  datatype Request = Identification | Reading(channel: Channel)

  /** The bytes written for a request. */
  function Bytes(r: Request): string {
    match r
    case Identification => Frame(IdnQuery)
    case Reading(c) => Frame(Query(c))
  }

  /** Different requests put different bytes on the wire, so a trace of
      requests determines the bytes written and back. */
  lemma BytesInjective(a: Request, b: Request)
    requires Bytes(a) == Bytes(b)
    ensures a == b
  {
    var ba := Bytes(a);
    assert ba[0] == (if a.Identification? then '*' else 'M');
    assert Bytes(b)[0] == (if b.Identification? then '*' else 'M');
    if a.Reading? && b.Reading? {
      FrameInjective(Query(a.channel), Query(b.channel));
      QueryInjective(a.channel, b.channel);
    }
  }

  /** No command the client sends holds a `%`, so Go's formatted write puts
      each one on the wire unchanged, as `Frame` does. */
  lemma NoFormatVerbs(c: Channel)
    ensures '%' !in IdnQuery && '%' !in Query(c)
  {
    assert Query(c) == QueryHead + Token(c);
  }

  /** What the client did: the request of each exchange, in order; the
      measurements it handed to the log; and the error that stopped it. */
  datatype Trace = Trace(sent: seq<Request>, logged: seq<Measurement>, stop: Option<Error>)

  /** Requests `s` and logs `l` followed by everything `t` did. */
  function Prepend(s: seq<Request>, l: seq<Measurement>, t: Trace): Trace {
    Trace(s + t.sent, l + t.logged, t.stop)
  }

  /** Prepending twice prepends the concatenations. */
  lemma PrependTwice(s1: seq<Request>, l1: seq<Measurement>, s2: seq<Request>, l2: seq<Measurement>, t: Trace)
    ensures Prepend(s1, l1, Prepend(s2, l2, t)) == Prepend(s1 + s2, l1 + l2, t)
  {
    assert s1 + (s2 + t.sent) == (s1 + s2) + t.sent;
    assert l1 + (l2 + t.logged) == (l1 + l2) + t.logged;
  }

  /** Reading `i` after prepending `l` is reading `i` of `l`, or reading
      `i` - |`l`| of what follows. */
  lemma PrependLogged(s: seq<Request>, l: seq<Measurement>, t: Trace, i: nat)
    requires i < |l| + |t.logged|
    ensures Prepend(s, l, t).logged[i] == if i < |l| then l[i] else t.logged[i - |l|]
  {
  }

  /** One measurement: the channel and the exchange number in, a reading
      or an error out. */
  type Step = (Channel, nat) -> Result<Measurement, Error>

  /** The measurement step of the client talking to `device`. */
  function Measurer(device: Device, parse: Parser): Step {
    (c: Channel, n: nat) => Measure(c, device, n, parse)
  }

  /** Every reading `step` produces is labelled with the channel asked for. */
  ghost predicate Labels(step: Step) {
    forall c, n :: step(c, n).Success? ==> step(c, n).value.channel == c
  }

  /** The client's measurement step labels its readings faithfully. */
  lemma MeasurerLabels(device: Device, parse: Parser)
    ensures Labels(Measurer(device, parse))
  {
    forall c, n: nat | Measurer(device, parse)(c, n).Success?
      ensures Measurer(device, parse)(c, n).value.channel == c
    {
      assert Measurer(device, parse)(c, n) == Measure(c, device, n, parse);
    }
  }

  /** Measures `chans` in order on exchanges `k`, `k` + 1, ..., stopping at
      the first failed measurement, which is still sent but not logged. */
  function Pass(chans: seq<Channel>, step: Step, k: nat): (t: Trace)
    ensures |t.sent| <= |chans|
    ensures t.stop.None? ==> |t.sent| == |chans| == |t.logged|
    ensures t.stop.Some? ==> |t.sent| == |t.logged| + 1
    decreases |chans|
  {
    if |chans| == 0 then Trace([], [], None)
    else
      match step(chans[0], k)
      case Failure(e) => Trace([Reading(chans[0])], [], Some(e))
      case Success(m) => Prepend([Reading(chans[0])], [m], Pass(chans[1..], step, k + 1))
  }

  /** A pass whose first measurement succeeds logs it and goes on with the
      remaining channels on the next exchange. */
  lemma PassStep(chans: seq<Channel>, step: Step, k: nat)
    requires |chans| > 0 && step(chans[0], k).Success?
    ensures Pass(chans, step, k)
         == Prepend([Reading(chans[0])], [step(chans[0], k).value], Pass(chans[1..], step, k + 1))
  {
  }

  /** A pass queries the channels in order, one per exchange. */
  lemma {:induction false} PassSent(chans: seq<Channel>, step: Step, k: nat)
    ensures var t := Pass(chans, step, k);
      forall i :: 0 <= i < |t.sent| ==> t.sent[i] == Reading(chans[i])
    decreases |chans|
  {
    if |chans| > 0 && step(chans[0], k).Success? {
      var t := Pass(chans, step, k);
      var r := Pass(chans[1..], step, k + 1);
      PassStep(chans, step, k);
      PassSent(chans[1..], step, k + 1);
      forall i | 1 <= i < |t.sent|
        ensures t.sent[i] == Reading(chans[i])
      {
        assert t.sent[i] == r.sent[i - 1] && chans[1..][i - 1] == chans[i];
      }
    }
  }

  /** A pass logs exactly the readings taken before its first failure. */
  lemma {:induction false} PassLogged(chans: seq<Channel>, step: Step, k: nat)
    ensures var t := Pass(chans, step, k);
      forall i :: 0 <= i < |t.logged| ==> step(chans[i], k + i) == Success(t.logged[i])
    decreases |chans|
  {
    if |chans| > 0 && step(chans[0], k).Success? {
      var t := Pass(chans, step, k);
      var r := Pass(chans[1..], step, k + 1);
      PassStep(chans, step, k);
      PassLogged(chans[1..], step, k + 1);
      forall i | 1 <= i < |t.logged|
        ensures step(chans[i], k + i) == Success(t.logged[i])
      {
        assert t.logged[i] == r.logged[i - 1] && chans[1..][i - 1] == chans[i];
        assert k + 1 + (i - 1) == k + i;
      }
    }
  }

  /** A pass that stops does so with the error of the measurement right
      after the last one logged. */
  lemma {:induction false} PassStopped(chans: seq<Channel>, step: Step, k: nat)
    ensures var t := Pass(chans, step, k);
      t.stop.Some? ==> step(chans[|t.logged|], k + |t.logged|) == Failure(t.stop.value)
    decreases |chans|
  {
    if |chans| > 0 && step(chans[0], k).Success? {
      var t := Pass(chans, step, k);
      var r := Pass(chans[1..], step, k + 1);
      PassStep(chans, step, k);
      PassStopped(chans[1..], step, k + 1);
      if t.stop.Some? {
        assert chans[1..][|r.logged|] == chans[|t.logged|];
      }
    }
  }

  /** With a faithfully labelling step, each reading a pass logs carries
      the channel queried for it. */
  lemma PassLabels(chans: seq<Channel>, step: Step, k: nat)
    requires Labels(step)
    ensures var t := Pass(chans, step, k);
      forall i :: 0 <= i < |t.logged| ==> t.logged[i].channel == chans[i]
  {
    var t := Pass(chans, step, k);
    PassLogged(chans, step, k);
    forall i | 0 <= i < |t.logged|
      ensures t.logged[i].channel == chans[i]
    {
      assert step(chans[i], k + i) == Success(t.logged[i]);
    }
  }

  /** The loop's view of a pass: before any channel, the rest is all of it. */
  lemma PassFrom(chans: seq<Channel>, step: Step, k: nat)
    ensures Pass(chans, step, k) == Prepend([], [], Pass(chans[0..], step, k + 0))
  {
    assert chans[0..] == chans;
  }

  /** The loop's view of a pass: once every channel is done, nothing is
      left and nothing stopped it. */
  lemma PassDone(s: seq<Request>, l: seq<Measurement>, chans: seq<Channel>, step: Step, k: nat)
    ensures Prepend(s, l, Pass(chans[|chans|..], step, k + |chans|)) == Trace(s, l, None)
  {
    assert chans[|chans|..] == [];
    assert s + [] == s && l + [] == l;
  }

  /** The loop's view of a pass: a successful measurement of channel `i` is
      sent, logged, and the pass goes on with channel `i` + 1. */
  lemma PassGoesOn(s: seq<Request>, l: seq<Measurement>, chans: seq<Channel>, step: Step, k: nat, i: nat)
    requires i < |chans| && step(chans[i], k + i).Success?
    ensures Prepend(s, l, Pass(chans[i..], step, k + i))
         == Prepend(s + [Reading(chans[i])], l + [step(chans[i], k + i).value], Pass(chans[i + 1..], step, k + (i + 1)))
  {
    assert chans[i..][0] == chans[i] && chans[i..][1..] == chans[i + 1..];
    PassStep(chans[i..], step, k + i);
    PrependTwice(s, l, [Reading(chans[i])], [step(chans[i], k + i).value], Pass(chans[i + 1..], step, k + i + 1));
  }

  /** The loop's view of a pass: a failed measurement of channel `i` is sent
      and stops the pass with its error. */
  lemma PassStopsAt(s: seq<Request>, l: seq<Measurement>, chans: seq<Channel>, step: Step, k: nat, i: nat)
    requires i < |chans| && step(chans[i], k + i).Failure?
    ensures Prepend(s, l, Pass(chans[i..], step, k + i))
         == Trace(s + [Reading(chans[i])], l, Some(step(chans[i], k + i).error))
  {
    assert chans[i..][0] == chans[i];
    assert l + [] == l;
  }

  /** Measures each channel of `chans` in turn from exchange `k`, logging
      each reading and stopping at the first error. */
  method PollChannels(chans: seq<Channel>, step: Step, k: nat) returns (t: Trace)
    ensures t == Pass(chans, step, k)
  {
    var sent: seq<Request> := [];
    var logged: seq<Measurement> := [];
    var i := 0;
    PassFrom(chans, step, k);
    while i < |chans|
      invariant 0 <= i <= |chans|
      invariant Pass(chans, step, k) == Prepend(sent, logged, Pass(chans[i..], step, k + i))
    {
      var c := chans[i];
      var r := step(c, k + i);
      if r.Failure? {
        PassStopsAt(sent, logged, chans, step, k, i);
        return Trace(sent + [Reading(c)], logged, Some(r.error));
      }
      PassGoesOn(sent, logged, chans, step, k, i);
      sent := sent + [Reading(c)];
      logged := logged + [r.value];
      i := i + 1;
    }
    PassDone(sent, logged, chans, step, k);
    return Trace(sent, logged, None);
  }

  /** One tick of the poll loop: measure channels 1, 2 and 3 in turn from
      exchange `k`, log each reading, stop at the first error. The
      aggregate channel is never queried. */
  method PollPass(step: Step, k: nat) returns (t: Trace)
    requires Labels(step)
    ensures t == Pass(PassOrder, step, k)
    ensures forall i :: 0 <= i < |t.logged| ==> t.logged[i].channel == PassOrder[i]
    ensures Reading(ChCur) !in t.sent
  {
    t := PollChannels(PassOrder, step, k);
    PassSent(PassOrder, step, k);
    PassLabels(PassOrder, step, k);
  }

  /** `ticks` passes of the poll loop from exchange `k`, ending early at
      the first error. A run without failure makes three exchanges per tick
      and logs a reading for each; a run that fails makes one exchange more
      than it logs readings. */
  function Run(step: Step, k: nat, ticks: nat): (t: Trace)
    ensures |t.sent| == |t.logged| + (if t.stop.Some? then 1 else 0)
    ensures t.stop.None? ==> |t.logged| == 3 * ticks
    decreases ticks
  {
    if ticks == 0 then Trace([], [], None)
    else
      var p := Pass(PassOrder, step, k);
      if p.stop.Some? then p
      else Prepend(p.sent, p.logged, Run(step, k + |PassOrder|, ticks - 1))
  }

  /** Skipping one whole pass keeps the position within the pass. */
  lemma ModThree(i: int)
    requires i >= 3
    ensures (i - 3) % 3 == i % 3
  {
  }

  /** A run whose first pass completes continues with the next tick three
      exchanges later. */
  lemma RunStep(step: Step, k: nat, ticks: nat)
    requires ticks > 0 && Pass(PassOrder, step, k).stop.None?
    ensures var p := Pass(PassOrder, step, k);
      Run(step, k, ticks) == Prepend(p.sent, p.logged, Run(step, k + 3, ticks - 1))
  {
  }

  /** A pass over PassOrder that completes sends and logs three times. */
  lemma PassFull(step: Step, k: nat)
    requires Pass(PassOrder, step, k).stop.None?
    ensures |Pass(PassOrder, step, k).sent| == |Pass(PassOrder, step, k).logged| == 3
  {
  }

  /** A run whose first pass fails is that pass. */
  lemma RunStopsEarly(step: Step, k: nat, ticks: nat)
    requires ticks > 0 && Pass(PassOrder, step, k).stop.Some?
    ensures Run(step, k, ticks) == Pass(PassOrder, step, k)
  {
  }

  /** A run that logs three readings or more completed its first pass. */
  lemma FirstPassCompletes(step: Step, k: nat, ticks: nat)
    requires |Run(step, k, ticks).logged| >= 3
    ensures ticks > 0 && Pass(PassOrder, step, k).stop.None?
  {
    if ticks > 0 && Pass(PassOrder, step, k).stop.Some? {
      RunStopsEarly(step, k, ticks);
    }
  }

  /** Exchange `i` of a run queries channel PassOrder[i % 3]. */
  lemma {:induction false} RunSentAt(step: Step, k: nat, ticks: nat, i: nat)
    requires i < |Run(step, k, ticks).sent|
    ensures Run(step, k, ticks).sent[i] == Reading(PassOrder[i % 3])
    decreases ticks
  {
    var p := Pass(PassOrder, step, k);
    PassSent(PassOrder, step, k);
    if p.stop.Some? {
      assert Run(step, k, ticks) == p;
      assert i % 3 == i;
    } else {
      RunStep(step, k, ticks);
      if i < 3 {
        assert i % 3 == i;
      } else {
        RunSentAt(step, k + 3, ticks - 1, i - 3);
        ModThree(i);
      }
    }
  }

  /** Reading `i` of a run is what the step returned for channel
      PassOrder[i % 3] on exchange `k` + `i`. */
  lemma {:induction false} RunLoggedAt(step: Step, k: nat, ticks: nat, i: nat)
    requires i < |Run(step, k, ticks).logged|
    ensures step(PassOrder[i % 3], k + i) == Success(Run(step, k, ticks).logged[i])
    decreases ticks, 1
  {
    if i < 3 {
      RunLoggedHead(step, k, ticks, i);
      assert i % 3 == i;
    } else {
      RunLoggedTail(step, k, ticks, i);
    }
  }

  /** Reading `i` past the first pass is reading `i` - 3 of the rest of
      the run. */
  lemma {:induction false} RunLoggedTail(step: Step, k: nat, ticks: nat, i: nat)
    requires 3 <= i < |Run(step, k, ticks).logged|
    ensures step(PassOrder[i % 3], k + i) == Success(Run(step, k, ticks).logged[i])
    decreases ticks, 0
  {
    var p := Pass(PassOrder, step, k);
    FirstPassCompletes(step, k, ticks);
    RunStep(step, k, ticks);
    PassFull(step, k);
    RunLoggedAt(step, k + 3, ticks - 1, i - 3);
    ShiftLogged(step, k, Run(step, k, ticks), Run(step, k + 3, ticks - 1), p.sent, p.logged, i);
  }

  /** The step fact for reading `i` - 3 of what follows a pass of three
      readings is the step fact for reading `i` of the whole. */
  lemma ShiftLogged(step: Step, k: nat, t: Trace, r: Trace, s: seq<Request>, l: seq<Measurement>, i: nat)
    requires t == Prepend(s, l, r) && |l| == 3 && 3 <= i < |t.logged|
    requires step(PassOrder[(i - 3) % 3], k + 3 + (i - 3)) == Success(r.logged[i - 3])
    ensures step(PassOrder[i % 3], k + i) == Success(t.logged[i])
  {
    PrependLogged(s, l, r, i);
    ModThree(i);
    assert k + 3 + (i - 3) == k + i;
  }

  /** The first three readings of a run are those of its first pass. */
  lemma RunLoggedHead(step: Step, k: nat, ticks: nat, i: nat)
    requires i < 3 && i < |Run(step, k, ticks).logged|
    ensures step(PassOrder[i], k + i) == Success(Run(step, k, ticks).logged[i])
  {
    var p := Pass(PassOrder, step, k);
    PassLogged(PassOrder, step, k);
    if p.stop.Some? {
      assert Run(step, k, ticks) == p;
    } else {
      RunStep(step, k, ticks);
      PrependLogged(p.sent, p.logged, Run(step, k + 3, ticks - 1), i);
    }
  }

  /** If `t`, started at exchange `k`, stopped, it stopped with the error
      of the measurement right after its last reading. */
  predicate StopsAtNext(step: Step, k: nat, t: Trace) {
    t.stop.Some? ==> step(PassOrder[|t.logged| % 3], k + |t.logged|) == Failure(t.stop.value)
  }

  /** A run that fails stops with the error of the measurement right after
      the last reading it logged. */
  lemma {:induction false} RunStopped(step: Step, k: nat, ticks: nat)
    ensures StopsAtNext(step, k, Run(step, k, ticks))
    decreases ticks, 1
  {
    if ticks > 0 {
      if Pass(PassOrder, step, k).stop.None? {
        RunStoppedLater(step, k, ticks);
      } else {
        RunStoppedFirst(step, k, ticks);
      }
    }
  }

  /** A run whose first pass fails stops with that pass's error. */
  lemma RunStoppedFirst(step: Step, k: nat, ticks: nat)
    requires ticks > 0 && Pass(PassOrder, step, k).stop.Some?
    ensures Run(step, k, ticks).stop.Some? && StopsAtNext(step, k, Run(step, k, ticks))
  {
    var p := Pass(PassOrder, step, k);
    PassStopped(PassOrder, step, k);
    RunStopsEarly(step, k, ticks);
    assert |p.logged| % 3 == |p.logged|;
  }

  /** A run whose first pass completes stops, if at all, where the rest of
      the run does, three exchanges later. */
  lemma {:induction false} RunStoppedLater(step: Step, k: nat, ticks: nat)
    requires ticks > 0 && Pass(PassOrder, step, k).stop.None?
    ensures StopsAtNext(step, k, Run(step, k, ticks))
    decreases ticks, 0
  {
    var p := Pass(PassOrder, step, k);
    RunStopped(step, k + 3, ticks - 1);
    RunStep(step, k, ticks);
    PassFull(step, k);
    ShiftStopped(step, k, Run(step, k, ticks), Run(step, k + 3, ticks - 1), p.sent, p.logged);
  }

  /** The stop fact of what follows a pass of three readings is the stop
      fact of the whole. */
  lemma ShiftStopped(step: Step, k: nat, t: Trace, r: Trace, s: seq<Request>, l: seq<Measurement>)
    requires t == Prepend(s, l, r) && |l| == 3
    requires StopsAtNext(step, k + 3, r)
    ensures StopsAtNext(step, k, t)
  {
    if r.stop.Some? {
      ModThree(|r.logged| + 3);
      assert k + 3 + |r.logged| == k + |t.logged|;
    }
  }

  /** A run queries channels 1, 2, 3, 1, 2, 3, ... on consecutive
      exchanges and logs, at each position, the reading the step returned
      for the channel queried there. */
  lemma RunOrder(step: Step, k: nat, ticks: nat)
    ensures var t := Run(step, k, ticks);
      && (forall i :: 0 <= i < |t.sent| ==> t.sent[i] == Reading(PassOrder[i % 3]))
      && (forall i :: 0 <= i < |t.logged| ==> step(PassOrder[i % 3], k + i) == Success(t.logged[i]))
  {
    var t := Run(step, k, ticks);
    forall i | 0 <= i < |t.sent|
      ensures t.sent[i] == Reading(PassOrder[i % 3])
    {
      RunSentAt(step, k, ticks, i);
    }
    forall i | 0 <= i < |t.logged|
      ensures step(PassOrder[i % 3], k + i) == Success(t.logged[i])
    {
      RunLoggedAt(step, k, ticks, i);
    }
  }

  /** No run queries the aggregate channel, and with a faithfully labelling
      step every reading a run logs carries the channel queried for it. */
  lemma RunChannels(step: Step, k: nat, ticks: nat)
    requires Labels(step)
    ensures Reading(ChCur) !in Run(step, k, ticks).sent
    ensures var t := Run(step, k, ticks);
      forall i :: 0 <= i < |t.logged| ==> t.logged[i].channel == PassOrder[i % 3]
  {
    RunOrder(step, k, ticks);
    var t := Run(step, k, ticks);
    forall i | 0 <= i < |t.logged|
      ensures t.logged[i].channel == PassOrder[i % 3]
    {
      assert step(PassOrder[i % 3], k + i) == Success(t.logged[i]);
    }
  }

  /** The whole program: dial (when `dialOk`), identify on the first
      exchange, refuse any model but DP832, then poll for `ticks` ticks. */
  function Session(dialOk: bool, device: Device, parse: Parser, ticks: nat): (t: Trace)
    ensures !dialOk ==> t == Trace([], [], Some(DialFailed))
    ensures dialOk ==> |t.sent| >= 1 && t.sent[0] == Identification
    ensures Connect(dialOk, device).Fail? ==>
      t == Trace(if dialOk then [Identification] else [], [], Some(Connect(dialOk, device).error))
  {
    if !dialOk then Trace([], [], Some(DialFailed))
    else match Connect(true, device)
      case Fail(e) => Trace([Identification], [], Some(e))
      case Pass => Prepend([Identification], [], Run(Measurer(device, parse), 1, ticks))
  }

  /** After a successful handshake the session is the identification
      exchange followed by a run of the poll loop from exchange 1. */
  lemma SessionStep(device: Device, parse: Parser, ticks: nat)
    requires Connect(true, device).Pass?
    ensures Session(true, device, parse, ticks)
         == Prepend([Identification], [], Run(Measurer(device, parse), 1, ticks))
  {
  }

  /** Behind the identification exchange, exchange `i` queries
      PassOrder[(i - 1) % 3]. */
  lemma PollAfterHandshake(step: Step, ticks: nat)
    ensures var t := Prepend([Identification], [], Run(step, 1, ticks));
      forall i :: 1 <= i < |t.sent| ==> t.sent[i] == Reading(PassOrder[(i - 1) % 3])
  {
    var r := Run(step, 1, ticks);
    RunOrder(step, 1, ticks);
    var t := Prepend([Identification], [], r);
    forall i | 1 <= i < |t.sent|
      ensures t.sent[i] == Reading(PassOrder[(i - 1) % 3])
    {
      assert t.sent[i] == r.sent[i - 1];
    }
  }

  /** After a successful handshake, exchange `i` (the handshake being
      exchange 0) queries PassOrder[(i - 1) % 3] and the identification
      query is never sent again. */
  lemma SessionOrder(device: Device, parse: Parser, ticks: nat)
    requires Connect(true, device).Pass?
    ensures var t := Session(true, device, parse, ticks);
      forall i :: 1 <= i < |t.sent| ==> t.sent[i] == Reading(PassOrder[(i - 1) % 3])
  {
    SessionStep(device, parse, ticks);
    PollAfterHandshake(Measurer(device, parse), ticks);
  }

  /** A device reporting itself as a DP831 gets no measurement query. */
  lemma SessionRefusesDP831(device: Device, parse: Parser, ticks: nat, rest: string)
    requires device(0, Frame(IdnQuery))
          == Link(true, "RIGOL TECHNOLOGIES" + "," + "DP831" + "," + "DP8A123456789" + "," + "00.01.02.03" + "\r\n" + rest)
    ensures Session(true, device, parse, ticks) == Trace([Identification], [], Some(WrongModel("DP831")))
  {
    RefuseDP831(device, rest);
  }
}
