/** One command/response exchange over the instrument connection. The
    socket itself is not modelled: a device says, for each exchange, whether
    the write succeeds and which bytes arrive afterwards. */
module Transport {
  import opened Wrappers
  import opened Errors
  import opened Text

  /** What the connection does during one exchange: whether writing the
      command succeeds, and the bytes read from it afterwards. */
  datatype Link = Link(writeOk: bool, incoming: string)

  /** The instrument seen from the client: given the number of exchanges
      already made on the connection and the bytes written for this one,
      what happens on the wire. */
  type Device = (nat, string) -> Link

  /** Number of bytes cut off the end of every line read: the device ends
      its replies with a carriage return and a line feed. */
  const TrimWidth: nat := 2

  /** The bytes written for a command: its text and a single line feed. */
  function Frame(cmd: string): string {
    cmd + "\n"
  }

  /** The frame is the command with one line feed after it. */
  lemma FrameShape(cmd: string)
    ensures |Frame(cmd)| == |cmd| + 1
    ensures Frame(cmd)[..|cmd|] == cmd && Frame(cmd)[|cmd|] == '\n'
  {
  }

  /** Frames of different commands differ. */
  lemma FrameInjective(a: string, b: string)
    requires Frame(a) == Frame(b)
    ensures a == b
  {
    assert a == Frame(a)[..|a|];
  }

  /** A command without a line feed reaches the instrument as exactly one
      line, and the line is the command followed by its terminator. */
  lemma FrameIsOneLine(cmd: string, more: string)
    requires '\n' !in cmd
    ensures ReadLine(Frame(cmd) + more) == Some(Frame(cmd))
  {
    var w := Frame(cmd);
    FrameShape(cmd);
    assert w[..|w| - 1] == cmd;
    ReadLineOfLine(w, more);
  }

  /** Writes `cmd` framed, reads one line and returns it without its last
      two bytes. A failed write or read, and a line shorter than two bytes,
      are errors. */
  function Command(cmd: string, device: Device, k: nat): (r: Result<string, Error>)
    ensures var link := device(k, Frame(cmd));
      && (r == Failure(WriteFailed) <==> !link.writeOk)
      && (link.writeOk ==> (r == Failure(ReadFailed) <==> '\n' !in link.incoming))
      && (r.Success? <==> link.writeOk && '\n' in link.incoming && link.incoming[0] != '\n')
      && (r.Success? ==> IsPayload(r.value, link.incoming))
      && (r.Failure? && r.error.ShortLine? ==> link.writeOk && r.error.line == "\n" && link.incoming[0] == '\n')
    ensures var link := device(k, Frame(cmd));
      link.writeOk && '\n' in link.incoming && link.incoming[0] == '\n' ==> r == Failure(ShortLine("\n"))
  {
    var link := device(k, Frame(cmd));
    if !link.writeOk then Failure(WriteFailed)
    else match ReadLine(link.incoming)
      case None => Failure(ReadFailed)
      case Some(line) =>
        if |line| < TrimWidth then Failure(ShortLine(line))
        else Success(line[..|line| - TrimWidth])
  }

  /** `p` is what is left of the first line of `s` once its line feed and
      the byte before it are cut off. */
  predicate IsPayload(p: string, s: string) {
    && |p| + TrimWidth <= |s|
    && s[..|p|] == p
    && '\n' !in p
    && s[|p|] != '\n'
    && s[|p| + TrimWidth - 1] == '\n'
  }

  /** A reply line `p` + `b` + line feed, where `b` is any byte other than
      a line feed, is returned as `p`, whatever follows it. */
  lemma CommandPayload(cmd: string, device: Device, k: nat, p: string, b: char, more: string)
    requires '\n' !in p && b != '\n'
    requires device(k, Frame(cmd)) == Link(true, p + [b, '\n'] + more)
    ensures Command(cmd, device, k) == Success(p)
  {
    var line := p + [b, '\n'];
    assert line[..|line| - 1] == p + [b];
    ReadLineOfLine(line, more);
    assert line[..|line| - 2] == p;
  }

  /** A device answering "OK\r\n" yields the payload "OK". */
  lemma CommandOk(cmd: string, device: Device, k: nat)
    requires device(k, Frame(cmd)) == Link(true, "OK\r\n")
    ensures Command(cmd, device, k) == Success("OK")
  {
    CommandPayload(cmd, device, k, "OK", '\r', "");
    assert "OK" + ['\r', '\n'] + "" == "OK\r\n";
  }

  /** A line ended by a bare line feed loses its last payload byte: the two
      trimmed bytes are the line feed and the byte before it. */
  lemma BareLineFeedTruncates(cmd: string, device: Device, k: nat, p: string, more: string)
    requires '\n' !in p && |p| >= 1
    requires device(k, Frame(cmd)) == Link(true, p + "\n" + more)
    ensures Command(cmd, device, k) == Success(p[..|p| - 1])
  {
    var q := p[..|p| - 1];
    assert p + "\n" + more == q + [p[|p| - 1], '\n'] + more;
    assert '\n' !in q by {
      assert forall i :: 0 <= i < |q| ==> q[i] == p[i];
    }
    CommandPayload(cmd, device, k, q, p[|p| - 1], more);
  }
}
