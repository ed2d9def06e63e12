/** The string handling the client relies on: splitting a reply on a
    one-character separator (Go's strings.Split), joining fields back, and
    reading one line from a byte stream (bufio.Reader.ReadString). */
module Text {
  import opened Wrappers

  /** Number of occurrences of `c` in `s`. */
  function Occurrences(s: string, c: char): (n: nat)
    ensures n <= |s|
    ensures n == 0 <==> c !in s
  {
    if |s| == 0 then 0
    else (if s[0] == c then 1 else 0) + Occurrences(s[1..], c)
  }

  /** Splits `s` around every occurrence of `sep`. Like strings.Split with a
      non-empty separator, the empty string gives one empty field and every
      separator adds exactly one field. */
  function Split(s: string, sep: char): (fields: seq<string>)
    ensures |fields| == Occurrences(s, sep) + 1
    ensures SeparatorFree(fields, sep)
    decreases |s|
  {
    if |s| == 0 then [""]
    else
      var rest := Split(s[1..], sep);
      if s[0] == sep then [""] + rest
      else [[s[0]] + rest[0]] + rest[1..]
  }

  /** Concatenates `fields` with `sep` between consecutive fields. */
  function Join(fields: seq<string>, sep: char): (s: string)
    requires |fields| >= 1
    ensures |s| >= |fields| - 1
  {
    if |fields| == 1 then fields[0]
    else fields[0] + [sep] + Join(fields[1..], sep)
  }

  /** No field of `fields` contains `sep`. */
  predicate SeparatorFree(fields: seq<string>, sep: char) {
    forall i :: 0 <= i < |fields| ==> sep !in fields[i]
  }

  /** Prepending text to the first of some fields prepends it to their join. */
  lemma JoinExtendFirst(a: string, fields: seq<string>, sep: char)
    requires |fields| >= 1
    ensures Join([a + fields[0]] + fields[1..], sep) == a + Join(fields, sep)
  {
    var g := [a + fields[0]] + fields[1..];
    assert g[1..] == fields[1..];
    if |fields| > 1 {
      assert Join(g, sep) == (a + fields[0]) + [sep] + Join(fields[1..], sep);
      assert Join(fields, sep) == fields[0] + [sep] + Join(fields[1..], sep);
    }
  }

  /** Splitting loses nothing: joining the fields gives back the input. */
  lemma {:induction false} JoinSplit(s: string, sep: char)
    ensures Join(Split(s, sep), sep) == s
    decreases |s|
  {
    if |s| > 0 {
      var rest := Split(s[1..], sep);
      JoinSplit(s[1..], sep);
      if s[0] == sep {
        assert Split(s, sep)[1..] == rest;
      } else {
        JoinExtendFirst([s[0]], rest, sep);
        assert s == [s[0]] + s[1..];
      }
    }
  }

  /** A separator-free prefix merges into the first field of what follows. */
  lemma {:induction false} SplitPrefix(a: string, t: string, sep: char)
    requires sep !in a
    ensures Split(a + t, sep) == [a + Split(t, sep)[0]] + Split(t, sep)[1..]
    decreases |a|
  {
    if |a| > 0 {
      assert (a + t)[1..] == a[1..] + t;
      SplitPrefix(a[1..], t, sep);
      assert [a[0]] + (a[1..] + Split(t, sep)[0]) == a + Split(t, sep)[0];
    } else {
      var f := Split(t, sep);
      assert a + t == t && a + f[0] == f[0];
      assert f == [f[0]] + f[1..];
    }
  }

  /** Joining separator-free fields and splitting again gives the fields back. */
  lemma {:induction false} SplitJoin(fields: seq<string>, sep: char)
    requires |fields| >= 1
    requires SeparatorFree(fields, sep)
    ensures Split(Join(fields, sep), sep) == fields
    decreases |fields|
  {
    if |fields| == 1 {
      SplitPrefix(fields[0], "", sep);
      assert fields[0] + "" == fields[0];
    } else {
      var tail := Join(fields[1..], sep);
      SplitJoin(fields[1..], sep);
      assert Join(fields, sep) == fields[0] + ([sep] + tail);
      SplitPrefix(fields[0], [sep] + tail, sep);
      assert ([sep] + tail)[1..] == tail;
      assert fields[0] + "" == fields[0];
    }
  }

  /** Joining two non-empty field lists puts one separator between them. */
  lemma {:induction false} JoinAppend(a: seq<string>, b: seq<string>, sep: char)
    requires |a| >= 1 && |b| >= 1
    ensures Join(a + b, sep) == Join(a, sep) + [sep] + Join(b, sep)
    decreases |a|
  {
    if |a| == 1 {
      assert (a + b)[1..] == b;
    } else {
      assert (a + b)[1..] == a[1..] + b;
      JoinAppend(a[1..], b, sep);
    }
  }

  /** Splitting around a separator splits each side on its own. */
  lemma SplitAppend(a: string, b: string, sep: char)
    ensures Split(a + [sep] + b, sep) == Split(a, sep) + Split(b, sep)
  {
    var fa, fb := Split(a, sep), Split(b, sep);
    JoinSplit(a, sep);
    JoinSplit(b, sep);
    JoinAppend(fa, fb, sep);
    assert SeparatorFree(fa + fb, sep) by {
      forall i | 0 <= i < |fa + fb|
        ensures sep !in (fa + fb)[i]
      {
        if i >= |fa| {
          assert (fa + fb)[i] == fb[i - |fa|];
        }
      }
    }
    SplitJoin(fa + fb, sep);
  }

  /** `line` is the first line of `s`: a prefix of `s` that ends with the
      first line feed of `s` and holds no earlier one. */
  predicate IsFirstLine(line: string, s: string) {
    && 1 <= |line| <= |s|
    && line == s[..|line|]
    && line[|line| - 1] == '\n'
    && '\n' !in line[..|line| - 1]
  }

  /** Reads up to and including the first line feed, as
      bufio.Reader.ReadString('\n') does; None when the stream ends first. */
  function ReadLine(s: string): (line: Option<string>)
    ensures line.Some? <==> '\n' in s
    ensures line.Some? ==> IsFirstLine(line.value, s)
  {
    if |s| == 0 then None
    else if s[0] == '\n' then Some("\n")
    else
      var rest :- ReadLine(s[1..]);
      Some([s[0]] + rest)
  }

  /** A line is found again at the front of any stream that starts with it. */
  lemma {:induction false} ReadLineOfLine(line: string, more: string)
    requires |line| >= 1 && line[|line| - 1] == '\n'
    requires '\n' !in line[..|line| - 1]
    ensures ReadLine(line + more) == Some(line)
    decreases |line|
  {
    var s := line + more;
    if line[0] != '\n' {
      assert |line| > 1;
      assert s[1..] == line[1..] + more;
      assert line[1..][..|line| - 2] == line[..|line| - 1][1..];
      ReadLineOfLine(line[1..], more);
      assert [s[0]] + line[1..] == line;
    } else {
      assert |line| == 1;
    }
  }
}
