/** The inbound side of the connection as the decoders see it: a buffered
    reader whose only operation is "read up to and including the next
    newline" (Go's `bufio.Reader.ReadString('\n')`), and the framing of
    multi-line responses between a `START` line and an `END` line. */
module Wire {
  import opened Wrappers

  /** Marker lines that open and close a block response. */
  const START := "START\n"
  const END := "END\n"

  predicate NoNewline(s: string) { forall i :: 0 <= i < |s| ==> s[i] != '\n' }

  /** One response line: ends in a newline and holds no other. */
  predicate IsLine(l: string)
  {
    |l| > 0 && l[|l| - 1] == '\n' && NoNewline(l[..|l| - 1])
  }

  /** The shortest prefix of `s` that ends in a newline, if there is one. */
  function NextLine(s: string): (r: Option<string>)
    ensures r.Some? ==> IsLine(r.value) && |r.value| <= |s| && s[..|r.value|] == r.value
    ensures r.None? <==> NoNewline(s)
    decreases |s|
  {
    if s == [] then None
    else if s[0] == '\n' then Some("\n")
    else match NextLine(s[1..])
      case None => None
      case Some(l) => Some([s[0]] + l)
  }

  /** A complete line at the front of the input is exactly what is read next. */
  lemma {:induction false} NextLineOfLine(l: string, rest: string)
    requires IsLine(l)
    ensures NextLine(l + rest) == Some(l)
    decreases |l|
  {
    if l[0] == '\n' {
      assert |l| == 1 && l == "\n";
    } else {
      assert |l| > 1;
      assert l[1..][..|l| - 2] == l[..|l| - 1][1..];
      assert (l + rest)[1..] == l[1..] + rest;
      NextLineOfLine(l[1..], rest);
      assert [l[0]] + l[1..] == l;
    }
  }

  /** The lines written one after another. */
  function Concat(lines: seq<string>): string
  {
    if lines == [] then "" else lines[0] + Concat(lines[1..])
  }

  /** What scanning a block body yields: either the `END` line was found after
      `body`, `used` characters having been consumed through it, or the input
      ran out after the complete lines `body`. */
  datatype Block = Ended(body: seq<string>, used: nat) | Truncated(body: seq<string>)

  /** `b` with `pre` lines (taking `skipped` characters) read in front of it. */
  function Extend(pre: seq<string>, skipped: nat, b: Block): Block
  {
    match b
    case Ended(body, used) => Ended(pre + body, skipped + used)
    case Truncated(body) => Truncated(pre + body)
  }

  /** Reads the lines of a block body up to and including the `END` line. */
  function ScanBlock(s: string): Block
    decreases |s|
  {
    match NextLine(s)
    case None => Truncated([])
    case Some(l) => if l == END then Ended([], |l|) else Extend([l], |l|, ScanBlock(s[|l|..]))
  }

  /** Every line a scan returns is a complete line, and none of them is `END`. */
  lemma {:induction false} ScanBlockLines(s: string)
    ensures forall i :: 0 <= i < |ScanBlock(s).body| ==> IsLine(ScanBlock(s).body[i]) && ScanBlock(s).body[i] != END
    decreases |s|
  {
    if NextLine(s).Some? && NextLine(s).value != END {
      var l := NextLine(s).value;
      var b := ScanBlock(s[|l|..]);
      ScanBlockLines(s[|l|..]);
      assert ScanBlock(s).body == [l] + b.body;
    }
  }

  /** A scan that finds `END` consumes exactly the body lines and that line. */
  lemma {:induction false} ScanBlockEnded(s: string)
    requires ScanBlock(s).Ended?
    ensures ScanBlock(s).used <= |s| && s[..ScanBlock(s).used] == Concat(ScanBlock(s).body) + END
    decreases |s|
  {
    var l := NextLine(s).value;
    if l == END {
      EndedAtOnce(s);
      assert Concat([]) + END == END;
    } else {
      var rest := s[|l|..];
      assert s == l + rest;
      ScanBlockEnded(rest);
      var b := ScanBlock(rest);
      EndedAfterLine(l, rest, b.body, b.used);
      LineThenBlock(l, rest, b.body, b.used);
    }
  }

  lemma EndedAtOnce(s: string)
    requires NextLine(s) == Some(END)
    ensures ScanBlock(s) == Ended([], |END|)
  {
  }

  lemma EndedAfterLine(l: string, rest: string, body: seq<string>, used: nat)
    requires NextLine(l + rest) == Some(l) && l != END
    requires ScanBlock(rest) == Ended(body, used)
    ensures ScanBlock(l + rest) == Ended([l] + body, |l| + used)
  {
    ExtendEnded([l], |l|, body, used);
    ScanStep(l + rest, l, rest);
  }

  lemma LineThenBlock(l: string, rest: string, body: seq<string>, used: nat)
    requires used <= |rest| && rest[..used] == Concat(body) + END
    ensures (l + rest)[..|l| + used] == Concat([l] + body) + END
  {
    ConcatCons(l, body);
    assert (l + rest)[..|l| + used] == l + rest[..used];
  }

  lemma ExtendEnded(pre: seq<string>, k: nat, body: seq<string>, used: nat)
    ensures Extend(pre, k, Ended(body, used)) == Ended(pre + body, k + used)
  {
  }

  lemma ConcatCons(l: string, body: seq<string>)
    ensures Concat([l] + body) == l + Concat(body)
  {
    assert ([l] + body)[1..] == body;
  }


  /** A scan that runs out of input has consumed the body lines and then only
      a fragment without a newline. */
  lemma {:induction false} ScanBlockTruncated(s: string)
    requires ScanBlock(s).Truncated?
    ensures Concat(ScanBlock(s).body) <= s && NoNewline(s[|Concat(ScanBlock(s).body)|..])
    decreases |s|
  {
    if NextLine(s).Some? {
      var l := NextLine(s).value;
      var rest := s[|l|..];
      assert s == l + rest;
      var b := ScanBlock(rest);
      ScanBlockTruncated(rest);
      var r := ScanBlock(s);
      assert r.body == [l] + b.body;
      assert r.body[1..] == b.body;
      assert s[|Concat(r.body)|..] == rest[|Concat(b.body)|..];
    }
  }

  /** A well-formed block body followed by `END` is scanned to exactly that
      `END`, whatever follows it. */
  lemma {:induction false} ScanWellFormedBlock(body: seq<string>, rest: string)
    requires forall i :: 0 <= i < |body| ==> IsLine(body[i]) && body[i] != END
    ensures ScanBlock(Concat(body) + END + rest) == Ended(body, |Concat(body)| + |END|)
    decreases |body|
  {
    if body == [] {
      assert Concat(body) + END + rest == END + rest;
      NextLineOfLine(END, rest);
      assert (END + rest)[|END|..] == rest;
    } else {
      var l, tail := body[0], Concat(body[1..]) + END + rest;
      assert Concat(body) + END + rest == l + tail;
      ScanWellFormedBlock(body[1..], rest);
      NextLineOfLine(l, tail);
      ScanStep(l + tail, l, tail);
      assert [l] + body[1..] == body;
    }
  }

  /** The unread part of a connection's inbound stream. */
  class LineReader {
    var unread: string

    constructor (input: string)
      ensures unread == input
    {
      unread := input;
    }

    /** Go's `ReadString('\n')`: the next line, consumed; at the end of the
        input the partial line is consumed too and an error is reported (None). */
    method ReadLine() returns (r: Option<string>)
      modifies this
      ensures r == NextLine(old(unread))
      ensures r.Some? ==> old(unread) == r.value + unread
      ensures r.None? ==> unread == []
    {
      r := NextLine(unread);
      if r.Some? {
        assert unread == r.value + unread[|r.value|..];
        unread := unread[|r.value|..];
      } else {
        unread := [];
      }
    }

    /** Reads the lines of a block body through the `END` line, as the list
        and info decoders do once `START` has been read: `ended` when `END`
        was found, and otherwise the input ran out after the lines in `body`. */
    method ReadBlock() returns (body: seq<string>, ended: bool)
      modifies this
      ensures BlockRead(old(unread), unread, body, ended)
    {
      ghost var start := unread;
      body := [];
      ExtendNothing(ScanBlock(start));
      while true
        invariant Scanning(start, unread, body)
        decreases |unread|
      {
        ghost var before := unread;
        var line := ReadLine();
        if line.None? {
          ScanTruncates(start, before, body);
          return body, false;
        }
        if line.value == END {
          ScanEnds(start, before, unread, body);
          return body, true;
        }
        ScanContinues(start, before, line.value, unread, body);
        body := body + [line.value];
      }
    }
  }

  /** What reading a block body from `s` does: when the scan finds `END`, the
      body lines are returned, `ended` holds and the reader stops right after
      `END`; when the input runs out, the complete lines read are returned and
      nothing is left unread. */
  predicate BlockRead(s: string, after: string, body: seq<string>, ended: bool)
  {
    match ScanBlock(s)
    case Ended(b, used) => ended && body == b && used <= |s| && after == s[used..]
    case Truncated(b) => !ended && body == b && after == []
  }

  /** The loop state of ReadBlock: `rest` is what is left of `start`, and the
      scan of `start` is the lines read so far followed by the scan of `rest`. */
  ghost predicate Scanning(start: string, rest: string, body: seq<string>)
  {
    && |rest| <= |start| && start[|start| - |rest|..] == rest
    && ScanBlock(start) == Extend(body, |start| - |rest|, ScanBlock(rest))
  }

  lemma ScanTruncates(start: string, rest: string, body: seq<string>)
    requires Scanning(start, rest, body) && NextLine(rest).None?
    ensures BlockRead(start, [], body, false)
  {
    assert ScanBlock(rest) == Truncated([]);
    assert body + [] == body;
  }

  lemma ScanEnds(start: string, rest: string, after: string, body: seq<string>)
    requires Scanning(start, rest, body) && NextLine(rest) == Some(END) && rest == END + after
    ensures BlockRead(start, after, body, true)
  {
    assert ScanBlock(rest) == Ended([], |END|);
    assert body + [] == body;
    assert start[|start| - |rest| + |END|..] == after;
  }

  lemma ScanContinues(start: string, rest: string, l: string, after: string, body: seq<string>)
    requires Scanning(start, rest, body) && NextLine(rest) == Some(l) && l != END && rest == l + after
    ensures Scanning(start, after, body + [l])
  {
    var k, b := |start| - |rest|, ScanBlock(after);
    ScanStep(rest, l, after);
    ExtendAfter(body, l, k, b);
    SuffixAfter(start, rest, l, after);
    assert ScanBlock(start) == Extend(body + [l], k + |l|, b);
  }

  /** A body line at the front of `rest` is the first line of its scan. */
  lemma ScanStep(rest: string, l: string, after: string)
    requires NextLine(rest) == Some(l) && l != END && rest == l + after
    ensures ScanBlock(rest) == Extend([l], |l|, ScanBlock(after))
  {
    assert rest[|l|..] == after;
  }

  /** What is left after a line of a suffix is a suffix too. */
  lemma SuffixAfter(start: string, rest: string, l: string, after: string)
    requires |rest| <= |start| && start[|start| - |rest|..] == rest && rest == l + after
    ensures |after| <= |start| && start[|start| - |after|..] == after
  {
    assert start[|start| - |after|..] == start[|start| - |rest|..][|l|..];
  }

  /** Nothing read in front of a scan leaves it as it is. */
  lemma ExtendNothing(b: Block)
    ensures Extend([], 0, b) == b
  {
    assert [] + b.body == b.body;
  }

  /** Reading one more line of the body moves it from the scan to the prefix. */
  lemma ExtendAfter(pre: seq<string>, l: string, skipped: nat, b: Block)
    ensures Extend(pre, skipped, Extend([l], |l|, b)) == Extend(pre + [l], skipped + |l|, b)
  {
    match b
    case Ended(body, used) => assert pre + ([l] + body) == pre + [l] + body;
    case Truncated(body) => assert pre + ([l] + body) == pre + [l] + body;
  }
}
