/** What every hlld command shares: the errors a command reports, the two
    character classes that inputs are checked against before anything is
    sent, the shape of a request line, and the literal response lines. */
module Protocol {
  import opened Wrappers
  import opened Text
  import Wire

  /** The errors the command layer reports. */
  datatype Error =
    | InvalidSetName               // a set name failed validWord
    | InvalidPrefix                // a list prefix failed validWord
    | MissingKeys                  // a set-keys command with no key
    | InvalidKey(key: string)      // the first key that failed validKey
    | ReadFailed                   // the stream ended before a newline
    | ExpectListStart              // a list response not opened by START
    | InvalidResponse(response: string)
    | ParseFailure(line: string)
    | IndexOutOfRange(line: string)   // a Go runtime panic on a short line
    | NotDecoded                   // a result asked for before any decode

  // -----------------------------------------------------------------------
  // Input validation (commands.go, validWord and validKey)
  // -----------------------------------------------------------------------

  /** `[a-zA-Z0-9_-]`: letters, digits, underscore and hyphen. */
  predicate WordChar(c: char)
  {
    'a' <= c <= 'z' || 'A' <= c <= 'Z' || '0' <= c <= '9' || c == '_' || c == '-'
  }

  /** `^[a-zA-Z0-9_-]+$`, the check on set names and list prefixes. */
  predicate ValidWord(s: string)
  {
    |s| > 0 && forall i :: 0 <= i < |s| ==> WordChar(s[i])
  }

  /** `^[^ \t\r\n]+$`, the check on keys. */
  predicate ValidKey(s: string)
  {
    |s| > 0 && forall i :: 0 <= i < |s| ==> s[i] != ' ' && s[i] != '\t' && s[i] != '\r' && s[i] != '\n'
  }

  /** The cases of the validWord table in the package's tests. The code
      accepts a hyphen, so "foo123-123" is a valid name here. */
  lemma ValidWordCases()
    ensures ValidWord("foo") && ValidWord("foo123") && ValidWord("Foo123_123")
    ensures !ValidWord("Foo123 123") && !ValidWord("foo123:123") && !ValidWord("")
    ensures ValidWord("foo123-123")
  {
    assert "Foo123 123"[6] == ' ';
    assert "foo123:123"[6] == ':';
  }

  // -----------------------------------------------------------------------
  // Request lines
  // -----------------------------------------------------------------------

  /** A field of a request line: no space, and no newline. */
  predicate FieldText(f: string)
  {
    NoSpace(f) && Wire.NoNewline(f)
  }

  /** The request line of a command with the given fields: single spaces
      between fields and one final newline. */
  function RequestLine(fields: seq<string>): string
  {
    Join(fields) + "\n"
  }

  /** How the receiving end reads a request line: it must be one line, and
      its fields are what lies between the spaces. */
  function ParseRequestLine(line: string): Option<seq<string>>
  {
    if Wire.IsLine(line) then Some(Split(line[..|line| - 1])) else None
  }

  /** A request line built from fields holding no space or newline is one
      line, and reading it gives back exactly those fields, in order. */
  lemma RequestLineRoundTrip(fields: seq<string>)
    requires |fields| > 0
    requires forall i :: 0 <= i < |fields| ==> FieldText(fields[i])
    ensures Wire.IsLine(RequestLine(fields))
    ensures ParseRequestLine(RequestLine(fields)) == Some(fields)
  {
    var line := RequestLine(fields);
    JoinNoNewline(fields);
    assert line[..|line| - 1] == Join(fields);
    SplitJoin(fields);
  }

  /** A valid word is a field. */
  lemma WordIsField(w: string)
    requires ValidWord(w)
    ensures FieldText(w)
  {
    forall i | 0 <= i < |w| ensures w[i] != ' ' && w[i] != '\n' {
      assert WordChar(w[i]);
    }
  }

  /** The request verbs are fields. */
  lemma Verbs()
    ensures FieldText("create") && FieldText("drop") && FieldText("close") && FieldText("clear")
    ensures FieldText("b") && FieldText("flush") && FieldText("list") && FieldText("info")
  {
  }

  /** A request of a verb and an argument that may be empty (and is then
      left out) is read back as those fields. */
  lemma OptionalArgRequest(verb: string, arg: string)
    requires FieldText(verb) && FieldText(arg)
    ensures var fields := [verb] + (if arg != "" then [arg] else []);
      && verb + (if arg != "" then " " + arg else "") + "\n" == RequestLine(fields)
      && ParseRequestLine(RequestLine(fields)) == Some(fields)
  {
    var fields := [verb] + (if arg != "" then [arg] else []);
    if arg != "" {
      assert fields == [verb, arg];
      TwoFieldRequest(verb, arg);
    } else {
      assert fields == [verb];
      assert Join([verb]) == verb;
      RequestLineRoundTrip(fields);
    }
  }

  /** A request of two fields is read back as those fields. */
  lemma TwoFieldRequest(a: string, b: string)
    requires FieldText(a) && FieldText(b)
    ensures RequestLine([a, b]) == a + " " + b + "\n"
    ensures ParseRequestLine(a + " " + b + "\n") == Some([a, b])
  {
    assert [a, b][1..] == [b];
    assert Join([a, b]) == a + " " + b;
    RequestLineRoundTrip([a, b]);
  }

  // -----------------------------------------------------------------------
  // Response lines
  // -----------------------------------------------------------------------

  const DONE := "Done\n"
  const EXISTS := "Exists\n"
  const DELETE_IN_PROGRESS := "Delete in progress\n"
  const SET_DOES_NOT_EXIST := "Set does not exist\n"
  const NOT_PROXIED := "Set is not proxied. Close it first.\n"

  /** The response lines are single lines, and no two are the same. */
  lemma ResponseLines()
    ensures Wire.IsLine(DONE) && Wire.IsLine(EXISTS) && Wire.IsLine(DELETE_IN_PROGRESS)
    ensures Wire.IsLine(SET_DOES_NOT_EXIST) && Wire.IsLine(NOT_PROXIED)
    ensures Wire.IsLine(Wire.START) && Wire.IsLine(Wire.END)
    ensures DONE != EXISTS && DONE != DELETE_IN_PROGRESS && DONE != SET_DOES_NOT_EXIST && DONE != NOT_PROXIED
    ensures EXISTS != DELETE_IN_PROGRESS && EXISTS != SET_DOES_NOT_EXIST && EXISTS != NOT_PROXIED
    ensures DELETE_IN_PROGRESS != SET_DOES_NOT_EXIST && DELETE_IN_PROGRESS != NOT_PROXIED
    ensures SET_DOES_NOT_EXIST != NOT_PROXIED
    ensures DONE != Wire.START && EXISTS != Wire.START && DELETE_IN_PROGRESS != Wire.START
    ensures SET_DOES_NOT_EXIST != Wire.START && NOT_PROXIED != Wire.START
    ensures DONE != Wire.END && EXISTS != Wire.END && DELETE_IN_PROGRESS != Wire.END
    ensures SET_DOES_NOT_EXIST != Wire.END && NOT_PROXIED != Wire.END && Wire.START != Wire.END
  {
    StatusLines();
    MarkerLines();
    assert DELETE_IN_PROGRESS[0] != SET_DOES_NOT_EXIST[0];
  }

  lemma StatusLines()
    ensures Wire.IsLine(DONE) && Wire.IsLine(EXISTS) && Wire.IsLine(DELETE_IN_PROGRESS)
    ensures Wire.IsLine(SET_DOES_NOT_EXIST) && Wire.IsLine(NOT_PROXIED)
  {
    LiteralLine(DONE);
    LiteralLine(EXISTS);
    LiteralLine(DELETE_IN_PROGRESS);
    LiteralLine(SET_DOES_NOT_EXIST);
    LiteralLine(NOT_PROXIED);
  }

  lemma MarkerLines()
    ensures Wire.IsLine(Wire.START) && Wire.IsLine(Wire.END)
  {
    LiteralLine(Wire.START);
    LiteralLine(Wire.END);
  }

  /** A response text made of letters, spaces and full stops before its final
      newline is one line. */
  lemma LiteralLine(l: string)
    requires |l| > 0 && l[|l| - 1] == '\n'
    requires forall i :: 0 <= i < |l| - 1 ==> l[i] == ' ' || l[i] == '.' || 'a' <= l[i] <= 'z' || 'A' <= l[i] <= 'Z'
    ensures Wire.IsLine(l)
  {
  }

  /** The response lines a decoder compares against. */
  predicate IsResponseLine(l: string)
  {
    l == DONE || l == EXISTS || l == DELETE_IN_PROGRESS || l == SET_DOES_NOT_EXIST
    || l == NOT_PROXIED || l == Wire.START || l == Wire.END
  }

  /** A known response line at the front of the input is read whole, and the
      reader stops right after it. */
  lemma ReadResponseLine(l: string, rest: string)
    requires IsResponseLine(l)
    ensures Wire.NextLine(l + rest) == Some(l) && (l + rest)[|l|..] == rest
  {
    ResponseLines();
    Wire.NextLineOfLine(l, rest);
  }

  // -----------------------------------------------------------------------
  // Block responses
  // -----------------------------------------------------------------------

  /** What the list and info decoders do once they have read `START`: read
      the body from `s` through `END`, appending its lines to the stored ones
      and marking the command done; if the input runs out first, the lines
      read so far are still appended, the command is not marked done, and the
      read fails. */
  ghost predicate BlockDecoded(s: string, after: string, oldLines: seq<string>, newLines: seq<string>,
                               oldDone: bool, newDone: bool, o: Outcome<Error>)
  {
    match Wire.ScanBlock(s)
    case Ended(body, used) => o == Pass && newDone && newLines == oldLines + body && used <= |s| && after == s[used..]
    case Truncated(body) => o == Fail(ReadFailed) && newDone == oldDone && newLines == oldLines + body && after == []
  }

  /** A line as read from the wire, without its final newline. */
  function LineText(line: string): (t: string)
    ensures Wire.IsLine(line) ==> t + "\n" == line
  {
    if |line| > 0 && line[|line| - 1] == '\n' then line[..|line| - 1] else line
  }

  /** A block response of complete body lines, none of them `END`, opens with
      `START`, and its body is scanned to exactly those lines and the `END`
      after them. */
  lemma BlockResponse(lines: seq<string>, following: string)
    requires forall i :: 0 <= i < |lines| ==> Wire.IsLine(lines[i]) && lines[i] != Wire.END
    ensures var s := Wire.START + Wire.Concat(lines) + Wire.END + following;
      && Wire.NextLine(s) == Some(Wire.START)
      && Wire.ScanBlock(s[|Wire.START|..]) == Wire.Ended(lines, |Wire.Concat(lines)| + |Wire.END|)
      && s[|Wire.START|..][|Wire.Concat(lines)| + |Wire.END|..] == following
  {
    var body := Wire.Concat(lines) + Wire.END + following;
    var s := Wire.START + Wire.Concat(lines) + Wire.END + following;
    assert s == Wire.START + body;
    LiteralLine(Wire.START);
    Wire.NextLineOfLine(Wire.START, body);
    assert s[|Wire.START|..] == body;
    Wire.ScanWellFormedBlock(lines, following);
    assert body[|Wire.Concat(lines)| + |Wire.END|..] == following;
  }
}
