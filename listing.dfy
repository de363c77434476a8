/** The list command: `list [<prefix>]`, answered by a block of lines between
    `START` and `END`, one line per set: its name, error threshold, precision,
    estimated size and storage, separated by spaces. */
module Listing {
  import opened Wrappers
  import opened Text
  import opened Protocol
  import Wire

  /** One set of a list response. The threshold is kept as the decimal text
      the server sent. */
  datatype ListEntry = ListEntry(name: string, errThreshold: string, precision: int64, size: uint64, storage: uint64)

  /** What list does with its first line and the block after it. */
  ghost predicate ListDecoded(before: string, after: string, oldLines: seq<string>, newLines: seq<string>,
                              oldDone: bool, newDone: bool, o: Outcome<Error>)
  {
    match Wire.NextLine(before)
    case None => o == Fail(ReadFailed) && after == [] && newLines == oldLines && newDone == oldDone
    case Some(first) =>
      if first != Wire.START then
        o == Fail(ExpectListStart) && before == first + after && newLines == oldLines && newDone == oldDone
      else
        BlockDecoded(before[|first|..], after, oldLines, newLines, oldDone, newDone, o)
  }

  class ListCommand {
    /** Only sets whose name starts with the prefix are listed; empty for all. */
    var prefix: string
    /** The body lines read so far, each with its newline. */
    var lines: seq<string>
    /** Whether the `END` line has been read. */
    var done: bool

    constructor (p: string)
      ensures prefix == p && lines == [] && !done
    {
      prefix, lines, done := p, [], false;
    }

    function Fields(): seq<string>
      reads this
    {
      ["list"] + (if prefix != "" then [prefix] else [])
    }

    function Encode(): (line: string)
      reads this
      ensures |line| > 0 && line[|line| - 1] == '\n'
    {
      "list" + (if prefix != "" then " " + prefix else "") + "\n"
    }

    /** Reads `START`, then the body lines through `END`. */
    method Decode(r: Wire.LineReader) returns (o: Outcome<Error>)
      modifies this`lines, this`done, r
      ensures ListDecoded(old(r.unread), r.unread, old(lines), lines, old(done), done, o)
    {
      var first := r.ReadLine();
      if first.None? {
        return Fail(ReadFailed);
      }
      if first.value != Wire.START {
        return Fail(ExpectListStart);
      }
      var body, ended := r.ReadBlock();
      lines := lines + body;
      if !ended {
        return Fail(ReadFailed);
      }
      done := true;
      return Pass;
    }

    /** One entry per stored line, in order, or the first line that does not
        read as an entry. */
    method Result() returns (r: Result<seq<ListEntry>, Error>)
      ensures !done ==> r == Err(NotDecoded)
      ensures done ==> (r.Ok? <==> forall i :: 0 <= i < |lines| ==> ParseListEntry(lines[i]).Some?)
      ensures r.Ok? ==> |r.value| == |lines| && forall i :: 0 <= i < |lines| ==> ParseListEntry(lines[i]) == Some(r.value[i])
      ensures done && r.Err? ==>
        exists i :: 0 <= i < |lines| && ParseListEntry(lines[i]).None? && r.error == ParseFailure(lines[i]) &&
                    forall j :: 0 <= j < i ==> ParseListEntry(lines[j]).Some?
    {
      if !done {
        return Err(NotDecoded);
      }
      r := ParseEach(ParseListEntry, lines);
    }
  }

  /** The loop of Result: each line parsed in order, stopping at the first
      that does not parse. */
  method ParseEach<T>(parse: string -> Option<T>, lines: seq<string>) returns (r: Result<seq<T>, Error>)
    ensures r.Ok? <==> forall i :: 0 <= i < |lines| ==> parse(lines[i]).Some?
    ensures r.Ok? ==> |r.value| == |lines| && forall i :: 0 <= i < |lines| ==> parse(lines[i]) == Some(r.value[i])
    ensures r.Err? ==>
      exists i :: 0 <= i < |lines| && parse(lines[i]).None? && r.error == ParseFailure(lines[i]) &&
                  forall j :: 0 <= j < i ==> parse(lines[j]).Some?
  {
    var out: seq<T> := [];
    var i := 0;
    while i < |lines|
      invariant 0 <= i <= |lines| && |out| == i
      invariant forall j :: 0 <= j < i ==> parse(lines[j]) == Some(out[j])
    {
      var entry := parse(lines[i]);
      if entry.None? {
        return Err(ParseFailure(lines[i]));
      }
      out := out + [entry.value];
      i := i + 1;
    }
    return Ok(out);
  }

  /** An empty prefix lists every set; otherwise it must be a valid word. */
  method NewListCommand(prefix: string) returns (r: Result<ListCommand, Error>)
    ensures r.Ok? <==> prefix == "" || ValidWord(prefix)
    ensures r.Err? ==> r.error == InvalidPrefix
    ensures r.Ok? ==> fresh(r.value) && r.value.prefix == prefix && r.value.lines == [] && !r.value.done
  {
    if prefix != "" && !ValidWord(prefix) {
      return Err(InvalidPrefix);
    }
    var cmd := new ListCommand(prefix);
    return Ok(cmd);
  }

  /** `list` alone, or `list <prefix>`, on one line. */
  lemma ListRequest(c: ListCommand)
    requires c.prefix == "" || ValidWord(c.prefix)
    ensures c.Encode() == RequestLine(c.Fields())
    ensures ParseRequestLine(c.Encode()) == Some(c.Fields())
  {
    Verbs();
    if c.prefix != "" { WordIsField(c.prefix); }
    OptionalArgRequest("list", c.prefix);
  }

  // -----------------------------------------------------------------------
  // Entries
  // -----------------------------------------------------------------------

  /** `%s %f %d %d %d\n`: five fields separated by single spaces, the name
      non-empty, the threshold a decimal number, the precision a signed and
      the size and storage unsigned 64-bit integers. */
  function ParseListEntry(line: string): Option<ListEntry>
  {
    var f := Split(LineText(line));
    if |f| == 5 && f[0] != "" && NoSpace(f[0]) && IsDecimal(f[1]) then
      match (ParseInt(f[2]), ParseUint(f[3]), ParseUint(f[4]))
      case (Some(precision), Some(size), Some(storage)) => Some(ListEntry(f[0], f[1], precision, size, storage))
      case _ => None
    else None
  }

  /** An entry the server can send: a name that is one field, and a decimal
      threshold. */
  predicate WellFormedEntry(e: ListEntry)
  {
    e.name != "" && FieldText(e.name) && IsDecimal(e.errThreshold)
  }

  /** The server's line for one set. */
  function FormatListEntry(e: ListEntry): string
  {
    Join(EntryFields(e)) + "\n"
  }

  function EntryFields(e: ListEntry): seq<string>
  {
    [e.name, e.errThreshold, FormatInt(e.precision), FormatUint(e.size), FormatUint(e.storage)]
  }

  /** A well-formed entry written as the server writes it is one line, and
      it reads back as the same entry. */
  lemma ListEntryRoundTrip(e: ListEntry)
    requires WellFormedEntry(e)
    ensures Wire.IsLine(FormatListEntry(e))
    ensures ParseListEntry(FormatListEntry(e)) == Some(e)
  {
    var fields := EntryFields(e);
    DecimalIsToken(e.errThreshold);
    UintIsField(e.size);
    UintIsField(e.storage);
    RequestLineRoundTrip(fields);
    assert FormatListEntry(e) == RequestLine(fields);
    ParseIntOfFormat(e.precision);
    ParseUintOfFormat(e.size);
    ParseUintOfFormat(e.storage);
  }

  lemma UintIsField(n: nat)
    ensures FieldText(FormatUint(n))
  {
    var s := FormatUint(n);
    forall i | 0 <= i < |s| ensures s[i] != ' ' && s[i] != '\n' {
      assert IsDigit(s[i]);
    }
  }

  // -----------------------------------------------------------------------
  // A whole response
  // -----------------------------------------------------------------------

  /** The server's lines for the given entries, in order. */
  function FormatEntries(entries: seq<ListEntry>): (lines: seq<string>)
    ensures |lines| == |entries|
    ensures forall i :: 0 <= i < |entries| ==> lines[i] == FormatListEntry(entries[i])
  {
    if entries == [] then [] else [FormatListEntry(entries[0])] + FormatEntries(entries[1..])
  }

  /** An entry's line is never the `END` line: that has one field, not five. */
  lemma EntryLine(e: ListEntry)
    requires WellFormedEntry(e)
    ensures Wire.IsLine(FormatListEntry(e)) && FormatListEntry(e) != Wire.END
    ensures ParseListEntry(FormatListEntry(e)) == Some(e)
  {
    ListEntryRoundTrip(e);
    assert ParseListEntry(Wire.END).None? by {
      assert LineText(Wire.END) == "END";
      SplitField("END", "");
    }
  }

  /** The body of a list response for well-formed entries. */
  lemma EntryLines(entries: seq<ListEntry>)
    requires forall i :: 0 <= i < |entries| ==> WellFormedEntry(entries[i])
    ensures forall i :: 0 <= i < |entries| ==>
      var l := FormatEntries(entries)[i];
      Wire.IsLine(l) && l != Wire.END && ParseListEntry(l) == Some(entries[i])
  {
    forall i | 0 <= i < |entries|
      ensures var l := FormatEntries(entries)[i];
        Wire.IsLine(l) && l != Wire.END && ParseListEntry(l) == Some(entries[i])
    {
      EntryLine(entries[i]);
    }
  }

  /** A list response for well-formed entries opens with `START`, its body is
      scanned to exactly the entries' lines and the `END` after them, and
      every body line reads back as its entry. */
  lemma ListResponse(entries: seq<ListEntry>, following: string)
    requires forall i :: 0 <= i < |entries| ==> WellFormedEntry(entries[i])
    ensures var lines := FormatEntries(entries);
      var s := Wire.START + Wire.Concat(lines) + Wire.END + following;
      && Wire.NextLine(s) == Some(Wire.START)
      && Wire.ScanBlock(s[|Wire.START|..]) == Wire.Ended(lines, |Wire.Concat(lines)| + |Wire.END|)
      && s[|Wire.START|..][|Wire.Concat(lines)| + |Wire.END|..] == following
  {
    EntryLines(entries);
    BlockResponse(FormatEntries(entries), following);
  }

  /** For a valid prefix and well-formed entries, decoding the server's list
      response gives exactly those entries, in order, and leaves what follows
      the `END` line unread. */
  method ListRoundTrip(prefix: string, entries: seq<ListEntry>, following: string)
    returns (decoded: Outcome<Error>, listed: Result<seq<ListEntry>, Error>, left: string)
    requires prefix == "" || ValidWord(prefix)
    requires forall i :: 0 <= i < |entries| ==> WellFormedEntry(entries[i])
    ensures decoded == Pass && listed == Ok(entries) && left == following
  {
    var cmd;
    cmd, decoded, left := DecodeListResponse(prefix, entries, following);
    EntryLines(entries);
    listed := cmd.Result();
    assert listed.value == entries;
  }

  /** Decoding the server's list response stores its entry lines, marks the
      command done, and stops after the `END` line. */
  method DecodeListResponse(prefix: string, entries: seq<ListEntry>, following: string)
    returns (cmd: ListCommand, decoded: Outcome<Error>, left: string)
    requires prefix == "" || ValidWord(prefix)
    requires forall i :: 0 <= i < |entries| ==> WellFormedEntry(entries[i])
    ensures decoded == Pass && cmd.done && cmd.lines == FormatEntries(entries) && left == following
  {
    var made := NewListCommand(prefix);
    cmd := made.value;
    ListResponse(entries, following);
    var lines := FormatEntries(entries);
    var r := new Wire.LineReader(Wire.START + Wire.Concat(lines) + Wire.END + following);
    decoded := cmd.Decode(r);
    assert cmd.lines == lines;
    left := r.unread;
  }

  /** The five fields of an entry line, joined. */
  lemma JoinFive(a: string, b: string, c: string, d: string, e: string)
    ensures Join([a, b, c, d, e]) == a + " " + b + " " + c + " " + d + " " + e
  {
    assert [a, b, c, d, e][1..] == [b, c, d, e];
    assert [b, c, d, e][1..] == [c, d, e];
    assert [c, d, e][1..] == [d, e];
    assert [d, e][1..] == [e];
    assert Join([d, e]) == d + " " + e;
    assert Join([c, d, e]) == c + " " + (d + " " + e);
    assert Join([b, c, d, e]) == b + " " + (c + " " + (d + " " + e));
  }

  /** The numbers of the first entry of the package's list test, in decimal. */
  lemma FooNumbers(precision: int64, size: uint64, storage: uint64)
    requires precision == 14 && size == 13108 && storage == 0
    ensures FormatInt(precision) == "14" && FormatUint(size) == "13108" && FormatUint(storage) == "0"
  {
    assert FormatUint(14) == "14";
    assert FormatUint(13108) == "13108";
  }

  /** The numbers of the second entry of the package's list test, in decimal. */
  lemma BazNumbers(precision: int64, size: uint64, storage: uint64)
    requires precision == 16 && size == 18000 && storage == 50
    ensures FormatInt(precision) == "16" && FormatUint(size) == "18000" && FormatUint(storage) == "50"
  {
    assert FormatUint(16) == "16";
    assert FormatUint(18000) == "18000";
  }

  /** The first line of the list response in the package's tests. */
  lemma FooLine(e: ListEntry)
    requires e == ListEntry("foo", "0.010000", 14, 13108, 0)
    ensures FormatListEntry(e) == "foo 0.010000 14 13108 0\n"
  {
    FooNumbers(e.precision, e.size, e.storage);
    assert EntryFields(e) == ["foo", "0.010000", "14", "13108", "0"];
    JoinFive("foo", "0.010000", "14", "13108", "0");
    assert FormatListEntry(e) == Join(["foo", "0.010000", "14", "13108", "0"]) + "\n";
    FooText();
  }

  lemma FooText()
    ensures "foo" + " " + "0.010000" + " " + "14" + " " + "13108" + " " + "0" + "\n" == "foo 0.010000 14 13108 0\n"
  {
  }

  /** The second line of the list response in the package's tests. */
  lemma BazLine(e: ListEntry)
    requires e == ListEntry("baz", "0.005000", 16, 18000, 50)
    ensures FormatListEntry(e) == "baz 0.005000 16 18000 50\n"
  {
    BazNumbers(e.precision, e.size, e.storage);
    assert EntryFields(e) == ["baz", "0.005000", "16", "18000", "50"];
    JoinFive("baz", "0.005000", "16", "18000", "50");
    assert FormatListEntry(e) == Join(["baz", "0.005000", "16", "18000", "50"]) + "\n";
    BazText();
  }

  lemma BazText()
    ensures "baz" + " " + "0.005000" + " " + "16" + " " + "18000" + " " + "50" + "\n" == "baz 0.005000 16 18000 50\n"
  {
  }

  /** The list request of the package's tests: a prefix with a space is
      refused, and `foo` encodes to `list foo`. */
  method ListRequestExample() returns (refused: bool, line: string)
    ensures refused
    ensures line == "list foo\n"
  {
    assert "foo 123"[3] == ' ';
    var bad := NewListCommand("foo 123");
    refused := bad.Err?;
    var made := NewListCommand("foo");
    line := made.value.Encode();
  }

  /** The list response of the package's tests decodes to its two entries,
      in order. */
  method ListResponseExample() returns (listed: Result<seq<ListEntry>, Error>)
    ensures listed == Ok([ListEntry("foo", "0.010000", 14, 13108, 0), ListEntry("baz", "0.005000", 16, 18000, 50)])
  {
    var foo := ListEntry("foo", "0.010000", 14, 13108, 0);
    var baz := ListEntry("baz", "0.005000", 16, 18000, 50);
    ExampleEntries(foo, baz);
    ValidWordCases();
    var _, result, _ := ListRoundTrip("foo", [foo, baz], "");
    listed := result;
  }

  /** The two entries of the package's list test are well formed, and the
      server writes them as the test's response lines. */
  lemma ExampleEntries(foo: ListEntry, baz: ListEntry)
    requires foo == ListEntry("foo", "0.010000", 14, 13108, 0)
    requires baz == ListEntry("baz", "0.005000", 16, 18000, 50)
    ensures WellFormedEntry(foo) && WellFormedEntry(baz)
    ensures Wire.Concat(FormatEntries([foo, baz])) == "foo 0.010000 14 13108 0\n" + "baz 0.005000 16 18000 50\n"
  {
    FooLine(foo);
    BazLine(baz);
    ExampleNames(foo.name, baz.name);
    ExampleThresholds(foo.errThreshold, baz.errThreshold);
    var x, y := FormatListEntry(foo), FormatListEntry(baz);
    assert FormatEntries([foo, baz]) == [x, y];
    assert Wire.Concat([y]) == y + Wire.Concat([]);
    assert Wire.Concat([x, y]) == x + y;
  }

  /** The set names of the package's list test are valid fields. */
  lemma ExampleNames(a: string, b: string)
    requires a == "foo" && b == "baz"
    ensures a != "" && FieldText(a) && b != "" && FieldText(b)
  {
  }

  /** The thresholds of the package's list test are decimal tokens. */
  lemma ExampleThresholds(a: string, b: string)
    requires a == "0.010000" && b == "0.005000"
    ensures IsDecimal(a) && IsDecimal(b)
  {
    DecimalPieces(false, "0", "010000");
    assert "" + "0" + "." + "010000" == a;
    DecimalPieces(false, "0", "005000");
    assert "" + "0" + "." + "005000" == b;
  }
}
