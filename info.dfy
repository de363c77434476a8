/** The info command: `info <name>`, answered either by the single line
    `Set does not exist` or by a block of `<key> <value>` lines between
    `START` and `END` describing the set. */
module Info {
  import opened Wrappers
  import opened Text
  import opened Protocol
  import Wire

  /** What is known about one set. The threshold is kept as the decimal text
      the server sent. */
  datatype SetInfo = SetInfo(
    inMemory: bool,
    pageIns: uint64,
    pageOuts: uint64,
    errThreshold: string,
    precision: uint64,
    sets: uint64,
    size: uint64,
    storage: uint64)

  /** The value every field has before any line is read. */
  const NO_INFO := SetInfo(false, 0, 0, "0", 0, 0, 0, 0)

  /** What info does with its first line and, after `START`, the block. */
  ghost predicate InfoDecoded(before: string, after: string, oldLines: seq<string>, newLines: seq<string>,
                              oldDone: bool, newDone: bool, oldNotExist: bool, newNotExist: bool, o: Outcome<Error>)
  {
    match Wire.NextLine(before)
    case None =>
      o == Fail(ReadFailed) && after == [] && newLines == oldLines && newDone == oldDone && newNotExist == oldNotExist
    case Some(first) =>
      if first == SET_DOES_NOT_EXIST then
        o == Pass && before == first + after && newLines == oldLines && newDone && newNotExist
      else if first == Wire.START then
        !newNotExist && BlockDecoded(before[|first|..], after, oldLines, newLines, oldDone, newDone, o)
      else
        o == Fail(InvalidResponse(first)) && before == first + after
        && newLines == oldLines && newDone == oldDone && newNotExist == oldNotExist
  }

  class InfoCommand {
    var setName: string
    /** The body lines read so far, each with its newline. */
    var lines: seq<string>
    /** Whether the response has been read to its end. */
    var done: bool
    /** Whether the server answered that the set does not exist. */
    var notExist: bool

    constructor (name: string)
      ensures setName == name && lines == [] && !done && !notExist
    {
      setName, lines, done, notExist := name, [], false, false;
    }

    function Fields(): seq<string>
      reads this
    {
      ["info", setName]
    }

    function Encode(): (line: string)
      reads this
      ensures |line| > 0 && line[|line| - 1] == '\n'
    {
      "info " + setName + "\n"
    }

    /** Reads `Set does not exist`, or `START` and the body lines through `END`. */
    method Decode(r: Wire.LineReader) returns (o: Outcome<Error>)
      modifies this`lines, this`done, this`notExist, r
      ensures InfoDecoded(old(r.unread), r.unread, old(lines), lines, old(done), done, old(notExist), notExist, o)
    {
      var first := r.ReadLine();
      if first.None? {
        return Fail(ReadFailed);
      }
      if first.value == SET_DOES_NOT_EXIST {
        done := true;
        notExist := true;
        return Pass;
      }
      if first.value != Wire.START {
        return Fail(InvalidResponse(first.value));
      }
      notExist := false;
      var body, ended := r.ReadBlock();
      lines := lines + body;
      if !ended {
        return Fail(ReadFailed);
      }
      done := true;
      return Pass;
    }

    /** Nothing before the response is read; no information for a missing
        set; otherwise the stored lines applied in order to NO_INFO. */
    method Result() returns (r: Result<Option<SetInfo>, Error>)
      ensures !done ==> r == Err(NotDecoded)
      ensures done && notExist ==> r == Ok(None)
      ensures done && !notExist ==>
        match ParseInfoLines(NO_INFO, lines)
        case Ok(info) => r == Ok(Some(info))
        case Err(e) => r == Err(e)
    {
      if !done {
        return Err(NotDecoded);
      }
      if notExist {
        return Ok(None);
      }
      var info := NO_INFO;
      var i := 0;
      while i < |lines|
        invariant 0 <= i <= |lines|
        invariant ParseInfoLines(NO_INFO, lines) == ParseInfoLines(info, lines[i..])
      {
        assert lines[i..][1..] == lines[i + 1..];
        var next := ApplyInfoLine(info, lines[i]);
        if next.Err? {
          return Err(next.error);
        }
        info := next.value;
        i := i + 1;
      }
      return Ok(Some(info));
    }
  }

  method NewInfoCommand(name: string) returns (r: Result<InfoCommand, Error>)
    ensures r.Ok? <==> ValidWord(name)
    ensures r.Err? ==> r.error == InvalidSetName
    ensures r.Ok? ==> fresh(r.value) && r.value.setName == name && r.value.lines == []
    ensures r.Ok? ==> !r.value.done && !r.value.notExist
  {
    if !ValidWord(name) {
      return Err(InvalidSetName);
    }
    var cmd := new InfoCommand(name);
    return Ok(cmd);
  }

  /** `info <name>` on one line; reading it back gives the verb and name. */
  lemma InfoRequest(c: InfoCommand)
    requires ValidWord(c.setName)
    ensures c.Encode() == RequestLine(c.Fields())
    ensures ParseRequestLine(c.Encode()) == Some(c.Fields())
  {
    Verbs();
    WordIsField(c.setName);
    TwoFieldRequest("info", c.setName);
  }

  // -----------------------------------------------------------------------
  // Body lines
  // -----------------------------------------------------------------------

  /** The value of a line: what lies between a fixed offset and the final
      character. A line too short for that slice is a Go runtime panic. */
  function ValueText(line: string, offset: nat): (r: Result<string, Error>)
    ensures r.Err? <==> |line| < offset + 1
    ensures r.Err? ==> r.error == IndexOutOfRange(line)
    ensures r.Ok? ==> line == line[..offset] + r.value + [line[|line| - 1]]
  {
    if |line| < offset + 1 then Err(IndexOutOfRange(line)) else Ok(line[offset..|line| - 1])
  }

  /** An unsigned value read at a fixed offset. */
  function UintAt(line: string, offset: nat): Result<uint64, Error>
  {
    match ValueText(line, offset)
    case Err(e) => Err(e)
    case Ok(t) => if ParseUint(t).Some? then Ok(ParseUint(t).value) else Err(ParseFailure(line))
  }

  /** One body line applied to what is known so far: the key is recognised by
      its prefix, in this order, and its value read at the key's fixed offset. */
  function ApplyInfoLine(info: SetInfo, line: string): Result<SetInfo, Error>
  {
    if "in_memory" <= line then
      if |line| <= 10 then Err(IndexOutOfRange(line)) else Ok(info.(inMemory := line[10] == '1'))
    else if "page_ins" <= line then
      match UintAt(line, 9) case Err(e) => Err(e) case Ok(n) => Ok(info.(pageIns := n))
    else if "page_outs" <= line then
      match UintAt(line, 10) case Err(e) => Err(e) case Ok(n) => Ok(info.(pageOuts := n))
    else if "eps" <= line then
      match ValueText(line, 4)
      case Err(e) => Err(e)
      case Ok(t) => if IsDecimal(t) then Ok(info.(errThreshold := t)) else Err(ParseFailure(line))
    else if "precision" <= line then
      match UintAt(line, 10) case Err(e) => Err(e) case Ok(n) => Ok(info.(precision := n))
    else if "sets" <= line then
      match UintAt(line, 5) case Err(e) => Err(e) case Ok(n) => Ok(info.(sets := n))
    else if "size" <= line then
      match UintAt(line, 5) case Err(e) => Err(e) case Ok(n) => Ok(info.(size := n))
    else if "storage" <= line then
      match UintAt(line, 8) case Err(e) => Err(e) case Ok(n) => Ok(info.(storage := n))
    else Err(ParseFailure(line))
  }

  /** The lines applied in order; the first line that fails decides the error. */
  function ParseInfoLines(info: SetInfo, lines: seq<string>): Result<SetInfo, Error>
    decreases |lines|
  {
    if lines == [] then Ok(info)
    else match ApplyInfoLine(info, lines[0])
      case Err(e) => Err(e)
      case Ok(next) => ParseInfoLines(next, lines[1..])
  }

  // -----------------------------------------------------------------------
  // Properties of the body
  // -----------------------------------------------------------------------

  /** Whether a line is accepted, and the error if it is not, depend on the
      line alone and not on what was read before it. */
  lemma ApplyDependsOnLine(a: SetInfo, b: SetInfo, line: string)
    ensures ApplyInfoLine(a, line).Ok? == ApplyInfoLine(b, line).Ok?
    ensures ApplyInfoLine(a, line).Err? ==> ApplyInfoLine(a, line).error == ApplyInfoLine(b, line).error
  {
  }

  /** The body is accepted exactly when every line is; otherwise the error is
      that of the first line refused. */
  lemma {:induction false} InfoLinesResult(info: SetInfo, lines: seq<string>)
    ensures ParseInfoLines(info, lines).Ok? <==> forall i :: 0 <= i < |lines| ==> ApplyInfoLine(NO_INFO, lines[i]).Ok?
    ensures ParseInfoLines(info, lines).Err? ==>
      exists i :: 0 <= i < |lines| && ApplyInfoLine(NO_INFO, lines[i]).Err? &&
                  ParseInfoLines(info, lines).error == ApplyInfoLine(NO_INFO, lines[i]).error &&
                  forall j :: 0 <= j < i ==> ApplyInfoLine(NO_INFO, lines[j]).Ok?
    decreases |lines|
  {
    if lines != [] {
      ApplyDependsOnLine(info, NO_INFO, lines[0]);
      var step := ApplyInfoLine(info, lines[0]);
      if step.Ok? {
        InfoLinesResult(step.value, lines[1..]);
        if ParseInfoLines(info, lines).Err? {
          var k :| 0 <= k < |lines[1..]| && ApplyInfoLine(NO_INFO, lines[1..][k]).Err? &&
                   ParseInfoLines(step.value, lines[1..]).error == ApplyInfoLine(NO_INFO, lines[1..][k]).error &&
                   forall j :: 0 <= j < k ==> ApplyInfoLine(NO_INFO, lines[1..][j]).Ok?;
          assert lines[k + 1] == lines[1..][k];
          forall j | 0 <= j < k + 1 ensures ApplyInfoLine(NO_INFO, lines[j]).Ok? {
            if j > 0 { assert lines[j] == lines[1..][j - 1]; }
          }
        } else {
          forall i | 0 <= i < |lines| ensures ApplyInfoLine(NO_INFO, lines[i]).Ok? {
            if i > 0 { assert lines[i] == lines[1..][i - 1]; }
          }
        }
      }
    }
  }

  /** One `<key> <value>` body line. */
  function InfoLine(key: string, value: string): string
  {
    key + " " + value + "\n"
  }

  /** The body the server sends for a set: every key once, in the order of
      the record's fields. */
  function FormatInfoLines(info: SetInfo): seq<string>
  {
    [ InfoLine("in_memory", if info.inMemory then "1" else "0"),
      InfoLine("page_ins", FormatUint(info.pageIns)),
      InfoLine("page_outs", FormatUint(info.pageOuts)),
      InfoLine("eps", info.errThreshold),
      InfoLine("precision", FormatUint(info.precision)),
      InfoLine("sets", FormatUint(info.sets)),
      InfoLine("size", FormatUint(info.size)),
      InfoLine("storage", FormatUint(info.storage)) ]
  }

  /** The value of a body line is found right after its key and the space. */
  lemma ValueOfLine(key: string, value: string)
    ensures key <= InfoLine(key, value)
    ensures ValueText(InfoLine(key, value), |key| + 1) == Ok(value)
  {
    var line := InfoLine(key, value);
    assert line[..|key|] == key;
    assert line[|key| + 1..|line| - 1] == value;
  }

  /** An unsigned value written in decimal after its key reads back. */
  lemma UintOfLine(key: string, n: uint64)
    ensures UintAt(InfoLine(key, FormatUint(n)), |key| + 1) == Ok(n)
  {
    ValueOfLine(key, FormatUint(n));
    ParseUintOfFormat(n);
  }

  lemma InMemoryLine(x: SetInfo, b: bool)
    ensures ApplyInfoLine(x, InfoLine("in_memory", if b then "1" else "0")) == Ok(x.(inMemory := b))
  {
    ValueOfLine("in_memory", if b then "1" else "0");
  }

  lemma PageInsLine(x: SetInfo, n: uint64)
    ensures ApplyInfoLine(x, InfoLine("page_ins", FormatUint(n))) == Ok(x.(pageIns := n))
  {
    UintOfLine("page_ins", n);
    var line := InfoLine("page_ins", FormatUint(n));
    assert line[0] == 'p';
    NotPrefix("in_memory", line, 0);
  }

  lemma PageOutsLine(x: SetInfo, n: uint64)
    ensures ApplyInfoLine(x, InfoLine("page_outs", FormatUint(n))) == Ok(x.(pageOuts := n))
  {
    UintOfLine("page_outs", n);
    var line := InfoLine("page_outs", FormatUint(n));
    assert line[0] == 'p' && line[5] == 'o';
    NotPrefix("in_memory", line, 0);
    NotPrefix("page_ins", line, 5);
  }

  lemma EpsLine(x: SetInfo, t: string)
    requires IsDecimal(t)
    ensures ApplyInfoLine(x, InfoLine("eps", t)) == Ok(x.(errThreshold := t))
  {
    ValueOfLine("eps", t);
    var line := InfoLine("eps", t);
    assert line[0] == 'e';
    NotPrefix("in_memory", line, 0);
    NotPrefix("page_ins", line, 0);
    NotPrefix("page_outs", line, 0);
  }

  lemma PrecisionLine(x: SetInfo, n: uint64)
    ensures ApplyInfoLine(x, InfoLine("precision", FormatUint(n))) == Ok(x.(precision := n))
  {
    UintOfLine("precision", n);
    var line := InfoLine("precision", FormatUint(n));
    assert line[0] == 'p' && line[1] == 'r';
    NotPrefix("in_memory", line, 0);
    NotPrefix("page_ins", line, 1);
    NotPrefix("page_outs", line, 1);
    NotPrefix("eps", line, 0);
  }

  lemma SetsLine(x: SetInfo, n: uint64)
    ensures ApplyInfoLine(x, InfoLine("sets", FormatUint(n))) == Ok(x.(sets := n))
  {
    UintOfLine("sets", n);
    var line := InfoLine("sets", FormatUint(n));
    assert line[0] == 's';
    NotPrefix("in_memory", line, 0);
    NotPrefix("page_ins", line, 0);
    NotPrefix("page_outs", line, 0);
    NotPrefix("eps", line, 0);
    NotPrefix("precision", line, 0);
  }

  lemma SizeLine(x: SetInfo, n: uint64)
    ensures ApplyInfoLine(x, InfoLine("size", FormatUint(n))) == Ok(x.(size := n))
  {
    UintOfLine("size", n);
    var line := InfoLine("size", FormatUint(n));
    assert line[0] == 's' && line[1] == 'i';
    NotPrefix("in_memory", line, 0);
    NotPrefix("page_ins", line, 0);
    NotPrefix("page_outs", line, 0);
    NotPrefix("eps", line, 0);
    NotPrefix("precision", line, 0);
    NotPrefix("sets", line, 1);
  }

  lemma StorageLine(x: SetInfo, n: uint64)
    ensures ApplyInfoLine(x, InfoLine("storage", FormatUint(n))) == Ok(x.(storage := n))
  {
    UintOfLine("storage", n);
    var line := InfoLine("storage", FormatUint(n));
    assert line[0] == 's' && line[1] == 't';
    NotPrefix("in_memory", line, 0);
    NotPrefix("page_ins", line, 0);
    NotPrefix("page_outs", line, 0);
    NotPrefix("eps", line, 0);
    NotPrefix("precision", line, 0);
    NotPrefix("sets", line, 1);
    NotPrefix("size", line, 1);
  }

  /** A body line that starts with none of the eight keys is refused. */
  lemma UnknownKeyRefused(x: SetInfo, line: string)
    requires !("in_memory" <= line) && !("page_ins" <= line) && !("page_outs" <= line) && !("eps" <= line)
    requires !("precision" <= line) && !("sets" <= line) && !("size" <= line) && !("storage" <= line)
    ensures ApplyInfoLine(x, line) == Err(ParseFailure(line))
  {
  }

  /** A count line whose value `strconv.ParseUint` refuses is refused as a
      whole, whatever was known before. */
  lemma BadCountRefused(x: SetInfo, key: string, v: string)
    requires key == "page_ins" || key == "page_outs" || key == "precision"
          || key == "sets" || key == "size" || key == "storage"
    requires ParseUint(v).None?
    ensures ApplyInfoLine(x, InfoLine(key, v)) == Err(ParseFailure(InfoLine(key, v)))
  {
    ValueOfLine(key, v);
    var line := InfoLine(key, v);
    assert UintAt(line, |key| + 1) == Err(ParseFailure(line));
    if key == "page_ins" || key == "page_outs" || key == "precision" {
      PageKeyChosen(x, key, v);
    } else {
      SetsKeyChosen(x, key, v);
    }
  }

  /** A `page_ins`, `page_outs` or `precision` line takes its key's branch. */
  lemma PageKeyChosen(x: SetInfo, key: string, v: string)
    requires key == "page_ins" || key == "page_outs" || key == "precision"
    ensures ApplyInfoLine(x, InfoLine(key, v))
         == match UintAt(InfoLine(key, v), |key| + 1)
            case Err(e) => Err(e)
            case Ok(n) => Ok(if key == "page_ins" then x.(pageIns := n)
                             else if key == "page_outs" then x.(pageOuts := n) else x.(precision := n))
  {
    ValueOfLine(key, v);
    var line := InfoLine(key, v);
    if key == "page_ins" {
      assert line[0] == 'p';
      NotPrefix("in_memory", line, 0);
    } else if key == "page_outs" {
      assert line[0] == 'p' && line[5] == 'o';
      NotPrefix("in_memory", line, 0);
      NotPrefix("page_ins", line, 5);
    } else {
      assert line[0] == 'p' && line[1] == 'r';
      NotPrefix("in_memory", line, 0);
      NotPrefix("page_ins", line, 1);
      NotPrefix("page_outs", line, 1);
      NotPrefix("eps", line, 0);
    }
  }

  /** A `sets`, `size` or `storage` line takes its key's branch. */
  lemma SetsKeyChosen(x: SetInfo, key: string, v: string)
    requires key == "sets" || key == "size" || key == "storage"
    ensures ApplyInfoLine(x, InfoLine(key, v))
         == match UintAt(InfoLine(key, v), |key| + 1)
            case Err(e) => Err(e)
            case Ok(n) => Ok(if key == "sets" then x.(sets := n)
                             else if key == "size" then x.(size := n) else x.(storage := n))
  {
    ValueOfLine(key, v);
    var line := InfoLine(key, v);
    assert line[0] == 's';
    NotPrefix("in_memory", line, 0);
    NotPrefix("page_ins", line, 0);
    NotPrefix("page_outs", line, 0);
    NotPrefix("eps", line, 0);
    NotPrefix("precision", line, 0);
    if key != "sets" {
      assert line[1] == key[1] && key[1] != 'e';
      NotPrefix("sets", line, 1);
    }
    if key == "storage" {
      assert line[1] == 't';
      NotPrefix("size", line, 1);
    }
  }

  /** An `eps` line whose value is not a decimal number is refused. */
  lemma BadThresholdRefused(x: SetInfo, v: string)
    requires !IsDecimal(v)
    ensures ApplyInfoLine(x, InfoLine("eps", v)) == Err(ParseFailure(InfoLine("eps", v)))
  {
    ValueOfLine("eps", v);
    var line := InfoLine("eps", v);
    assert line[0] == 'e';
    NotPrefix("in_memory", line, 0);
    NotPrefix("page_ins", line, 0);
    NotPrefix("page_outs", line, 0);
  }

  /** A line whose i-th character differs from a key's does not start with
      that key. */
  lemma NotPrefix(key: string, line: string, i: nat)
    requires i < |key| && i < |line| && key[i] != line[i]
    ensures !(key <= line)
  {
  }

  /** Applying the lines from the k-th on is applying the k-th, then the rest. */
  lemma ParseAt(x: SetInfo, lines: seq<string>, k: nat, next: SetInfo)
    requires k < |lines| && ApplyInfoLine(x, lines[k]) == Ok(next)
    ensures ParseInfoLines(x, lines[k..]) == ParseInfoLines(next, lines[k + 1..])
  {
    assert lines[k..][0] == lines[k] && lines[k..][1..] == lines[k + 1..];
  }

  /** The body the server sends for a set reads back as that set's
      information, whatever was known before, as long as its threshold is a
      decimal number. */
  lemma InfoBodyRoundTrip(x: SetInfo, info: SetInfo)
    requires IsDecimal(info.errThreshold)
    ensures ParseInfoLines(x, FormatInfoLines(info)) == Ok(info)
  {
    var x4 := x.(inMemory := info.inMemory, pageIns := info.pageIns, pageOuts := info.pageOuts,
                 errThreshold := info.errThreshold);
    InfoBodyFront(x, info);
    InfoBodyBack(x4, info);
    assert x4.(precision := info.precision, sets := info.sets, size := info.size, storage := info.storage) == info;
  }

  /** The first four body lines set in_memory, page_ins, page_outs and eps. */
  lemma InfoBodyFront(x: SetInfo, info: SetInfo)
    requires IsDecimal(info.errThreshold)
    ensures ParseInfoLines(x, FormatInfoLines(info))
         == ParseInfoLines(x.(inMemory := info.inMemory, pageIns := info.pageIns, pageOuts := info.pageOuts,
                              errThreshold := info.errThreshold), FormatInfoLines(info)[4..])
  {
    var lines := FormatInfoLines(info);
    assert lines[0..] == lines;
    var x1 := x.(inMemory := info.inMemory);
    InMemoryLine(x, info.inMemory);
    ParseAt(x, lines, 0, x1);
    var x2 := x1.(pageIns := info.pageIns);
    PageInsLine(x1, info.pageIns);
    ParseAt(x1, lines, 1, x2);
    var x3 := x2.(pageOuts := info.pageOuts);
    PageOutsLine(x2, info.pageOuts);
    ParseAt(x2, lines, 2, x3);
    var x4 := x3.(errThreshold := info.errThreshold);
    EpsLine(x3, info.errThreshold);
    ParseAt(x3, lines, 3, x4);
  }

  /** The last four body lines set precision, sets, size and storage. */
  lemma InfoBodyBack(x: SetInfo, info: SetInfo)
    ensures ParseInfoLines(x, FormatInfoLines(info)[4..])
         == Ok(x.(precision := info.precision, sets := info.sets, size := info.size, storage := info.storage))
  {
    var lines := FormatInfoLines(info);
    var x5 := x.(precision := info.precision);
    PrecisionLine(x, info.precision);
    ParseAt(x, lines, 4, x5);
    var x6 := x5.(sets := info.sets);
    SetsLine(x5, info.sets);
    ParseAt(x5, lines, 5, x6);
    var x7 := x6.(size := info.size);
    SizeLine(x6, info.size);
    ParseAt(x6, lines, 6, x7);
    var x8 := x7.(storage := info.storage);
    StorageLine(x7, info.storage);
    ParseAt(x7, lines, 7, x8);
    assert lines[8..] == [];
  }

  /** A body line of a key and a value without a newline is one line, and it
      is not `END`, since no key starts with `E`. */
  lemma BodyLine(key: string, value: string)
    requires |key| > 0 && key[0] != 'E' && Wire.NoNewline(key) && Wire.NoNewline(value)
    ensures Wire.IsLine(InfoLine(key, value)) && InfoLine(key, value) != Wire.END
  {
    var line := InfoLine(key, value);
    assert line[0] == key[0];
    forall i | 0 <= i < |line| - 1 ensures line[i] != '\n' {
      if i < |key| {
        assert line[i] == key[i];
      } else if i > |key| {
        assert line[i] == value[i - |key| - 1];
      }
    }
  }

  lemma UintLine(key: string, n: nat)
    requires |key| > 0 && key[0] != 'E' && Wire.NoNewline(key)
    ensures Wire.IsLine(InfoLine(key, FormatUint(n))) && InfoLine(key, FormatUint(n)) != Wire.END
  {
    var s := FormatUint(n);
    assert Wire.NoNewline(s) by {
      forall i | 0 <= i < |s| ensures s[i] != '\n' {
        assert IsDigit(s[i]);
      }
    }
    BodyLine(key, s);
  }

  lemma InfoBodyLines(info: SetInfo)
    requires IsDecimal(info.errThreshold)
    ensures forall i :: 0 <= i < |FormatInfoLines(info)| ==>
      Wire.IsLine(FormatInfoLines(info)[i]) && FormatInfoLines(info)[i] != Wire.END
  {
    var lines := FormatInfoLines(info);
    forall i | 0 <= i < |lines| ensures Wire.IsLine(lines[i]) && lines[i] != Wire.END {
      if i == 0 {
        BodyLine("in_memory", if info.inMemory then "1" else "0");
      } else if i == 1 {
        UintLine("page_ins", info.pageIns);
      } else if i == 2 {
        UintLine("page_outs", info.pageOuts);
      } else if i == 3 {
        DecimalIsToken(info.errThreshold);
        BodyLine("eps", info.errThreshold);
      } else if i == 4 {
        UintLine("precision", info.precision);
      } else if i == 5 {
        UintLine("sets", info.sets);
      } else if i == 6 {
        UintLine("size", info.size);
      } else {
        UintLine("storage", info.storage);
      }
    }
  }

  /** For a valid name and a set whose threshold is a decimal number,
      decoding the server's info response gives that set's information and
      leaves what follows the `END` line unread. */
  method InfoRoundTrip(name: string, info: SetInfo, following: string)
    returns (decoded: Outcome<Error>, result: Result<Option<SetInfo>, Error>, left: string)
    requires ValidWord(name) && IsDecimal(info.errThreshold)
    ensures decoded == Pass && result == Ok(Some(info)) && left == following
  {
    var made := NewInfoCommand(name);
    var cmd := made.value;
    var lines := FormatInfoLines(info);
    InfoBodyLines(info);
    BlockResponse(lines, following);
    InfoBodyRoundTrip(NO_INFO, info);
    assert Wire.START != SET_DOES_NOT_EXIST by {
      ResponseLines();
    }
    var r := new Wire.LineReader(Wire.START + Wire.Concat(lines) + Wire.END + following);
    decoded := cmd.Decode(r);
    assert cmd.lines == lines && cmd.done && !cmd.notExist;
    result := cmd.Result();
    left := r.unread;
  }

  /** A leading `Set does not exist` line means no information and no error,
      and nothing after that line is read. */
  method MissingInfoExample(name: string, following: string)
    returns (decoded: Outcome<Error>, result: Result<Option<SetInfo>, Error>, left: string)
    requires ValidWord(name)
    ensures decoded == Pass && result == Ok(None) && left == following
  {
    var made := NewInfoCommand(name);
    var cmd := made.value;
    ReadResponseLine(SET_DOES_NOT_EXIST, following);
    var r := new Wire.LineReader(SET_DOES_NOT_EXIST + following);
    decoded := cmd.Decode(r);
    result := cmd.Result();
    left := r.unread;
  }
}
