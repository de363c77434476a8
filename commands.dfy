/** The hlld commands whose response is a single line: create, drop, close,
    clear, set keys (`b`) and flush. Each command is an object: its request
    fields are set by its constructor (and, for create, by the caller
    afterwards), Decode stores the response line in `result`, and Result
    interprets the stored line. */
module Commands {
  import opened Wrappers
  import opened Text
  import opened Protocol
  import Wire

  /** What every single-line Decode does: read one line and store it verbatim,
      replacing any earlier one; at the end of the input, fail and keep the
      earlier line. */
  ghost predicate ReadOneLine(before: string, after: string, oldResult: string, result: string, o: Outcome<Error>)
  {
    match Wire.NextLine(before)
    case Some(l) => o == Pass && result == l && before == l + after
    case None => o == Fail(ReadFailed) && result == oldResult && after == []
  }

  // -----------------------------------------------------------------------
  // create
  // -----------------------------------------------------------------------

  class CreateCommand {
    var setName: string
    /** Bits of precision; 0 leaves the choice to the server. */
    var precision: int64
    /** The tolerated error, in millionths; 0 leaves the choice to the server. */
    var errThreshold: int
    var inMemory: bool
    var result: string

    constructor (name: string)
      ensures setName == name && precision == 0 && errThreshold == 0 && !inMemory && result == ""
    {
      setName, precision, errThreshold, inMemory, result := name, 0, 0, false, "";
    }

    /** The request's fields: the verb, the name, then each option that is set. */
    function Fields(): seq<string>
      reads this
    {
      ["create", setName] + Options()
    }

    function Options(): seq<string>
      reads this
    {
      CreateOptions(precision, errThreshold, inMemory)
    }

    /** The request line, written piece by piece. */
    function Encode(): (line: string)
      reads this
      ensures |line| > 0 && line[|line| - 1] == '\n'
    {
      "create " + setName + CreateOptionText(precision, errThreshold, inMemory) + "\n"
    }

    method Decode(r: Wire.LineReader) returns (o: Outcome<Error>)
      modifies this`result, r
      ensures ReadOneLine(old(r.unread), r.unread, old(result), result, o)
    {
      var resp := r.ReadLine();
      if resp.None? {
        return Fail(ReadFailed);
      }
      result := resp.value;
      return Pass;
    }

    /** Done and Exists mean the set is there; a delete in progress means it
        was not created, without an error. */
    function Result(): (r: Result<bool, Error>)
      reads this
      ensures result == "" ==> r == Err(NotDecoded)
      ensures r == Ok(true) <==> result == DONE || result == EXISTS
      ensures r == Ok(false) <==> result == DELETE_IN_PROGRESS
      ensures r.Err? && result != "" ==> r.error == InvalidResponse(result)
    {
      if result == "" then Err(NotDecoded)
      else if result == DONE then Ok(true)
      else if result == EXISTS then Ok(true)
      else if result == DELETE_IN_PROGRESS then Ok(false)
      else Err(InvalidResponse(result))
    }
  }

  method NewCreateCommand(name: string) returns (r: Result<CreateCommand, Error>)
    ensures r.Ok? <==> ValidWord(name)
    ensures r.Err? ==> r.error == InvalidSetName
    ensures r.Ok? ==> fresh(r.value) && r.value.setName == name && r.value.precision == 0
    ensures r.Ok? ==> r.value.errThreshold == 0 && !r.value.inMemory && r.value.result == ""
  {
    if !ValidWord(name) {
      return Err(InvalidSetName);
    }
    var cmd := new CreateCommand(name);
    return Ok(cmd);
  }

  /** The option fields of a create request, each present only when set. */
  function CreateOptions(precision: int64, errThreshold: int, inMemory: bool): seq<string>
  {
    (if precision != 0 then ["precision=" + FormatInt(precision)] else [])
    + (if errThreshold != 0 then ["eps=" + FormatFixed6(errThreshold)] else [])
    + (if inMemory then ["in_memory=true"] else [])
  }

  /** The options as the request writes them, one write per option that is set. */
  function CreateOptionText(precision: int64, errThreshold: int, inMemory: bool): string
  {
    (if precision != 0 then " precision=" + FormatInt(precision) else "")
    + (if errThreshold != 0 then " eps=" + FormatFixed6(errThreshold) else "")
    + (if inMemory then " in_memory=true" else "")
  }

  /** The option fields that are present, each written after a space, give
      the same text as writing each present option in turn. */
  lemma {:induction false} OptionsWritten(a: string, b: string, c: string, hasA: bool, hasB: bool, hasC: bool)
    requires FieldText(a) && FieldText(b) && FieldText(c)
    ensures var opts := (if hasA then [a] else []) + (if hasB then [b] else []) + (if hasC then [c] else []);
      && SpaceEach(opts) == (if hasA then " " + a else "") + (if hasB then " " + b else "") + (if hasC then " " + c else "")
      && forall i :: 0 <= i < |opts| ==> FieldText(opts[i])
  {
    var p := if hasA then [a] else [];
    var e := if hasB then [b] else [];
    var m := if hasC then [c] else [];
    OptionalSpaced(a, hasA);
    OptionalSpaced(b, hasB);
    OptionalSpaced(c, hasC);
    SpaceEachConcat(p, e);
    SpaceEachConcat(p + e, m);
    var opts := p + e + m;
    forall i | 0 <= i < |opts| ensures FieldText(opts[i]) {
      assert opts[i] == a || opts[i] == b || opts[i] == c;
    }
  }

  /** An option that may be absent, written after a space. */
  lemma OptionalSpaced(a: string, has: bool)
    ensures SpaceEach(if has then [a] else []) == (if has then " " + a else "")
  {
    if has {
      assert SpaceEach([a]) == " " + a + SpaceEach([]);
    }
  }

  /** An option `name=value` holds no space or newline when its value does not. */
  lemma OptionField(name: string, value: string)
    requires FieldText(name) && FieldText(value)
    ensures FieldText(name + value)
  {
    var f := name + value;
    forall i | 0 <= i < |f| ensures f[i] != ' ' && f[i] != '\n' {
      if i >= |name| { assert f[i] == value[i - |name|]; }
    }
  }

  /** The written options are the option fields, each after a space, and
      none of them holds a space or a newline. */
  lemma CreateOptionsWritten(precision: int64, errThreshold: int, inMemory: bool)
    ensures SpaceEach(CreateOptions(precision, errThreshold, inMemory)) == CreateOptionText(precision, errThreshold, inMemory)
    ensures forall i :: 0 <= i < |CreateOptions(precision, errThreshold, inMemory)| ==>
              FieldText(CreateOptions(precision, errThreshold, inMemory)[i])
  {
    var pv, ev := FormatInt(precision), FormatFixed6(errThreshold);
    assert FieldText("precision=") && FieldText("eps=") && FieldText("in_memory=true");
    OptionField("precision=", pv);
    OptionField("eps=", ev);
    OptionsWritten("precision=" + pv, "eps=" + ev, "in_memory=true", precision != 0, errThreshold != 0, inMemory);
    OptionTextSpaced(precision, errThreshold, inMemory);
  }

  /** Each written option is a space followed by the option field. */
  lemma OptionTextSpaced(precision: int64, errThreshold: int, inMemory: bool)
    ensures CreateOptionText(precision, errThreshold, inMemory)
         == (if precision != 0 then " " + ("precision=" + FormatInt(precision)) else "")
          + (if errThreshold != 0 then " " + ("eps=" + FormatFixed6(errThreshold)) else "")
          + (if inMemory then " " + "in_memory=true" else "")
  {
    assert " " + ("precision=" + FormatInt(precision)) == " precision=" + FormatInt(precision);
    assert " " + ("eps=" + FormatFixed6(errThreshold)) == " eps=" + FormatFixed6(errThreshold);
    assert " " + "in_memory=true" == " in_memory=true";
  }

  /** The create request is `create <name>`, then ` precision=<n>` when the
      precision is set, ` eps=<six decimals>` when the threshold is set and
      ` in_memory=true` when asked for, on one line: for a valid name, reading
      the line back gives exactly those fields. */
  lemma CreateRequest(c: CreateCommand)
    requires ValidWord(c.setName)
    ensures c.Encode() == RequestLine(c.Fields())
    ensures ParseRequestLine(c.Encode()) == Some(c.Fields())
  {
    CreateLine(c.setName, c.precision, c.errThreshold, c.inMemory);
  }

  /** CreateRequest on the values of the command's fields. */
  lemma CreateLine(name: string, precision: int64, errThreshold: int, inMemory: bool)
    requires ValidWord(name)
    ensures var fields := ["create", name] + CreateOptions(precision, errThreshold, inMemory);
      && "create " + name + CreateOptionText(precision, errThreshold, inMemory) + "\n" == RequestLine(fields)
      && ParseRequestLine(RequestLine(fields)) == Some(fields)
  {
    var opts := CreateOptions(precision, errThreshold, inMemory);
    var fields := ["create", name] + opts;
    CreateOptionsWritten(precision, errThreshold, inMemory);
    JoinSpaceEach(["create", name], opts);
    assert Join(["create", name]) == "create " + name by {
      assert Join(["create", name]) == "create" + " " + Join([name]);
    }
    forall i | 0 <= i < |fields| ensures FieldText(fields[i]) {
      if i >= 2 { assert fields[i] == opts[i - 2]; }
    }
    RequestLineRoundTrip(fields);
  }

  // -----------------------------------------------------------------------
  // drop, close and clear
  // -----------------------------------------------------------------------

  predicate IsSetVerb(v: string)
  {
    v == "drop" || v == "close" || v == "clear"
  }

  class SetCommand {
    /** The verb: drop, close or clear. */
    var command: string
    var setName: string
    var result: string

    constructor (verb: string, name: string)
      ensures command == verb && setName == name && result == ""
    {
      command, setName, result := verb, name, "";
    }

    function Fields(): seq<string>
      reads this
    {
      [command, setName]
    }

    function Encode(): (line: string)
      reads this
      ensures |line| > 0 && line[|line| - 1] == '\n'
    {
      command + " " + setName + "\n"
    }

    method Decode(r: Wire.LineReader) returns (o: Outcome<Error>)
      modifies this`result, r
      ensures ReadOneLine(old(r.unread), r.unread, old(result), result, o)
    {
      var resp := r.ReadLine();
      if resp.None? {
        return Fail(ReadFailed);
      }
      result := resp.value;
      return Pass;
    }

    /** Done is success. A missing set counts as dropped for drop, and as a
        failure without an error for close and clear; a set that is not
        proxied is a failure without an error. */
    function Result(): (r: Result<bool, Error>)
      reads this
      ensures result == "" ==> r == Err(NotDecoded)
      ensures r == Ok(true) <==> result == DONE || (result == SET_DOES_NOT_EXIST && command == "drop")
      ensures r == Ok(false) <==> (result == SET_DOES_NOT_EXIST && command != "drop") || result == NOT_PROXIED
      ensures r.Err? && result != "" ==> r.error == InvalidResponse(result)
    {
      if result == "" then Err(NotDecoded)
      else if result == DONE then Ok(true)
      else if result == SET_DOES_NOT_EXIST then (if command == "drop" then Ok(true) else Ok(false))
      else if result == NOT_PROXIED then Ok(false)
      else Err(InvalidResponse(result))
    }
  }

  /** The constructor shared by NewDropCommand, NewCloseCommand and
      NewClearCommand, which differ only in the verb. */
  method NewSetCommand(verb: string, name: string) returns (r: Result<SetCommand, Error>)
    requires IsSetVerb(verb)
    ensures r.Ok? <==> ValidWord(name)
    ensures r.Err? ==> r.error == InvalidSetName
    ensures r.Ok? ==> fresh(r.value) && r.value.command == verb && r.value.setName == name && r.value.result == ""
  {
    if !ValidWord(name) {
      return Err(InvalidSetName);
    }
    var cmd := new SetCommand(verb, name);
    return Ok(cmd);
  }

  method NewDropCommand(name: string) returns (r: Result<SetCommand, Error>)
    ensures r.Ok? <==> ValidWord(name)
    ensures r.Err? ==> r.error == InvalidSetName
    ensures r.Ok? ==> fresh(r.value) && r.value.command == "drop" && r.value.setName == name && r.value.result == ""
  {
    r := NewSetCommand("drop", name);
  }

  method NewCloseCommand(name: string) returns (r: Result<SetCommand, Error>)
    ensures r.Ok? <==> ValidWord(name)
    ensures r.Err? ==> r.error == InvalidSetName
    ensures r.Ok? ==> fresh(r.value) && r.value.command == "close" && r.value.setName == name && r.value.result == ""
  {
    r := NewSetCommand("close", name);
  }

  method NewClearCommand(name: string) returns (r: Result<SetCommand, Error>)
    ensures r.Ok? <==> ValidWord(name)
    ensures r.Err? ==> r.error == InvalidSetName
    ensures r.Ok? ==> fresh(r.value) && r.value.command == "clear" && r.value.setName == name && r.value.result == ""
  {
    r := NewSetCommand("clear", name);
  }

  /** `<verb> <name>` on one line; reading it back gives the verb and name. */
  lemma SetRequest(c: SetCommand)
    requires IsSetVerb(c.command) && ValidWord(c.setName)
    ensures c.Encode() == RequestLine(c.Fields())
    ensures ParseRequestLine(c.Encode()) == Some(c.Fields())
  {
    Verbs();
    WordIsField(c.setName);
    TwoFieldRequest(c.command, c.setName);
  }

  // -----------------------------------------------------------------------
  // set keys (b)
  // -----------------------------------------------------------------------

  class SetKeysCommand {
    var setName: string
    var keys: seq<string>
    var result: string

    constructor (name: string, ks: seq<string>)
      ensures setName == name && keys == ks && result == ""
    {
      setName, keys, result := name, ks, "";
    }

    function Fields(): seq<string>
      reads this
    {
      ["b", setName] + keys
    }

    /** `b <name>`, then a space and each key in turn. */
    function Encode(): (line: string)
      reads this
      ensures |line| > 0 && line[|line| - 1] == '\n'
    {
      "b " + setName + SpaceEach(keys) + "\n"
    }

    method Decode(r: Wire.LineReader) returns (o: Outcome<Error>)
      modifies this`result, r
      ensures ReadOneLine(old(r.unread), r.unread, old(result), result, o)
    {
      var resp := r.ReadLine();
      if resp.None? {
        return Fail(ReadFailed);
      }
      result := resp.value;
      return Pass;
    }

    function Result(): (r: Result<bool, Error>)
      reads this
      ensures result == "" ==> r == Err(NotDecoded)
      ensures r == Ok(true) <==> result == DONE
      ensures r == Ok(false) <==> result == SET_DOES_NOT_EXIST
      ensures r.Err? && result != "" ==> r.error == InvalidResponse(result)
    {
      if result == "" then Err(NotDecoded)
      else if result == DONE then Ok(true)
      else if result == SET_DOES_NOT_EXIST then Ok(false)
      else Err(InvalidResponse(result))
    }
  }

  /** The key check of NewSetKeysCommand: the first key that fails validKey,
      looked for in order. */
  method CheckKeys(keys: seq<string>) returns (o: Outcome<Error>)
    ensures o.Pass? <==> forall i :: 0 <= i < |keys| ==> ValidKey(keys[i])
    ensures o.Fail? ==> exists i :: 0 <= i < |keys| && !ValidKey(keys[i]) && o.error == InvalidKey(keys[i]) &&
                          forall j :: 0 <= j < i ==> ValidKey(keys[j])
  {
    var i := 0;
    while i < |keys|
      invariant 0 <= i <= |keys|
      invariant forall j :: 0 <= j < i ==> ValidKey(keys[j])
    {
      if !ValidKey(keys[i]) {
        return Fail(InvalidKey(keys[i]));
      }
      i := i + 1;
    }
    return Pass;
  }

  method NewSetKeysCommand(name: string, keys: seq<string>) returns (r: Result<SetKeysCommand, Error>)
    ensures r.Ok? <==> ValidWord(name) && |keys| > 0 && forall i :: 0 <= i < |keys| ==> ValidKey(keys[i])
    ensures !ValidWord(name) ==> r == Err(InvalidSetName)
    ensures ValidWord(name) && |keys| == 0 ==> r == Err(MissingKeys)
    ensures ValidWord(name) && |keys| > 0 && r.Err? ==>
      exists i :: 0 <= i < |keys| && !ValidKey(keys[i]) && r.error == InvalidKey(keys[i]) &&
                  forall j :: 0 <= j < i ==> ValidKey(keys[j])
    ensures r.Ok? ==> fresh(r.value) && r.value.setName == name && r.value.keys == keys && r.value.result == ""
  {
    if !ValidWord(name) {
      return Err(InvalidSetName);
    }
    if |keys| == 0 {
      return Err(MissingKeys);
    }
    var checked := CheckKeys(keys);
    if checked.Fail? {
      return Err(checked.error);
    }
    var cmd := new SetKeysCommand(name, keys);
    return Ok(cmd);
  }

  /** `b <name> <k1> ... <kn>` on one line, keys in the given order: reading
      the line back gives the verb, the name and every key. */
  lemma SetKeysRequest(c: SetKeysCommand)
    requires ValidWord(c.setName)
    requires forall i :: 0 <= i < |c.keys| ==> ValidKey(c.keys[i])
    ensures c.Encode() == RequestLine(c.Fields())
    ensures ParseRequestLine(c.Encode()) == Some(c.Fields())
  {
    JoinSpaceEach(["b", c.setName], c.keys);
    forall i | 0 <= i < |c.Fields()| ensures FieldText(c.Fields()[i]) {
      if i >= 2 { assert c.Fields()[i] == c.keys[i - 2]; }
    }
    RequestLineRoundTrip(c.Fields());
  }

  // -----------------------------------------------------------------------
  // flush
  // -----------------------------------------------------------------------

  class FlushCommand {
    /** The set to flush; empty for all sets. */
    var setName: string
    var result: string

    constructor (name: string)
      ensures setName == name && result == ""
    {
      setName, result := name, "";
    }

    function Fields(): seq<string>
      reads this
    {
      ["flush"] + (if setName != "" then [setName] else [])
    }

    function Encode(): (line: string)
      reads this
      ensures |line| > 0 && line[|line| - 1] == '\n'
    {
      "flush" + (if setName != "" then " " + setName else "") + "\n"
    }

    method Decode(r: Wire.LineReader) returns (o: Outcome<Error>)
      modifies this`result, r
      ensures ReadOneLine(old(r.unread), r.unread, old(result), result, o)
    {
      var resp := r.ReadLine();
      if resp.None? {
        return Fail(ReadFailed);
      }
      result := resp.value;
      return Pass;
    }

    function Result(): (r: Result<bool, Error>)
      reads this
      ensures result == "" ==> r == Err(NotDecoded)
      ensures r == Ok(true) <==> result == DONE
      ensures r == Ok(false) <==> result == SET_DOES_NOT_EXIST
      ensures r.Err? && result != "" ==> r.error == InvalidResponse(result)
    {
      if result == "" then Err(NotDecoded)
      else if result == DONE then Ok(true)
      else if result == SET_DOES_NOT_EXIST then Ok(false)
      else Err(InvalidResponse(result))
    }
  }

  /** Flush accepts the empty name (all sets) besides a valid one. */
  method NewFlushCommand(name: string) returns (r: Result<FlushCommand, Error>)
    ensures r.Ok? <==> name == "" || ValidWord(name)
    ensures r.Err? ==> r.error == InvalidSetName
    ensures r.Ok? ==> fresh(r.value) && r.value.setName == name && r.value.result == ""
  {
    if name != "" && !ValidWord(name) {
      return Err(InvalidSetName);
    }
    var cmd := new FlushCommand(name);
    return Ok(cmd);
  }

  /** `flush` alone, or `flush <name>`, on one line. */
  lemma FlushRequest(c: FlushCommand)
    requires c.setName == "" || ValidWord(c.setName)
    ensures c.Encode() == RequestLine(c.Fields())
    ensures ParseRequestLine(c.Encode()) == Some(c.Fields())
  {
    Verbs();
    if c.setName != "" { WordIsField(c.setName); }
    OptionalArgRequest("flush", c.setName);
  }

  // -----------------------------------------------------------------------
  // Worked examples
  // -----------------------------------------------------------------------

  /** The threshold 0.05 written with six decimals. */
  lemma FixedExample(m: int)
    requires m == 50000
    ensures FormatFixed6(m) == "0.050000"
  {
    ThresholdDigits(m / 1000000, m % 1000000);
    assert "0" + "." + "050000" == "0.050000";
  }

  /** The whole part and the padded fraction of 0.05, in decimal. */
  lemma ThresholdDigits(whole: nat, frac: nat)
    requires whole == 0 && frac == 50000
    ensures FormatUint(whole) == "0" && PadLeft6(FormatUint(frac)) == "050000"
  {
    assert FormatUint(50000) == "50000";
    assert PadLeft6("50000") == "050000";
  }

  /** The precision 12 written in decimal. */
  lemma IntExample(n: int64)
    requires n == 12
    ensures FormatInt(n) == "12"
  {
    assert FormatUint(12) == "12";
  }

  /** The option fields of the create command in the package's tests. */
  lemma CreateExampleOptions(precision: int64, errThreshold: int)
    requires precision == 12 && errThreshold == 50000
    ensures CreateOptions(precision, errThreshold, true) == ["precision=12", "eps=0.050000", "in_memory=true"]
  {
    IntExample(precision);
    FixedExample(errThreshold);
    assert "precision=" + FormatInt(precision) == "precision=12";
    assert "eps=" + FormatFixed6(errThreshold) == "eps=0.050000";
  }

  /** The create command of the package's tests: a name with a space is
      refused, and `foo` with precision 12, threshold 0.05 and in-memory
      encodes to the line `create foo precision=12 eps=0.050000 in_memory=true`. */
  method CreateCommandExample() returns (refused: bool, line: string)
    ensures refused
    ensures line == RequestLine(["create", "foo", "precision=12", "eps=0.050000", "in_memory=true"])
  {
    assert "foo 123"[3] == ' ';
    var bad := NewCreateCommand("foo 123");
    refused := bad.Err?;
    var made := NewCreateCommand("foo");
    var cmd := made.value;
    cmd.precision := 12;
    cmd.errThreshold := 50000;
    cmd.inMemory := true;
    line := cmd.Encode();
    CreateExampleLine(cmd.setName, cmd.precision, cmd.errThreshold, cmd.inMemory);
  }

  /** The request line of the create command in the package's tests. */
  lemma CreateExampleLine(name: string, precision: int64, errThreshold: int, inMemory: bool)
    requires name == "foo" && precision == 12 && errThreshold == 50000 && inMemory
    ensures "create " + name + CreateOptionText(precision, errThreshold, inMemory) + "\n"
         == RequestLine(["create", "foo", "precision=12", "eps=0.050000", "in_memory=true"])
  {
    ValidWordCases();
    CreateLine(name, precision, errThreshold, inMemory);
    CreateExampleOptions(precision, errThreshold);
    assert ["create", name] + CreateOptions(precision, errThreshold, inMemory)
        == ["create", "foo", "precision=12", "eps=0.050000", "in_memory=true"];
  }

  /** The three responses a create accepts, each followed by anything:
      success, success, and not created. */
  method CreateResponsesExample(name: string, following: string)
    returns (done: Result<bool, Error>, existing: Result<bool, Error>, deleting: Result<bool, Error>)
    requires ValidWord(name)
    ensures done == Ok(true) && existing == Ok(true) && deleting == Ok(false)
  {
    var made := NewCreateCommand(name);
    var cmd := made.value;
    ReadResponseLine(DONE, following);
    var r := new Wire.LineReader(DONE + following);
    var _ := cmd.Decode(r);
    done := cmd.Result();
    ReadResponseLine(EXISTS, following);
    r := new Wire.LineReader(EXISTS + following);
    var _ := cmd.Decode(r);
    existing := cmd.Result();
    ReadResponseLine(DELETE_IN_PROGRESS, following);
    r := new Wire.LineReader(DELETE_IN_PROGRESS + following);
    var _ := cmd.Decode(r);
    deleting := cmd.Result();
  }

  /** Drop and close read the same "Set does not exist" line differently. */
  method MissingSetExample(name: string, following: string) returns (dropped: Result<bool, Error>, closed: Result<bool, Error>)
    requires ValidWord(name)
    ensures dropped == Ok(true) && closed == Ok(false)
  {
    ReadResponseLine(SET_DOES_NOT_EXIST, following);
    var d := NewDropCommand(name);
    var r := new Wire.LineReader(SET_DOES_NOT_EXIST + following);
    var _ := d.value.Decode(r);
    dropped := d.value.Result();
    var c := NewCloseCommand(name);
    r := new Wire.LineReader(SET_DOES_NOT_EXIST + following);
    var _ := c.value.Decode(r);
    closed := c.value.Result();
  }

  /** For a valid name, the create, set-keys and flush commands that read a
      `Done` line report success and leave whatever follows that line unread. */
  method DoneRoundTrip(name: string, following: string)
    returns (create: Result<bool, Error>, setKeys: Result<bool, Error>, flush: Result<bool, Error>, left: string)
    requires ValidWord(name)
    ensures create == setKeys == flush == Ok(true)
    ensures left == following
  {
    ReadResponseLine(DONE, following);
    var c := NewCreateCommand(name);
    var r := new Wire.LineReader(DONE + following);
    var _ := c.value.Decode(r);
    create := c.value.Result();
    left := r.unread;
    var k := NewSetKeysCommand(name, ["k"]);
    r := new Wire.LineReader(DONE + following);
    var _ := k.value.Decode(r);
    setKeys := k.value.Result();
    var f := NewFlushCommand(name);
    r := new Wire.LineReader(DONE + following);
    var _ := f.value.Decode(r);
    flush := f.value.Result();
  }

  /** For a valid name, drop, close and clear all report success on `Done`,
      and leave whatever follows that line unread. */
  method SetVerbsDone(name: string, following: string)
    returns (drop: Result<bool, Error>, close: Result<bool, Error>, clear: Result<bool, Error>, left: string)
    requires ValidWord(name)
    ensures drop == close == clear == Ok(true)
    ensures left == following
  {
    ReadResponseLine(DONE, following);
    var d := NewDropCommand(name);
    var r := new Wire.LineReader(DONE + following);
    var _ := d.value.Decode(r);
    drop := d.value.Result();
    left := r.unread;
    var cl := NewCloseCommand(name);
    r := new Wire.LineReader(DONE + following);
    var _ := cl.value.Decode(r);
    close := cl.value.Result();
    var cr := NewClearCommand(name);
    r := new Wire.LineReader(DONE + following);
    var _ := cr.value.Decode(r);
    clear := cr.value.Result();
  }
}
