/** The pieces of Go's `strconv` and `fmt` that the hlld protocol relies on:
    decimal text of integers, the six-decimal fixed-point text of `%f`, and
    the splitting and joining of space-separated fields. */
module Text {
  import opened Wrappers

  /** Go's `uint64` and `int` (64 bits wide). */
  type uint64 = n: nat | n < 0x1_0000_0000_0000_0000
  type int64 = n: int | -0x8000_0000_0000_0000 <= n < 0x8000_0000_0000_0000

  predicate IsDigit(c: char) { '0' <= c <= '9' }

  predicate AllDigits(s: string) { forall i :: 0 <= i < |s| ==> IsDigit(s[i]) }

  predicate NoSpace(s: string) { forall i :: 0 <= i < |s| ==> s[i] != ' ' }

  function DigitChar(d: nat): (c: char)
    requires d < 10
    ensures IsDigit(c) && (c == '0' <==> d == 0)
  {
    ('0' as int + d) as char
  }

  function DigitValue(c: char): (d: nat)
    requires IsDigit(c)
    ensures d < 10 && DigitChar(d) == c
  {
    c as int - '0' as int
  }

  // ---------------------------------------------------------------------
  // Unsigned and signed decimal text
  // ---------------------------------------------------------------------

  /** The `%d` text of a natural number: digits only, no leading zero. */
  function FormatUint(n: nat): (s: string)
    ensures |s| > 0 && AllDigits(s)
    ensures s[0] == '0' ==> s == "0" && n == 0
    decreases n
  {
    if n < 10 then [DigitChar(n)] else FormatUint(n / 10) + [DigitChar(n % 10)]
  }

  /** The value of a string of decimal digits, most significant first. */
  function DigitsValue(s: string): nat
    requires AllDigits(s)
    decreases |s|
  {
    if s == [] then 0 else 10 * DigitsValue(s[..|s| - 1]) + DigitValue(s[|s| - 1])
  }

  lemma {:induction false} DigitsValueOfFormat(n: nat)
    ensures DigitsValue(FormatUint(n)) == n
    decreases n
  {
    if n >= 10 {
      DigitsValueOfFormat(n / 10);
      var s := FormatUint(n);
      assert s[..|s| - 1] == FormatUint(n / 10);
    }
  }

  /** Leading zeros do not change the value of a digit string. */
  lemma {:induction false} DigitsValueOfPadded(k: nat, s: string)
    requires AllDigits(s)
    ensures AllDigits(Zeros(k) + s) && DigitsValue(Zeros(k) + s) == DigitsValue(s)
    decreases |s|
  {
    if s == [] {
      ZerosValue(k);
      assert Zeros(k) + s == Zeros(k);
    } else {
      var t := Zeros(k) + s;
      assert t[..|t| - 1] == Zeros(k) + s[..|s| - 1];
      DigitsValueOfPadded(k, s[..|s| - 1]);
    }
  }

  lemma {:induction false} ZerosValue(k: nat)
    ensures AllDigits(Zeros(k)) && DigitsValue(Zeros(k)) == 0
  {
    if k > 0 {
      ZerosValue(k - 1);
      assert Zeros(k)[..k - 1] == Zeros(k - 1);
    }
  }

  function Zeros(k: nat): (z: string)
    ensures |z| == k && forall i :: 0 <= i < k ==> z[i] == '0'
  {
    if k == 0 then "" else Zeros(k - 1) + "0"
  }

  /** Go's `strconv.ParseUint(s, 10, 64)`: a non-empty run of decimal digits
      (no sign, no underscore) whose value fits in 64 bits. */
  function ParseUint(s: string): Option<uint64>
  {
    if |s| > 0 && AllDigits(s) && DigitsValue(s) < 0x1_0000_0000_0000_0000
    then Some(DigitsValue(s) as uint64)
    else None
  }

  lemma ParseUintOfFormat(n: uint64)
    ensures ParseUint(FormatUint(n)) == Some(n)
  {
    DigitsValueOfFormat(n);
  }

  /** A value parsed by ParseUint never came from text with a non-digit. */
  lemma ParseUintRejects(s: string)
    ensures ParseUint(s).Some? ==> |s| > 0 && AllDigits(s)
    ensures s == "" || (exists i :: 0 <= i < |s| && !IsDigit(s[i])) ==> ParseUint(s).None?
  {
  }

  /** The `%d` text of a signed integer: a minus sign for negatives. */
  function FormatInt(n: int): (s: string)
    ensures |s| > 0 && NoSpace(s) && forall i :: 0 <= i < |s| ==> s[i] != '\n'
  {
    if n < 0 then "-" + FormatUint(-n) else FormatUint(n)
  }

  /** The integer reading of `%d` into a Go `int`: an optional sign followed by
      decimal digits, within 64 bits. */
  function ParseInt(s: string): Option<int64>
  {
    var negative := |s| > 0 && s[0] == '-';
    var digits := if |s| > 0 && (s[0] == '-' || s[0] == '+') then s[1..] else s;
    if |digits| > 0 && AllDigits(digits) then
      var v: int := if negative then -(DigitsValue(digits) as int) else DigitsValue(digits);
      if -0x8000_0000_0000_0000 <= v < 0x8000_0000_0000_0000 then Some(v as int64) else None
    else None
  }

  lemma ParseIntOfFormat(n: int64)
    ensures ParseInt(FormatInt(n)) == Some(n)
  {
    if n < 0 {
      ParseNegative(-(n as int));
    } else {
      ParseNonNegative(n as int);
    }
  }

  lemma ParseNegative(u: nat)
    requires 0 < u <= 0x8000_0000_0000_0000
    ensures ParseInt("-" + FormatUint(u)) == Some((-(u as int)) as int64)
  {
    var s := FormatUint(u);
    DigitsValueOfFormat(u);
    assert ("-" + s)[1..] == s;
  }

  lemma ParseNonNegative(u: nat)
    requires u < 0x8000_0000_0000_0000
    ensures ParseInt(FormatUint(u)) == Some(u as int64)
  {
    var s := FormatUint(u);
    DigitsValueOfFormat(u);
    assert '0' <= s[0] <= '9';
  }

  // ---------------------------------------------------------------------
  // Six-decimal fixed point (the `%f` verb)
  // ---------------------------------------------------------------------

  /** `%f` of a value held as an integer number of millionths: an optional
      minus sign, the whole part, a dot and exactly six fraction digits. */
  function FormatFixed6(m: int): (s: string)
    ensures |s| > 0 && NoSpace(s) && forall i :: 0 <= i < |s| ==> s[i] != '\n'
  {
    (if m < 0 then "-" else "") + UnsignedFixedText(if m < 0 then -m else m)
  }

  /** The whole part, a dot and six fraction digits of a count of millionths. */
  function UnsignedFixedText(a: nat): (s: string)
    ensures |s| > 0 && IsDigit(s[0])
    ensures NoSpace(s) && forall i :: 0 <= i < |s| ==> s[i] != '\n'
  {
    FormatUint(a / 1000000) + "." + PadLeft6(FormatUint(a % 1000000))
  }

  /** Zeros in front of a digit string, up to a width of six. */
  function PadLeft6(s: string): string
  {
    if |s| >= 6 then s else Zeros(6 - |s|) + s
  }

  /** Reads text of the shape FormatFixed6 produces back into millionths. */
  function ParseFixed6(s: string): Option<int>
  {
    if |s| > 0 && s[0] == '-' then
      match UnsignedFixed6(s[1..])
      case Some(v) => Some(-(v as int))
      case None => None
    else UnsignedFixed6(s)
  }

  /** Whole digits, a dot and exactly six fraction digits, in millionths. */
  function UnsignedFixed6(t: string): Option<nat>
  {
    if |t| >= 8 && t[|t| - 7] == '.' && AllDigits(t[..|t| - 7]) && AllDigits(t[|t| - 6..])
    then Some(DigitsValue(t[..|t| - 7]) * 1000000 + DigitsValue(t[|t| - 6..]))
    else None
  }

  lemma FormatUintShort(n: nat, k: nat)
    requires n < Pow10(k)
    ensures |FormatUint(n)| <= if k == 0 then 1 else k
    decreases n
  {
    if n >= 10 {
      FormatUintShort(n / 10, k - 1);
    }
  }

  function Pow10(k: nat): (p: nat)
    ensures p >= 1
  {
    if k == 0 then 1 else 10 * Pow10(k - 1)
  }

  lemma FractionText(f: nat)
    requires f < 1000000
    ensures var p := PadLeft6(FormatUint(f)); |p| == 6 && AllDigits(p) && DigitsValue(p) == f
  {
    assert Pow10(6) == 1000000;
    FormatUintShort(f, 6);
    var frac := FormatUint(f);
    DigitsValueOfFormat(f);
    DigitsValueOfPadded(6 - |frac|, frac);
  }

  lemma UnsignedFixedPieces(whole: string, padded: string)
    requires |whole| > 0 && AllDigits(whole)
    requires |padded| == 6 && AllDigits(padded)
    ensures UnsignedFixed6(whole + "." + padded) == Some(DigitsValue(whole) * 1000000 + DigitsValue(padded))
  {
    FixedShape(whole, padded);
  }

  /** Where the point and the two digit runs of fixed-point text lie. */
  lemma FixedShape(whole: string, padded: string)
    requires |whole| > 0 && |padded| == 6
    ensures var t := whole + "." + padded;
      |t| >= 8 && t[|t| - 7] == '.' && t[..|t| - 7] == whole && t[|t| - 6..] == padded
  {
    var t := whole + "." + padded;
    assert |t| == |whole| + 7;
    assert t[..|t| - 7] == whole;
    assert t[|t| - 6..] == padded;
  }

  /** The unsigned text of FormatFixed6, read back. */
  lemma UnsignedFixedRoundTrip(a: nat)
    ensures UnsignedFixed6(UnsignedFixedText(a)) == Some(a)
  {
    FractionText(a % 1000000);
    DigitsValueOfFormat(a / 1000000);
    UnsignedFixedPieces(FormatUint(a / 1000000), PadLeft6(FormatUint(a % 1000000)));
    assert a / 1000000 * 1000000 + a % 1000000 == a;
  }

  /** A minus sign in front of unsigned fixed-point text negates its value. */
  lemma SignedFixed(negative: bool, t: string, v: nat)
    requires |t| > 0 && t[0] != '-' && UnsignedFixed6(t) == Some(v)
    ensures ParseFixed6((if negative then "-" else "") + t) == Some(if negative then -(v as int) else v)
  {
    if negative {
      assert ("-" + t)[1..] == t;
    } else {
      assert "" + t == t;
    }
  }

  /** ParseFixed6 inverts FormatFixed6: the text holds the value exactly. */
  lemma FixedRoundTrip(m: int)
    ensures ParseFixed6(FormatFixed6(m)) == Some(m)
  {
    var a := if m < 0 then -m else m;
    UnsignedFixedRoundTrip(a);
    SignedFixed(m < 0, UnsignedFixedText(a), a);
  }

  // ---------------------------------------------------------------------
  // Space-separated fields
  // ---------------------------------------------------------------------

  /** The fields written one after another with a single space between two. */
  function Join(fields: seq<string>): string
  {
    if |fields| == 0 then ""
    else if |fields| == 1 then fields[0]
    else fields[0] + " " + Join(fields[1..])
  }

  /** Cuts a string at every space (Go's `strings.Split(s, " ")`). */
  function Split(s: string): (fields: seq<string>)
    ensures |fields| > 0
    decreases |s|
  {
    if s == [] then [""]
    else
      var rest := Split(s[1..]);
      if s[0] == ' ' then [""] + rest else [[s[0]] + rest[0]] + rest[1..]
  }

  lemma {:induction false} SplitField(f: string, t: string)
    requires NoSpace(f)
    ensures Split(f) == [f]
    ensures Split(f + " " + t) == [f] + Split(t)
    decreases |f|
  {
    if f == [] {
      assert ("" + " " + t)[1..] == t;
    } else {
      SplitField(f[1..], t);
      assert (f + " " + t)[1..] == f[1..] + " " + t;
      assert [f[0]] + f[1..] == f;
    }
  }

  /** Joining fields that hold no space and splitting the result again gives
      the fields back, empty ones included. */
  lemma {:induction false} SplitJoin(fields: seq<string>)
    requires |fields| > 0
    requires forall i :: 0 <= i < |fields| ==> NoSpace(fields[i])
    ensures Split(Join(fields)) == fields
    decreases |fields|
  {
    SplitField(fields[0], "");
    if |fields| > 1 {
      SplitJoin(fields[1..]);
      SplitField(fields[0], Join(fields[1..]));
      assert [fields[0]] + fields[1..] == fields;
    }
  }

  lemma {:induction false} JoinAppend(fields: seq<string>, x: string)
    requires |fields| > 0
    ensures Join(fields + [x]) == Join(fields) + " " + x
    decreases |fields|
  {
    if |fields| > 1 {
      assert (fields + [x])[1..] == fields[1..] + [x];
      JoinAppend(fields[1..], x);
    }
  }

  /** Every field preceded by one space: the loop that writes ` <key>` per key. */
  function SpaceEach(fields: seq<string>): string
  {
    if fields == [] then "" else " " + fields[0] + SpaceEach(fields[1..])
  }

  lemma {:induction false} SpaceEachConcat(a: seq<string>, b: seq<string>)
    ensures SpaceEach(a + b) == SpaceEach(a) + SpaceEach(b)
    decreases |a|
  {
    if a != [] {
      assert (a + b)[1..] == a[1..] + b;
      SpaceEachConcat(a[1..], b);
    } else {
      assert a + b == b;
    }
  }

  lemma {:induction false} JoinSpaceEach(head: seq<string>, tail: seq<string>)
    requires |head| > 0
    ensures Join(head + tail) == Join(head) + SpaceEach(tail)
    decreases |tail|
  {
    if tail != [] {
      JoinAppend(head, tail[0]);
      assert head + tail == (head + [tail[0]]) + tail[1..];
      JoinSpaceEach(head + [tail[0]], tail[1..]);
    } else {
      assert head + tail == head;
    }
  }

  lemma {:induction false} JoinNoNewline(fields: seq<string>)
    requires forall i, j :: 0 <= i < |fields| && 0 <= j < |fields[i]| ==> fields[i][j] != '\n'
    ensures forall k :: 0 <= k < |Join(fields)| ==> Join(fields)[k] != '\n'
    decreases |fields|
  {
    if |fields| > 1 {
      JoinNoNewline(fields[1..]);
      var j := Join(fields);
      var f, r := fields[0], Join(fields[1..]);
      assert j == f + " " + r;
      forall k | 0 <= k < |j| ensures j[k] != '\n' {
        if k < |f| { assert j[k] == f[k]; }
        else if k > |f| { assert j[k] == r[k - |f| - 1]; }
      }
    }
  }

  // -----------------------------------------------------------------------
  // Decimal tokens (what `%f` and strconv.ParseFloat are given to read)
  // -----------------------------------------------------------------------

  /** A token without its leading sign, if it has one. */
  function Unsigned(s: string): string
  {
    if |s| > 0 && (s[0] == '+' || s[0] == '-') then s[1..] else s
  }

  /** A plain decimal number: an optional sign, then unsigned decimal digits. */
  predicate IsDecimal(s: string)
  {
    DecimalDigits(Unsigned(s))
  }

  /** Digits with at most one point among them, and at least one digit. */
  predicate DecimalDigits(t: string)
  {
    && |t| > 0
    && (forall i :: 0 <= i < |t| ==> IsDigit(t[i]) || t[i] == '.')
    && (exists i :: 0 <= i < |t| && IsDigit(t[i]))
    && (forall i, j :: 0 <= i < j < |t| && t[i] == '.' ==> t[j] != '.')
  }

  /** A decimal token is one non-empty field: no space and no newline. */
  lemma DecimalIsToken(s: string)
    requires IsDecimal(s)
    ensures |s| > 0 && NoSpace(s) && forall i :: 0 <= i < |s| ==> s[i] != '\n'
  {
    var t := Unsigned(s);
    forall i | 0 <= i < |s| ensures s[i] != ' ' && s[i] != '\n' {
      if |s| > 0 && (s[0] == '+' || s[0] == '-') && i > 0 {
        assert s[i] == t[i - 1];
      }
    }
  }

  /** Digits, a point and digits, with or without a minus sign in front. */
  lemma DecimalPieces(negative: bool, whole: string, frac: string)
    requires |whole| > 0 && AllDigits(whole) && AllDigits(frac)
    ensures IsDecimal((if negative then "-" else "") + whole + "." + frac)
  {
    var t := whole + "." + frac;
    PointBetween(whole, frac);
    assert (if negative then "-" else "") + whole + "." + frac == (if negative then "-" else "") + t;
    assert Unsigned((if negative then "-" else "") + t) == t;
  }

  lemma PointBetween(whole: string, frac: string)
    requires |whole| > 0 && AllDigits(whole) && AllDigits(frac)
    ensures DecimalDigits(whole + "." + frac)
  {
    var t := whole + "." + frac;
    assert IsDigit(t[0]);
    forall i | 0 <= i < |t| ensures IsDigit(t[i]) || t[i] == '.' {
      if i > |whole| { assert t[i] == frac[i - |whole| - 1]; }
    }
    forall i, j | 0 <= i < j < |t| && t[i] == '.' ensures t[j] != '.' {
      assert i == |whole|;
      assert t[j] == frac[j - |whole| - 1];
    }
  }

  /** What a create request sends as its threshold is a decimal token. */
  lemma FixedIsDecimal(m: int)
    ensures IsDecimal(FormatFixed6(m))
  {
    var a := if m < 0 then -m else m;
    UnsignedFixedDecimal(a);
    SignedDecimal(if m < 0 then "-" else "", UnsignedFixedText(a));
  }

  /** A minus sign, or nothing, in front of unsigned decimal digits. */
  lemma SignedDecimal(sign: string, t: string)
    requires sign == "-" || sign == ""
    requires |t| > 0 && IsDigit(t[0]) && DecimalDigits(t)
    ensures IsDecimal(sign + t)
  {
    if sign == "-" {
      assert (sign + t)[1..] == t;
    } else {
      assert IsDigit(t[0]) && t[0] != '+' && t[0] != '-';
      assert sign + t == t;
    }
  }

  lemma UnsignedFixedDecimal(a: nat)
    ensures DecimalDigits(UnsignedFixedText(a))
  {
    FractionText(a % 1000000);
    PointBetween(FormatUint(a / 1000000), PadLeft6(FormatUint(a % 1000000)));
  }
}
