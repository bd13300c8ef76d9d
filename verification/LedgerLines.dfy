/** Ledger lines: decoding accepts exactly the canonical ones, and a file splits back into them. */
module LedgerLines {
  import opened Wrappers
  import opened Utf8
  import opened CanonicalJson
  import opened JsonParser
  import opened JsonRoundTrip

  datatype LineError = TornLine | MalformedLine | NotCanonical

  predicate EndsLine(line: seq<Byte>) { line != [] && line[|line| - 1] == LF }

  /** The object a ledger line stands for. */
  function DecodeLine(line: seq<Byte>): Result<Json, LineError> {
    if !EndsLine(line) then Failure(TornLine)
    else
      match Decode(line)
      case None => Failure(MalformedLine)
      case Some(s) =>
        match Loads(s)
        case None => Failure(MalformedLine)
        case Some(v) => if v.Obj? && CanonicalLine(v) == Success(line) then Success(v) else Failure(NotCanonical)
  }

  // ---- Canonical lines -----------------------------------------------------

  lemma LoadsText(v: Json)
    requires !HasReal(v)
    ensures Loads(Text(v) + "\n") == Some(v)
  {
    TextStarts(v);
    TextParses(v, "\n");
    hide Value, Text, HasReal;
    assert SkipSpace(Text(v) + "\n") == Text(v) + "\n";
    assert SkipSpace("\n") == "" by { assert "\n"[1..] == ""; }
  }

  /** A canonical line decodes to the value it was written from. */
  lemma CanonicalDecodes(v: Json, line: seq<Byte>)
    requires CanonicalLine(v) == Success(line)
    ensures Decode(line) == Some(Text(v) + "\n") && Loads(Text(v) + "\n") == Some(v)
  {
    hide Text, HasReal, Loads, Encode, Decode;
    LoadsText(v);
    DecodeEncode(Text(v) + "\n");
  }

  /** Different values have different lines. */
  lemma CanonicalLineInjective(v: Json, w: Json)
    requires CanonicalLine(v).Success? && CanonicalLine(v) == CanonicalLine(w)
    ensures v == w
  {
    hide Text, HasReal, Loads, Encode, Decode;
    CanonicalDecodes(v, CanonicalLine(v).value);
    CanonicalDecodes(w, CanonicalLine(v).value);
  }

  lemma {:induction false} EscapeIsPrintable(s: string)
    ensures forall c <- Escape(s) :: c as int >= 0x20
  {
    if s != "" { EscapeIsPrintable(s[1..]); }
  }

  lemma {:induction false} DigitsPrintable(n: nat)
    ensures forall c <- Digits(n) :: c as int >= 0x20
  {
    if n >= 10 { DigitsPrintable(n / 10); }
  }

  /** No control character occurs in canonical text. */
  lemma {:induction false} TextIsPrintable(v: Json)
    requires !HasReal(v)
    ensures forall c <- Text(v) :: c as int >= 0x20
    decreases v, 1
  {
    match v
    case Num(n) => DigitsPrintable(if n < 0 then -n else n);
    case Str(text) => EscapeIsPrintable(text);
    case Arr(items) => if items != [] { ItemsPrintable(v, 0); }
    case Obj(members) =>
      var ks := SortedKeys(members.Keys);
      if ks != [] { MembersPrintable(v, ks); }
    case _ =>
  }

  lemma {:induction false} ItemsPrintable(v: Json, i: nat)
    requires v.Arr? && !HasReal(v) && i < |v.items|
    ensures forall c <- ItemsText(v, i) :: c as int >= 0x20
    decreases v, 0, |v.items| - i
  {
    hide Text, HasReal;
    NoRealInside(v);
    TextIsPrintable(v.items[i]);
    if i + 1 < |v.items| { ItemsPrintable(v, i + 1); }
  }

  lemma {:induction false} MembersPrintable(v: Json, ks: seq<string>)
    requires v.Obj? && !HasReal(v) && ks != [] && forall k <- ks :: k in v.members
    ensures forall c <- MembersText(v, ks) :: c as int >= 0x20
    decreases v, 0, |ks|
  {
    hide Text, HasReal;
    NoRealInside(v);
    EscapeIsPrintable(ks[0]);
    TextIsPrintable(v.members[ks[0]]);
    if |ks| > 1 { MembersPrintable(v, ks[1..]); }
  }

  /** One line feed, at the end, and no carriage return: the shape a splitter needs. */
  predicate IsLine(line: seq<Byte>) {
    EndsLine(line) && LF !in line[..|line| - 1] && CR !in line
  }

  lemma CanonicalIsLine(v: Json, line: seq<Byte>)
    requires CanonicalLine(v) == Success(line)
    ensures IsLine(line)
  {
    TextIsPrintable(v);
    EncodeConcat(Text(v), "\n");
    AsciiOnlyItself(Text(v), LF);
    AsciiOnlyItself(Text(v), CR);
    hide Text, HasReal;
    assert Encode("\n") == [LF] by { assert "\n"[1..] == "" && Encode("") == []; }
    assert line == Encode(Text(v)) + [LF];
    assert line[..|line| - 1] == Encode(Text(v));
  }

  /** Decoding accepts exactly the canonical lines of objects, each as its own value. */
  lemma DecodeLineExactly(line: seq<Byte>, v: Json)
    ensures DecodeLine(line) == Success(v) <==> v.Obj? && CanonicalLine(v) == Success(line)
  {
    hide Text, HasReal, Loads, Encode, Decode;
    if CanonicalLine(v) == Success(line) {
      CanonicalIsLine(v, line);
      CanonicalDecodes(v, line);
    }
  }

  // ---- Splitting a file into lines -------------------------------------------

  /** How long the first line of `data` is: up to and with its line feed, carriage return or both. */
  function FirstLineLength(data: seq<Byte>): (n: nat)
    requires data != []
    ensures 1 <= n <= |data|
  {
    if data[0] == LF then 1
    else if data[0] == CR then if |data| > 1 && data[1] == LF then 2 else 1
    else if |data| == 1 then 1
    else 1 + FirstLineLength(data[1..])
  }

  /** Python's `splitlines(keepends=True)` on bytes. */
  function SplitLines(data: seq<Byte>): (lines: seq<seq<Byte>>)
    decreases |data|
  {
    if data == [] then []
    else
      var n := FirstLineLength(data);
      [data[..n]] + SplitLines(data[n..])
  }

  function Concat(lines: seq<seq<Byte>>): seq<Byte> {
    if lines == [] then [] else lines[0] + Concat(lines[1..])
  }

  /** Splitting loses nothing. */
  lemma {:induction false} ConcatSplit(data: seq<Byte>)
    ensures Concat(SplitLines(data)) == data
    decreases |data|
  {
    if data != [] {
      var n := FirstLineLength(data);
      ConcatSplit(data[n..]);
      assert ([data[..n]] + SplitLines(data[n..]))[1..] == SplitLines(data[n..]);
      assert data == data[..n] + data[n..];
    }
  }

  lemma {:induction false} FirstOfLines(line: seq<Byte>, rest: seq<Byte>)
    requires IsLine(line)
    ensures FirstLineLength(line + rest) == |line|
    decreases |line|
  {
    if |line| > 1 {
      assert line[0] in line && line[0] in line[..|line| - 1];
      assert line[1..][..|line| - 2] == line[..|line| - 1][1..];
      FirstOfLines(line[1..], rest);
      assert (line + rest)[1..] == line[1..] + rest;
    }
  }

  /** Concatenated lines split back into themselves. */
  lemma {:induction false} SplitConcat(lines: seq<seq<Byte>>)
    requires forall line <- lines :: IsLine(line)
    ensures SplitLines(Concat(lines)) == lines
  {
    if lines != [] {
      assert IsLine(lines[0]);
      FirstOfLines(lines[0], Concat(lines[1..]));
      SplitConcat(lines[1..]);
      assert (lines[0] + Concat(lines[1..]))[|lines[0]|..] == Concat(lines[1..]);
      assert lines == [lines[0]] + lines[1..];
    }
  }

  lemma {:induction false} ConcatSnoc(lines: seq<seq<Byte>>, line: seq<Byte>)
    ensures Concat(lines + [line]) == Concat(lines) + line
  {
    if lines == [] {
      assert [line][1..] == [];
    } else {
      assert (lines + [line])[1..] == lines[1..] + [line];
      ConcatSnoc(lines[1..], line);
    }
  }
}
