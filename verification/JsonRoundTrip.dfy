/** Reading a canonical text gives back exactly the value it was written from. */
module JsonRoundTrip {
  import opened Utf8
  import opened Wrappers
  import opened CanonicalJson
  import opened JsonParser

  // ---- Strings -------------------------------------------------------------

  lemma EscapedChar(c: char, rest: string)
    ensures EscapeChar(c)[0] != QUOTE
    ensures StringChar(EscapeChar(c) + rest) == Got(c, rest)
  {
    var s := EscapeChar(c) + rest;
    if |EscapeChar(c)| == 6 {
      var n := c as int;
      assert s[2..][..4] == EscapeChar(c)[2..];
      assert Hex4(s[2..]) == Some(n) by {
        assert HexValue(Digit(n / 16)) == Some(n / 16) && HexValue(Digit(n % 16)) == Some(n % 16);
      }
      assert s[2..][4..] == rest;
    } else if |EscapeChar(c)| == 2 {
      assert s[2..] == rest;
    } else {
      assert s[1..] == rest;
    }
  }

  lemma {:induction false} EscapedBody(text: string, rest: string)
    ensures StringBody(Escape(text) + [QUOTE] + rest) == Got(text, rest)
  {
    if text == "" {
      assert Escape(text) + [QUOTE] + rest == [QUOTE] + rest;
    } else {
      var after := Escape(text[1..]) + [QUOTE] + rest;
      EscapedChar(text[0], after);
      assert Escape(text) + [QUOTE] + rest == EscapeChar(text[0]) + after;
      EscapedBody(text[1..], rest);
      assert text == [text[0]] + text[1..];
    }
  }

  lemma QuotedBody(text: string, rest: string)
    ensures Next(Quote(text) + rest, QUOTE)
    ensures StringBody((Quote(text) + rest)[1..]) == Got(text, rest)
  {
    assert (Quote(text) + rest)[1..] == Escape(text) + [QUOTE] + rest;
    EscapedBody(text, rest);
  }

  // ---- Numbers -------------------------------------------------------------

  lemma {:induction false} DigitsShape(n: nat)
    ensures Digits(n) != "" && (forall d <- Digits(n) :: IsDigit(d))
    ensures Digits(n)[0] == '0' ==> n == 0 && |Digits(n)| == 1
    ensures DigitsValue(Digits(n)) == n
  {
    if n < 10 {
      assert Digits(n)[..0] == "";
    } else {
      DigitsShape(n / 10);
      assert Digits(n)[..|Digits(n)| - 1] == Digits(n / 10);
    }
  }

  /** What may follow a value in canonical text. */
  predicate Ended(rest: string) { rest == "" || rest[0] in ",]}\n" }

  lemma DigitRunExact(ds: string, rest: string)
    requires forall d <- ds :: IsDigit(d)
    requires rest == "" || !IsDigit(rest[0])
    ensures DigitRun(ds + rest) == |ds|
  {
    var s := ds + rest;
    assert forall i | 0 <= i < |ds| :: s[i] == ds[i] && s[i] in ds;
    assert rest != "" ==> s[|ds|] == rest[0];
  }

  lemma IntParses(n: int, rest: string)
    requires Ended(rest)
    ensures NumberValue(IntText(n) + rest) == Got(Num(n), rest)
  {
    var magnitude: nat := if n < 0 then -n else n;
    DigitsShape(magnitude);
    DigitRunExact(Digits(magnitude), rest);
    SignedParses(n, Digits(magnitude), rest);
  }

  /** A sign, a run of digits that starts with no superfluous zero, and what ends it. */
  lemma SignedParses(n: int, ds: string, rest: string)
    requires Ended(rest) && ds != "" && (forall d <- ds :: IsDigit(d))
    requires (ds[0] == '0' ==> n == 0 && |ds| == 1) && DigitRun(ds + rest) == |ds|
    requires DigitsValue(ds) == if n < 0 then -n else n
    ensures NumberValue((if n < 0 then "-" + ds else ds) + rest) == Got(Num(n), rest)
  {
    hide DigitsValue, DigitRun, FractionLength, ExponentLength, NumberValue;
    var sign := if n < 0 then "-" else "";
    var s := sign + ds + rest;
    assert IsDigit(ds[0]);
    assert s == (if n < 0 then "-" + ds else ds) + rest;
    assert s[|sign|..] == ds + rest && s[|sign|] == ds[0];
    assert s[|sign|..|sign| + |ds|] == ds;
    assert s[|sign| + |ds|..] == rest;
    PlainInteger(rest);
    SignedAt(s, |sign|, |ds|);
  }

  /** A number read at known places. */
  lemma SignedAt(s: string, sign: nat, run: nat)
    requires sign == (if Next(s, '-') then 1 else 0) && run > 0 && sign + run <= |s|
    requires DigitRun(s[sign..]) == run && (s[sign] == '0' ==> run == 1)
    requires forall d <- s[sign..sign + run] :: IsDigit(d)
    requires FractionLength(s[sign + run..]) == 0 && ExponentLength(s[sign + run..]) == 0
    ensures
      var n: int := DigitsValue(s[sign..sign + run]);
      NumberValue(s) == Got(Num(if sign == 1 then -n else n), s[sign + run..])
  {
    hide DigitsValue, DigitRun, FractionLength, ExponentLength;
    assert sign + run + 0 == sign + run;
  }

  lemma PlainInteger(rest: string)
    requires Ended(rest)
    ensures FractionLength(rest) == 0 && ExponentLength(rest) == 0
  {
  }

  // ---- Values --------------------------------------------------------------

  lemma DigitsStart(n: nat)
    ensures Digits(n) != "" && IsDigit(Digits(n)[0])
  {
    DigitsShape(n);
  }

  /** A canonical text starts with a character no reader skips or takes for a closing bracket. */
  lemma TextStarts(v: Json)
    requires !HasReal(v)
    ensures Text(v) != "" && !IsSpace(Text(v)[0]) && Text(v)[0] !in "]}"
  {
    if v.Num? { DigitsStart(if v.number < 0 then -v.number else v.number); }
  }

  /** Text that starts like a number is read as one. */
  lemma NumberDispatch(s: string)
    requires s != "" && (IsDigit(s[0]) || (s[0] == '-' && |s| > 1 && IsDigit(s[1])))
    ensures Value(s) == NumberValue(s)
  {
    hide NumberValue, StringBody, SkipSpace, Items, Members;
    assert |s| > 8 ==> s[1..][..8][0] == s[1];
  }

  lemma NumberParses(n: int, rest: string)
    requires Ended(rest)
    ensures Value(Text(Num(n)) + rest) == Got(Num(n), rest)
  {
    var magnitude: nat := if n < 0 then -n else n;
    DigitsStart(magnitude);
    IntParses(n, rest);
    hide NumberValue, Digits, Value;
    assert n < 0 ==> IntText(n)[1] == Digits(magnitude)[0];
    NumberDispatch(IntText(n) + rest);
  }

  /** The members of `v` whose keys are in `ks`. */
  ghost function Restrict(v: Json, ks: seq<string>): map<string, Json>
    requires v.Obj? && forall k <- ks :: k in v.members
  {
    map k | k in ks :: v.members[k]
  }

  lemma {:induction false} TextParses(v: Json, rest: string)
    requires !HasReal(v) && Ended(rest)
    ensures Value(Text(v) + rest) == Got(v, rest)
    decreases v, 1
  {
    match v
    case Null => assert ("null" + rest)[4..] == rest;
    case Bool(truth) =>
      if truth { assert ("true" + rest)[4..] == rest; } else { assert ("false" + rest)[5..] == rest; }
    case Num(n) => NumberParses(n, rest);
    case Str(text) => QuotedBody(text, rest);
    case Arr(items) => ArrayParses(v, rest);
    case Obj(members) => ObjectParses(v, rest);
  }

  lemma {:induction false} ArrayParses(v: Json, rest: string)
    requires v.Arr? && !HasReal(v)
    ensures Value(Text(v) + rest) == Got(v, rest)
    decreases v, 0, |v.items| + 1
  {
    hide Items, ItemsText, HasReal;
    if v.items == [] {
      assert ("[]" + rest)[1..] == "]" + rest;
    } else {
      NoRealInside(v);
      ItemsStart(v, 0);
      ItemsParse(v, 0, rest);
      var body := ItemsText(v, 0) + rest;
      assert Text(v) + rest == "[" + body;
      assert ("[" + body)[1..] == body;
    }
  }

  /** One turn of the item reader. */
  lemma ItemsStep(s: string, item: Json, tail: string)
    requires Value(s) == Got(item, tail) && tail != ""
    ensures tail[0] == ']' ==> Items(s) == Got([item], tail[1..])
    ensures tail[0] == ',' ==>
      match Items(SkipSpace(tail[1..]))
      case Got(items, end) => Items(s) == Got([item] + items, end)
      case Malformed => Items(s) == Malformed
  {
    hide Value;
    assert tail[0] in "]," ==> SkipSpace(tail) == tail;
  }

  lemma NoRealInside(v: Json)
    requires !HasReal(v)
    ensures v.Arr? ==> forall item <- v.items :: !HasReal(item)
    ensures v.Obj? ==> forall k <- v.members :: !HasReal(v.members[k])
  {
  }

  /** What follows the `i`-th item. */
  ghost function AfterItem(v: Json, i: nat, rest: string): string
    requires v.Arr? && i < |v.items|
  {
    if i + 1 == |v.items| then "]" + rest else "," + (ItemsText(v, i + 1) + rest)
  }

  lemma ItemsJoin(v: Json, i: nat, rest: string)
    requires v.Arr? && i < |v.items|
    requires Value(Text(v.items[i]) + AfterItem(v, i, rest)) == Got(v.items[i], AfterItem(v, i, rest))
    requires i + 1 < |v.items| ==>
      var more := ItemsText(v, i + 1);
      more != "" && !IsSpace(more[0]) && Items(more + rest) == Got(v.items[i + 1..], rest)
    ensures Items(ItemsText(v, i) + rest) == Got(v.items[i..], rest)
  {
    hide Value, Text, Items;
    var tail := AfterItem(v, i, rest);
    assert ItemsText(v, i) + rest == Text(v.items[i]) + tail;
    ItemsStep(Text(v.items[i]) + tail, v.items[i], tail);
    if i + 1 < |v.items| {
      assert tail[1..] == ItemsText(v, i + 1) + rest;
      assert [v.items[i]] + v.items[i + 1..] == v.items[i..];
    } else {
      assert tail[1..] == rest && v.items[i..] == [v.items[i]];
    }
  }

  lemma ItemsStart(v: Json, i: nat)
    requires v.Arr? && i < |v.items| && !HasReal(v.items[i])
    ensures ItemsText(v, i) != "" && !IsSpace(ItemsText(v, i)[0]) && ItemsText(v, i)[0] !in "]}"
  {
    TextStarts(v.items[i]);
    var item := Text(v.items[i]);
    assert ItemsText(v, i)[0] == item[0];
  }

  lemma {:induction false} ItemsParse(v: Json, i: nat, rest: string)
    requires v.Arr? && !HasReal(v) && i < |v.items|
    ensures Items(ItemsText(v, i) + rest) == Got(v.items[i..], rest)
    decreases v, 0, |v.items| - i
  {
    hide Value, Items, Text, ItemsText, HasReal;
    NoRealInside(v);
    if i + 1 < |v.items| {
      ItemsStart(v, i + 1);
      ItemsParse(v, i + 1, rest);
    }
    TextParses(v.items[i], AfterItem(v, i, rest));
    ItemsJoin(v, i, rest);
  }

  lemma {:induction false} ObjectParses(v: Json, rest: string)
    requires v.Obj? && !HasReal(v)
    ensures Value(Text(v) + rest) == Got(v, rest)
    decreases v, 0, |SortedKeys(v.members.Keys)| + 1
  {
    hide Value, Members, MembersText, HasReal;
    var ks := SortedKeys(v.members.Keys);
    if ks == [] {
      EmptyObject(v, rest);
    } else {
      MembersParse(v, ks, map[], rest);
      MembersStart(v, ks);
      assert map[] + Restrict(v, ks) == v.members;
      var body := MembersText(v, ks) + rest;
      assert Text(v) + rest == "{" + body;
      ObjectDispatch(body);
    }
  }

  lemma MembersStart(v: Json, ks: seq<string>)
    requires v.Obj? && ks != [] && forall k <- ks :: k in v.members
    ensures Next(MembersText(v, ks), QUOTE)
  {
    hide Text;
  }

  lemma EmptyObject(v: Json, rest: string)
    requires v.Obj? && SortedKeys(v.members.Keys) == []
    ensures Value(Text(v) + rest) == Got(v, rest)
  {
    hide Members;
    assert v.members.Keys == {};
    assert v.members == map[];
    assert ("{}" + rest)[1..] == "}" + rest;
  }

  /** A brace followed by a key starts an object with members. */
  lemma ObjectDispatch(body: string)
    requires Next(body, QUOTE)
    ensures Value("{" + body) == Members(body, map[])
  {
    hide Members;
    assert ("{" + body)[1..] == body && SkipSpace(body) == body;
  }

  /** One turn of the member reader. */
  lemma MembersStep(key: string, body: string, item: Json, tail: string, seen: map<string, Json>)
    requires body != "" && !IsSpace(body[0]) && Value(body) == Got(item, tail) && tail != ""
    ensures
      var s := Quote(key) + (":" + body);
      && (tail[0] == '}' ==> Members(s, seen) == Got(Obj(seen[key := item]), tail[1..]))
      && (tail[0] == ',' ==> Members(s, seen) == Members(SkipSpace(tail[1..]), seen[key := item]))
  {
    QuotedBody(key, ":" + body);
    hide Value, StringBody, Quote;
    var colon := ":" + body;
    assert SkipSpace(colon) == colon && colon[1..] == body && SkipSpace(body) == body;
    assert tail[0] in "}," ==> SkipSpace(tail) == tail;
  }

  /** What follows the value of the member `ks[0]`. */
  ghost function AfterMember(v: Json, ks: seq<string>, rest: string): string
    requires v.Obj? && ks != [] && forall k <- ks :: k in v.members
  {
    if |ks| == 1 then "}" + rest else "," + (MembersText(v, ks[1..]) + rest)
  }

  lemma MembersJoin(v: Json, ks: seq<string>, seen: map<string, Json>, rest: string)
    requires v.Obj? && ks != [] && forall k <- ks :: k in v.members
    requires
      var item, tail := v.members[ks[0]], AfterMember(v, ks, rest);
      && Value(Text(item) + tail) == Got(item, tail)
      && Text(item) != "" && !IsSpace(Text(item)[0])
    requires |ks| > 1 ==>
      && Next(MembersText(v, ks[1..]), QUOTE)
      && Members(MembersText(v, ks[1..]) + rest, seen[ks[0] := v.members[ks[0]]])
        == Got(Obj(seen[ks[0] := v.members[ks[0]]] + Restrict(v, ks[1..])), rest)
    ensures Members(MembersText(v, ks) + rest, seen) == Got(Obj(seen + Restrict(v, ks)), rest)
  {
    hide Value, Text, Members, Quote;
    var key, item := ks[0], v.members[ks[0]];
    var tail := AfterMember(v, ks, rest);
    assert MembersText(v, ks) + rest == Quote(key) + (":" + (Text(item) + tail));
    MembersStep(key, Text(item) + tail, item, tail, seen);
    RestrictStep(v, ks, seen);
    hide MembersText, Restrict;
    if |ks| == 1 {
      assert tail[1..] == rest;
    } else {
      var more := MembersText(v, ks[1..]) + rest;
      assert tail[1..] == more && SkipSpace(more) == more;
    }
  }

  lemma RestrictStep(v: Json, ks: seq<string>, seen: map<string, Json>)
    requires v.Obj? && ks != [] && forall k <- ks :: k in v.members
    ensures |ks| == 1 ==> seen[ks[0] := v.members[ks[0]]] == seen + Restrict(v, ks)
    ensures seen[ks[0] := v.members[ks[0]]] + Restrict(v, ks[1..]) == seen + Restrict(v, ks)
  {
    assert ks == [ks[0]] + ks[1..];
    assert |ks| == 1 ==> ks == [ks[0]];
  }

  lemma {:induction false} MembersParse(v: Json, ks: seq<string>, seen: map<string, Json>, rest: string)
    requires v.Obj? && !HasReal(v) && ks != [] && forall k <- ks :: k in v.members
    ensures Members(MembersText(v, ks) + rest, seen) == Got(Obj(seen + Restrict(v, ks)), rest)
    decreases v, 0, |ks|
  {
    hide Value, Members, Text, MembersText, HasReal;
    NoRealInside(v);
    if |ks| > 1 {
      MembersStart(v, ks[1..]);
      MembersParse(v, ks[1..], seen[ks[0] := v.members[ks[0]]], rest);
    }
    TextStarts(v.members[ks[0]]);
    TextParses(v.members[ks[0]], AfterMember(v, ks, rest));
    MembersJoin(v, ks, seen, rest);
  }
}
