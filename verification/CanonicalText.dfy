/**
 * The canonical text spelled out: which characters stand for which value, key order by character
 * codes, and the bytes of every character. Reading a text back does not settle this, since a
 * reader takes many texts for one value.
 */
module CanonicalText {
  import opened Utf8
  import opened Wrappers
  import opened CanonicalJson
  import opened JsonParser
  import opened JsonRoundTrip
  import opened Strings

  // ---- Strings -------------------------------------------------------------------------

  lemma {:induction false} EscapeConcat(s: string, t: string)
    ensures Escape(s + t) == Escape(s) + Escape(t)
  {
    if s == "" {
      assert s + t == t;
    } else {
      assert (s + t)[1..] == s[1..] + t;
      EscapeConcat(s[1..], t);
    }
  }

  predicate IsPlain(c: char) { c as int >= 0x20 && c as int != 0x22 && c as int != 0x5C }

  lemma {:induction false} PlainEscape(s: string)
    requires forall c <- s :: IsPlain(c)
    ensures Escape(s) == s
  {
    if s != "" {
      assert IsPlain(s[0]) && EscapeChar(s[0]) == [s[0]];
      PlainEscape(s[1..]);
      assert s == [s[0]] + s[1..];
    }
  }

  /** Characters from U+0020 on, but for the quote and the backslash, stand for themselves. */
  lemma PlainString(s: string)
    requires forall c <- s :: IsPlain(c)
    ensures Escape(s) == s && Text(Str(s)) == "\"" + s + "\""
  {
    PlainEscape(s);
    hide Escape;
  }

  /** The seven characters with an escape of their own. */
  lemma NamedEscapes()
    ensures Escape([0x22 as char]) == "\\\"" && Escape([0x5C as char]) == "\\\\"
    ensures Escape([0x08 as char]) == "\\b" && Escape([0x0C as char]) == "\\f"
    ensures Escape([0x0A as char]) == "\\n" && Escape([0x0D as char]) == "\\r" && Escape([0x09 as char]) == "\\t"
  {
    assert forall c: char :: [c][1..] == "" && [c][0] == c;
    assert forall s: string :: s + "" == s;
  }

  const HEX := "0123456789abcdef"

  /** Every other control character is written as its code in four lower-case digits. */
  lemma ControlEscape(n: nat)
    requires n < 0x20 && n !in {0x08, 0x09, 0x0A, 0x0C, 0x0D}
    ensures Escape([n as char]) == "\\u00" + [HEX[n / 16], HEX[n % 16]]
  {
    assert [n as char][1..] == "" && Escape("") == "";
    assert EscapeChar(n as char) + "" == EscapeChar(n as char);
    HexDigits(n / 16);
    HexDigits(n % 16);
  }

  lemma HexDigits(d: nat)
    requires d < 16
    ensures Digit(d) == HEX[d]
  {
  }

  // ---- Numbers, literals, arrays -----------------------------------------------------------

  function Power(i: nat): (r: nat)
    ensures r > 0
  {
    if i == 0 then 1 else 10 * Power(i - 1)
  }

  lemma DivideTwice(n: nat, a: nat, b: nat)
    requires a > 0 && b > 0
    ensures a * b > 0 && n / a / b == n / (a * b)
  {
    var q, r := n / a / b, n / a % b;
    var u := r * a + n % a;
    assert n == n / a * a + n % a && n / a == q * b + r;
    assert n == q * (a * b) + u by {
      assert n == (q * b + r) * a + n % a;
    }
    assert 0 <= u < a * b by {
      assert r * a <= (b - 1) * a;
    }
    Quotient(n, a * b, q, u);
  }

  lemma Quotient(n: nat, d: nat, q: int, r: int)
    requires d > 0 && n == q * d + r && 0 <= r < d
    ensures n / d == q
  {
    var k := q - n / d;
    assert k * d == q * d - n / d * d == n % d - r;
    Grows(k, d);
    Grows(-k, d);
    assert -k * d == -(k * d);
  }

  lemma Grows(k: int, d: nat)
    ensures k >= 1 ==> k * d >= d
  {
  }

  /** The digit of `n` for the `i`-th power of ten. */
  function Figure(n: nat, i: nat): char { "0123456789"[n / Power(i) % 10] }

  /** `text` is `n` in decimal: a digit for every power of ten, and no leading zero. */
  ghost predicate IsDecimal(text: string, n: nat) {
    && text != "" && (|text| > 1 ==> Power(|text| - 1) <= n) && n < Power(|text|)
    && forall i: nat | i < |text| :: text[|text| - 1 - i] == Figure(n, i)
  }

  lemma FigureShifts(n: nat, i: nat)
    ensures Figure(n, 0) == "0123456789"[n % 10]
    ensures Figure(n, i + 1) == Figure(n / 10, i)
  {
    DivideTwice(n, 10, Power(i));
    assert Power(0) == 1 && Power(i + 1) == 10 * Power(i);
  }

  lemma PowerBounds(n: nat, k: nat)
    requires k > 0 && Power(k - 1) <= n / 10 < Power(k)
    ensures Power(k) <= n < Power(k + 1)
  {
  }

  lemma DecimalStep(front: string, n: nat)
    requires n >= 10 && IsDecimal(front, n / 10)
    ensures IsDecimal(front + ["0123456789"[n % 10]], n)
  {
    hide Figure, Power;
    var text := front + ["0123456789"[n % 10]];
    forall i: nat | i < |text| ensures text[|text| - 1 - i] == Figure(n, i) {
      FigureShifts(n, if i == 0 then 0 else i - 1);
      if i > 0 { assert front[|front| - 1 - (i - 1)] == Figure(n / 10, i - 1); }
    }
    if |front| == 1 { FirstPower(); }
    PowerBounds(n, |front|);
  }

  lemma FirstPower()
    ensures Power(0) == 1
  {
  }

  lemma {:induction false} DigitsInDecimal(n: nat)
    ensures IsDecimal(Digits(n), n)
  {
    if n < 10 {
      assert Power(0) == 1 && Power(1) == 10 * Power(0);
    } else {
      hide IsDecimal;
      DigitsInDecimal(n / 10);
      DecimalStep(Digits(n / 10), n);
    }
  }

  /** An integer is written in decimal, behind a minus when it is negative. */
  lemma NumberText(n: int)
    ensures n >= 0 ==> IsDecimal(Text(Num(n)), n)
    ensures n < 0 ==> Text(Num(n)) != "" && Text(Num(n))[0] == '-' && IsDecimal(Text(Num(n))[1..], -n)
  {
    DigitsInDecimal(if n < 0 then -n else n);
    assert n < 0 ==> Text(Num(n))[1..] == Digits(-n);
  }

  lemma LiteralTexts()
    ensures Text(Null) == "null" && Text(Bool(true)) == "true" && Text(Bool(false)) == "false"
    ensures Text(Arr([])) == "[]" && Text(Obj(map[])) == "{}"
  {
    var none: map<string, Json> := map[];
    assert none.Keys == {};
    NoKeys();
  }

  lemma NoKeys()
    ensures SortedKeys({}) == []
  {
  }

  function TextsFrom(items: seq<Json>): (r: seq<string>)
    ensures |r| == |items|
  {
    if items == [] then [] else [Text(items[0])] + TextsFrom(items[1..])
  }

  lemma {:induction false} ItemsJoined(v: Json, i: nat)
    requires v.Arr? && i < |v.items|
    ensures ItemsText(v, i) == Join(TextsFrom(v.items[i..]), ',') + "]"
    decreases |v.items| - i
  {
    hide Text;
    var items := v.items[i..];
    assert items[0] == v.items[i] && items[1..] == v.items[i + 1..];
    if i + 1 == |v.items| {
      assert items[1..] == [];
      assert TextsFrom(items) == [Text(v.items[i])];
    } else {
      ItemsJoined(v, i + 1);
      assert TextsFrom(items)[1..] == TextsFrom(items[1..]);
    }
  }

  /** Items stand between brackets, one comma between two. */
  lemma ArrayText(items: seq<Json>)
    requires items != []
    ensures Text(Arr(items)) == "[" + Join(TextsFrom(items), ',') + "]"
  {
    ItemsJoined(Arr(items), 0);
    assert items[0..] == items;
  }

  // ---- Objects -----------------------------------------------------------------------------

  /** `a` and `b` agree up to `k`, where `a` ends first or has the smaller character code. */
  predicate DiffersAt(a: string, b: string, k: nat) {
    && k <= |a| && k < |b| && a[..k] == b[..k]
    && (k == |a| || a[k] as int < b[k] as int)
  }

  ghost predicate CodeOrder(a: string, b: string) { exists k: nat :: DiffersAt(a, b, k) }

  /** The order of keys is the order of their character codes, a proper prefix first. */
  lemma {:induction false} BeforeIsCodeOrder(a: string, b: string)
    ensures Before(a, b) <==> CodeOrder(a, b)
  {
    if b != "" {
      if a == "" {
        assert DiffersAt(a, b, 0);
      } else if a[0] != b[0] {
        if a[0] < b[0] { assert DiffersAt(a, b, 0); }
        assert forall k: nat | DiffersAt(a, b, k) :: k > 0 ==> a[..k][0] == b[..k][0];
      } else {
        BeforeIsCodeOrder(a[1..], b[1..]);
        assert a == [a[0]] + a[1..] && b == [b[0]] + b[1..];
        if k: nat :| DiffersAt(a[1..], b[1..], k) {
          assert a[..k + 1] == [a[0]] + a[1..][..k] && b[..k + 1] == [b[0]] + b[1..][..k];
          assert DiffersAt(a, b, k + 1);
        }
        if k: nat :| DiffersAt(a, b, k) {
          assert k > 0;
          assert a[1..][..k - 1] == a[..k][1..] && b[1..][..k - 1] == b[..k][1..];
          assert DiffersAt(a[1..], b[1..], k - 1);
        }
      }
    }
  }

  /** Keys in ascending order, each once. */
  ghost predicate Ascending(ks: seq<string>) {
    forall i, j | 0 <= i < j < |ks| :: CodeOrder(ks[i], ks[j])
  }

  lemma AscendingIsSorted(ks: seq<string>)
    ensures Ascending(ks) <==> StrictlySorted(ks)
  {
    hide Before, CodeOrder;
    forall i, j | 0 <= i < j < |ks| ensures Before(ks[i], ks[j]) <==> CodeOrder(ks[i], ks[j]) {
      BeforeIsCodeOrder(ks[i], ks[j]);
    }
  }

  lemma FirstKey(ks: seq<string>, keys: set<string>)
    requires StrictlySorted(ks) && ks != [] && forall k :: k in ks <==> k in keys
    ensures IsLeast(ks[0], keys)
    ensures forall k :: k in ks[1..] <==> k in keys - {ks[0]}
    ensures StrictlySorted(ks[1..])
  {
    hide Before;
    forall k | k in keys ensures k == ks[0] || Before(ks[0], k) {
      var i :| 0 <= i < |ks| && ks[i] == k;
    }
    forall k ensures k in ks[1..] <==> k in keys - {ks[0]} {
      if k in ks[1..] {
        var i :| 0 <= i < |ks| - 1 && ks[1..][i] == k;
        assert ks[i + 1] == k && Before(ks[0], ks[i + 1]);
        BeforeIrreflexive(ks[0]);
      }
      if k in keys - {ks[0]} {
        var i :| 0 <= i < |ks| && ks[i] == k;
        assert ks[1..][i - 1] == k;
      }
    }
  }

  /** There is one way only to put keys in order. */
  lemma {:induction false} OneOrder(ks: seq<string>, keys: set<string>)
    requires StrictlySorted(ks) && forall k :: k in ks <==> k in keys
    ensures SortedKeys(keys) == ks
    decreases |ks|
  {
    hide Before, StrictlySorted;
    if ks == [] {
      assert keys == {};
    } else {
      assert ks[0] in keys;
      FirstKey(ks, keys);
      LeastUnique(ks[0], Least(keys), keys);
      OneOrder(ks[1..], keys - {ks[0]});
      assert ks == [ks[0]] + ks[1..];
    }
  }

  /** The members with the keys `ks`: quoted key, colon, text. */
  function MembersFrom(members: map<string, Json>, ks: seq<string>): (r: seq<string>)
    requires forall k <- ks :: k in members
    ensures |r| == |ks|
  {
    if ks == [] then []
    else ["\"" + Escape(ks[0]) + "\":" + Text(members[ks[0]])] + MembersFrom(members, ks[1..])
  }

  lemma {:induction false} MembersJoined(v: Json, ks: seq<string>)
    requires v.Obj? && ks != [] && forall k <- ks :: k in v.members
    ensures MembersText(v, ks) == Join(MembersFrom(v.members, ks), ',') + "}"
    decreases |ks|
  {
    hide Text, Escape;
    var first := "\"" + Escape(ks[0]) + "\":" + Text(v.members[ks[0]]);
    assert Quote(ks[0]) + ":" + Text(v.members[ks[0]]) == first;
    if |ks| == 1 {
      assert ks[1..] == [];
      assert MembersFrom(v.members, ks) == [first];
    } else {
      MembersJoined(v, ks[1..]);
      assert MembersFrom(v.members, ks)[1..] == MembersFrom(v.members, ks[1..]);
    }
  }

  /** Members stand between braces, one comma between two, with their keys in ascending order. */
  lemma ObjectText(members: map<string, Json>, ks: seq<string>)
    requires ks != [] && Ascending(ks) && forall k :: k in ks <==> k in members
    ensures Text(Obj(members)) == "{" + Join(MembersFrom(members, ks), ',') + "}"
  {
    hide Ascending, Join, MembersFrom;
    AscendingIsSorted(ks);
    OneOrder(ks, members.Keys);
    MembersJoined(Obj(members), ks);
  }

  // ---- Real numbers ------------------------------------------------------------------------

  datatype Hop = Nth(i: nat) | Under(key: string)

  /** The value that a path leads to. */
  function At(v: Json, path: seq<Hop>): Option<Json>
    decreases |path|
  {
    if path == [] then Some(v)
    else
      match (v, path[0])
      case (Arr(items), Nth(i)) => if i < |items| then At(items[i], path[1..]) else None
      case (Obj(members), Under(key)) => if key in members then At(members[key], path[1..]) else None
      case _ => None
  }

  ghost predicate RealAt(v: Json, path: seq<Hop>) { At(v, path).Some? && At(v, path).value.Real? }

  lemma RealBelow(v: Json, hop: Hop, path: seq<Hop>)
    ensures RealAt(v, [hop] + path) <==>
      match (v, hop)
      case (Arr(items), Nth(i)) => i < |items| && RealAt(items[i], path)
      case (Obj(members), Under(key)) => key in members && RealAt(members[key], path)
      case _ => false
  {
    assert ([hop] + path)[1..] == path;
  }

  /** A value has no line exactly when some path in it leads to a real number. */
  lemma {:induction false} RealExactly(v: Json)
    ensures HasReal(v) <==> exists path :: RealAt(v, path)
  {
    hide RealAt;
    match v
    case Arr(items) =>
      forall item | item in items ensures HasReal(item) <==> exists path :: RealAt(item, path) { RealExactly(item); }
      if HasReal(v) {
        var i :| 0 <= i < |items| && HasReal(items[i]);
        var path: seq<Hop> :| RealAt(items[i], path);
        RealBelow(v, Nth(i), path);
      }
      if path: seq<Hop> :| RealAt(v, path) {
        RealHop(v, path);
        RealBelow(v, path[0], path[1..]);
        assert path[0].Nth? && path[0].i < |items| && RealAt(items[path[0].i], path[1..]);
        assert items[path[0].i] in items;
      }
    case Obj(members) =>
      forall key | key in members ensures HasReal(members[key]) <==> exists path :: RealAt(members[key], path) {
        RealExactly(members[key]);
      }
      if HasReal(v) {
        var key :| key in members && HasReal(members[key]);
        var path: seq<Hop> :| RealAt(members[key], path);
        RealBelow(v, Under(key), path);
      }
      if path: seq<Hop> :| RealAt(v, path) {
        RealHop(v, path);
        RealBelow(v, path[0], path[1..]);
      }
    case Real(_) => RealHere(v);
    case _ =>
      if path: seq<Hop> :| RealAt(v, path) { RealHop(v, path); RealBelow(v, path[0], path[1..]); }
  }

  lemma RealHere(v: Json)
    ensures RealAt(v, []) <==> v.Real?
  {
  }

  lemma RealHop(v: Json, path: seq<Hop>)
    requires RealAt(v, path) && !v.Real?
    ensures path != [] && path == [path[0]] + path[1..]
  {
  }

  // ---- Lines and bytes ---------------------------------------------------------------------

  /** A canonical line is the bytes of the text and one byte 0x0A; only a real number has none. */
  lemma LineSpelled(v: Json)
    ensures CanonicalLine(v) == if HasReal(v) then Failure(FloatForbidden) else Success(Encode(Text(v)) + [0x0A])
  {
    EncodeConcat(Text(v), "\n");
    assert Encode("\n") == [0x0A] by { assert "\n"[1..] == "" && Encode("") == []; }
    hide Text, HasReal;
  }

  /** The bytes of a character: as few as it needs, their leading bits and their payload. */
  lemma CharacterBytes(c: char)
    ensures
      var n := c as int;
      var b: seq<int> := EncodeChar(c);
      && |b| == (if n < 0x80 then 1 else if n < 0x800 then 2 else if n < 0x1_0000 then 3 else 4)
      && (forall k | 1 <= k < |b| :: 0x80 <= b[k] < 0xC0)
      && (|b| == 1 ==> n == b[0])
      && (|b| == 2 ==> 0xC0 <= b[0] < 0xE0 && n == (b[0] - 0xC0) * 0x40 + (b[1] - 0x80))
      && (|b| == 3 ==>
            0xE0 <= b[0] < 0xF0 && n == (b[0] - 0xE0) * 0x1000 + (b[1] - 0x80) * 0x40 + (b[2] - 0x80))
      && (|b| == 4 ==>
            && 0xF0 <= b[0] < 0xF8
            && n == (b[0] - 0xF0) * 0x4_0000 + (b[1] - 0x80) * 0x1000 + (b[2] - 0x80) * 0x40 + (b[3] - 0x80))
  {
    var n := c as int;
    if 0x800 <= n < 0x1_0000 {
      assert n == n / 4096 * 4096 + n / 64 % 64 * 64 + n % 64;
    } else if 0x1_0000 <= n {
      assert n == n / 262144 * 262144 + n / 4096 % 64 * 4096 + n / 64 % 64 * 64 + n % 64;
    }
  }
}
