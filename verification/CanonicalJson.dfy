/**
 * JSON values and their canonical text: the ledger's line format.  The grammar is
 * that of sections 4 to 7 of RFC 8259, written with sorted keys, no insignificant
 * white space and every character above U+001F as itself.
 */
module CanonicalJson {
  import opened Wrappers
  import opened Utf8

  /**
   * What a JSON text can stand for.  `Real` is any number with a fraction or an
   * exponent, or one of the three non-finite literals; it keeps its spelling, since
   * such a value is only ever rejected.
   */
  datatype Json =
    | Null
    | Bool(truth: bool)
    | Num(number: int)
    | Real(literal: string)
    | Str(text: string)
    | Arr(items: seq<Json>)
    | Obj(members: map<string, Json>)

  datatype FormatError = FloatForbidden

  predicate HasReal(v: Json) {
    match v
    case Real(_) => true
    case Arr(items) => exists item <- items :: HasReal(item)
    case Obj(members) => exists key <- members :: HasReal(members[key])
    case _ => false
  }

  // ---- Key order -----------------------------------------------------------

  /** Code-point order on strings, a proper prefix first. */
  predicate Before(a: string, b: string) {
    b != "" && (a == "" || a[0] < b[0] || (a[0] == b[0] && Before(a[1..], b[1..])))
  }

  lemma {:induction false} BeforeTotal(a: string, b: string)
    ensures a == b || Before(a, b) || Before(b, a)
  {
    if a != "" && b != "" && a[0] == b[0] {
      BeforeTotal(a[1..], b[1..]);
      assert a == [a[0]] + a[1..] && b == [b[0]] + b[1..];
    }
  }

  lemma {:induction false} BeforeTransitive(a: string, b: string, c: string)
    requires Before(a, b) && Before(b, c)
    ensures Before(a, c)
  {
    if a != "" && a[0] == b[0] == c[0] {
      BeforeTransitive(a[1..], b[1..], c[1..]);
    }
  }

  lemma {:induction false} BeforeIrreflexive(a: string)
    ensures !Before(a, a)
  {
    if a != "" { BeforeIrreflexive(a[1..]); }
  }

  /** `k` comes first among `keys`. */
  predicate IsLeast(k: string, keys: set<string>) {
    k in keys && forall other <- keys :: other == k || Before(k, other)
  }

  lemma LeastExists(keys: set<string>) returns (k: string)
    requires keys != {}
    ensures IsLeast(k, keys)
  {
    k :| k in keys;
    var rest := keys - {k};
    if rest == {} {
      assert forall other <- keys :: other == k || other in rest;
    } else {
      var m := LeastExists(rest);
      BeforeTotal(k, m);
      if Before(k, m) {
        forall other | other in rest && other != m ensures Before(k, other) {
          BeforeTransitive(k, m, other);
        }
      } else {
        k := m;
      }
    }
  }

  lemma LeastUnique(a: string, b: string, keys: set<string>)
    requires IsLeast(a, keys) && IsLeast(b, keys)
    ensures a == b
  {
    if a != b {
      BeforeTransitive(a, b, a);
      BeforeIrreflexive(a);
    }
  }

  function Least(keys: set<string>): (k: string)
    requires keys != {}
    ensures IsLeast(k, keys)
  {
    assert exists k :: k in keys && IsLeast(k, keys) by { var k := LeastExists(keys); }
    assert forall a, b | IsLeast(a, keys) && IsLeast(b, keys) :: a == b by {
      forall a, b | IsLeast(a, keys) && IsLeast(b, keys) ensures a == b { LeastUnique(a, b, keys); }
    }
    var k :| k in keys && IsLeast(k, keys);
    k
  }

  predicate StrictlySorted(ks: seq<string>) {
    forall i, j | 0 <= i < j < |ks| :: Before(ks[i], ks[j])
  }

  /** The keys of an object in the order its text lists them. */
  function SortedKeys(keys: set<string>): (ks: seq<string>)
    ensures StrictlySorted(ks) && (forall k :: k in ks <==> k in keys)
  {
    if keys == {} then [] else
      var k := Least(keys);
      [k] + SortedKeys(keys - {k})
  }

  // ---- Text ----------------------------------------------------------------

  const QUOTE: char := '\"'
  const BACKSLASH: char := '\\'

  function Digit(d: nat): char
    requires d < 16
  {
    if d < 10 then '0' + d as char else 'a' + (d - 10) as char
  }

  function Digits(n: nat): string {
    if n < 10 then [Digit(n)] else Digits(n / 10) + [Digit(n % 10)]
  }

  function IntText(n: int): string {
    if n < 0 then "-" + Digits(-n) else Digits(n)
  }

  function EscapeChar(c: char): (r: string)
    ensures r != ""
  {
    if c == QUOTE then [BACKSLASH, QUOTE]
    else if c == BACKSLASH then [BACKSLASH, BACKSLASH]
    else if c == 8 as char then [BACKSLASH, 'b']
    else if c == 12 as char then [BACKSLASH, 'f']
    else if c == '\n' then [BACKSLASH, 'n']
    else if c == '\r' then [BACKSLASH, 'r']
    else if c == '\t' then [BACKSLASH, 't']
    else if c as int < 0x20 then [BACKSLASH, 'u', '0', '0', Digit(c as int / 16), Digit(c as int % 16)]
    else [c]
  }

  function Escape(s: string): string {
    if s == "" then "" else EscapeChar(s[0]) + Escape(s[1..])
  }

  function Quote(s: string): string { [QUOTE] + Escape(s) + [QUOTE] }

  function Text(v: Json): string
    decreases v, 1
  {
    match v
    case Null => "null"
    case Bool(truth) => if truth then "true" else "false"
    case Num(number) => IntText(number)
    case Real(literal) => literal
    case Str(text) => Quote(text)
    case Arr(items) => if items == [] then "[]" else "[" + ItemsText(v, 0)
    case Obj(members) =>
      var ks := SortedKeys(members.Keys);
      if ks == [] then "{}" else "{" + MembersText(v, ks)
  }

  /** The items from the `i`-th on, and the closing bracket. */
  function ItemsText(v: Json, i: nat): string
    requires v.Arr? && i < |v.items|
    decreases v, 0, |v.items| - i
  {
    Text(v.items[i]) + if i + 1 == |v.items| then "]" else "," + ItemsText(v, i + 1)
  }

  /** The members whose keys are `ks`, and the closing brace. */
  function MembersText(v: Json, ks: seq<string>): string
    requires v.Obj? && ks != [] && forall k <- ks :: k in v.members
    decreases v, 0, |ks|
  {
    Quote(ks[0]) + ":" + Text(v.members[ks[0]]) + if |ks| == 1 then "}" else "," + MembersText(v, ks[1..])
  }

  /** The canonical line of a value: its text and one line feed, in UTF-8. */
  function CanonicalLine(v: Json): Result<seq<Byte>, FormatError> {
    if HasReal(v) then Failure(FloatForbidden) else Success(Encode(Text(v) + "\n"))
  }
}
