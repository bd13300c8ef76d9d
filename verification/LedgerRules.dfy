/**
 * The rules of a ledger entry in its own fields: its nine keys, the shapes of its texts character
 * by character, its number, its link and its digest; and verified files in these terms.
 */
module LedgerRules {
  import opened Wrappers
  import opened Utf8
  import opened CanonicalJson
  import opened CanonicalText
  import opened LedgerLines
  import opened LedgerChain

  /** A four-digit year, a month, a day, the letter T, and hours, minutes and seconds before a Z. */
  predicate IsStamp(decimal: char -> bool, s: string) {
    && |s| == 20
    && decimal(s[0]) && decimal(s[1]) && decimal(s[2]) && decimal(s[3]) && s[4] == '-'
    && decimal(s[5]) && decimal(s[6]) && s[7] == '-' && decimal(s[8]) && decimal(s[9]) && s[10] == 'T'
    && decimal(s[11]) && decimal(s[12]) && s[13] == ':' && decimal(s[14]) && decimal(s[15]) && s[16] == ':'
    && decimal(s[17]) && decimal(s[18]) && s[19] == 'Z'
  }

  lemma StampExactly(decimal: char -> bool, s: string)
    ensures IsTimestamp(decimal, s) <==> IsStamp(decimal, s)
  {
    var shape := "0000-00-00T00:00:00Z";
    if IsTimestamp(decimal, s) {
      assert forall i | 0 <= i < 20 :: if shape[i] == '0' then decimal(s[i]) else s[i] == shape[i];
      assert decimal(s[0]) && decimal(s[1]) && decimal(s[2]) && decimal(s[3]) && s[4] == '-';
      assert decimal(s[5]) && decimal(s[6]) && s[7] == '-' && decimal(s[8]) && decimal(s[9]) && s[10] == 'T';
    }
  }

  predicate IsLetterOrDigit(c: char) {
    || 0x30 <= c as int <= 0x39 || 0x41 <= c as int <= 0x5A || 0x61 <= c as int <= 0x7A
  }

  /** One to 64 letters and digits of ASCII, or after the first one of the marks `_`, `.`, `:` and `-`. */
  predicate IsName(s: string) {
    && 1 <= |s| <= 64
    && forall i | 0 <= i < |s| ::
         IsLetterOrDigit(s[i]) || (i > 0 && (s[i] == '_' || s[i] == '.' || s[i] == ':' || s[i] == '-'))
  }

  lemma NameExactly(s: string)
    ensures IsIdentifier(s) <==> IsName(s)
  {
    forall c: char ensures IsAlphanumeric(c) <==> IsLetterOrDigit(c) {}
    forall c: char ensures c in "_.:-" <==> c == '_' || c == '.' || c == ':' || c == '-' {}
    if IsName(s) { assert IsLetterOrDigit(s[0]); }
    forall c | c in s && IsName(s) ensures IsAlphanumeric(c) || c in "_.:-" {
      var i :| 0 <= i < |s| && s[i] == c;
    }
    hide IsAlphanumeric, IsLetterOrDigit;
  }

  /** Sixty-four hexadecimal digits, in lower case. */
  predicate IsDigest(s: string) {
    |s| == 64 && forall i | 0 <= i < |s| :: 0x30 <= s[i] as int <= 0x39 || 0x61 <= s[i] as int <= 0x66
  }

  lemma DigestExactly(s: string)
    ensures HashShape(s) <==> IsDigest(s)
  {
    assert forall i | 0 <= i < |s| :: s[i] in s;
  }

  /** A number, or the truth value that equals it. */
  predicate Counts(v: Json, n: nat) {
    match v case Num(k) => k == n case Bool(truth) => n == (if truth then 1 else 0) case _ => false
  }

  /** The entry number `n` of a file, `link` being what it has to name as its predecessor. */
  predicate IsEntry(rules: Rules, e: Members, n: nat, link: Json) {
    && e.Keys == {"schema_version", "sequence", "previous_entry_hash", "timestamp_utc", "task_id", "action_class",
         "arguments", "status", "entry_hash"}
    && Counts(e["schema_version"], 1) && Counts(e["sequence"], n) && e["previous_entry_hash"] == link
    && e["timestamp_utc"].Str? && IsStamp(rules.decimal, e["timestamp_utc"].text)
    && e["task_id"].Str? && IsName(e["task_id"].text) && e["action_class"].Str? && IsName(e["action_class"].text)
    && e["status"].Str? && IsName(e["status"].text)
    && e["entry_hash"].Str? && IsDigest(e["entry_hash"].text)
    && !HasReal(Obj(e - {"entry_hash"}))
    && rules.hash(Encode(Text(Obj(e - {"entry_hash"}))) + [0x0A]) == e["entry_hash"].text
    && e["arguments"].Obj?
    && (n == 0 ==>
          rules.genesis(e["arguments"].members) && e["action_class"].text == "bootstrap" && e["task_id"].text == "02")
    && (n > 0 ==> rules.safe(e["arguments"].members))
  }

  lemma ThreeNames(e: Members)
    ensures (forall key <- ["task_id", "action_class", "status"] :: HasStr(e, key) && IsIdentifier(e[key].text)) <==>
      && "task_id" in e && e["task_id"].Str? && IsName(e["task_id"].text)
      && "action_class" in e && e["action_class"].Str? && IsName(e["action_class"].text)
      && "status" in e && e["status"].Str? && IsName(e["status"].text)
  {
    forall key | HasStr(e, key) ensures IsIdentifier(e[key].text) <==> IsName(e[key].text) {
      NameExactly(e[key].text);
    }
    hide IsIdentifier, IsName;
    var keys := ["task_id", "action_class", "status"];
    assert keys[0] in keys && keys[1] in keys && keys[2] in keys;
  }

  /** Verification accepts an entry exactly when it keeps these rules. */
  lemma EntryExactly(rules: Rules, e: Members, n: nat, previous: Option<string>)
    ensures ValidEntry(rules, e, n, previous) <==> IsEntry(rules, e, n, PreviousField(previous))
  {
    hide IsIdentifier, IsName, HashShape, IsDigest, IsTimestamp, IsStamp, CanonicalLine, HasReal, Text, Encode;
    LineSpelled(Obj(e - {"entry_hash"}));
    ThreeNames(e);
    if "timestamp_utc" in e && e["timestamp_utc"].Str? { StampExactly(rules.decimal, e["timestamp_utc"].text); }
    if "entry_hash" in e && e["entry_hash"].Str? { DigestExactly(e["entry_hash"].text); }
  }

  /** What the entry number `i` has to name as its predecessor: nothing, or the digest before it. */
  function LinkOf(es: seq<Members>, i: nat): Json
    requires i < |es|
  {
    if i > 0 && "entry_hash" in es[i - 1] then es[i - 1]["entry_hash"] else Null
  }

  /** Numbers from zero, each entry naming the digest of the one before it, and the first none. */
  predicate IsHistory(rules: Rules, es: seq<Members>) {
    && es != []
    && forall i | 0 <= i < |es| :: IsEntry(rules, es[i], i, LinkOf(es, i))
  }

  /** The lines of a file: for each entry the bytes of its text, and a line feed. */
  function BytesOf(es: seq<Members>): seq<Byte> {
    if es == [] then [] else BytesOf(es[..|es| - 1]) + Encode(Text(Obj(es[|es| - 1]))) + [0x0A]
  }

  lemma RealInEntry(e: Members)
    requires "entry_hash" in e && e["entry_hash"].Str?
    ensures HasReal(Obj(e)) <==> HasReal(Obj(e - {"entry_hash"}))
  {
    var rest := e - {"entry_hash"};
    forall key | key in rest ensures rest[key] == e[key] {}
    assert !HasReal(e["entry_hash"]);
    if HasReal(Obj(e)) {
      var key :| key in e && HasReal(e[key]);
      assert key in rest && HasReal(rest[key]);
    }
  }

  lemma {:induction false} HistoryIsChain(rules: Rules, es: seq<Members>)
    ensures Chain(rules, es) <==> IsHistory(rules, es)
  {
    hide ValidEntry, IsEntry, CanonicalLine, HasReal;
    if es != [] {
      if Chain(rules, es) {
        forall i | 0 <= i < |es|
          ensures IsEntry(rules, es[i], i, LinkOf(es, i))
        {
          assert LinkValid(rules, es, i);
          if i > 0 { assert LinkValid(rules, es, i - 1); LinkExactly(rules, es, i - 1); }
          EntryExactly(rules, es[i], i, DigestBefore(es, i));
        }
      }
      if IsHistory(rules, es) {
        forall i | 0 <= i < |es| ensures LinkValid(rules, es, i) {
          if i > 0 { HashOf(rules, es, i - 1); }
          HashOf(rules, es, i);
          EntryExactly(rules, es[i], i, DigestBefore(es, i));
          RealInEntry(es[i]);
          LineSpelled(Obj(es[i]));
        }
      }
    }
  }

  lemma LinkExactly(rules: Rules, es: seq<Members>, i: nat)
    requires i < |es| && LinkValid(rules, es, i)
    ensures "entry_hash" in es[i] && es[i]["entry_hash"] == Str(EntryDigest(es[i]))
  {
    hide CanonicalLine;
  }

  lemma HashOf(rules: Rules, es: seq<Members>, i: nat)
    requires i < |es| && IsHistory(rules, es)
    ensures "entry_hash" in es[i] && es[i]["entry_hash"] == Str(EntryDigest(es[i]))
    ensures !HasReal(Obj(es[i] - {"entry_hash"}))
  {
    hide IsStamp, IsName, HasReal;
    assert IsEntry(rules, es[i], i, LinkOf(es, i));
  }

  lemma {:induction false} BytesAreLines(rules: Rules, es: seq<Members>)
    requires forall i | 0 <= i < |es| :: !HasReal(Obj(es[i]))
    ensures BytesOf(es) == FileOf(es)
  {
    hide HasReal, Text;
    if es == [] {
      assert Lines(es) == [];
    } else {
      var n := |es| - 1;
      BytesAreLines(rules, es[..n]);
      LineSpelled(Obj(es[n]));
      assert Lines(es) == Lines(es[..n]) + [LineOf(es[n])];
      ConcatSnoc(Lines(es[..n]), LineOf(es[n]));
    }
  }

  /** Verification accepts exactly the bytes of histories, each as its own entries. */
  lemma FileExactly(rules: Rules, data: seq<Byte>, es: seq<Members>)
    ensures Verified(rules, data) == Success(es) <==> IsHistory(rules, es) && data == BytesOf(es)
  {
    hide Verified, Chain, IsHistory, HasReal, BytesOf, FileOf;
    VerifiedExactly(rules, data, es);
    HistoryIsChain(rules, es);
    if IsHistory(rules, es) { NoReals(rules, es); BytesAreLines(rules, es); }
  }

  lemma NoReals(rules: Rules, es: seq<Members>)
    requires IsHistory(rules, es)
    ensures forall i | 0 <= i < |es| :: !HasReal(Obj(es[i]))
  {
    hide HasReal, IsEntry;
    forall i | 0 <= i < |es| ensures !HasReal(Obj(es[i])) {
      HashOf(rules, es, i);
      RealInEntry(es[i]);
    }
  }
}
