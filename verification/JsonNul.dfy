/**
  The escaped-NUL detector of the SQL writer (tools/evaluation-dashboard.py): a regular expression searched in the
  ASCII serialisation of a JSON value (section 7 of RFC 8259, every other character escaped as json.dumps does).
 */
module JsonNul {
  import opened Sequences

  /** A string as its code points, lone surrogates included. */
  type Text = seq<nat>

  datatype Field = Field(key: Text, value: Json)

  /** Numbers are kept as the text they are written with. */
  datatype Json =
    | JNull
    | JBool(b: bool)
    | JNumber(text: string)
    | JString(s: Text)
    | JArray(items: seq<Json>)
    | JObject(fields: seq<Field>)

  // ----- Serialisation -----

  function HexDigit(d: nat): char
    requires d < 16
  {
    "0123456789abcdef"[d]
  }

  function Unit(n: nat): string {
    "\\u" + [HexDigit(n / 4096 % 16), HexDigit(n / 256 % 16), HexDigit(n / 16 % 16), HexDigit(n % 16)]
  }

  function Escape(c: nat): string {
    if c == 34 then "\\\""
    else if c == 92 then "\\\\"
    else if c == 10 then "\\n"
    else if c == 13 then "\\r"
    else if c == 9 then "\\t"
    else if c == 12 then "\\f"
    else if c == 8 then "\\b"
    else if 32 <= c <= 126 then [c as char]
    else if c < 0x10000 then Unit(c)
    else Unit(0xd800 + (c - 0x10000) / 1024 % 1024) + Unit(0xdc00 + (c - 0x10000) % 1024)
  }

  function EscapeAll(s: Text): string {
    if s == [] then "" else Escape(s[0]) + EscapeAll(s[1..])
  }

  function Quote(s: Text): string {
    "\"" + EscapeAll(s) + "\""
  }

  function Serialize(j: Json): string
    decreases j
  {
    match j
    case JNull => "null"
    case JBool(b) => if b then "true" else "false"
    case JNumber(text) => text
    case JString(s) => Quote(s)
    case JArray(items) => "[" + (SerializeItems(items) + "]")
    case JObject(fields) => "{" + (SerializeFields(fields) + "}")
  }

  function Comma(last: bool): string {
    if last then "" else ","
  }

  function SerializeItems(items: seq<Json>): string
    decreases items
  {
    if items == [] then ""
    else Serialize(items[0]) + (Comma(|items| == 1) + SerializeItems(items[1..]))
  }

  function SerializeFields(fields: seq<Field>): string
    decreases fields
  {
    if fields == [] then ""
    else
      var tail := Comma(|fields| == 1) + SerializeFields(fields[1..]);
      Quote(fields[0].key) + (":" + (Serialize(fields[0].value) + tail))
  }

  predicate ContainsNul(j: Json)
    decreases j
  {
    match j
    case JString(s) => 0 in s
    case JArray(items) => ItemsContainNul(items)
    case JObject(fields) => FieldsContainNul(fields)
    case _ => false
  }

  predicate ItemsContainNul(items: seq<Json>)
    decreases items
  {
    items != [] && (ContainsNul(items[0]) || ItemsContainNul(items[1..]))
  }

  predicate FieldsContainNul(fields: seq<Field>)
    decreases fields
  {
    fields != [] && (0 in fields[0].key || ContainsNul(fields[0].value) || FieldsContainNul(fields[1..]))
  }

  /** Code points are Unicode, and numbers are written without backslashes. */
  predicate WellFormed(j: Json)
    decreases j
  {
    match j
    case JNumber(text) => text != "" && '\\' !in text
    case JString(s) => IsText(s)
    case JArray(items) => ItemsWellFormed(items)
    case JObject(fields) => FieldsWellFormed(fields)
    case _ => true
  }

  predicate IsText(s: Text) {
    forall c | c in s :: c <= 0x10ffff
  }

  predicate ItemsWellFormed(items: seq<Json>)
    decreases items
  {
    items == [] || (WellFormed(items[0]) && ItemsWellFormed(items[1..]))
  }

  predicate FieldsWellFormed(fields: seq<Field>)
    decreases fields
  {
    fields == [] || (IsText(fields[0].key) && WellFormed(fields[0].value) && FieldsWellFormed(fields[1..]))
  }

  // ----- The regular expression -----

  const NUL_TAIL := "u0000"

  /** A match of the pattern at p: not after a backslash, k pairs of backslashes, one more, then u0000. */
  ghost predicate MatchAt(t: string, p: nat, k: nat) {
    && p + 2 * k + 6 <= |t|
    && (p > 0 ==> t[p - 1] != '\\')
    && (forall i | p <= i < p + 2 * k + 1 :: t[i] == '\\')
    && t[p + 2 * k + 1..p + 2 * k + 6] == NUL_TAIL
  }

  ghost predicate Search(t: string) {
    exists p: nat, k: nat :: MatchAt(t, p, k)
  }

  /** One pass with the parity of the current backslash run. */
  predicate Find(t: string, odd: bool) {
    if t == "" then false
    else if t[0] != '\\' then Find(t[1..], false)
    else if odd then Find(t[1..], false)
    else NUL_TAIL <= t[1..] || Find(t[1..], true)
  }

  /** How many backslashes end just before position i. */
  function Run(t: string, i: nat): nat
    requires i <= |t|
  {
    if i == 0 || t[i - 1] != '\\' then 0 else Run(t, i - 1) + 1
  }

  ghost predicate HitAt(t: string, j: nat) {
    j < |t| && t[j] == '\\' && Run(t, j) % 2 == 0 && NUL_TAIL <= t[j + 1..]
  }

  lemma {:induction false} FindIsHit(t: string, i: nat)
    requires i <= |t|
    ensures Find(t[i..], Run(t, i) % 2 == 1) <==> exists j: nat :: j >= i && HitAt(t, j)
    decreases |t| - i
  {
    if i < |t| {
      FindIsHit(t, i + 1);
      FindStep(t, i);
      hide Find, HitAt, Run;
      if j: nat :| j >= i && HitAt(t, j) {
        assert j == i || j >= i + 1;
      }
    } else {
      assert t[i..] == "";
    }
  }

  lemma FindStep(t: string, i: nat)
    requires i < |t|
    ensures Find(t[i..], Run(t, i) % 2 == 1) <==> HitAt(t, i) || Find(t[i + 1..], Run(t, i + 1) % 2 == 1)
  {
    assert t[i..][1..] == t[i + 1..];
    var odd := Run(t, i) % 2 == 1;
    assert Run(t, i + 1) == if t[i] == '\\' then Run(t, i) + 1 else 0;
    if t[i] == '\\' {
      OtherParity(Run(t, i));
    }
  }

  lemma OtherParity(n: nat)
    ensures ((n + 1) % 2 == 1) == !(n % 2 == 1)
  {
  }

  lemma {:induction false} RunIsBackslashes(t: string, i: nat)
    requires i <= |t|
    ensures Run(t, i) <= i
    ensures forall k | i - Run(t, i) <= k < i :: t[k] == '\\'
    ensures Run(t, i) < i ==> t[i - Run(t, i) - 1] != '\\'
  {
    if i > 0 && t[i - 1] == '\\' {
      RunIsBackslashes(t, i - 1);
    }
  }

  lemma {:induction false} BackslashesAreRun(t: string, p: nat, n: nat)
    requires p + n <= |t| && (p > 0 ==> t[p - 1] != '\\')
    requires forall i | p <= i < p + n :: t[i] == '\\'
    ensures Run(t, p + n) == n
  {
    if n > 0 {
      BackslashesAreRun(t, p, n - 1);
    }
  }

  lemma HitIsMatch(t: string, j: nat)
    requires HitAt(t, j)
    ensures Search(t)
  {
    RunIsBackslashes(t, j);
    var k := Run(t, j) / 2;
    hide Run;
    assert t[j + 1..][..5] == t[j + 1..j + 6];
    assert MatchAt(t, j - 2 * k, k);
  }

  lemma MatchIsHit(t: string, p: nat, k: nat)
    requires MatchAt(t, p, k)
    ensures HitAt(t, p + 2 * k)
  {
    BackslashesAreRun(t, p, 2 * k);
    hide Run;
    var j := p + 2 * k;
    assert t[j + 1..][..5] == t[j + 1..j + 6];
    assert (2 * k) % 2 == 0;
  }

  /** The one-pass scan decides the regular expression on every text. */
  lemma ScanIsSearch(t: string)
    ensures Find(t, false) <==> Search(t)
  {
    assert t[0..] == t;
    FindIsHit(t, 0);
    hide Find, HitAt, MatchAt;
    if j: nat :| j >= 0 && HitAt(t, j) {
      HitIsMatch(t, j);
    }
    if p: nat, k: nat :| MatchAt(t, p, k) {
      MatchIsHit(t, p, k);
    }
  }

  // ----- The scan over serialised values -----

  lemma {:induction false} SkipPlain(plain: string, rest: string)
    requires '\\' !in plain && plain != ""
    ensures Find(plain + rest, false) == Find(rest, false)
    ensures Find(plain + rest, true) == Find(rest, false)
  {
    assert (plain + rest)[1..] == plain[1..] + rest;
    if |plain| == 1 {
      assert plain[1..] + rest == rest;
    } else {
      SkipPlain(plain[1..], rest);
    }
  }

  lemma SkipPair(c: char, rest: string)
    requires c != 'u'
    ensures Find(['\\', c] + rest, false) == Find(rest, false)
  {
    var t := ['\\', c] + rest;
    assert t[1..] == [c] + rest && t[1..][1..] == rest;
    assert !(NUL_TAIL <= t[1..]) by {
      assert NUL_TAIL[0] == 'u' && t[1..][0] == c;
    }
  }

  lemma SkipUnit(n: nat, rest: string)
    requires n < 0x10000
    ensures Find(Unit(n) + rest, false) <==> n == 0 || Find(rest, false)
  {
    var digits := [HexDigit(n / 4096 % 16), HexDigit(n / 256 % 16), HexDigit(n / 16 % 16), HexDigit(n % 16)];
    var t := Unit(n) + rest;
    var plain := "u" + digits;
    assert t == "\\" + (plain + rest) && t[1..] == plain + rest;
    assert '\\' !in plain;
    SkipPlain(plain, rest);
    assert (plain + rest)[..5] == plain;
    assert NUL_TAIL <= plain + rest <==> plain == NUL_TAIL;
    assert plain == NUL_TAIL <==> digits == "0000" by {
      assert plain[1..] == digits && NUL_TAIL[1..] == "0000";
      assert plain == "u" + plain[1..] && NUL_TAIL == "u" + NUL_TAIL[1..];
    }
    ZeroDigits(n);
  }

  lemma ZeroDigits(n: nat)
    requires n < 0x10000
    ensures [HexDigit(n / 4096 % 16), HexDigit(n / 256 % 16), HexDigit(n / 16 % 16), HexDigit(n % 16)] == "0000"
            <==> n == 0
  {
    assert forall d: nat | d < 16 :: HexDigit(d) == '0' <==> d == 0;
    var digits := [HexDigit(n / 4096 % 16), HexDigit(n / 256 % 16), HexDigit(n / 16 % 16), HexDigit(n % 16)];
    if digits == "0000" {
      assert digits[0] == '0' && digits[1] == '0' && digits[2] == '0' && digits[3] == '0';
      assert n / 4096 % 16 == 0 && n / 256 % 16 == 0 && n / 16 % 16 == 0 && n % 16 == 0;
    }
  }

  lemma SkipSurrogates(high: nat, low: nat, rest: string)
    requires 0xd800 <= high < 0x10000 && 0xd800 <= low < 0x10000
    ensures Find(Unit(high) + Unit(low) + rest, false) <==> Find(rest, false)
  {
    hide Find, Unit;
    SkipUnit(low, rest);
    SkipUnit(high, Unit(low) + rest);
    assert Unit(high) + Unit(low) + rest == Unit(high) + (Unit(low) + rest);
  }

  lemma SkipEscape(c: nat, rest: string)
    requires c <= 0x10ffff
    ensures Find(Escape(c) + rest, false) <==> c == 0 || Find(rest, false)
  {
    hide Find, Unit;
    if c in {34, 92, 10, 13, 9, 12, 8} {
      SkipPair(Escape(c)[1], rest);
      assert Escape(c) == ['\\', Escape(c)[1]];
    } else if 32 <= c <= 126 {
      SkipPlain([c as char], rest);
    } else if c < 0x10000 {
      SkipUnit(c, rest);
    } else {
      SkipSurrogates(0xd800 + (c - 0x10000) / 1024 % 1024, 0xdc00 + (c - 0x10000) % 1024, rest);
    }
  }

  lemma {:induction false} SkipText(s: Text, rest: string)
    requires IsText(s)
    ensures Find(EscapeAll(s) + rest, false) <==> 0 in s || Find(rest, false)
  {
    if s == [] {
      assert EscapeAll(s) + rest == rest;
    } else {
      hide Find, Escape;
      assert s == [s[0]] + s[1..];
      assert s[0] in s && forall c | c in s[1..] :: c in s;
      SkipText(s[1..], rest);
      SkipEscape(s[0], EscapeAll(s[1..]) + rest);
      assert EscapeAll(s) + rest == Escape(s[0]) + (EscapeAll(s[1..]) + rest);
    }
  }

  lemma SkipQuoted(s: Text, rest: string)
    requires IsText(s)
    ensures Find(Quote(s) + rest, false) <==> 0 in s || Find(rest, false)
  {
    SkipPlain("\"", rest);
    SkipText(s, "\"" + rest);
    SkipPlain("\"", EscapeAll(s) + ("\"" + rest));
    assert Quote(s) + rest == "\"" + (EscapeAll(s) + ("\"" + rest));
  }

  lemma {:induction false} SkipValue(j: Json, rest: string)
    requires WellFormed(j)
    ensures Find(Serialize(j) + rest, false) <==> ContainsNul(j) || Find(rest, false)
    decreases j
  {
    hide Find, Quote;
    match j
    case JNull => SkipPlain("null", rest);
    case JBool(b) => SkipPlain(if b then "true" else "false", rest);
    case JNumber(text) => SkipPlain(text, rest);
    case JString(s) => SkipQuoted(s, rest);
    case JArray(items) =>
      SkipItems(items, "]" + rest);
      SkipBrackets("[", SerializeItems(items), "]", rest);
    case JObject(fields) =>
      SkipFields(fields, "}" + rest);
      SkipBrackets("{", SerializeFields(fields), "}", rest);
  }

  lemma SkipBrackets(open: string, inside: string, close: string, rest: string)
    requires open != "" && '\\' !in open && close != "" && '\\' !in close
    ensures Find((open + (inside + close)) + rest, false) == Find(inside + (close + rest), false)
    ensures Find(close + rest, false) == Find(rest, false)
  {
    SkipPlain(close, rest);
    SkipPlain(open, inside + (close + rest));
    assert (open + (inside + close)) + rest == open + (inside + (close + rest));
  }

  lemma SkipComma(last: bool, rest: string)
    ensures Find(Comma(last) + rest, false) == Find(rest, false)
  {
    if last {
      assert "" + rest == rest;
    } else {
      SkipPlain(",", rest);
    }
  }

  lemma {:induction false} SkipItems(items: seq<Json>, rest: string)
    requires ItemsWellFormed(items)
    ensures Find(SerializeItems(items) + rest, false) <==> ItemsContainNul(items) || Find(rest, false)
    decreases items
  {
    if items == [] {
      assert SerializeItems(items) + rest == rest;
    } else {
      hide Find;
      var comma, tail := Comma(|items| == 1), SerializeItems(items[1..]);
      SkipItems(items[1..], rest);
      SkipComma(|items| == 1, tail + rest);
      Reassociate(comma, tail, rest);
      SkipValue(items[0], comma + tail + rest);
      Reassociate(Serialize(items[0]), comma + tail, rest);
    }
  }

  lemma {:induction false} SkipFields(fields: seq<Field>, rest: string)
    requires FieldsWellFormed(fields)
    ensures Find(SerializeFields(fields) + rest, false) <==> FieldsContainNul(fields) || Find(rest, false)
    decreases fields
  {
    if fields == [] {
      assert SerializeFields(fields) + rest == rest;
    } else {
      hide Find, Quote;
      var comma, tail := Comma(|fields| == 1), SerializeFields(fields[1..]);
      var value := Serialize(fields[0].value);
      SkipFields(fields[1..], rest);
      SkipComma(|fields| == 1, tail + rest);
      Reassociate(comma, tail, rest);
      SkipValue(fields[0].value, comma + tail + rest);
      Reassociate(value, comma + tail, rest);
      SkipPlain(":", value + (comma + tail) + rest);
      Reassociate(":", value + (comma + tail), rest);
      SkipQuoted(fields[0].key, ":" + (value + (comma + tail)) + rest);
      Reassociate(Quote(fields[0].key), ":" + (value + (comma + tail)), rest);
    }
  }

  /**
    The detector is exact: over every JSON value, the expression finds a match in its serialisation if and only if some
    string or key in it contains the NUL character. A literal backslash followed by u0000 never triggers it.
   */
  lemma DetectorIsExact(j: Json)
    requires WellFormed(j)
    ensures Search(Serialize(j)) <==> ContainsNul(j)
  {
    SkipValue(j, "");
    assert Serialize(j) + "" == Serialize(j);
    ScanIsSearch(Serialize(j));
  }
}
