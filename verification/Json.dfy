/** The text that the audit log hashes: a JSON object with sorted keys and ASCII-only strings, escaped as in
    section 7 of RFC 8259. Different records never give the same text. */
module Json {
  import opened Base

  function HexDigit(n: nat): char
    requires n < 16
  {
    "0123456789abcdef"[n]
  }

  predicate IsHexDigit(c: char) {
    '0' <= c <= '9' || 'a' <= c <= 'f'
  }

  /** The last k hexadecimal digits of a number. */
  function HexText(n: nat, k: nat): string {
    if k == 0 then [] else HexText(n / 16, k - 1) + [HexDigit(n % 16)]
  }

  /** A six-character escape for one 16-bit code unit. */
  function Unit(n: nat): string
    requires n < 0x10000
  {
    "\\u" + HexText(n, 4)
  }

  /** The surrogates of a character beyond the basic plane. */
  function HighHalf(n: nat): nat
    requires n >= 0x10000
  {
    0xD800 + (n - 0x10000) / 1024
  }

  function LowHalf(n: nat): nat
    requires n >= 0x10000
  {
    0xDC00 + (n - 0x10000) % 1024
  }

  /** One character: short escapes, printable ASCII as itself, anything else by code unit, a pair of surrogates
      standing for a character beyond the basic plane. */
  function EscapeChar(c: char): string {
    var n := c as int;
    if c == '\"' then "\\\""
    else if c == '\\' then "\\\\"
    else if n == 10 then "\\n"
    else if n == 13 then "\\r"
    else if n == 9 then "\\t"
    else if n == 8 then "\\b"
    else if n == 12 then "\\f"
    else if 32 <= n <= 126 then [c]
    else if n < 0x10000 then Unit(n)
    else Unit(HighHalf(n)) + Unit(LowHalf(n))
  }

  function Escape(s: string): string {
    if s == [] then [] else EscapeChar(s[0]) + Escape(s[1..])
  }

  /** A string after its key, in quotes, and what follows it. */
  function Field(lead: string, value: string, rest: string): string {
    (lead + "\"") + (Escape(value) + "\"" + rest)
  }

  /** The hashed record, keys in order. The timestamp is given by its shortest decimal text, which identifies
      the float. */
  function Body(actor: string, action: string, target: string, detail: string, ts: string, prev: string): string {
    Field("{\"action\": ", action,
      Field(", \"actor\": ", actor,
        Field(", \"detail\": ", detail,
          Field(", \"prev\": ", prev,
            Field(", \"target\": ", target, LastField(ts))))))
  }

  function LastField(ts: string): string {
    ", \"ts\": " + ts + "}"
  }

  lemma SameSplit(p: string, x: string, q: string, y: string)
    requires |p| == |q| && p + x == q + y
    ensures p == q && x == y
  {
    assert (p + x)[..|p|] == p && (q + y)[..|q|] == q;
    assert (p + x)[|p|..] == x && (q + y)[|q|..] == y;
  }

  // ---- reading it back ----

  function HexValue(c: char): Option<nat> {
    if '0' <= c <= '9' then Some(c as nat - '0' as nat)
    else if 'a' <= c <= 'f' then Some(c as nat - 'a' as nat + 10)
    else if 'A' <= c <= 'F' then Some(c as nat - 'A' as nat + 10)
    else None
  }

  function HexNumber(t: string): Option<nat> {
    if t == [] then Some(0)
    else match (HexNumber(t[..|t| - 1]), HexValue(t[|t| - 1]))
         case (Some(m), Some(d)) => Some(16 * m + d)
         case _ => None
  }

  /** The code unit of a six-character escape. */
  function ReadUnit(t: string): (r: Option<nat>)
    ensures r.Some? ==> |t| >= 6 && r.value < 0x10000
  {
    if |t| < 6 || t[0] != '\\' || t[1] != 'u' then None
    else
      HexNumberBound(t[2..6]);
      HexNumber(t[2..6])
  }

  function Pow16(k: nat): nat {
    if k == 0 then 1 else 16 * Pow16(k - 1)
  }

  lemma Pow16Of4()
    ensures Pow16(4) == 0x10000
  {
    assert Pow16(2) == 256;
  }

  lemma {:induction false} BelowPow16(t: string)
    ensures HexNumber(t).Some? ==> HexNumber(t).value < Pow16(|t|)
  {
    if t != [] {
      BelowPow16(t[..|t| - 1]);
    }
  }

  lemma HexNumberBound(t: string)
    requires |t| == 4
    ensures HexNumber(t).Some? ==> HexNumber(t).value < 0x10000
  {
    BelowPow16(t);
    Pow16Of4();
  }

  /** A character by its code unit, or by a high surrogate and a low one after it. */
  function ReadLong(t: string): Option<(char, string)> {
    match ReadUnit(t)
    case None => None
    case Some(n) =>
      if n < 0xD800 || n >= 0xE000 then Some((n as char, t[6..]))
      else if n >= 0xDC00 then None
      else
        match ReadUnit(t[6..])
        case Some(m) =>
          if 0xDC00 <= m < 0xE000 then Some((FromHalves(n, m), t[12..])) else None
        case None => None
  }

  function FromHalves(high: nat, low: nat): char
    requires 0xD800 <= high < 0xDC00 <= low < 0xE000
  {
    (0x10000 + 1024 * (high - 0xD800) + (low - 0xDC00)) as char
  }

  function ReadShort(c: char): Option<char> {
    if c in ['\"', '\\', '/'] then Some(c)
    else if c == 'b' then Some(8 as char)
    else if c == 'f' then Some(12 as char)
    else if c == 'n' then Some(10 as char)
    else if c == 'r' then Some(13 as char)
    else if c == 't' then Some(9 as char)
    else None
  }

  /** One character of a string: itself, or an escape. */
  function ReadChar(t: string): (r: Option<(char, string)>)
    ensures r.Some? ==> |r.value.1| < |t|
  {
    if t == [] || t[0] as int < 32 || t[0] == '\"' then None
    else if t[0] != '\\' then Some((t[0], t[1..]))
    else if |t| >= 2 && t[1] != 'u'
    then if ReadShort(t[1]).Some? then Some((ReadShort(t[1]).value, t[2..])) else None
    else ReadLong(t)
  }

  /** A string after its opening quote, and what follows the closing one. */
  function ReadString(t: string): Option<(string, string)>
    decreases |t|
  {
    if t != [] && t[0] == '\"' then Some(([], t[1..]))
    else match ReadChar(t)
         case None => None
         case Some((c, rest)) =>
           match ReadString(rest)
           case None => None
           case Some((s, more)) => Some(([c] + s, more))
  }

  lemma HexReadsBack(n: nat)
    requires n < 16
    ensures HexValue(HexDigit(n)) == Some(n)
  {
  }

  lemma {:induction false} TextReadsBack(n: nat, k: nat)
    requires n < Pow16(k)
    ensures |HexText(n, k)| == k && HexNumber(HexText(n, k)) == Some(n)
  {
    if k > 0 {
      TextReadsBack(n / 16, k - 1);
      HexReadsBack(n % 16);
      var t := HexText(n / 16, k - 1) + [HexDigit(n % 16)];
      assert t[..|t| - 1] == HexText(n / 16, k - 1);
    }
  }

  lemma UnitReadsBack(n: nat, x: string)
    requires n < 0x10000
    ensures ReadUnit(Unit(n) + x) == Some(n) && (Unit(n) + x)[6..] == x
  {
    Pow16Of4();
    TextReadsBack(n, 4);
    HexReads(HexText(n, 4), x);
  }

  lemma HexReads(h: string, x: string)
    requires |h| == 4
    ensures var t := "\\u" + h + x; ReadUnit(t) == HexNumber(h) && t[6..] == x
  {
    assert ("\\u" + h + x)[2..6] == h;
  }

  /** The two surrogates give the character back. */
  lemma Halves(n: nat)
    requires 0x10000 <= n < 0x110000
    ensures 0xD800 <= HighHalf(n) < 0xDC00 <= LowHalf(n) < 0xE000
    ensures n == 0x10000 + 1024 * (HighHalf(n) - 0xD800) + (LowHalf(n) - 0xDC00)
  {
  }

  lemma PairValue(c: char)
    requires c as int >= 0x10000
    ensures 0xD800 <= HighHalf(c as int) < 0xDC00 <= LowHalf(c as int) < 0xE000
    ensures FromHalves(HighHalf(c as int), LowHalf(c as int)) == c
  {
    Halves(c as int);
  }

  lemma PairIsRead(t: string, high: nat, low: nat)
    requires ReadUnit(t) == Some(high) && ReadUnit(t[6..]) == Some(low)
    requires 0xD800 <= high < 0xDC00 <= low < 0xE000
    ensures |t| >= 12 && ReadLong(t) == Some((FromHalves(high, low), t[12..]))
  {
  }

  lemma PairReadsBack(c: char, x: string)
    requires c as int >= 0x10000
    ensures ReadLong(EscapeChar(c) + x) == Some((c, x)) && ReadUnit(EscapeChar(c) + x).Some?
  {
    PairValue(c);
    UnitsReadBack(HighHalf(c as int), LowHalf(c as int), x);
    PairIsRead(EscapeChar(c) + x, HighHalf(c as int), LowHalf(c as int));
  }

  lemma UnitsReadBack(h: nat, l: nat, x: string)
    requires h < 0x10000 && l < 0x10000
    ensures var t := Unit(h) + Unit(l) + x;
            ReadUnit(t) == Some(h) && ReadUnit(t[6..]) == Some(l) && t[12..] == x
  {
    assert Unit(h) + Unit(l) + x == Unit(h) + (Unit(l) + x);
    UnitReadsBack(h, Unit(l) + x);
    UnitReadsBack(l, x);
    assert (Unit(h) + (Unit(l) + x))[12..] == (Unit(l) + x)[6..];
  }

  /** The plain and short escapes are told apart from the long ones by their first two characters. */
  predicate ShortForm(c: char) {
    var n := c as int;
    32 <= n <= 126 || n in {8, 9, 10, 12, 13}
  }

  lemma LongReadsBack(c: char, x: string)
    requires !ShortForm(c)
    ensures ReadChar(EscapeChar(c) + x) == Some((c, x)) && (EscapeChar(c) + x)[0] != '\"'
  {
    if c as int < 0x10000 {
      UnitReadsBack(c as int, x);
    } else {
      PairReadsBack(c, x);
    }
  }

  lemma ShortReadsBack(c: char, x: string)
    requires ShortForm(c)
    ensures ReadChar(EscapeChar(c) + x) == Some((c, x)) && (EscapeChar(c) + x)[0] != '\"'
  {
    var e := EscapeChar(c);
    assert (e + x)[|e|..] == x;
  }

  /** A string is read back as it was, and its closing quote is not mistaken. */
  lemma {:induction false} ReadsBack(s: string, x: string)
    ensures ReadString(Escape(s) + "\"" + x) == Some((s, x))
  {
    if s == [] {
      assert (Escape(s) + "\"" + x)[1..] == x;
    } else {
      EscapeSteps(s, x);
      ReadsBack(s[1..], x);
      var rest := Escape(s[1..]) + "\"" + x;
      if ShortForm(s[0]) { ShortReadsBack(s[0], rest); } else { LongReadsBack(s[0], rest); }
      assert s == [s[0]] + s[1..];
    }
  }

  lemma QuotedUnique(a: string, b: string, x: string, y: string)
    requires Escape(a) + "\"" + x == Escape(b) + "\"" + y
    ensures a == b && x == y
  {
    ReadsBack(a, x);
    ReadsBack(b, y);
  }

  lemma EscapeSteps(a: string, x: string)
    requires a != []
    ensures Escape(a) + "\"" + x == EscapeChar(a[0]) + (Escape(a[1..]) + "\"" + x)
  {
  }

  lemma FieldUnique(lead: string, a: string, b: string, x: string, y: string)
    requires Field(lead, a, x) == Field(lead, b, y)
    ensures a == b && x == y
  {
    SameSplit(lead + "\"", Escape(a) + "\"" + x, lead + "\"", Escape(b) + "\"" + y);
    QuotedUnique(a, b, x, y);
  }

  lemma BodyInjective(a1: string, c1: string, t1: string, d1: string, s1: string, p1: string,
                      a2: string, c2: string, t2: string, d2: string, s2: string, p2: string)
    requires Body(a1, c1, t1, d1, s1, p1) == Body(a2, c2, t2, d2, s2, p2)
    ensures a1 == a2 && c1 == c2 && t1 == t2 && d1 == d2 && s1 == s2 && p1 == p2
  {
    var e1, e2 := Field(", \"target\": ", t1, LastField(s1)), Field(", \"target\": ", t2, LastField(s2));
    var g1, g2 := Field(", \"prev\": ", p1, e1), Field(", \"prev\": ", p2, e2);
    var h1, h2 := Field(", \"detail\": ", d1, g1), Field(", \"detail\": ", d2, g2);
    var i1, i2 := Field(", \"actor\": ", a1, h1), Field(", \"actor\": ", a2, h2);
    FieldUnique("{\"action\": ", c1, c2, i1, i2);
    FieldUnique(", \"actor\": ", a1, a2, h1, h2);
    FieldUnique(", \"detail\": ", d1, d2, g1, g2);
    FieldUnique(", \"prev\": ", p1, p2, e1, e2);
    FieldUnique(", \"target\": ", t1, t2, LastField(s1), LastField(s2));
    LastFieldUnique(s1, s2);
  }

  lemma LastFieldUnique(s: string, t: string)
    requires LastField(s) == LastField(t)
    ensures s == t
  {
    assert LastField(s)[8..|LastField(s)| - 1] == s;
    assert LastField(t)[8..|LastField(t)| - 1] == t;
  }
}
