/** The part of JSON text the anchor depends on: quoted ASCII strings as Python's
    `json.dumps` writes them, and why they can be read back in only one way. */
module Json {

  function HexDigit(n: nat): char
    requires n < 16
  {
    if n < 10 then ('0' as int + n) as char else ('a' as int + (n - 10)) as char
  }

  function Hex4(n: nat): (s: string)
    requires n < 0x10000
    ensures |s| == 4
  {
    [HexDigit(n / 16 / 16 / 16), HexDigit(n / 16 / 16 % 16), HexDigit(n / 16 % 16), HexDigit(n % 16)]
  }

  lemma HexDigitInjective(m: nat, n: nat)
    requires m < 16 && n < 16 && HexDigit(m) == HexDigit(n)
    ensures m == n
  {
  }

  lemma Hex4Injective(m: nat, n: nat)
    requires m < 0x10000 && n < 0x10000 && Hex4(m) == Hex4(n)
    ensures m == n
  {
    var s, t := Hex4(m), Hex4(n);
    assert s[0] == t[0] && s[1] == t[1] && s[2] == t[2] && s[3] == t[3];
    var m1, n1 := m / 16, n / 16;
    var m2, n2 := m1 / 16, n1 / 16;
    HexDigitInjective(m2 / 16, n2 / 16);
    HexDigitInjective(m2 % 16, n2 % 16);
    HexDigitInjective(m1 % 16, n1 % 16);
    HexDigitInjective(m % 16, n % 16);
    assert m2 == n2 && m1 == n1;
  }

  /** The letter of a two-character escape, if the character has one. */
  function ShortEscape(c: char): (r: char) {
    if c == '\"' then '\"' else if c == '\\' then '\\' else if c == '\n' then 'n' else if c == '\r' then 'r'
    else if c == '\t' then 't' else if c as int == 8 then 'b' else if c as int == 12 then 'f' else '\0'
  }

  predicate Plain(c: char) { ' ' <= c <= '~' && c != '\"' && c != '\\' }

  /** The four-digit code units of a character: one, or a surrogate pair. */
  function Units(c: char): (u: seq<nat>)
    ensures 1 <= |u| <= 2 && forall i :: 0 <= i < |u| ==> u[i] < 0x10000
    ensures |u| == 2 <==> 0xd800 <= u[0] < 0xdc00
  {
    var n := c as int;
    if n < 0x10000 then [n] else [0xd800 + (n - 0x10000) / 1024, 0xdc00 + (n - 0x10000) % 1024]
  }

  lemma UnitsInjective(c: char, d: char)
    requires Units(c) == Units(d)
    ensures c == d
  {
    var m, n := c as int, d as int;
    assert Units(c)[0] == Units(d)[0];
    if |Units(c)| == 2 {
      assert Units(c)[1] == Units(d)[1];
      assert (m - 0x10000) / 1024 == (n - 0x10000) / 1024 && (m - 0x10000) % 1024 == (n - 0x10000) % 1024;
    }
  }

  function UnitText(u: nat): (s: string)
    requires u < 0x10000
    ensures |s| == 6 && s[0] == '\\' && s[1] == 'u' && s[2..] == Hex4(u)
  {
    "\\u" + Hex4(u)
  }

  function Escaped(c: char): (s: string)
    ensures s != "" && s[0] != '\"'
  {
    if Plain(c) then [c]
    else if ShortEscape(c) != '\0' then ['\\', ShortEscape(c)]
    else var u := Units(c);
         if |u| == 1 then UnitText(u[0]) else UnitText(u[0]) + UnitText(u[1])
  }

  lemma UnitTextCut(u: nat, v: nat, x: string, y: string)
    requires u < 0x10000 && v < 0x10000 && UnitText(u) + x == UnitText(v) + y
    ensures u == v && x == y
  {
    var s, t := UnitText(u) + x, UnitText(v) + y;
    assert s[2..6] == Hex4(u) && t[2..6] == Hex4(v);
    Hex4Injective(u, v);
    assert s[6..] == x && t[6..] == y;
  }

  lemma UnitsSplit(c: char, x: string)
    requires !Plain(c) && ShortEscape(c) == '\0'
    ensures |Units(c)| == 1 ==> Escaped(c) + x == UnitText(Units(c)[0]) + x
    ensures |Units(c)| == 2 ==> Escaped(c) + x == UnitText(Units(c)[0]) + (UnitText(Units(c)[1]) + x)
  {
  }

  lemma UnitsCut(c: char, d: char, x: string, y: string)
    requires !Plain(c) && ShortEscape(c) == '\0' && !Plain(d) && ShortEscape(d) == '\0'
    requires Escaped(c) + x == Escaped(d) + y
    ensures c == d && x == y
  {
    var u, v := Units(c), Units(d);
    var s, t := if |u| == 1 then x else UnitText(u[1]) + x, if |v| == 1 then y else UnitText(v[1]) + y;
    UnitsSplit(c, x);
    UnitsSplit(d, y);
    UnitTextCut(u[0], v[0], s, t);
    if |u| == 2 { UnitTextCut(u[1], v[1], x, y); }
    assert u == v;
    UnitsInjective(c, d);
  }

  lemma EscapedCut(c: char, d: char, x: string, y: string)
    requires Escaped(c) + x == Escaped(d) + y
    ensures c == d && x == y
  {
    var s, t := Escaped(c) + x, Escaped(d) + y;
    assert s[0] == t[0] && Escaped(c)[0] == s[0] && Escaped(d)[0] == t[0];
    if Plain(c) {
      assert s[1..] == x && t[1..] == y;
    } else {
      assert s[1] == t[1] && Escaped(c)[1] == s[1] && Escaped(d)[1] == t[1];
      if ShortEscape(c) != '\0' {
        assert s[2..] == x && t[2..] == y;
      } else {
        UnitsCut(c, d, x, y);
      }
    }
  }

  /** The inside of a quoted string and its closing quote. */
  function Inside(s: string): string {
    if s == "" then "\"" else Escaped(s[0]) + Inside(s[1..])
  }

  function Quoted(s: string): string { "\"" + Inside(s) }

  lemma InsideStarts(s: string)
    ensures Inside(s) != "" && (Inside(s)[0] == '\"' <==> s == "")
  {
  }

  lemma InsideSplit(s: string, x: string)
    requires s != ""
    ensures Inside(s) + x == Escaped(s[0]) + (Inside(s[1..]) + x)
  {
  }

  lemma {:induction false} InsideCut(s: string, t: string, x: string, y: string)
    requires Inside(s) + x == Inside(t) + y
    ensures s == t && x == y
  {
    InsideStarts(s);
    InsideStarts(t);
    assert (Inside(s) + x)[0] == (Inside(t) + y)[0];
    if s == "" {
      assert (Inside(s) + x)[1..] == x && (Inside(t) + y)[1..] == y;
    } else {
      InsideSplit(s, x);
      InsideSplit(t, y);
      EscapedCut(s[0], t[0], Inside(s[1..]) + x, Inside(t[1..]) + y);
      InsideCut(s[1..], t[1..], x, y);
      assert s == [s[0]] + s[1..] && t == [t[0]] + t[1..];
    }
  }

  /** A quoted string tells where it ends. */
  lemma QuotedCut(s: string, t: string, x: string, y: string)
    requires Quoted(s) + x == Quoted(t) + y
    ensures s == t && x == y
  {
    var p, q := Quoted(s) + x, Quoted(t) + y;
    assert p[1..] == Inside(s) + x && q[1..] == Inside(t) + y;
    InsideCut(s, t, x, y);
  }
}
