/** Embedding text in single-quoted JavaScript literals: JSON escaping, then backslashes put before single quotes. */
module QuoteEscaping {

  import opened Wrappers

  /** A UTF-16 code unit. */
  type Unit = u: int | 0 <= u < 0x1_0000

  type Text = seq<Unit>

  const NUL: Unit := 0x00
  const LF: Unit := 0x0A
  const CR: Unit := 0x0D
  const DOUBLE_QUOTE: Unit := 0x22
  const QUOTE: Unit := 0x27
  const SLASH: Unit := 0x2F
  const LESS_THAN: Unit := 0x3C
  const BACKSLASH: Unit := 0x5C
  const OPEN_BRACE: Unit := 0x7B
  const CLOSE_BRACE: Unit := 0x7D
  const LINE_SEPARATOR: Unit := 0x2028
  const PARAGRAPH_SEPARATOR: Unit := 0x2029

  // --- The quote loop ------------------------------------------------------------------------------------

  function QuotedUnit(u: Unit): (t: Text)
    ensures 1 <= |t| <= 2
  {
    if u == QUOTE then [BACKSLASH, QUOTE] else [u]
  }

  /** A backslash before every single quote. */
  function Quoted(s: Text): (t: Text)
    ensures |s| <= |t| <= 2 * |s|
  {
    if s == [] then [] else QuotedUnit(s[0]) + Quoted(s[1..])
  }

  lemma {:induction false} QuotedAppend(s: Text, t: Text)
    ensures Quoted(s + t) == Quoted(s) + Quoted(t)
  {
    hide QuotedUnit;
    if s == [] {
      assert s + t == t;
    } else {
      var first, rest := QuotedUnit(s[0]), Quoted(s[1..]);
      assert Quoted(s + t) == first + Quoted(s[1..] + t) by {
        assert s + t == [s[0]] + (s[1..] + t);
      }
      QuotedAppend(s[1..], t);
      assert first + (rest + Quoted(t)) == (first + rest) + Quoted(t);
    }
  }

  lemma QuotedNext(s: Text, done: nat)
    requires done < |s|
    ensures Quoted(s[..done + 1]) == Quoted(s[..done]) + QuotedUnit(s[done])
  {
    hide QuotedUnit;
    assert s[..done + 1] == s[..done] + [s[done]];
    QuotedAppend(s[..done], [s[done]]);
    assert Quoted([s[done]]) == QuotedUnit(s[done]) + Quoted([]);
  }

  /** One turn of the loop, with the first `done` units of `s` escaped. */
  lemma LoopTurn(s: Text, done: nat, escaped: Text, i: nat)
    requires done <= |s| && i == |Quoted(s[..done])| && i < |escaped|
    requires escaped == Quoted(s[..done]) + s[done..]
    ensures done < |s| && escaped[i] == s[done]
    ensures var inserted := escaped[..i] + [BACKSLASH] + escaped[i..];
            var next := Quoted(s[..done + 1]);
            if s[done] == QUOTE then inserted == next + s[done + 1..] && i + 2 == |next|
            else escaped == next + s[done + 1..] && i + 1 == |next|
  {
    hide Quoted;
    QuotedNext(s, done);
    assert escaped[..i] == Quoted(s[..done]) && escaped[i..] == s[done..] == [s[done]] + s[done + 1..];
  }

  /** The loop inserts in the string it scans and steps over the quote it has just escaped, so it ends. */
  method EscapeQuotes(s: Text) returns (escaped: Text)
    ensures escaped == Quoted(s)
  {
    hide Quoted, QuotedUnit;
    escaped := s;
    var i := 0;
    ghost var done := 0;
    while i < |escaped|
      invariant 0 <= done <= |s| && i == |Quoted(s[..done])|
      invariant escaped == Quoted(s[..done]) + s[done..]
      decreases |escaped| - i
    {
      LoopTurn(s, done, escaped, i);
      if escaped[i] == QUOTE {
        escaped := escaped[..i] + [BACKSLASH] + escaped[i..];
        i := i + 1;
      }
      i := i + 1;
      done := done + 1;
    }
    assert s[..done] == s && s[done..] == [];
  }

  // --- Single-quoted literals (ECMA-262, section 12.9.4) ---------------------------------------------------

  /** The digit's value, or -1. */
  function HexValue(u: Unit): int {
    if 0x30 <= u <= 0x39 then u - 0x30
    else if 0x41 <= u <= 0x46 then u - 0x41 + 10
    else if 0x61 <= u <= 0x66 then u - 0x61 + 10
    else -1
  }

  predicate IsHex(u: Unit) {
    HexValue(u) >= 0
  }

  predicate IsOctal(u: Unit) {
    0x30 <= u <= 0x37
  }

  /** Four hexadecimal digits, as one code unit. */
  function Hex4(t: Text): (r: Option<Unit>) {
    if |t| >= 4 && IsHex(t[0]) && IsHex(t[1]) && IsHex(t[2]) && IsHex(t[3]) then
      Some(0x1000 * HexValue(t[0]) + 0x100 * HexValue(t[1]) + 0x10 * HexValue(t[2]) + HexValue(t[3]))
    else None
  }

  /** What an escape stands for, and the units it takes after its backslash. */
  datatype Escape = Escape(value: Text, length: nat)

  /** An escape takes at least one unit and never yields more units than it takes; no unit but the first can be a quote
      or a backslash. */
  predicate WellFormed(e: Escape, t: Text) {
    && 1 <= e.length <= |t| && |e.value| <= e.length
    && forall i :: 1 <= i < e.length ==> t[i] != QUOTE && t[i] != BACKSLASH
  }

  /** The digits of a braced code point from index i on, up to the closing brace. */
  function Braced(t: Text, i: nat, point: nat): (r: Option<(nat, nat)>)
    requires i <= |t| && point <= 0x10FFFF
    ensures r.Some? ==> r.value.0 <= 0x10FFFF && i < r.value.1 <= |t|
    ensures r.Some? ==> forall k :: i <= k < r.value.1 ==> t[k] != QUOTE && t[k] != BACKSLASH
    decreases |t| - i
  {
    if i == |t| then None
    else if t[i] == CLOSE_BRACE then Some((point, i + 1))
    else if IsHex(t[i]) && point * 16 + HexValue(t[i]) <= 0x10FFFF then Braced(t, i + 1, point * 16 + HexValue(t[i]))
    else None
  }

  function Utf16(point: nat): (t: Text)
    requires point <= 0x10FFFF
    ensures 1 <= |t| <= 2
  {
    if point < 0x1_0000 then [point]
    else [0xD800 + (point - 0x1_0000) / 0x400, 0xDC00 + (point - 0x1_0000) % 0x400]
  }

  function UnicodeEscape(t: Text): (r: Option<Escape>)
    requires |t| >= 1 && t[0] == 0x75
    ensures r.Some? ==> WellFormed(r.value, t)
  {
    if |t| >= 3 && t[1] == OPEN_BRACE && t[2] != CLOSE_BRACE then
      var braced := Braced(t, 2, 0);
      if braced.Some? then Some(Escape(Utf16(braced.value.0), braced.value.1)) else None
    else
      var digits := Hex4(t[1..]);
      if digits.Some? then Some(Escape([digits.value], 5)) else None
  }

  /** Legacy octal escapes, which the injected scripts, not being strict, may contain. */
  function OctalEscape(t: Text): (e: Escape)
    requires |t| >= 1 && IsOctal(t[0])
    ensures WellFormed(e, t)
  {
    var first := t[0] - 0x30;
    if |t| >= 2 && IsOctal(t[1]) then
      if first <= 3 && |t| >= 3 && IsOctal(t[2]) then
        Escape([64 * first + 8 * (t[1] - 0x30) + (t[2] - 0x30)], 3)
      else Escape([8 * first + (t[1] - 0x30)], 2)
    else Escape([first], 1)
  }

  /** The escape whose text follows a backslash. */
  function EscapeAt(t: Text): (r: Option<Escape>)
    requires |t| >= 1
    ensures r.Some? ==> WellFormed(r.value, t)
    ensures t[0] == QUOTE || t[0] == DOUBLE_QUOTE || t[0] == BACKSLASH || t[0] == SLASH ==> r == Some(Escape([t[0]], 1))
  {
    var c := t[0];
    if c == 0x62 then Some(Escape([0x08], 1))
    else if c == 0x74 then Some(Escape([0x09], 1))
    else if c == 0x6E then Some(Escape([0x0A], 1))
    else if c == 0x76 then Some(Escape([0x0B], 1))
    else if c == 0x66 then Some(Escape([0x0C], 1))
    else if c == 0x72 then Some(Escape([0x0D], 1))
    else if c == 0x78 then
      if |t| >= 3 && IsHex(t[1]) && IsHex(t[2]) then Some(Escape([16 * HexValue(t[1]) + HexValue(t[2])], 3)) else None
    else if c == 0x75 then UnicodeEscape(t)
    else if IsOctal(c) then Some(OctalEscape(t))
    else if c == CR && |t| >= 2 && t[1] == LF then Some(Escape([], 2))
    else if c == CR || c == LF || c == LINE_SEPARATOR || c == PARAGRAPH_SEPARATOR then Some(Escape([], 1))
    else Some(Escape([c], 1))
  }

  function Prepend(v: Text, rest: Option<Text>): Option<Text> {
    match rest
    case Some(w) => Some(v + w)
    case None => None
  }

  /** The string that a single-quoted literal with body t denotes; None when t is not the body of one, as when it holds
      a bare quote, which would end the literal, or a bare line end. */
  function LiteralValue(t: Text): Option<Text> {
    if t == [] then Some([])
    else if t[0] == QUOTE || t[0] == CR || t[0] == LF then None
    else if t[0] == BACKSLASH then
      if |t| == 1 then None
      else
        var e := EscapeAt(t[1..]);
        if e.Some? then Prepend(e.value.value, LiteralValue(t[1 + e.value.length..])) else None
    else Prepend([t[0]], LiteralValue(t[1..]))
  }

  // --- JSON strings (RFC 8259, section 7) ------------------------------------------------------------------

  /** The string that a JSON string with body t denotes; None when t is not the body of one. */
  function JsonValue(t: Text): Option<Text> {
    if t == [] then Some([])
    else if t[0] == DOUBLE_QUOTE || t[0] < 0x20 then None
    else if t[0] == BACKSLASH then
      if |t| == 1 then None
      else if t[1] == DOUBLE_QUOTE || t[1] == BACKSLASH || t[1] == SLASH then Prepend([t[1]], JsonValue(t[2..]))
      else if t[1] == 0x62 then Prepend([0x08], JsonValue(t[2..]))
      else if t[1] == 0x66 then Prepend([0x0C], JsonValue(t[2..]))
      else if t[1] == 0x6E then Prepend([0x0A], JsonValue(t[2..]))
      else if t[1] == 0x72 then Prepend([0x0D], JsonValue(t[2..]))
      else if t[1] == 0x74 then Prepend([0x09], JsonValue(t[2..]))
      else if t[1] == 0x75 then
        var digits := Hex4(t[2..]);
        if digits.Some? then Prepend([digits.value], JsonValue(t[6..])) else None
      else None
    else Prepend([t[0]], JsonValue(t[1..]))
  }

  function HexDigit(d: nat): (u: Unit)
    requires d < 16
    ensures HexValue(u) == d
  {
    if d < 10 then 0x30 + d else 0x41 + d - 10
  }

  function JsonEscape(u: Unit): Text {
    if u == 0x08 then [BACKSLASH, 0x62]
    else if u == 0x0C then [BACKSLASH, 0x66]
    else if u == 0x0A then [BACKSLASH, 0x6E]
    else if u == 0x0D then [BACKSLASH, 0x72]
    else if u == 0x09 then [BACKSLASH, 0x74]
    else if u == BACKSLASH || u == DOUBLE_QUOTE then [BACKSLASH, u]
    else if u < 0x20 || u == LESS_THAN || u == LINE_SEPARATOR || u == PARAGRAPH_SEPARATOR then
      [BACKSLASH, 0x75] + HexDigits(u)
    else [u]
  }

  /** The escaper `base::EscapeJSONString`, without the enclosing quotes. */
  function JsonEscaped(s: Text): Text {
    if s == [] then [] else JsonEscape(s[0]) + JsonEscaped(s[1..])
  }

  function HexDigits(u: Unit): (t: Text)
    ensures |t| == 4 && Hex4(t) == Some(u)
  {
    HexDigitsSum(u);
    [HexDigit(u / 0x1000), HexDigit(u / 0x100 % 0x10), HexDigit(u / 0x10 % 0x10), HexDigit(u % 0x10)]
  }

  lemma HexDigitsSum(u: Unit)
    ensures u / 0x1000 < 0x10
    ensures 0x1000 * (u / 0x1000) + 0x100 * (u / 0x100 % 0x10) + 0x10 * (u / 0x10 % 0x10) + u % 0x10 == u
  {
    assert u / 0x10 / 0x10 == u / 0x100 && u / 0x100 / 0x10 == u / 0x1000;
  }

  lemma JsonEscapeRead(u: Unit, rest: Text)
    ensures JsonValue(JsonEscape(u) + rest) == Prepend([u], JsonValue(rest))
  {
    hide Hex4, HexDigits, HexValue;
    var e := JsonEscape(u);
    var t := e + rest;
    assert t[|e|..] == rest;
    if |e| == 6 {
      assert e[..2] == [BACKSLASH, 0x75] && e[2..] == HexDigits(u);
      Hex4Prefix(e[2..], rest);
      assert t[2..] == e[2..] + rest;
    }
  }

  lemma Hex4Prefix(t: Text, rest: Text)
    requires |t| == 4
    ensures Hex4(t + rest) == Hex4(t)
  {
  }

  lemma {:induction false} JsonRoundTrip(s: Text)
    ensures JsonValue(JsonEscaped(s)) == Some(s)
  {
    if s == [] {
    } else {
      JsonRoundTrip(s[1..]);
      JsonEscapeRead(s[0], JsonEscaped(s[1..]));
      assert [s[0]] + s[1..] == s;
    }
  }

  // --- JSON escaping, then the quote loop ------------------------------------------------------------------

  /** Where no quote is met, the loop copies. */
  lemma {:induction false} QuotedVerbatim(s: Text, n: nat)
    requires n <= |Quoted(s)|
    requires n > 0 ==> s[0] != QUOTE
    requires forall i :: 1 <= i < n ==> Quoted(s)[i] != BACKSLASH
    ensures n <= |s| && Quoted(s)[..n] == s[..n] && Quoted(s)[n..] == Quoted(s[n..])
  {
    hide Quoted;
    if n == 0 {
      assert s[n..] == s;
    } else {
      var t := Quoted(s[1..]);
      QuotedPlain(s);
      forall i | 0 <= i < n - 1
        ensures t[i] != BACKSLASH
      {
        assert t[i] == Quoted(s)[i + 1];
      }
      if n > 1 {
        QuoteStartsEscape(s[1..]);
      }
      QuotedVerbatim(s[1..], n - 1);
      assert s[1..][n - 1..] == s[n..];
      assert Quoted(s)[n..] == t[n - 1..];
      assert s[..n] == [s[0]] + s[1..][..n - 1];
    }
  }

  lemma QuotedPlain(s: Text)
    requires s != [] && s[0] != QUOTE
    ensures Quoted(s) == [s[0]] + Quoted(s[1..])
  {
  }

  lemma QuoteStartsEscape(s: Text)
    requires Quoted(s) != [] && Quoted(s)[0] != BACKSLASH
    ensures s != [] && s[0] != QUOTE
  {
  }

  /** The loop leaves the first n units of a text alone when there is no quote among them. */
  lemma {:induction false} QuotedCopies(s: Text, n: nat)
    requires n <= |s| && forall i :: 0 <= i < n ==> s[i] != QUOTE
    ensures Quoted(s) == s[..n] + Quoted(s[n..])
  {
    QuotedAppend(s[..n], s[n..]);
    assert s == s[..n] + s[n..];
    NoQuotes(s[..n]);
  }

  lemma {:induction false} NoQuotes(s: Text)
    requires forall i :: 0 <= i < |s| ==> s[i] != QUOTE
    ensures Quoted(s) == s
  {
    if s == [] {
    } else {
      NoQuotes(s[1..]);
      assert [s[0]] + s[1..] == s;
    }
  }

  /** The units a JSON string's first character takes. */
  function JsonHead(t: Text): nat
    requires JsonValue(t).Some? && t != []
  {
    if t[0] != BACKSLASH then 1 else if t[1] == 0x75 then 6 else 2
  }

  /** The first character of a JSON string, as a literal's first character. */
  lemma JsonHeadRead(t: Text, rest: Text)
    requires t != [] && JsonValue(t).Some? && t[0] != QUOTE
    ensures JsonHead(t) <= |t| && forall i :: 0 <= i < JsonHead(t) ==> t[i] != QUOTE
    ensures JsonValue(t[JsonHead(t)..]).Some?
    ensures var u := JsonValue(t).value[..1];
            && JsonValue(t) == Prepend(u, JsonValue(t[JsonHead(t)..]))
            && LiteralValue(t[..JsonHead(t)] + rest) == Prepend(u, LiteralValue(rest))
  {
    var n := JsonHead(t);
    var x := t[..n] + rest;
    assert x[n..] == rest;
    if t[0] == BACKSLASH {
      assert x[1..][0] == t[1];
      if t[1] == 0x75 {
        assert x[1..][1..][..4] == t[2..][..4];
        assert forall i :: 0 <= i < 4 ==> x[1..][1..][i] == t[2..][i] == t[2 + i];
        assert Hex4(x[1..][1..]) == Hex4(t[2..]);
        assert HexValue(OPEN_BRACE) == -1 && x[1..][1] == t[2];
        assert EscapeAt(x[1..]) == Some(Escape([Hex4(t[2..]).value], 5));
      }
    }
  }

  /** Whatever a JSON-escaped text denotes, the loop's output denotes in single quotes. */
  lemma {:induction false} QuotedJsonIsLiteral(t: Text)
    requires JsonValue(t).Some?
    ensures LiteralValue(Quoted(t)) == JsonValue(t)
    decreases |t|
  {
    if t == [] {
    } else if t[0] == QUOTE {
      QuotedJsonIsLiteral(t[1..]);
      assert Quoted(t)[1..][0] == QUOTE && Quoted(t)[2..] == Quoted(t[1..]);
    } else {
      var n := JsonHead(t);
      JsonHeadRead(t, Quoted(t[n..]));
      QuotedCopies(t, n);
      QuotedJsonIsLiteral(t[n..]);
    }
  }

  /** Any text, JSON-escaped and then passed through the loop, is a single-quoted literal's body that denotes it. */
  lemma EmbeddedTextIsPreserved(s: Text)
    ensures LiteralValue(Quoted(JsonEscaped(s))) == Some(s)
  {
    JsonRoundTrip(s);
    QuotedJsonIsLiteral(JsonEscaped(s));
  }

  /** The escaping of a user agent, a graphics vendor and a renderer: nothing for the empty string. */
  method EscapeForScript(s: Text) returns (escaped: Text)
    ensures LiteralValue(escaped) == Some(s)
  {
    escaped := [];
    if s != [] {
      escaped := EscapeQuotes(JsonEscaped(s));
    }
    EmbeddedTextIsPreserved(s);
  }

  // --- The quote loop alone: time zone names ---------------------------------------------------------------

  /** What `%s` prints of a string: the text before its first NUL. */
  function CString(s: Text): Text {
    if s == [] || s[0] == NUL then [] else [s[0]] + CString(s[1..])
  }

  lemma {:induction false} CStringOfQuoted(s: Text)
    ensures CString(Quoted(s)) == Quoted(CString(s))
  {
    if s == [] || s[0] == NUL {
    } else {
      CStringOfQuoted(s[1..]);
      var t := Quoted(s);
      if s[0] == QUOTE {
        assert t[1..][1..] == Quoted(s[1..]);
        assert CString(t) == [BACKSLASH] + ([QUOTE] + CString(Quoted(s[1..])));
      } else {
        assert t[1..] == Quoted(s[1..]);
      }
      assert CString(s)[1..] == CString(s[1..]);
    }
  }

  lemma {:induction false} CStringShorter(s: Text)
    ensures |CString(s)| <= |s| && (|CString(s)| == |s| <==> NUL !in s)
    ensures NUL !in s ==> CString(s) == s
  {
    if s == [] || s[0] == NUL {
    } else {
      CStringShorter(s[1..]);
      assert s == [s[0]] + s[1..];
    }
  }

  /** No string denoted by the loop's output is longer than its input, and one with a backslash in it denotes
      a shorter. */
  lemma {:induction false} LiteralNoLonger(s: Text)
    ensures var v := LiteralValue(Quoted(s));
            v.Some? ==> |v.value| <= |s| && (BACKSLASH in s ==> |v.value| < |s|)
    decreases |s|
  {
    if s == [] {
    } else {
      var t := Quoted(s);
      if s[0] == QUOTE {
        assert t[1..][0] == QUOTE && t[2..] == Quoted(s[1..]);
        LiteralNoLonger(s[1..]);
        assert s == [s[0]] + s[1..];
      } else if s[0] == BACKSLASH {
        BackslashShortens(s);
      } else {
        assert t[1..] == Quoted(s[1..]);
        LiteralNoLonger(s[1..]);
        assert s == [s[0]] + s[1..];
      }
    }
  }

  lemma {:induction false} BackslashShortens(s: Text)
    requires s != [] && s[0] == BACKSLASH
    ensures var v := LiteralValue(Quoted(s)); v.Some? ==> |v.value| < |s|
    decreases |s|, 0
  {
    var t := Quoted(s);
    var u := Quoted(s[1..]);
    assert t[1..] == u;
    if |s| == 1 {
    } else if s[1] == QUOTE {
      assert u[0] == BACKSLASH && u[1] == QUOTE;
      assert t[1 + 1..][0] == QUOTE;
      assert LiteralValue(t[1 + 1..]) == None;
    } else {
      var e := EscapeAt(u);
      if e.Some? {
        QuotedVerbatim(s[1..], e.value.length);
        var n := 1 + e.value.length;
        assert t[n..] == u[e.value.length..] && s[1..][e.value.length..] == s[n..];
        LiteralNoLonger(s[n..]);
      }
    }
  }

  lemma {:induction false} PlainNameRead(s: Text)
    requires BACKSLASH !in s
    ensures LiteralValue(Quoted(s)) == if CR in s || LF in s then None else Some(s)
  {
    if s == [] {
    } else {
      var t := Quoted(s);
      PlainNameRead(s[1..]);
      assert s == [s[0]] + s[1..];
      if s[0] == QUOTE {
        assert t[1..][0] == QUOTE && t[2..] == Quoted(s[1..]);
      } else {
        assert t[1..] == Quoted(s[1..]);
      }
    }
  }

  /** The quote loop alone, as applied to time zone names, preserves exactly the names without a backslash, a line end
      or a NUL. */
  lemma TimezonePreservedExactly(name: Text)
    ensures LiteralValue(CString(Quoted(name))) == Some(name)
            <==> BACKSLASH !in name && CR !in name && LF !in name && NUL !in name
  {
    var printed := CString(name);
    CStringOfQuoted(name);
    CStringShorter(name);
    LiteralNoLonger(printed);
    if BACKSLASH !in name && NUL !in name {
      PlainNameRead(name);
    }
  }
}
