/**
 * The part of Python's `json` module the pipeline uses: `json.dumps` with its default
 * settings (separators ", " and ": ", ensure_ascii escaping) on a flat object whose values
 * are strings or null, and `json.loads` on such text, accepting the whitespace JSON allows.
 * Objects keep their member order, as Python dicts do.
 */
module Json {
  import opened Wrappers

  datatype JsonValue = JNull | JString(s: string)

  datatype Member = Member(key: string, value: JsonValue)

  type JsonObject = seq<Member>

  function Keys(obj: JsonObject): (ks: seq<string>)
    ensures |ks| == |obj|
    ensures forall i | 0 <= i < |obj| :: ks[i] == obj[i].key
  {
    seq(|obj|, i requires 0 <= i < |obj| => obj[i].key)
  }

  /** `d[key]` on the dict that `json.loads` builds: a later duplicate key wins. */
  function Lookup(obj: JsonObject, key: string): (r: Option<JsonValue>)
    ensures r.Some? ==> Member(key, r.value) in obj
  {
    if obj == [] then None
    else if obj[|obj| - 1].key == key then Some(obj[|obj| - 1].value)
    else
      var r := Lookup(obj[..|obj| - 1], key);
      assert r.Some? ==> Member(key, r.value) in obj by {
        if r.Some? {
          var i :| 0 <= i < |obj| - 1 && obj[..|obj| - 1][i] == Member(key, r.value);
          assert obj[i] == Member(key, r.value);
        }
      }
      r
  }

  /** A key is found exactly when some member carries it (`KeyError` otherwise). */
  lemma {:induction false} LookupFound(obj: JsonObject, key: string)
    ensures Lookup(obj, key).Some? <==> key in Keys(obj)
  {
    if obj != [] && obj[|obj| - 1].key != key {
      assert Keys(obj) == Keys(obj[..|obj| - 1]) + [obj[|obj| - 1].key];
      LookupFound(obj[..|obj| - 1], key);
    }
  }

  /** A member added at the end decides its own key and leaves the others alone. */
  lemma LookupAppend(obj: JsonObject, m: Member, key: string)
    ensures Lookup(obj + [m], key) == if m.key == key then Some(m.value) else Lookup(obj, key)
  {
    assert (obj + [m])[..|obj|] == obj;
  }

  /** The member found is the last one with that key. */
  lemma {:induction false} LookupLastWins(obj: JsonObject, i: nat)
    requires i < |obj|
    requires obj[i].key !in Keys(obj[i + 1..])
    ensures Lookup(obj, obj[i].key) == Some(obj[i].value)
  {
    var n := |obj| - 1;
    if i < n {
      assert obj[n].key in Keys(obj[i + 1..]) by {
        assert Keys(obj[i + 1..])[n - i - 1] == obj[n].key;
      }
      var pre := obj[..n];
      assert pre[i] == obj[i];
      assert Keys(pre[i + 1..]) == Keys(obj[i + 1..])[..n - i - 1];
      LookupLastWins(pre, i);
    }
  }

  // ---------------------------------------------------------------- encoding

  function HexDigit(d: nat): (c: char)
    requires d < 16
  {
    if d < 10 then ('0' as int + d) as char else ('a' as int + d - 10) as char
  }

  /** Four lower-case hexadecimal digits, as `'{0:04x}'.format(n)` writes them. */
  function Hex4(n: nat): string
    requires n < 0x10000
  {
    var q1 := n / 16;
    var q2 := q1 / 16;
    var q3 := q2 / 16;
    [HexDigit(q3), HexDigit(q2 % 16), HexDigit(q1 % 16), HexDigit(n % 16)]
  }

  /** The character of a two-character escape `\x`, if `c` has one. */
  function ShortEscape(c: char): Option<char> {
    if c == '"' then Some('"')
    else if c == '\\' then Some('\\')
    else if c == '\n' then Some('n')
    else if c == '\r' then Some('r')
    else if c == '\t' then Some('t')
    else if c as int == 0x08 then Some('b')
    else if c as int == 0x0C then Some('f')
    else None
  }

  /** `c` as the escape \uXXXX (below U+10000) or a pair of them (a UTF-16 surrogate pair). */
  function UnicodeEscape(c: char): string {
    "\\u" + UnicodeDigits(c)
  }

  /** What follows the first `\u`: four hex digits, or those of the high surrogate, `\u` and the low one. */
  function UnicodeDigits(c: char): string {
    if c as int < 0x10000 then Hex4(c as int)
    else Hex4(HighSurrogate(c)) + ("\\u" + Hex4(LowSurrogate(c)))
  }

  /** The UTF-16 high surrogate of a character above U+FFFF. */
  function HighSurrogate(c: char): (h: nat)
    requires c as int >= 0x10000
    ensures 0xD800 <= h < 0xDC00
  {
    0xD800 + (c as int - 0x10000) / 0x400
  }

  /** The UTF-16 low surrogate of a character above U+FFFF. */
  function LowSurrogate(c: char): (l: nat)
    requires c as int >= 0x10000
    ensures 0xDC00 <= l < 0xE000
  {
    0xDC00 + (c as int - 0x10000) % 0x400
  }

  /**
   * How `json.dumps` writes one character of a string: the two-character escapes for
   * `"`, `\`, newline, carriage return, tab, backspace and form feed; printable ASCII
   * (space to `~`) unchanged; every other character as \uXXXX escapes.
   */
  function EscapeChar(c: char): string {
    match ShortEscape(c)
    case Some(e) => ['\\', e]
    case None => if ' ' <= c <= '~' then [c] else UnicodeEscape(c)
  }

  function Escape(s: string): string {
    if s == [] then [] else EscapeChar(s[0]) + Escape(s[1..])
  }

  function Quote(s: string): string {
    "\"" + Escape(s) + "\""
  }

  function DumpValue(v: JsonValue): string {
    match v
    case JNull => "null"
    case JString(s) => Quote(s)
  }

  function DumpMember(m: Member): string {
    Quote(m.key) + ": " + DumpValue(m.value)
  }

  function DumpMembers(ms: seq<Member>): string {
    if ms == [] then ""
    else if |ms| == 1 then DumpMember(ms[0])
    else DumpMember(ms[0]) + ", " + DumpMembers(ms[1..])
  }

  /** `json.dumps(obj)`: an object, written in ASCII only (the default `ensure_ascii`). */
  function Dumps(obj: JsonObject): (r: string)
    ensures IsAscii(r)
    ensures |r| >= 2 && r[0] == '{' && r[|r| - 1] == '}'
  {
    DumpMembersAscii(obj);
    "{" + DumpMembers(obj) + "}"
  }

  predicate IsAscii(s: string) {
    forall i | 0 <= i < |s| :: s[i] as int < 0x80
  }

  lemma AsciiConcat(a: string, b: string)
    requires IsAscii(a) && IsAscii(b)
    ensures IsAscii(a + b)
  {
  }

  /** Every character `json.dumps` writes for a string character is ASCII, escapes included. */
  lemma EscapeCharAscii(c: char)
    ensures IsAscii(EscapeChar(c))
  {
    if ShortEscape(c).None? && !(' ' <= c <= '~') {
      if c as int < 0x10000 {
        assert IsAscii(Hex4(c as int));
      } else {
        assert IsAscii(Hex4(HighSurrogate(c)));
        assert IsAscii(Hex4(LowSurrogate(c)));
        AsciiConcat("\\u", Hex4(LowSurrogate(c)));
        AsciiConcat(Hex4(HighSurrogate(c)), "\\u" + Hex4(LowSurrogate(c)));
      }
      AsciiConcat("\\u", UnicodeDigits(c));
    }
  }

  lemma {:induction false} EscapeAscii(s: string)
    ensures IsAscii(Escape(s))
  {
    if s != [] {
      EscapeCharAscii(s[0]);
      EscapeAscii(s[1..]);
      AsciiConcat(EscapeChar(s[0]), Escape(s[1..]));
    }
  }

  lemma DumpMemberAscii(m: Member)
    ensures IsAscii(DumpMember(m))
  {
    EscapeAscii(m.key);
    AsciiConcat("\"", Escape(m.key));
    AsciiConcat("\"" + Escape(m.key), "\"");
    AsciiConcat(Quote(m.key), ": ");
    if m.value.JString? {
      EscapeAscii(m.value.s);
      AsciiConcat("\"", Escape(m.value.s));
      AsciiConcat("\"" + Escape(m.value.s), "\"");
    }
    AsciiConcat(Quote(m.key) + ": ", DumpValue(m.value));
  }

  lemma {:induction false} DumpMembersAscii(ms: seq<Member>)
    ensures IsAscii("{" + DumpMembers(ms) + "}")
  {
    DumpMembersBodyAscii(ms);
    AsciiConcat("{", DumpMembers(ms));
    AsciiConcat("{" + DumpMembers(ms), "}");
  }

  lemma {:induction false} DumpMembersBodyAscii(ms: seq<Member>)
    ensures IsAscii(DumpMembers(ms))
  {
    if ms != [] {
      DumpMemberAscii(ms[0]);
      if |ms| > 1 {
        DumpMembersBodyAscii(ms[1..]);
        AsciiConcat(DumpMember(ms[0]), ", ");
        AsciiConcat(DumpMember(ms[0]) + ", ", DumpMembers(ms[1..]));
      }
    }
  }

  // ---------------------------------------------------------------- decoding

  predicate IsWs(c: char) {
    c == ' ' || c == '\t' || c == '\n' || c == '\r'
  }

  function SkipWs(s: string): (r: string)
    ensures |r| <= |s|
  {
    if s != [] && IsWs(s[0]) then SkipWs(s[1..]) else s
  }

  /** Skipping whitespace over a blank text leaves nothing. */
  lemma {:induction false} SkipWsBlank(s: string)
    ensures (forall i | 0 <= i < |s| :: IsWs(s[i])) ==> SkipWs(s) == []
  {
    if s != [] && IsWs(s[0]) {
      SkipWsBlank(s[1..]);
      assert (forall i | 0 <= i < |s| :: IsWs(s[i])) ==> (forall i | 0 <= i < |s[1..]| :: IsWs(s[1..][i])) by {
        if forall i | 0 <= i < |s| :: IsWs(s[i]) {
          forall i | 0 <= i < |s[1..]| ensures IsWs(s[1..][i]) {
            assert s[1..][i] == s[i + 1];
          }
        }
      }
    }
  }

  function HexValue(c: char): (r: Option<nat>)
    ensures r.Some? ==> r.value < 16
  {
    if '0' <= c <= '9' then Some(c as int - '0' as int)
    else if 'a' <= c <= 'f' then Some(c as int - 'a' as int + 10)
    else if 'A' <= c <= 'F' then Some(c as int - 'A' as int + 10)
    else None
  }

  function ParseHex4(s: string): (r: Option<(nat, string)>)
    ensures r.Some? ==> r.value.0 < 0x10000 && |s| >= 4 && r.value.1 == s[4..]
  {
    if |s| < 4 then None
    else
      match (HexValue(s[0]), HexValue(s[1]), HexValue(s[2]), HexValue(s[3]))
      case (Some(a), Some(b), Some(c), Some(d)) => Some((((a * 16 + b) * 16 + c) * 16 + d, s[4..]))
      case _ => None
  }

  /** The character a one-letter escape `\e` stands for. */
  function SimpleEscape(e: char): Option<char> {
    if e == '"' || e == '\\' || e == '/' then Some(e)
    else if e == 'b' then Some(0x08 as char)
    else if e == 'f' then Some(0x0C as char)
    else if e == 'n' then Some('\n')
    else if e == 'r' then Some('\r')
    else if e == 't' then Some('\t')
    else None
  }

  /** One escape sequence, `s` being the text after the backslash. */
  function ParseEscape(s: string): (r: Option<(char, string)>)
    ensures r.Some? ==> |r.value.1| < |s|
  {
    if s == [] then None
    else if s[0] == 'u' then ParseUnicodeEscape(s[1..])
    else
      match SimpleEscape(s[0])
      case None => None
      case Some(c) => Some((c, s[1..]))
  }

  /**
   * The four hex digits after `\u`. A high surrogate must be followed by an escaped low
   * surrogate, and the pair is joined into one character.
   */
  function ParseUnicodeEscape(s: string): (r: Option<(char, string)>)
    ensures r.Some? ==> |r.value.1| < |s|
  {
    match ParseHex4(s)
    case None => None
    case Some((hi, rest)) =>
      if 0xD800 <= hi < 0xDC00 then
        if |rest| >= 2 && rest[0] == '\\' && rest[1] == 'u' then
          match ParseHex4(rest[2..])
          case None => None
          case Some((lo, rest')) =>
            if 0xDC00 <= lo < 0xE000 then Some((JoinSurrogates(hi, lo), rest')) else None
        else None
      else if 0xDC00 <= hi < 0xE000 then None
      else Some((hi as char, rest))
  }

  function JoinSurrogates(hi: nat, lo: nat): char
    requires 0xD800 <= hi < 0xDC00 && 0xDC00 <= lo < 0xE000
  {
    (0x10000 + (hi - 0xD800) * 0x400 + (lo - 0xDC00)) as char
  }

  /** The characters of a string literal up to its closing quote, `s` starting after the opening one. */
  function ParseStringBody(s: string): (r: Option<(string, string)>)
    ensures r.Some? ==> |r.value.1| < |s|
    decreases |s|, 1
  {
    if s == [] then None
    else if s[0] == '"' then Some(([], s[1..]))
    else if s[0] == '\\' then ParseEscapedRest(s[1..])
    else if (s[0] as int) < 0x20 then None
    else Prepend(s[0], ParseStringBody(s[1..]))
  }

  /** An escape sequence (`s` starting after the backslash) and the rest of the literal. */
  function ParseEscapedRest(s: string): (r: Option<(string, string)>)
    ensures r.Some? ==> |r.value.1| < |s|
    decreases |s|, 0
  {
    match ParseEscape(s)
    case None => None
    case Some((c, rest)) => Prepend(c, ParseStringBody(rest))
  }

  function Prepend(c: char, r: Option<(string, string)>): Option<(string, string)> {
    match r
    case None => None
    case Some((t, rest)) => Some(([c] + t, rest))
  }

  function ParseValue(s: string): (r: Option<(JsonValue, string)>)
    ensures r.Some? ==> |r.value.1| < |s|
  {
    if |s| >= 4 && s[0] == 'n' && s[1] == 'u' && s[2] == 'l' && s[3] == 'l' then Some((JNull, s[4..]))
    else if s != [] && s[0] == '"' then
      match ParseStringBody(s[1..])
      case None => None
      case Some((t, rest)) => Some((JString(t), rest))
    else None
  }

  /** `: value` after a key, and the whitespace after the value. */
  function ParseColonValue(s: string): (r: Option<(JsonValue, string)>)
    ensures r.Some? ==> |r.value.1| < |s|
  {
    var r2 := SkipWs(s);
    if r2 == [] || r2[0] != ':' then None
    else
      match ParseValue(SkipWs(r2[1..]))
      case None => None
      case Some((v, r3)) => Some((v, SkipWs(r3)))
  }

  /** `"key" : value` and the whitespace after it. */
  function ParseMember(s: string): (r: Option<(Member, string)>)
    ensures r.Some? ==> |r.value.1| < |s|
  {
    if s == [] || s[0] != '"' then None
    else
      match ParseStringBody(s[1..])
      case None => None
      case Some((k, r1)) =>
        match ParseColonValue(r1)
        case None => None
        case Some((v, r2)) => Some((Member(k, v), r2))
  }

  /** Members separated by commas, through the closing brace. */
  function ParseMembers(s: string): (r: Option<(seq<Member>, string)>)
    decreases |s|
  {
    match ParseMember(s)
    case None => None
    case Some((m, r)) =>
      if r != [] && r[0] == ',' then
        match ParseMembers(SkipWs(r[1..]))
        case None => None
        case Some((ms, rest)) => Some(([m] + ms, rest))
      else if r != [] && r[0] == '}' then Some(([m], r[1..]))
      else None
  }

  /** The object after its opening brace, through the closing one. */
  function ParseObjectBody(s: string): Option<(seq<Member>, string)> {
    var u := SkipWs(s);
    if u != [] && u[0] == '}' then Some(([], u[1..])) else ParseMembers(u)
  }

  /**
   * `json.loads(s)` where the document is an object; None stands for the JSONDecodeError
   * raised on anything else.
   */
  function Loads(s: string): (r: Option<JsonObject>)
    ensures r.Some? ==> SkipWs(s) != [] && SkipWs(s)[0] == '{'
    ensures (forall i | 0 <= i < |s| :: IsWs(s[i])) ==> r.None?
  {
    SkipWsBlank(s);
    var t := SkipWs(s);
    if t == [] || t[0] != '{' then None
    else
      match ParseObjectBody(t[1..])
      case None => None
      case Some((ms, rest)) => if SkipWs(rest) == [] then Some(ms) else None
  }

  // ---------------------------------------------------------------- round trip

  lemma SkipWsStops(s: string)
    requires s != [] && !IsWs(s[0])
    ensures SkipWs(s) == s
  {
  }

  lemma HexDigitValue(d: nat)
    requires d < 16
    ensures HexValue(HexDigit(d)) == Some(d)
  {
  }

  lemma {:induction false} Hex4RoundTrip(n: nat, rest: string)
    requires n < 0x10000
    ensures ParseHex4(Hex4(n) + rest) == Some((n, rest))
  {
    var q1 := n / 16;
    var q2 := q1 / 16;
    var q3 := q2 / 16;
    HexDigitValue(q3);
    HexDigitValue(q2 % 16);
    HexDigitValue(q1 % 16);
    HexDigitValue(n % 16);
    var s := Hex4(n) + rest;
    assert s[4..] == rest;
    assert ((q3 * 16 + q2 % 16) * 16 + q1 % 16) * 16 + n % 16 == n;
  }

  lemma JoinSplitSurrogates(c: char)
    requires c as int >= 0x10000
    ensures JoinSurrogates(HighSurrogate(c), LowSurrogate(c)) == c
  {
  }

  lemma BmpEscapeRoundTrip(c: char, tail: string)
    requires c as int < 0x10000
    ensures ParseUnicodeEscape(UnicodeDigits(c) + tail) == Some((c, tail))
  {
    assert UnicodeDigits(c) == Hex4(c as int);
    Hex4RoundTrip(c as int, tail);
  }

  lemma AstralEscapeRoundTrip(c: char, tail: string)
    requires c as int >= 0x10000
    ensures ParseUnicodeEscape(UnicodeDigits(c) + tail) == Some((c, tail))
  {
    var hi, lo := HighSurrogate(c), LowSurrogate(c);
    var rest := "\\u" + Hex4(lo) + tail;
    AppendAssoc(Hex4(hi), "\\u" + Hex4(lo), tail);
    assert UnicodeDigits(c) + tail == Hex4(hi) + rest;
    Hex4RoundTrip(hi, rest);
    assert rest[0] == '\\' && rest[1] == 'u' && rest[2..] == Hex4(lo) + tail;
    Hex4RoundTrip(lo, tail);
    JoinSplitSurrogates(c);
  }

  /** Decoding the \u escapes of a character gives back that character. */
  lemma UnicodeEscapeRoundTrip(c: char, tail: string)
    ensures ParseUnicodeEscape(UnicodeDigits(c) + tail) == Some((c, tail))
  {
    if c as int < 0x10000 {
      BmpEscapeRoundTrip(c, tail);
    } else {
      AstralEscapeRoundTrip(c, tail);
    }
  }

  /** A backslash followed by an escape that decodes to `c`. */
  lemma BackslashStep(x: string, c: char, rest: string)
    requires ParseEscape(x) == Some((c, rest))
    ensures ParseStringBody("\\" + x) == Prepend(c, ParseStringBody(rest))
  {
    var s := "\\" + x;
    assert s[0] == '\\' && s[1..] == x;
  }

  /** A character written as itself. */
  lemma PlainStep(c: char, tail: string)
    requires c != '"' && c != '\\' && c as int >= 0x20
    ensures ParseStringBody([c] + tail) == Prepend(c, ParseStringBody(tail))
  {
    assert ([c] + tail)[1..] == tail;
  }

  lemma ShortEscapeParse(c: char, tail: string)
    requires ShortEscape(c).Some?
    ensures ParseEscape([ShortEscape(c).value] + tail) == Some((c, tail))
  {
    var x := [ShortEscape(c).value] + tail;
    assert x[0] == ShortEscape(c).value && x[1..] == tail;
  }

  lemma UnicodeEscapeParse(c: char, tail: string)
    ensures ParseEscape("u" + (UnicodeDigits(c) + tail)) == Some((c, tail))
  {
    var x := "u" + (UnicodeDigits(c) + tail);
    assert x[0] == 'u' && x[1..] == UnicodeDigits(c) + tail;
    UnicodeEscapeRoundTrip(c, tail);
  }

  lemma ShortEscapeCharRoundTrip(c: char, tail: string)
    requires ShortEscape(c).Some?
    ensures ParseStringBody(EscapeChar(c) + tail) == Prepend(c, ParseStringBody(tail))
  {
    var e := ShortEscape(c).value;
    assert EscapeChar(c) == ['\\', e];
    assert EscapeChar(c) + tail == "\\" + ([e] + tail);
    ShortEscapeParse(c, tail);
    BackslashStep([e] + tail, c, tail);
  }

  lemma PrintableCharRoundTrip(c: char, tail: string)
    requires ShortEscape(c).None? && ' ' <= c <= '~'
    ensures ParseStringBody(EscapeChar(c) + tail) == Prepend(c, ParseStringBody(tail))
  {
    assert EscapeChar(c) == [c];
    PlainStep(c, tail);
  }

  lemma UnicodeCharRoundTrip(c: char, tail: string)
    requires ShortEscape(c).None? && !(' ' <= c <= '~')
    ensures ParseStringBody(EscapeChar(c) + tail) == Prepend(c, ParseStringBody(tail))
  {
    var x := "u" + (UnicodeDigits(c) + tail);
    assert EscapeChar(c) == "\\u" + UnicodeDigits(c);
    assert "\\u" == "\\" + "u";
    AppendAssoc("\\", "u", UnicodeDigits(c));
    AppendAssoc("\\", "u" + UnicodeDigits(c), tail);
    AppendAssoc("u", UnicodeDigits(c), tail);
    UnicodeEscapeParse(c, tail);
    BackslashStep(x, c, tail);
  }

  /** Decoding the escape of one character gives back that character and leaves the rest. */
  lemma EscapeCharRoundTrip(c: char, tail: string)
    ensures ParseStringBody(EscapeChar(c) + tail) == Prepend(c, ParseStringBody(tail))
  {
    if ShortEscape(c).Some? {
      ShortEscapeCharRoundTrip(c, tail);
    } else if ' ' <= c <= '~' {
      PrintableCharRoundTrip(c, tail);
    } else {
      UnicodeCharRoundTrip(c, tail);
    }
  }

  lemma {:induction false} EscapeRoundTrip(s: string, rest: string)
    ensures ParseStringBody(Escape(s) + "\"" + rest) == Some((s, rest))
  {
    if s == [] {
      assert Escape(s) + "\"" + rest == "\"" + rest;
    } else {
      var tail := Escape(s[1..]) + "\"" + rest;
      assert Escape(s) + "\"" + rest == EscapeChar(s[0]) + tail;
      EscapeCharRoundTrip(s[0], tail);
      EscapeRoundTrip(s[1..], rest);
      assert [s[0]] + s[1..] == s;
    }
  }

  lemma ValueRoundTrip(v: JsonValue, rest: string)
    ensures ParseValue(DumpValue(v) + rest) == Some((v, rest))
    ensures DumpValue(v)[0] == 'n' || DumpValue(v)[0] == '"'
  {
    var t := DumpValue(v) + rest;
    match v
    case JNull =>
      assert t[0] == 'n' && t[1] == 'u' && t[2] == 'l' && t[3] == 'l' && t[4..] == rest;
    case JString(s) =>
      assert t[0] == '"';
      assert t[1..] == Escape(s) + "\"" + rest;
      EscapeRoundTrip(s, rest);
  }

  lemma SkipWsSpace(x: string)
    requires x != [] && !IsWs(x[0])
    ensures SkipWs(" " + x) == x
  {
    assert (" " + x)[1..] == x;
  }

  /** `: ` followed by text that starts a value. */
  lemma ColonStep(x: string, v: JsonValue, tail: string)
    requires x != [] && !IsWs(x[0])
    requires ParseValue(x) == Some((v, tail))
    ensures ParseColonValue(": " + x) == Some((v, SkipWs(tail)))
  {
    var s := ": " + x;
    assert s[0] == ':';
    SkipWsStops(s);
    assert s[1..] == " " + x;
    SkipWsSpace(x);
  }

  lemma ColonValueRoundTrip(v: JsonValue, tail: string)
    ensures ParseColonValue(": " + DumpValue(v) + tail) == Some((v, SkipWs(tail)))
  {
    var x := DumpValue(v) + tail;
    AppendAssoc(": ", DumpValue(v), tail);
    ValueRoundTrip(v, tail);
    assert x[0] == DumpValue(v)[0];
    ColonStep(x, v, tail);
  }

  lemma MemberRoundTrip(m: Member, tail: string)
    ensures ParseMember(DumpMember(m) + tail) == Some((m, SkipWs(tail)))
  {
    var s := DumpMember(m) + tail;
    var r1 := ": " + DumpValue(m.value) + tail;
    Regroup("\"", Escape(m.key), ": ", DumpValue(m.value), tail);
    assert s == "\"" + (Escape(m.key) + "\"" + r1);
    EscapeRoundTrip(m.key, r1);
    ColonValueRoundTrip(m.value, tail);
  }

  lemma Regroup(q: string, e: string, c: string, d: string, t: string)
    ensures q + e + q + c + d + t == q + (e + q + (c + d + t))
  {
  }

  lemma ParseMembersLast(s: string, m: Member, rest: string)
    requires ParseMember(s) == Some((m, "}" + rest))
    ensures ParseMembers(s) == Some(([m], rest))
  {
    assert ("}" + rest)[1..] == rest;
  }

  lemma ParseMembersNext(s: string, m: Member, t: string, ms: seq<Member>, rest: string)
    requires ParseMember(s) == Some((m, ", " + t))
    requires t != [] && !IsWs(t[0])
    requires ParseMembers(t) == Some((ms, rest))
    ensures ParseMembers(s) == Some(([m] + ms, rest))
  {
    CommaThen(t);
    ParseMembersComma(s, m, ", " + t);
  }

  lemma CommaThen(t: string)
    requires t != [] && !IsWs(t[0])
    ensures (", " + t)[0] == ',' && SkipWs((", " + t)[1..]) == t
  {
    assert (", " + t)[1..] == " " + t;
    SkipWsSpace(t);
  }

  /** A member followed by a comma: the members after it, with `m` in front. */
  lemma ParseMembersComma(s: string, m: Member, r: string)
    requires ParseMember(s) == Some((m, r)) && r != [] && r[0] == ','
    ensures ParseMembers(s) == match ParseMembers(SkipWs(r[1..]))
      case None => None
      case Some((ms, rest)) => Some(([m] + ms, rest))
  {
  }

  lemma DumpMembersStart(ms: seq<Member>)
    requires ms != []
    ensures DumpMembers(ms) != [] && DumpMembers(ms)[0] == '"'
  {
    assert DumpMembers(ms)[0] == DumpMember(ms[0])[0] == '"';
  }

  lemma MembersRoundTripOne(m: Member, rest: string)
    ensures ParseMembers(DumpMembers([m]) + "}" + rest) == Some(([m], rest))
  {
    var close := "}" + rest;
    var s := DumpMember(m) + close;
    assert DumpMembers([m]) + "}" + rest == s;
    MemberRoundTrip(m, close);
    SkipWsStops(close);
    ParseMembersLast(s, m, rest);
  }

  lemma AppendAssoc<T>(a: seq<T>, b: seq<T>, c: seq<T>)
    ensures (a + b) + c == a + (b + c)
  {
  }

  lemma MembersRoundTripCons(m: Member, dt: string, ms: seq<Member>, rest: string)
    requires dt != [] && dt[0] == '"'
    requires ParseMembers(dt + "}" + rest) == Some((ms, rest))
    ensures ParseMembers(DumpMember(m) + ", " + dt + "}" + rest) == Some(([m] + ms, rest))
  {
    var d0 := DumpMember(m);
    var tail := dt + "}" + rest;
    var sep := ", " + tail;
    var s := d0 + sep;
    AppendAssoc(d0 + ", " + dt, "}", rest);
    AppendAssoc(d0 + ", ", dt, "}" + rest);
    AppendAssoc(dt, "}", rest);
    AppendAssoc(d0, ", ", tail);
    assert d0 + ", " + dt + "}" + rest == s;
    MemberRoundTrip(m, sep);
    SkipWsStops(sep);
    ParseMembersNext(s, m, tail, ms, rest);
  }

  /** The step of the induction: one more member in front of a list that already reads back. */
  lemma MembersRoundTripStep(ms: seq<Member>, rest: string)
    requires |ms| >= 2
    requires ParseMembers(DumpMembers(ms[1..]) + "}" + rest) == Some((ms[1..], rest))
    ensures ParseMembers(DumpMembers(ms) + "}" + rest) == Some((ms, rest))
  {
    DumpMembersStart(ms[1..]);
    MembersRoundTripCons(ms[0], DumpMembers(ms[1..]), ms[1..], rest);
    DumpMembersSplit(ms, rest);
    HeadTail(ms);
  }

  lemma DumpMembersSplit(ms: seq<Member>, rest: string)
    requires |ms| >= 2
    ensures DumpMembers(ms) + "}" + rest == DumpMember(ms[0]) + ", " + DumpMembers(ms[1..]) + "}" + rest
  {
  }

  lemma HeadTail<T>(xs: seq<T>)
    requires xs != []
    ensures [xs[0]] + xs[1..] == xs
  {
  }

  lemma {:induction false} MembersRoundTrip(ms: seq<Member>, rest: string)
    requires ms != []
    ensures ParseMembers(DumpMembers(ms) + "}" + rest) == Some((ms, rest))
  {
    if |ms| == 1 {
      assert ms == [ms[0]];
      MembersRoundTripOne(ms[0], rest);
    } else {
      MembersRoundTrip(ms[1..], rest);
      MembersRoundTripStep(ms, rest);
    }
  }

  lemma ObjectBodyRoundTrip(obj: JsonObject)
    ensures ParseObjectBody(DumpMembers(obj) + "}") == Some((obj, ""))
  {
    var u := DumpMembers(obj) + "}";
    if obj == [] {
      assert u == "}";
      SkipWsStops(u);
      assert u[1..] == "";
    } else {
      DumpMembersStart(obj);
      assert u[0] == DumpMembers(obj)[0];
      SkipWsStops(u);
      MembersRoundTrip(obj, "");
      assert u + "" == u;
      assert ParseObjectBody(u) == ParseMembers(u);
    }
  }

  /** What `json.dumps` writes, `json.loads` reads back as the same object. */
  lemma DumpsLoadsRoundTrip(obj: JsonObject)
    ensures Loads(Dumps(obj)) == Some(obj)
  {
    var s := Dumps(obj);
    SkipWsStops(s);
    AppendAssoc("{", DumpMembers(obj), "}");
    assert s[1..] == DumpMembers(obj) + "}";
    ObjectBodyRoundTrip(obj);
  }
}
