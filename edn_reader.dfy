/**
 * The EDN reader as functions of the input text and a cursor position.
 * Each function reads one syntactic form starting at position `p` and
 * answers the value read together with the position just after it, or
 * the parse error the reader reports.  These are the specifications the
 * cursor-based parser (module EdnParser) is proved against, and the
 * functions the reader's properties are stated about.
 *
 * Character classes: whitespace is Unicode `White_Space`, exactly as
 * Rust's `char::is_whitespace`; letters and alphanumerics are limited to
 * ASCII (the Unicode tables are not part of this model).
 */
module EdnReader {
  import opened Errors
  import opened Value
  import opened Text

  /** A form read from the input, and the position just after it. */
  datatype Read<+T> = Read(value: T, next: nat)

  // ---------------------------------------------------------------------
  // Character classes
  // ---------------------------------------------------------------------

  /** Rust's `char::is_whitespace`: the Unicode White_Space property. */
  predicate IsWhitespace(c: char)
  {
    '\t' <= c <= '\r' || c == ' ' || c == '\U{85}' || c == '\U{A0}' || c == '\U{1680}' ||
    '\U{2000}' <= c <= '\U{200A}' || c == '\U{2028}' || c == '\U{2029}' || c == '\U{202F}' ||
    c == '\U{205F}' || c == '\U{3000}'
  }

  predicate IsAsciiDigit(c: char) { '0' <= c <= '9' }

  predicate IsHexDigit(c: char) { '0' <= c <= '9' || 'a' <= c <= 'f' || 'A' <= c <= 'F' }

  predicate IsAlphabetic(c: char) { 'a' <= c <= 'z' || 'A' <= c <= 'Z' }

  predicate IsAlphanumeric(c: char) { IsAlphabetic(c) || IsAsciiDigit(c) }

  /** The punctuation allowed in symbols and keywords besides letters and digits. */
  const SymbolPunctuation: string := "+-*/_!?$%&=<>.-"

  predicate IsSymbolChar(c: char) { IsAlphanumeric(c) || c in SymbolPunctuation }

  /** `#_` starts at `p`. */
  predicate AtDiscard(s: string, p: nat)
  {
    p + 1 < |s| && s[p] == '#' && s[p + 1] == '_'
  }

  // ---------------------------------------------------------------------
  // Whitespace, comments, names and literals
  // ---------------------------------------------------------------------

  /** The first newline at or after `p`, or the end of the input. */
  function LineEnd(s: string, p: nat): (q: nat)
    requires p <= |s|
    ensures p <= q <= |s|
    ensures q == |s| || s[q] == '\n'
    ensures forall i :: p <= i < q ==> s[i] != '\n'
    decreases |s| - p
  {
    if p == |s| || s[p] == '\n' then p else LineEnd(s, p + 1)
  }

  /** Skips whitespace, commas and `;` comments.  A comment runs up to the end of its line. */
  function SkipWs(s: string, p: nat): (q: nat)
    requires p <= |s|
    ensures p <= q <= |s|
    decreases |s| - p
  {
    if p == |s| then p
    else if IsWhitespace(s[p]) || s[p] == ',' then SkipWs(s, p + 1)
    else if s[p] == ';' then SkipWs(s, LineEnd(s, p))
    else p
  }

  /** The end of the run of symbol characters that starts at `p`. */
  function NameEnd(s: string, p: nat): (q: nat)
    requires p <= |s|
    ensures p <= q <= |s|
    ensures forall i :: p <= i < q ==> IsSymbolChar(s[i])
    ensures q == |s| || !IsSymbolChar(s[q])
    decreases |s| - p
  {
    if p < |s| && IsSymbolChar(s[p]) then NameEnd(s, p + 1) else p
  }

  /** `lit` occurs at `p` and is not followed by a symbol character. */
  function ConsumeLiteral(s: string, p: nat, lit: string): (r: Option<nat>)
    requires p <= |s|
  {
    if p + |lit| <= |s| && s[p..p + |lit|] == lit &&
       (p + |lit| == |s| || !IsSymbolChar(s[p + |lit|]))
    then Some(p + |lit|)
    else None
  }

  function SymbolAt(s: string, p: nat): (r: Result<Read<EdnValue>>)
    requires p <= |s|
    ensures r.Ok? ==> p < r.value.next <= |s|
  {
    var e := NameEnd(s, p);
    if e == p then Err(ParseError("Empty symbol")) else Ok(Read(Symbol(s[p..e]), e))
  }

  function NilAt(s: string, p: nat): (r: Result<Read<EdnValue>>)
    requires p <= |s|
    ensures r.Ok? ==> p < r.value.next <= |s|
  {
    var n := ConsumeLiteral(s, p, "nil");
    if n.Some? then Ok(Read(Nil, n.value)) else SymbolAt(s, p)
  }

  function BooleanAt(s: string, p: nat): (r: Result<Read<EdnValue>>)
    requires p <= |s|
    ensures r.Ok? ==> p < r.value.next <= |s|
  {
    var t := ConsumeLiteral(s, p, "true");
    if t.Some? then Ok(Read(Bool(true), t.value))
    else
      var f := ConsumeLiteral(s, p, "false");
      if f.Some? then Ok(Read(Bool(false), f.value)) else SymbolAt(s, p)
  }

  /** A keyword; `p` is at the colon. */
  function KeywordAt(s: string, p: nat): (r: Result<Read<EdnValue>>)
    requires p < |s|
    ensures r.Ok? ==> p < r.value.next <= |s|
  {
    var e := NameEnd(s, p + 1);
    if e == p + 1 then Err(ParseError("Empty keyword")) else Ok(Read(Keyword(s[p + 1..e]), e))
  }

  // ---------------------------------------------------------------------
  // Strings and characters
  // ---------------------------------------------------------------------

  function HexDigitValue(c: char): (n: nat)
    requires IsHexDigit(c)
    ensures n < 16
  {
    if '0' <= c <= '9' then c as nat - '0' as nat
    else if 'a' <= c <= 'f' then c as nat - 'a' as nat + 10
    else c as nat - 'A' as nat + 10
  }

  predicate AllHex(t: string) { forall i :: 0 <= i < |t| ==> IsHexDigit(t[i]) }

  /** The number a run of hex digits denotes. */
  function HexValue(t: string): (n: nat)
    requires AllHex(t)
  {
    if t == [] then 0 else HexValue(t[..|t| - 1]) * 16 + HexDigitValue(t[|t| - 1])
  }

  /** A code point that is not a Unicode scalar value (a surrogate) has no `char`. */
  predicate IsScalar(n: nat) { n < 0xD800 || 0xE000 <= n < 0x11_0000 }

  /** Four hex digits at `p` naming a character; the messages differ inside a string. */
  function UnicodeEscape(s: string, p: nat, inString: bool): (r: Result<Read<char>>)
    requires p <= |s|
    ensures r.Ok? ==> r.value.next == p + 4 <= |s|
  {
    if p + 4 > |s| || !AllHex(s[p..p + 4]) then
      Err(ParseError(if inString then "Unicode escape in string requires exactly 4 hex digits"
                     else "Unicode escape requires exactly 4 hex digits"))
    else
      var code := HexValue(s[p..p + 4]);
      if !IsScalar(code) then
        Err(ParseError((if inString then "Invalid Unicode code point in string: U+"
                        else "Invalid Unicode code point: U+") + s[p..p + 4]))
      else Ok(Read(code as char, p + 4))
  }

  /** The character a one-letter escape inside a string denotes. */
  function EscapedChar(e: char): Option<char>
  {
    if e == '"' then Some('"')
    else if e == '\\' then Some('\\')
    else if e == 'n' then Some('\n')
    else if e == 'r' then Some('\r')
    else if e == 't' then Some('\t')
    else None
  }

  /** The body of a string after its opening quote; `acc` holds the characters read so far. */
  function StringBody(s: string, p: nat, acc: string): (r: Result<Read<string>>)
    requires p <= |s|
    ensures r.Ok? ==> p < r.value.next <= |s|
    decreases |s| - p
  {
    if p == |s| then Err(ParseError("Unterminated string"))
    else if s[p] == '"' then Ok(Read(acc, p + 1))
    else if s[p] != '\\' then StringBody(s, p + 1, acc + [s[p]])
    else if p + 1 == |s| then Err(ParseError("Unterminated string escape"))
    else if s[p + 1] == 'u' then
      var u :- UnicodeEscape(s, p + 2, true);
      StringBody(s, u.next, acc + [u.value])
    else
      var c := EscapedChar(s[p + 1]);
      if c.None? then Err(ParseError("Invalid escape sequence: \\" + [s[p + 1]]))
      else StringBody(s, p + 2, acc + [c.value])
  }

  /** A string; `p` is at the opening quote. */
  function StringAt(s: string, p: nat): (r: Result<Read<EdnValue>>)
    requires p < |s|
    ensures r.Ok? ==> p < r.value.next <= |s|
    ensures r.Ok? ==> r.value.value.Str?
  {
    var b :- StringBody(s, p + 1, "");
    Ok(Read(Str(b.value), b.next))
  }

  /** The character a character literal's name denotes. */
  function NamedChar(name: string): Option<char>
  {
    if name == "newline" then Some('\n')
    else if name == "tab" then Some('\t')
    else if name == "return" then Some('\r')
    else if name == "space" then Some(' ')
    else if name == "formfeed" then Some('\U{C}')
    else if name == "backspace" then Some('\U{8}')
    else if Utf8Len(name) == 1 then Some(name[0])
    else None
  }

  /** A character literal; `p` is at the backslash. */
  function CharacterAt(s: string, p: nat): (r: Result<Read<EdnValue>>)
    requires p < |s|
    ensures r.Ok? ==> p < r.value.next <= |s|
  {
    if p + 1 == |s| then Err(ParseError("Incomplete character literal"))
    else if s[p + 1] == 'u' then UnicodeCharacterAt(s, p + 1)
    else NamedCharacterAt(s, p + 1)
  }

  /** `\uXXXX`; `p` is at the `u`. */
  function UnicodeCharacterAt(s: string, p: nat): (r: Result<Read<EdnValue>>)
    requires p < |s|
    ensures r.Ok? ==> p < r.value.next <= |s|
  {
    var u :- UnicodeEscape(s, p + 1, false);
    Ok(Read(Character(u.value), u.next))
  }

  /** A character given by its name or as itself; `p` is just after the backslash. */
  function NamedCharacterAt(s: string, p: nat): (r: Result<Read<EdnValue>>)
    requires p <= |s|
    ensures r.Ok? ==> p <= r.value.next <= |s|
  {
    var e := NameEnd(s, p);
    var c := NamedChar(s[p..e]);
    if c.None? then Err(ParseError("Invalid character literal: \\" + s[p..e]))
    else Ok(Read(Character(c.value), e))
  }

  // ---------------------------------------------------------------------
  // Numbers
  // ---------------------------------------------------------------------

  /** Scans digits and at most one further dot from `p`; `dot` says whether a dot was seen. */
  function Mantissa(s: string, p: nat, dot: bool): (r: (nat, bool))
    requires p <= |s|
    ensures p <= r.0 <= |s|
    ensures dot ==> r.1
    decreases |s| - p
  {
    if p < |s| && (IsAsciiDigit(s[p]) || s[p] == '.') then
      if s[p] != '.' then Mantissa(s, p + 1, dot)
      else if dot then (p, dot)
      else Mantissa(s, p + 1, true)
    else (p, dot)
  }

  /** The end of the run of digits that starts at `p`. */
  function DigitsEnd(s: string, p: nat): (q: nat)
    requires p <= |s|
    ensures p <= q <= |s|
    decreases |s| - p
  {
    if p < |s| && IsAsciiDigit(s[p]) then DigitsEnd(s, p + 1) else p
  }

  predicate AllDigits(t: string) { forall i :: 0 <= i < |t| ==> IsAsciiDigit(t[i]) }

  function DigitsValue(t: string): (n: nat)
    requires AllDigits(t)
  {
    if t == [] then 0 else DigitsValue(t[..|t| - 1]) * 10 + (t[|t| - 1] as nat - '0' as nat)
  }

  const MinI64: int := -0x8000_0000_0000_0000
  const MaxI64: int := 0x7FFF_FFFF_FFFF_FFFF

  /** Rust's `str::parse::<i64>` on an optional minus sign followed by digits. */
  function ParseI64(t: string): (r: Option<int>)
    ensures r.Some? ==> t != [] && MinI64 <= r.value <= MaxI64
  {
    if t == [] then None
    else if t[0] == '-' then
      if |t| == 1 || !AllDigits(t[1..]) || DigitsValue(t[1..]) > -MinI64 then None
      else Some(0 - DigitsValue(t[1..]))
    else if !AllDigits(t) || DigitsValue(t) > MaxI64 then None
    else Some(DigitsValue(t))
  }

  /** Where the number scanner stops, and whether it saw a dot or an exponent. */
  function NumberEnd(s: string, p: nat): (r: (nat, bool))
    requires p < |s|
    ensures p <= r.0 <= |s|
  {
    var m := Mantissa(s, if s[p] == '-' then p + 1 else p, false);
    if m.0 < |s| && (s[m.0] == 'e' || s[m.0] == 'E') then
      var q := if m.0 + 1 < |s| && (s[m.0 + 1] == '+' || s[m.0 + 1] == '-') then m.0 + 2 else m.0 + 1;
      if q < |s| && IsAsciiDigit(s[q]) then (DigitsEnd(s, q), true)
      else
        // The exponent has no digits: rescan from the start of the number,
        // keeping the dot already seen; the sign is not rescanned.
        Mantissa(s, p, m.1)
    else m
  }

  /**
   * A number at `p`.  Text with a dot or an exponent is a float, which this
   * model keeps as its text; every non-empty text the scanner stops at is
   * valid float syntax.  Otherwise the text must be a 64-bit integer.
   */
  function NumberAt(s: string, p: nat): (r: Result<Read<EdnValue>>)
    requires p < |s|
    ensures r.Ok? ==> p < r.value.next <= |s|
  {
    var n := NumberEnd(s, p);
    var text := s[p..n.0];
    if n.1 then
      if text == [] then Err(ParseError("Invalid float: ")) else Ok(Read(Float(text), n.0))
    else
      var i := ParseI64(text);
      if i.None? then Err(ParseError("Invalid integer: " + text)) else Ok(Read(Integer(i.value), n.0))
  }

  // ---------------------------------------------------------------------
  // Tagged literals
  // ---------------------------------------------------------------------

  predicate DigitsIn(t: string, lo: nat, hi: nat)
    requires lo <= hi <= |t|
  {
    forall i :: lo <= i < hi ==> IsAsciiDigit(t[i])
  }

  /** The `YYYY-MM-DDTHH:MM:SS` prefix check; the length guard counts UTF-8 bytes. */
  predicate IsValidInstant(t: string)
  {
    Utf8Len(t) >= 19 && |t| >= 19 &&
    t[4] == '-' && t[7] == '-' && t[10] == 'T' && t[13] == ':' && t[16] == ':' &&
    DigitsIn(t, 0, 4) && DigitsIn(t, 5, 7) && DigitsIn(t, 8, 10) &&
    DigitsIn(t, 11, 13) && DigitsIn(t, 14, 16) && DigitsIn(t, 17, 19)
  }

  predicate HexIn(t: string, lo: nat, hi: nat)
    requires lo <= hi <= |t|
  {
    forall i :: lo <= i < hi ==> IsHexDigit(t[i])
  }

  /** The 8-4-4-4-12 layout of hex digits and hyphens, counted in characters. */
  predicate IsValidUuid(t: string)
  {
    |t| == 36 && t[8] == '-' && t[13] == '-' && t[18] == '-' && t[23] == '-' &&
    HexIn(t, 0, 8) && HexIn(t, 9, 13) && HexIn(t, 14, 18) && HexIn(t, 19, 23) && HexIn(t, 24, 36)
  }

  /**
   * The UUID check as the reader's source writes it: the length guard counts
   * UTF-8 bytes while the positions count characters, so a string of 36
   * bytes but fewer characters is indexed past its end.  `None` is that
   * panic.  `IsValidUuid` is the check the reader uses.
   */
  function UuidAsWritten(t: string): Option<bool>
  {
    if Utf8Len(t) != 36 then Some(false)
    else if |t| <= 8 then None
    else if t[8] != '-' then Some(false)
    else if |t| <= 13 then None
    else if t[13] != '-' then Some(false)
    else if |t| <= 18 then None
    else if t[18] != '-' then Some(false)
    else if |t| <= 23 then None
    else if t[23] != '-' then Some(false)
    else if |t| < 36 then None
    else Some(HexIn(t, 0, 8) && HexIn(t, 9, 13) && HexIn(t, 14, 18) && HexIn(t, 19, 23) && HexIn(t, 24, 36))
  }

  /** The value a tagged form denotes: `#inst` and `#uuid` are checked, any other tag is kept. */
  function TagValue(tag: string, v: EdnValue): (r: Result<EdnValue>)
  {
    if tag == "inst" then
      if !v.Str? then Err(ParseError("#inst requires a string value"))
      else if IsValidInstant(v.s) then Ok(Instant(v.s))
      else Err(ParseError("Invalid instant format: " + v.s))
    else if tag == "uuid" then
      if !v.Str? then Err(ParseError("#uuid requires a string value"))
      else if IsValidUuid(v.s) then Ok(Uuid(v.s))
      else Err(ParseError("Invalid UUID format: " + v.s))
    else Ok(Tagged(tag, v))
  }

  /** `#(...)` reads as `(fn [%] body)`: the sole element, or the list of all of them. */
  function AnonymousFunction(items: seq<EdnValue>): EdnValue
  {
    List([Symbol("fn"), Vector([Symbol("%")]), if |items| == 1 then items[0] else List(items)])
  }

  // ---------------------------------------------------------------------
  // Forms
  // ---------------------------------------------------------------------

  /** A form, after whitespace and any `#_` discards. */
  function ValueAt(s: string, p: nat): (r: Result<Read<EdnValue>>)
    requires p <= |s|
    ensures r.Ok? ==> p < r.value.next <= |s|
    decreases |s| - p, 2
  {
    var q :- SkipDiscards(s, SkipWs(s, p));
    if q == |s| then Err(ParseError("Unexpected end of input")) else FormAt(s, q, false)
  }

  /** Skips `#_` discards, each followed by whitespace. */
  function SkipDiscards(s: string, p: nat): (r: Result<nat>)
    requires p <= |s|
    ensures r.Ok? ==> p <= r.value <= |s| && !AtDiscard(s, r.value)
    decreases |s| - p, 0
  {
    if AtDiscard(s, p) then
      var d :- Discard(s, p + 1);
      SkipDiscards(s, SkipWs(s, d))
    else Ok(p)
  }

  /** What `#_` discards; `p` is at the underscore.  Stacked discards each drop one more form. */
  function Discard(s: string, p: nat): (r: Result<nat>)
    requires p < |s|
    ensures r.Ok? ==> p < r.value <= |s|
    decreases |s| - p, 0
  {
    var q := SkipWs(s, p + 1);
    if AtDiscard(s, q) then
      var d :- Discard(s, q + 1);
      var e := SkipWs(s, d);
      if e == |s| then Ok(e)
      else
        var v :- ValueRaw(s, e);
        Ok(v.next)
    else if q == |s| then Ok(q)
    else
      var v :- ValueRaw(s, q);
      Ok(v.next)
  }

  /** A form read on behalf of a discard, which handles a `#_` of its own and reads a leading `+`. */
  function ValueRaw(s: string, p: nat): (r: Result<Read<EdnValue>>)
    requires p <= |s|
    ensures r.Ok? ==> p < r.value.next <= |s|
    decreases |s| - p, 2
  {
    var q := SkipWs(s, p);
    if q == |s| then Err(ParseError("Unexpected end of input"))
    else if AtDiscard(s, q) then
      var d :- Discard(s, q + 1);
      ValueRaw(s, d)
    else FormAt(s, q, true)
  }

  /** The form whose first character is at `p`; `raw` selects the discard reader's variant. */
  function FormAt(s: string, p: nat, raw: bool): (r: Result<Read<EdnValue>>)
    requires p < |s|
    ensures r.Ok? ==> p < r.value.next <= |s|
    decreases |s| - p, 1
  {
    var c := s[p];
    var digitNext := p + 1 < |s| && IsAsciiDigit(s[p + 1]);
    if c == 'n' then NilAt(s, p)
    else if c == 't' || c == 'f' then BooleanAt(s, p)
    else if c == '"' then StringAt(s, p)
    else if c == ':' then KeywordAt(s, p)
    else if c == '\\' then CharacterAt(s, p)
    else if c == '[' then VectorAt(s, p)
    else if c == '(' then ListAt(s, p)
    else if c == '{' then MapAt(s, p)
    else if c == '#' then DispatchAt(s, p)
    else if c == '^' then MetadataAt(s, p)
    else if IsAsciiDigit(c) then NumberAt(s, p)
    else if c == '-' then (if digitNext then NumberAt(s, p) else SymbolAt(s, p))
    else if raw then (if c == '+' && digitNext then NumberAt(s, p) else SymbolAt(s, p))
    else if IsAlphabetic(c) || c in SymbolPunctuation then SymbolAt(s, p)
    else Err(ParseError("Unexpected character: '" + [c] + "'"))
  }

  /** The forms of a vector, list or `#(...)` up to `closer`; `acc` holds those read so far. */
  function ItemsAt(s: string, p: nat, closer: char, what: string, acc: seq<EdnValue>): (r: Result<Read<seq<EdnValue>>>)
    requires p <= |s|
    ensures r.Ok? ==> p < r.value.next <= |s|
    decreases |s| - p, 3
  {
    if p == |s| then Err(ParseError(what))
    else if s[p] == closer then Ok(Read(acc, p + 1))
    else if AtDiscard(s, p) then
      var d :- Discard(s, p + 1);
      ItemsAt(s, SkipWs(s, d), closer, what, acc)
    else
      var v :- ValueAt(s, p);
      ItemsAt(s, SkipWs(s, v.next), closer, what, acc + [v.value])
  }

  function VectorAt(s: string, p: nat): (r: Result<Read<EdnValue>>)
    requires p < |s|
    ensures r.Ok? ==> p < r.value.next <= |s|
    decreases |s| - p, 0
  {
    var items :- ItemsAt(s, SkipWs(s, p + 1), ']', "Unterminated vector", []);
    Ok(Read(Vector(items.value), items.next))
  }

  function ListAt(s: string, p: nat): (r: Result<Read<EdnValue>>)
    requires p < |s|
    ensures r.Ok? ==> p < r.value.next <= |s|
    decreases |s| - p, 0
  {
    var items :- ItemsAt(s, SkipWs(s, p + 1), ')', "Unterminated list", []);
    Ok(Read(List(items.value), items.next))
  }

  /** The entries of a map up to `}`; a key with no value after it is an error. */
  function EntriesAt(s: string, p: nat, acc: seq<(EdnValue, EdnValue)>): (r: Result<Read<seq<(EdnValue, EdnValue)>>>)
    requires p <= |s|
    ensures r.Ok? ==> p < r.value.next <= |s|
    decreases |s| - p, 3
  {
    if p == |s| then Err(ParseError("Unterminated map"))
    else if s[p] == '}' then Ok(Read(acc, p + 1))
    else if AtDiscard(s, p) then
      var d :- Discard(s, p + 1);
      EntriesAt(s, SkipWs(s, d), acc)
    else
      var k :- ValueAt(s, p);
      var q := SkipWs(s, k.next);
      if q == |s| || s[q] == '}' then Err(ParseError("Map literal must contain an even number of forms"))
      else
        var v :- ValueAt(s, q);
        EntriesAt(s, SkipWs(s, v.next), MapInsert(acc, k.value, v.value))
  }

  function MapAt(s: string, p: nat): (r: Result<Read<EdnValue>>)
    requires p < |s|
    ensures r.Ok? ==> p < r.value.next <= |s|
    ensures r.Ok? ==> r.value.value.Map?
    decreases |s| - p, 0
  {
    var entries :- EntriesAt(s, SkipWs(s, p + 1), []);
    Ok(Read(Map(entries.value), entries.next))
  }

  /** The elements of a set up to `}`; an element equal to an earlier one is an error. */
  function ElementsAt(s: string, p: nat, acc: seq<EdnValue>): (r: Result<Read<seq<EdnValue>>>)
    requires p <= |s|
    ensures r.Ok? ==> p < r.value.next <= |s|
    decreases |s| - p, 3
  {
    if p == |s| then Err(ParseError("Unterminated set"))
    else if s[p] == '}' then Ok(Read(acc, p + 1))
    else if AtDiscard(s, p) then
      var d :- Discard(s, p + 1);
      ElementsAt(s, SkipWs(s, d), acc)
    else
      var v :- ValueAt(s, p);
      if v.value in acc then Err(ParseError("Duplicate element in set"))
      else ElementsAt(s, SkipWs(s, v.next), acc + [v.value])
  }

  /** What follows `#`; `p` is at the `#`. */
  function DispatchAt(s: string, p: nat): (r: Result<Read<EdnValue>>)
    requires p < |s|
    ensures r.Ok? ==> p < r.value.next <= |s|
    decreases |s| - p, 0
  {
    if p + 1 == |s| then Err(ParseError("Incomplete dispatch"))
    else if s[p + 1] == '{' then SetAt(s, p + 1)
    else if s[p + 1] == '(' then AnonymousFunctionAt(s, p + 1)
    else if s[p + 1] == '_' then Err(ParseError("Unexpected discard macro in dispatch"))
    else TaggedAt(s, p + 1)
  }

  /** A set; `p` is at the brace after the `#`. */
  function SetAt(s: string, p: nat): (r: Result<Read<EdnValue>>)
    requires p < |s|
    ensures r.Ok? ==> p < r.value.next <= |s|
    ensures r.Ok? ==> r.value.value.Set?
    decreases |s| - p, 0
  {
    var elements :- ElementsAt(s, SkipWs(s, p + 1), []);
    Ok(Read(Set(elements.value), elements.next))
  }

  /** `#(...)`; `p` is at the parenthesis after the `#`. */
  function AnonymousFunctionAt(s: string, p: nat): (r: Result<Read<EdnValue>>)
    requires p < |s|
    ensures r.Ok? ==> p < r.value.next <= |s|
    decreases |s| - p, 0
  {
    var items :- ItemsAt(s, SkipWs(s, p + 1), ')', "Unterminated anonymous function", []);
    Ok(Read(AnonymousFunction(items.value), items.next))
  }

  /** A tagged literal; `p` is just after the `#`. */
  function TaggedAt(s: string, p: nat): (r: Result<Read<EdnValue>>)
    requires p <= |s|
    ensures r.Ok? ==> p < r.value.next <= |s|
    decreases |s| - p, 0
  {
    var e := NameEnd(s, p);
    if e == p then Err(ParseError("Empty tag"))
    else
      var v :- ValueAt(s, SkipWs(s, e));
      var t :- TagValue(s[p..e], v.value);
      Ok(Read(t, v.next))
  }

  /** `^meta value`; `p` is at the caret. */
  function MetadataAt(s: string, p: nat): (r: Result<Read<EdnValue>>)
    requires p < |s|
    ensures r.Ok? ==> p < r.value.next <= |s|
    decreases |s| - p, 0
  {
    var m :- ValueAt(s, p + 1);
    var v :- ValueAt(s, SkipWs(s, m.next));
    Ok(Read(WithMetadata(m.value, v.value), v.next))
  }

  /** The whole input: nothing but whitespace, comments and discards reads as `nil`; text after the first form is ignored. */
  function Parse(s: string): (r: Result<EdnValue>)
  {
    var q :- SkipDiscards(s, SkipWs(s, 0));
    if q == |s| then Ok(Nil)
    else
      var v :- ValueAt(s, q);
      Ok(v.value)
  }
}
