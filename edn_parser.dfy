/**
 * The cursor-based EDN parser: a parser object holding the input's
 * characters and a position that every read advances.  Each method is
 * proved to agree with the reader function of module EdnReader at the
 * position the method started from: on success it returns that
 * function's value and leaves the cursor where the function says the
 * form ends; on failure it returns the same error.  The line, column and
 * file name kept for error messages are not part of this model.
 */
module EdnParser {
  import opened Errors
  import opened Value
  import opened EdnReader

  /** A read's outcome agrees with the reader function's answer `spec`. */
  predicate Agrees<T(==)>(r: Result<T>, position: nat, spec: Result<Read<T>>)
  {
    if spec.Ok? then r == Ok(spec.value.value) && position == spec.value.next
    else r == Err(spec.error)
  }

  /** The same, for a read whose only product is the new position. */
  predicate AgreesAt(r: Result<()>, position: nat, spec: Result<nat>)
  {
    if spec.Ok? then r == Ok(()) && position == spec.value
    else r == Err(spec.error)
  }

  /** The character an escape inside a string denotes; `p` is at the backslash. */
  function StringEscape(s: string, p: nat): (r: Result<Read<char>>)
    requires p < |s| && s[p] == '\\'
    ensures r.Ok? ==> p + 2 <= r.value.next <= |s|
  {
    if p + 1 == |s| then Err(ParseError("Unterminated string escape"))
    else if s[p + 1] == 'u' then UnicodeEscape(s, p + 2, true)
    else
      var c := EscapedChar(s[p + 1]);
      if c.None? then Err(ParseError("Invalid escape sequence: \\" + [s[p + 1]]))
      else Ok(Read(c.value, p + 2))
  }

  /** A string body at a backslash continues after the escape with its character added. */
  lemma StringEscapeStep(s: string, p: nat, acc: string)
    requires p < |s| && s[p] == '\\'
    ensures StringEscape(s, p).Err? ==> StringBody(s, p, acc) == Err(StringEscape(s, p).error)
    ensures StringEscape(s, p).Ok? ==>
              StringBody(s, p, acc) == StringBody(s, StringEscape(s, p).value.next, acc + [StringEscape(s, p).value.value])
  {
  }

  class Parser {
    const input: seq<char>
    var position: nat

    predicate Valid()
      reads this
    {
      position <= |input|
    }

    constructor(text: string)
      ensures input == text && position == 0 && Valid()
    {
      input := text;
      position := 0;
    }

    /** The text not yet read. */
    function RemainingInput(): (r: string)
      requires Valid()
      reads this
      ensures input == input[..position] + r
    {
      input[position..]
    }

    function IsAtEnd(): bool
      reads this
    {
      position >= |input|
    }

    /** The current character, or NUL at the end. */
    function Peek(): (c: char)
      reads this
      ensures !IsAtEnd() ==> c == input[position]
    {
      if IsAtEnd() then '\0' else input[position]
    }

    function PeekAhead(offset: nat): (r: Option<char>)
      reads this
      ensures r.Some? <==> position + offset < |input|
      ensures r.Some? ==> r.value == input[position + offset]
    {
      if position + offset < |input| then Some(input[position + offset]) else None
    }

    /** Moves one character on; at the end it does nothing. */
    method Advance()
      requires Valid()
      modifies this
      ensures Valid()
      ensures position == if old(position) < |input| then old(position) + 1 else old(position)
    {
      if !IsAtEnd() {
        position := position + 1;
      }
    }

    method SkipWhitespaceAndComments()
      requires Valid()
      modifies this
      ensures Valid() && position == SkipWs(input, old(position))
    {
      while !IsAtEnd()
        invariant Valid() && SkipWs(input, position) == SkipWs(input, old(position))
        decreases |input| - position
      {
        var ch := Peek();
        if IsWhitespace(ch) || ch == ',' {
          Advance();
        } else if ch == ';' {
          ghost var start := position;
          while !IsAtEnd() && Peek() != '\n'
            invariant Valid() && start <= position <= LineEnd(input, start)
            invariant LineEnd(input, position) == LineEnd(input, start)
            decreases |input| - position
          {
            Advance();
          }
        } else {
          break;
        }
      }
    }

    method ReadSymbolName() returns (name: string)
      requires Valid()
      modifies this
      ensures Valid() && position == NameEnd(input, old(position))
      ensures name == input[old(position)..position]
    {
      var start := position;
      while !IsAtEnd() && IsSymbolChar(Peek())
        invariant Valid() && start <= position && NameEnd(input, position) == NameEnd(input, start)
        decreases |input| - position
      {
        Advance();
      }
      name := input[start..position];
    }

    /** Reads `literal` if it is followed by a word boundary; otherwise the cursor stays put. */
    method ConsumeLiteral(literal: string) returns (ok: bool)
      requires Valid()
      modifies this
      ensures Valid()
      ensures EdnReader.ConsumeLiteral(input, old(position), literal) == if ok then Some(position) else None
      ensures !ok ==> position == old(position)
    {
      var start := position;
      var i := 0;
      while i < |literal|
        invariant Valid() && 0 <= i <= |literal| && position == start + i
        invariant input[start..position] == literal[..i]
      {
        if IsAtEnd() || Peek() != literal[i] {
          assert start + |literal| <= |input| ==> input[start..start + |literal|][i] != literal[i];
          position := start;
          return false;
        }
        Advance();
        i := i + 1;
      }
      assert literal[..i] == literal;
      if !IsAtEnd() && IsSymbolChar(Peek()) {
        position := start;
        return false;
      }
      return true;
    }

    method ParseSymbol() returns (r: Result<EdnValue>)
      requires Valid()
      modifies this
      ensures Valid() && Agrees(r, position, SymbolAt(input, old(position)))
    {
      var name := ReadSymbolName();
      if name == [] {
        return Err(ParseError("Empty symbol"));
      }
      return Ok(Symbol(name));
    }

    method ParseNil() returns (r: Result<EdnValue>)
      requires Valid()
      modifies this
      ensures Valid() && Agrees(r, position, NilAt(input, old(position)))
    {
      var ok := ConsumeLiteral("nil");
      if ok {
        return Ok(Nil);
      }
      r := ParseSymbol();
    }

    method ParseBoolean() returns (r: Result<EdnValue>)
      requires Valid()
      modifies this
      ensures Valid() && Agrees(r, position, BooleanAt(input, old(position)))
    {
      var yes := ConsumeLiteral("true");
      if yes {
        return Ok(Bool(true));
      }
      var no := ConsumeLiteral("false");
      if no {
        return Ok(Bool(false));
      }
      r := ParseSymbol();
    }

    method ParseKeyword() returns (r: Result<EdnValue>)
      requires Valid() && position < |input|
      modifies this
      ensures Valid() && Agrees(r, position, KeywordAt(input, old(position)))
    {
      Advance();
      var name := ReadSymbolName();
      if name == [] {
        return Err(ParseError("Empty keyword"));
      }
      return Ok(Keyword(name));
    }

    /** Four hex digits naming a character, after a `\u`. */
    method ReadUnicodeEscape(inString: bool) returns (r: Result<char>)
      requires Valid()
      modifies this
      ensures Valid() && Agrees(r, position, UnicodeEscape(input, old(position), inString))
    {
      var start := position;
      var digits := "";
      for i := 0 to 4
        invariant Valid() && position == start + i && digits == input[start..position] && AllHex(digits)
      {
        if IsAtEnd() || !IsHexDigit(Peek()) {
          assert start + 4 <= |input| ==> !IsHexDigit(input[start..start + 4][i]);
          return Err(ParseError(if inString then "Unicode escape in string requires exactly 4 hex digits"
                                else "Unicode escape requires exactly 4 hex digits"));
        }
        digits := digits + [Peek()];
        Advance();
      }
      var code := HexValue(digits);
      if !IsScalar(code) {
        return Err(ParseError((if inString then "Invalid Unicode code point in string: U+"
                               else "Invalid Unicode code point: U+") + digits));
      }
      return Ok(code as char);
    }

    /** The escape after a backslash inside a string; the cursor is at the backslash. */
    method ReadStringEscape() returns (r: Result<char>)
      requires Valid() && position < |input| && input[position] == '\\'
      modifies this
      ensures Valid() && Agrees(r, position, StringEscape(input, old(position)))
    {
      ghost var p := position;
      Advance();
      if IsAtEnd() {
        return Err(ParseError("Unterminated string escape"));
      }
      if Peek() == 'u' {
        assert StringEscape(input, p) == UnicodeEscape(input, p + 2, true);
        Advance();
        r := ReadUnicodeEscape(true);
        return;
      }
      assert StringEscape(input, p) == if EscapedChar(input[p + 1]).None? then Err(ParseError("Invalid escape sequence: \\" + [input[p + 1]]))
                                       else Ok(Read(EscapedChar(input[p + 1]).value, p + 2));
      var c := EscapedChar(Peek());
      if c.None? {
        return Err(ParseError("Invalid escape sequence: \\" + [Peek()]));
      }
      Advance();
      return Ok(c.value);
    }

    method ParseString() returns (r: Result<EdnValue>)
      requires Valid() && position < |input|
      modifies this
      ensures Valid() && Agrees(r, position, StringAt(input, old(position)))
    {
      Advance();
      var value := "";
      while !IsAtEnd() && Peek() != '"'
        invariant Valid() && old(position) < position
        invariant StringBody(input, position, value) == StringBody(input, old(position) + 1, "")
        decreases |input| - position
      {
        if Peek() == '\\' {
          StringEscapeStep(input, position, value);
          var e := ReadStringEscape();
          if e.Err? {
            return Err(e.error);
          }
          value := value + [e.value];
        } else {
          value := value + [Peek()];
          Advance();
        }
      }
      if IsAtEnd() {
        return Err(ParseError("Unterminated string"));
      }
      Advance();
      return Ok(Str(value));
    }

    method ParseCharacter() returns (r: Result<EdnValue>)
      requires Valid() && position < |input|
      modifies this
      ensures Valid() && Agrees(r, position, CharacterAt(input, old(position)))
    {
      Advance();
      if IsAtEnd() {
        return Err(ParseError("Incomplete character literal"));
      }
      if Peek() == 'u' {
        r := ParseUnicodeCharacter();
        return;
      }
      var name := ReadSymbolName();
      var c := NamedChar(name);
      if c.None? {
        return Err(ParseError("Invalid character literal: \\" + name));
      }
      return Ok(Character(c.value));
    }

    method ParseUnicodeCharacter() returns (r: Result<EdnValue>)
      requires Valid() && position < |input|
      modifies this
      ensures Valid() && Agrees(r, position, UnicodeCharacterAt(input, old(position)))
    {
      Advance();
      var u := ReadUnicodeEscape(false);
      if u.Err? {
        return Err(u.error);
      }
      return Ok(Character(u.value));
    }

    /** Reads digits and at most one further dot; `dot` says whether a dot was already seen. */
    method ScanMantissa(dot: bool) returns (seen: bool)
      requires Valid()
      modifies this
      ensures Valid() && (position, seen) == Mantissa(input, old(position), dot)
    {
      seen := dot;
      while !IsAtEnd() && (IsAsciiDigit(Peek()) || Peek() == '.')
        invariant Valid() && Mantissa(input, position, seen) == Mantissa(input, old(position), dot)
        decreases |input| - position
      {
        if Peek() == '.' {
          if seen {
            break;
          }
          seen := true;
        }
        Advance();
      }
    }

    /** Scans a number's text, saying whether it saw a dot or an exponent; the exponent
        without digits backtracks to the start of the number. */
    method ScanNumber() returns (isFloat: bool)
      requires Valid() && position < |input|
      modifies this
      ensures Valid() && (position, isFloat) == NumberEnd(input, old(position))
    {
      var start := position;
      var hasExponent := false;
      if Peek() == '-' {
        Advance();
      }
      var hasDot := ScanMantissa(false);
      if !IsAtEnd() && (Peek() == 'e' || Peek() == 'E') {
        hasExponent := true;
        Advance();
        if !IsAtEnd() && (Peek() == '+' || Peek() == '-') {
          Advance();
        }
        if !IsAtEnd() && IsAsciiDigit(Peek()) {
          ghost var q := position;
          while !IsAtEnd() && IsAsciiDigit(Peek())
            invariant Valid() && q <= position && DigitsEnd(input, position) == DigitsEnd(input, q)
            decreases |input| - position
          {
            Advance();
          }
        } else {
          position := start;
          hasDot := ScanMantissa(hasDot);
          hasExponent := false;
        }
      }
      isFloat := hasDot || hasExponent;
    }

    method ParseNumber() returns (r: Result<EdnValue>)
      requires Valid() && position < |input|
      modifies this
      ensures Valid() && Agrees(r, position, NumberAt(input, old(position)))
    {
      var start := position;
      var isFloat := ScanNumber();
      var text := input[start..position];
      if isFloat {
        if text == [] {
          return Err(ParseError("Invalid float: "));
        }
        return Ok(Float(text));
      }
      var i := ParseI64(text);
      if i.None? {
        return Err(ParseError("Invalid integer: " + text));
      }
      return Ok(Integer(i.value));
    }

    /** What a `#_` discards; the cursor is at the underscore. */
    method ConsumeDiscard() returns (r: Result<()>)
      requires Valid() && position < |input|
      modifies this
      ensures Valid() && AgreesAt(r, position, Discard(input, old(position)))
      decreases |input| - position, 0
    {
      Advance();
      SkipWhitespaceAndComments();
      ghost var q := position;
      if !IsAtEnd() && Peek() == '#' && PeekAhead(1) == Some('_') {
        assert AtDiscard(input, q);
        Advance();
        var d := ConsumeDiscard();
        if d.Err? {
          return Err(d.error);
        }
        SkipWhitespaceAndComments();
        if !IsAtEnd() {
          var v := ParseValueNoDiscard();
          if v.Err? {
            return Err(v.error);
          }
        }
      } else {
        assert !AtDiscard(input, q);
        if !IsAtEnd() {
          var v := ParseValueNoDiscard();
          if v.Err? {
            return Err(v.error);
          }
        }
      }
      return Ok(());
    }

    /** Skips `#_` discards, each followed by whitespace. */
    method SkipDiscardForms() returns (r: Result<()>)
      requires Valid()
      modifies this
      ensures Valid() && AgreesAt(r, position, SkipDiscards(input, old(position)))
      decreases |input| - position, 0
    {
      while !IsAtEnd() && Peek() == '#' && PeekAhead(1) == Some('_')
        invariant Valid() && old(position) <= position
        invariant SkipDiscards(input, position) == SkipDiscards(input, old(position))
        decreases |input| - position
      {
        Advance();
        var d := ConsumeDiscard();
        if d.Err? {
          return Err(d.error);
        }
        SkipWhitespaceAndComments();
      }
      return Ok(());
    }

    method ParseValue() returns (r: Result<EdnValue>)
      requires Valid()
      modifies this
      ensures Valid() && Agrees(r, position, ValueAt(input, old(position)))
      decreases |input| - position, 2
    {
      SkipWhitespaceAndComments();
      var d := SkipDiscardForms();
      if d.Err? {
        return Err(d.error);
      }
      if IsAtEnd() {
        return Err(ParseError("Unexpected end of input"));
      }
      r := ParseForm(false);
    }

    method ParseValueNoDiscard() returns (r: Result<EdnValue>)
      requires Valid()
      modifies this
      ensures Valid() && Agrees(r, position, ValueRaw(input, old(position)))
      decreases |input| - position, 2
    {
      SkipWhitespaceAndComments();
      if IsAtEnd() {
        return Err(ParseError("Unexpected end of input"));
      }
      if Peek() == '#' && PeekAhead(1) == Some('_') {
        Advance();
        var d := ConsumeDiscard();
        if d.Err? {
          return Err(d.error);
        }
        r := ParseValueNoDiscard();
        return;
      }
      r := ParseForm(true);
    }

    /** Chooses the reader by the current character; `raw` selects the discard reader's variant. */
    method ParseForm(raw: bool) returns (r: Result<EdnValue>)
      requires Valid() && position < |input|
      modifies this
      ensures Valid() && Agrees(r, position, FormAt(input, old(position), raw))
      decreases |input| - position, 1
    {
      var ch := Peek();
      var digitNext := PeekAhead(1).Some? && IsAsciiDigit(PeekAhead(1).value);
      if ch == 'n' {
        r := ParseNil();
      } else if ch == 't' || ch == 'f' {
        r := ParseBoolean();
      } else if ch == '"' {
        r := ParseString();
      } else if ch == ':' {
        r := ParseKeyword();
      } else if ch == '\\' {
        r := ParseCharacter();
      } else if ch == '[' {
        r := ParseVector();
      } else if ch == '(' {
        r := ParseList();
      } else if ch == '{' {
        r := ParseMap();
      } else if ch == '#' {
        r := ParseDispatch();
      } else if ch == '^' {
        r := ParseMetadata();
      } else if IsAsciiDigit(ch) {
        r := ParseNumber();
      } else if ch == '-' {
        if digitNext {
          r := ParseNumber();
        } else {
          r := ParseSymbol();
        }
      } else if raw {
        if ch == '+' && digitNext {
          r := ParseNumber();
        } else {
          r := ParseSymbol();
        }
      } else if IsAlphabetic(ch) || ch in SymbolPunctuation {
        r := ParseSymbol();
      } else {
        r := Err(ParseError("Unexpected character: '" + [ch] + "'"));
      }
    }

    /** The forms up to `closer`, skipping discards; the cursor is just after the opener. */
    method ReadItems(closer: char, what: string) returns (r: Result<seq<EdnValue>>)
      requires Valid()
      modifies this
      ensures Valid() && Agrees(r, position, ItemsAt(input, SkipWs(input, old(position)), closer, what, []))
      decreases |input| - position, 3
    {
      var elements := [];
      SkipWhitespaceAndComments();
      ghost var first := position;
      while !IsAtEnd() && Peek() != closer
        invariant Valid() && old(position) <= position
        invariant ItemsAt(input, position, closer, what, elements) == ItemsAt(input, first, closer, what, [])
        decreases |input| - position
      {
        if Peek() == '#' && PeekAhead(1) == Some('_') {
          Advance();
          var d := ConsumeDiscard();
          if d.Err? {
            return Err(d.error);
          }
        } else {
          var v := ParseValue();
          if v.Err? {
            return Err(v.error);
          }
          elements := elements + [v.value];
        }
        SkipWhitespaceAndComments();
      }
      if IsAtEnd() {
        return Err(ParseError(what));
      }
      Advance();
      return Ok(elements);
    }

    method ParseVector() returns (r: Result<EdnValue>)
      requires Valid() && position < |input|
      modifies this
      ensures Valid() && Agrees(r, position, VectorAt(input, old(position)))
      decreases |input| - position, 0
    {
      Advance();
      var items := ReadItems(']', "Unterminated vector");
      if items.Err? {
        return Err(items.error);
      }
      return Ok(Vector(items.value));
    }

    method ParseList() returns (r: Result<EdnValue>)
      requires Valid() && position < |input|
      modifies this
      ensures Valid() && Agrees(r, position, ListAt(input, old(position)))
      decreases |input| - position, 0
    {
      Advance();
      var items := ReadItems(')', "Unterminated list");
      if items.Err? {
        return Err(items.error);
      }
      return Ok(List(items.value));
    }

    method ParseMap() returns (r: Result<EdnValue>)
      requires Valid() && position < |input|
      modifies this
      ensures Valid() && Agrees(r, position, MapAt(input, old(position)))
      decreases |input| - position, 0
    {
      Advance();
      var entries := [];
      SkipWhitespaceAndComments();
      ghost var first := position;
      while !IsAtEnd() && Peek() != '}'
        invariant Valid() && old(position) < position
        invariant EntriesAt(input, position, entries) == EntriesAt(input, first, [])
        decreases |input| - position
      {
        if Peek() == '#' && PeekAhead(1) == Some('_') {
          Advance();
          var d := ConsumeDiscard();
          if d.Err? {
            return Err(d.error);
          }
          SkipWhitespaceAndComments();
          continue;
        }
        var key := ParseValue();
        if key.Err? {
          return Err(key.error);
        }
        SkipWhitespaceAndComments();
        if IsAtEnd() || Peek() == '}' {
          return Err(ParseError("Map literal must contain an even number of forms"));
        }
        var value := ParseValue();
        if value.Err? {
          return Err(value.error);
        }
        entries := MapInsert(entries, key.value, value.value);
        SkipWhitespaceAndComments();
      }
      if IsAtEnd() {
        return Err(ParseError("Unterminated map"));
      }
      Advance();
      return Ok(Map(entries));
    }

    method ParseDispatch() returns (r: Result<EdnValue>)
      requires Valid() && position < |input|
      modifies this
      ensures Valid() && Agrees(r, position, DispatchAt(input, old(position)))
      decreases |input| - position, 0
    {
      Advance();
      if IsAtEnd() {
        return Err(ParseError("Incomplete dispatch"));
      }
      var ch := Peek();
      if ch == '{' {
        r := ParseSet();
      } else if ch == '(' {
        r := ParseAnonymousFunction();
      } else if ch == '_' {
        r := Err(ParseError("Unexpected discard macro in dispatch"));
      } else {
        r := ParseTaggedLiteral();
      }
    }

    method ParseSet() returns (r: Result<EdnValue>)
      requires Valid() && position < |input|
      modifies this
      ensures Valid() && Agrees(r, position, SetAt(input, old(position)))
      decreases |input| - position, 0
    {
      Advance();
      var elements := [];
      SkipWhitespaceAndComments();
      ghost var first := position;
      while !IsAtEnd() && Peek() != '}'
        invariant Valid() && old(position) < position
        invariant ElementsAt(input, position, elements) == ElementsAt(input, first, [])
        decreases |input| - position
      {
        if Peek() == '#' && PeekAhead(1) == Some('_') {
          Advance();
          var d := ConsumeDiscard();
          if d.Err? {
            return Err(d.error);
          }
        } else {
          var element := ParseValue();
          if element.Err? {
            return Err(element.error);
          }
          if element.value in elements {
            return Err(ParseError("Duplicate element in set"));
          }
          elements := elements + [element.value];
        }
        SkipWhitespaceAndComments();
      }
      if IsAtEnd() {
        return Err(ParseError("Unterminated set"));
      }
      Advance();
      return Ok(Set(elements));
    }

    method ParseAnonymousFunction() returns (r: Result<EdnValue>)
      requires Valid() && position < |input|
      modifies this
      ensures Valid() && Agrees(r, position, AnonymousFunctionAt(input, old(position)))
      decreases |input| - position, 0
    {
      Advance();
      var items := ReadItems(')', "Unterminated anonymous function");
      if items.Err? {
        return Err(items.error);
      }
      return Ok(AnonymousFunction(items.value));
    }

    /** A tagged literal; the cursor is just after the `#`. */
    method ParseTaggedLiteral() returns (r: Result<EdnValue>)
      requires Valid()
      modifies this
      ensures Valid() && Agrees(r, position, TaggedAt(input, old(position)))
      decreases |input| - position, 0
    {
      var tag := ReadSymbolName();
      if tag == [] {
        return Err(ParseError("Empty tag"));
      }
      SkipWhitespaceAndComments();
      var value := ParseValue();
      if value.Err? {
        return Err(value.error);
      }
      r := TagValue(tag, value.value);
    }

    method ParseMetadata() returns (r: Result<EdnValue>)
      requires Valid() && position < |input|
      modifies this
      ensures Valid() && Agrees(r, position, MetadataAt(input, old(position)))
      decreases |input| - position, 0
    {
      Advance();
      var metadata := ParseValue();
      if metadata.Err? {
        return Err(metadata.error);
      }
      SkipWhitespaceAndComments();
      var value := ParseValue();
      if value.Err? {
        return Err(value.error);
      }
      return Ok(WithMetadata(metadata.value, value.value));
    }

    /** Reads the first form of the input; blank input reads as `nil`. */
    method Parse() returns (r: Result<EdnValue>)
      requires Valid()
      modifies this
      ensures Valid()
      ensures old(position) == 0 ==> r == EdnReader.Parse(input)
    {
      SkipWhitespaceAndComments();
      var d := SkipDiscardForms();
      if d.Err? {
        return Err(d.error);
      }
      if IsAtEnd() {
        return Ok(Nil);
      }
      r := ParseValue();
    }
  }
}
