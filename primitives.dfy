/**
 * The primitive printers shared by the output formatters: string escaping
 * and character literals, with the facts that the EDN reader reads their
 * output back.
 */
module Primitives {
  import opened Errors
  import opened Value
  import opened Text
  import opened EdnReader
  import EdnFacts

  /** The characters a string literal writes as a two-character escape. */
  predicate NeedsEscape(c: char)
  {
    c == '"' || c == '\\' || c == '\n' || c == '\r' || c == '\t'
  }

  function EscapeChar(c: char): string
  {
    if c == '"' then "\\\""
    else if c == '\\' then "\\\\"
    else if c == '\n' then "\\n"
    else if c == '\r' then "\\r"
    else if c == '\t' then "\\t"
    else [c]
  }

  /** The body of a string literal for `s`: each special character escaped, every other one copied. */
  function EscapeString(s: string): (r: string)
    ensures |s| <= |r| <= 2 * |s|
  {
    if s == [] then [] else EscapeChar(s[0]) + EscapeString(s[1..])
  }

  /** Escaping works character by character. */
  lemma {:induction false} EscapeAppend(a: string, b: string)
    ensures EscapeString(a + b) == EscapeString(a) + EscapeString(b)
  {
    if a != [] {
      assert (a + b)[1..] == a[1..] + b;
      EscapeAppend(a[1..], b);
    } else {
      assert a + b == b;
    }
  }

  /** A string with no special character is its own escape. */
  lemma {:induction false} EscapeIdentity(s: string)
    requires forall i :: 0 <= i < |s| ==> !NeedsEscape(s[i])
    ensures EscapeString(s) == s
  {
    if s != [] {
      EscapeIdentity(s[1..]);
    }
  }

  /** How many characters of `s` need an escape. */
  function CountSpecial(s: string): nat
  {
    if s == [] then 0 else (if NeedsEscape(s[0]) then 1 else 0) + CountSpecial(s[1..])
  }

  /** Escaping adds exactly one character per special character. */
  lemma {:induction false} EscapeLength(s: string)
    ensures |EscapeString(s)| == |s| + CountSpecial(s)
  {
    if s != [] {
      EscapeLength(s[1..]);
    }
  }

  /** `t` escaped, then a closing quote, is written in `s` from `p` on (a character-level view of `EscapeString`). */
  predicate EscapedAt(s: string, p: nat, t: string)
    decreases |t|
  {
    if t == [] then p < |s| && s[p] == '"'
    else if NeedsEscape(t[0]) then
      p + 1 < |s| && s[p] == '\\' && s[p + 1] == EscapeChar(t[0])[1] && EscapedAt(s, p + 2, t[1..])
    else p < |s| && s[p] == t[0] && EscapedAt(s, p + 1, t[1..])
  }

  /**
   * The reader decodes exactly the escapes the printer writes: reading the
   * escapes of `t` and a closing quote appends `t` to what was read and
   * stops just after the quote.
   */
  lemma {:induction false} ReadEscaped(s: string, p: nat, t: string, acc: string)
    requires EscapedAt(s, p, t)
    ensures StringBody(s, p, acc) == Ok(Read(acc + t, p + |t| + CountSpecial(t) + 1))
    decreases |t|
  {
    if t == [] {
      assert acc + t == acc;
    } else {
      var k := if NeedsEscape(t[0]) then 2 else 1;
      assert StringBody(s, p, acc) == StringBody(s, p + k, acc + [t[0]]);
      ReadEscaped(s, p + k, t[1..], acc + [t[0]]);
      AppendHead(acc, t);
    }
  }

  lemma AppendHead(acc: string, t: string)
    requires t != []
    ensures acc + [t[0]] + t[1..] == acc + t
  {
    assert t == [t[0]] + t[1..];
  }

  lemma SliceSplit(s: string, p: nat, a: string, b: string)
    requires p + |a| + |b| <= |s| && s[p..p + |a| + |b|] == a + b
    ensures s[p..p + |a|] == a && s[p + |a|..p + |a| + |b|] == b
  {
    assert s[p..p + |a|] == s[p..p + |a| + |b|][..|a|];
    assert s[p + |a|..p + |a| + |b|] == s[p..p + |a| + |b|][|a|..];
  }

  /** `EscapeString(t)` followed by a quote, written at `p`, is what `EscapedAt` describes. */
  lemma {:induction false} EscapeStringAt(s: string, p: nat, t: string)
    requires p + |EscapeString(t)| < |s|
    requires s[p..p + |EscapeString(t)|] == EscapeString(t) && s[p + |EscapeString(t)|] == '"'
    ensures EscapedAt(s, p, t)
    decreases |t|
  {
    if t != [] {
      var e := EscapeChar(t[0]);
      var rest := EscapeString(t[1..]);
      assert EscapeString(t) == e + rest;
      SliceSplit(s, p, e, rest);
      assert s[p] == e[0] by {
        assert s[p..p + |e|][0] == s[p];
      }
      if NeedsEscape(t[0]) {
        assert s[p + 1] == e[1] by {
          assert s[p..p + |e|][1] == s[p + 1];
        }
      }
      EscapeStringAt(s, p + |e|, t[1..]);
    }
  }

  /** A string literal printed from `t` reads back as the string `t`. */
  lemma StringLiteralReads(t: string)
    ensures Parse("\"" + EscapeString(t) + "\"") == Ok(Str(t))
  {
    var s := "\"" + EscapeString(t) + "\"";
    var e := EscapeString(t);
    assert s[1..1 + |e|] == e;
    EscapeStringAt(s, 1, t);
    ReadEscaped(s, 1, t, "");
    EscapeLength(t);
    assert "" + t == t;
    EdnFacts.ParseFirst(s);
    assert FormAt(s, 0, false) == StringAt(s, 0);
  }

  /** A character literal: the four named characters by name, any other after a backslash. */
  function FormatCharacter(c: char): (r: string)
    ensures |r| >= 2 && r[0] == '\\'
  {
    if c == '\n' then "\\newline"
    else if c == '\t' then "\\tab"
    else if c == '\r' then "\\return"
    else if c == ' ' then "\\space"
    else ['\\', c]
  }

  /** The named characters print as their names. */
  lemma FormatNamed(c: char)
    ensures c == '\n' <==> FormatCharacter(c) == "\\newline"
    ensures c == '\t' <==> FormatCharacter(c) == "\\tab"
    ensures c == '\r' <==> FormatCharacter(c) == "\\return"
    ensures c == ' ' <==> FormatCharacter(c) == "\\space"
  {
  }

  /** A text that starts with a backslash reads as the character literal there. */
  lemma ParseCharacterLiteral(s: string)
    requires |s| >= 2 && s[0] == '\\'
    ensures Parse(s) == (var r := CharacterAt(s, 0); if r.Ok? then Ok(r.value.value) else Err(r.error))
  {
    EdnFacts.ParseFirst(s);
    assert FormAt(s, 0, false) == CharacterAt(s, 0);
  }

  /** A backslash and a name of its own reads as the character the name denotes. */
  lemma NamedLiteralReads(s: string, c: char)
    requires |s| >= 2 && s[0] == '\\' && s[1] != 'u' && NameEnd(s, 1) == |s| && NamedChar(s[1..]) == Some(c)
    ensures Parse(s) == Ok(Character(c))
  {
    ParseCharacterLiteral(s);
    assert s[1..NameEnd(s, 1)] == s[1..];
  }

  /** A printed named character reads back as itself. */
  lemma NamedCharacterReads(c: char)
    requires c == '\n' || c == '\t' || c == '\r' || c == ' '
    ensures Parse(FormatCharacter(c)) == Ok(Character(c))
  {
    var s := FormatCharacter(c);
    if c == '\n' {
      assert NameEnd(s, 8) == 8 && NameEnd(s, 7) == 8 && NameEnd(s, 6) == 8 && NameEnd(s, 5) == 8;
      assert NameEnd(s, 4) == 8 && NameEnd(s, 3) == 8 && NameEnd(s, 2) == 8 && NameEnd(s, 1) == 8;
      assert s[1..] == "newline";
    } else if c == '\t' {
      assert NameEnd(s, 4) == 4 && NameEnd(s, 3) == 4 && NameEnd(s, 2) == 4 && NameEnd(s, 1) == 4;
      assert s[1..] == "tab";
    } else if c == '\r' {
      assert NameEnd(s, 7) == 7 && NameEnd(s, 6) == 7 && NameEnd(s, 5) == 7 && NameEnd(s, 4) == 7;
      assert NameEnd(s, 3) == 7 && NameEnd(s, 2) == 7 && NameEnd(s, 1) == 7;
      assert s[1..] == "return";
    } else {
      assert NameEnd(s, 6) == 6 && NameEnd(s, 5) == 6 && NameEnd(s, 4) == 6 && NameEnd(s, 3) == 6;
      assert NameEnd(s, 2) == 6 && NameEnd(s, 1) == 6;
      assert s[1..] == "space";
    }
    NamedLiteralReads(s, c);
  }

  /** A printed symbol character other than `u` reads back as itself. */
  lemma SymbolCharacterReads(c: char)
    requires IsSymbolChar(c) && c != 'u'
    ensures Parse(FormatCharacter(c)) == Ok(Character(c))
  {
    var s := FormatCharacter(c);
    assert NameEnd(s, 2) == 2 && NameEnd(s, 1) == 2;
    assert s[1..] == [c];
    assert Utf8Len([c]) == 1;
    NamedLiteralReads(s, c);
  }

  /** A printed character that is neither named nor a symbol character has no name to read back. */
  lemma CharacterLiteralUnreadable(c: char)
    requires !(c == '\n' || c == '\t' || c == '\r' || c == ' ') && !IsSymbolChar(c)
    ensures Parse(FormatCharacter(c)) == Err(ParseError("Invalid character literal: \\"))
  {
    var s := FormatCharacter(c);
    ParseCharacterLiteral(s);
    assert NameEnd(s, 1) == 1;
    assert "Invalid character literal: \\" + s[1..1] == "Invalid character literal: \\";
  }
}
