/**
 * Properties of the EDN reader: what whitespace and comments skip, when a
 * word is a literal, that collections read up to their closing delimiter
 * with unique map keys and distinct set elements, how numbers, characters
 * and tagged literals are checked, and a few inputs worked through.
 */
module EdnFacts {
  import opened Errors
  import opened Value
  import opened Text
  import opened EdnReader

  // ---------------------------------------------------------------------
  // Whitespace and comments
  // ---------------------------------------------------------------------

  /** Skipping stops at the end of the input or at a character that is neither whitespace, comma nor comment. */
  lemma {:induction false} SkipWsStops(s: string, p: nat)
    requires p <= |s|
    ensures var q := SkipWs(s, p);
      q == |s| || !(IsWhitespace(s[q]) || s[q] == ',' || s[q] == ';')
    decreases |s| - p
  {
    if p < |s| {
      if IsWhitespace(s[p]) || s[p] == ',' {
        SkipWsStops(s, p + 1);
      } else if s[p] == ';' {
        assert LineEnd(s, p) == LineEnd(s, p + 1);
        SkipWsStops(s, LineEnd(s, p));
      }
    }
  }

  /** Whitespace and commas up to the end are all skipped. */
  lemma {:induction false} SkipBlank(s: string, p: nat)
    requires p <= |s|
    requires forall i :: p <= i < |s| ==> IsWhitespace(s[i]) || s[i] == ','
    ensures SkipWs(s, p) == |s|
    decreases |s| - p
  {
    if p < |s| {
      SkipBlank(s, p + 1);
    }
  }

  lemma {:induction false} LineEndAt(s: string, p: nat, n: nat)
    requires p <= n < |s| && s[n] == '\n'
    requires forall i :: p <= i < n ==> s[i] != '\n'
    ensures LineEnd(s, p) == n
    decreases n - p
  {
    if p < n {
      LineEndAt(s, p + 1, n);
    }
  }

  /** A `;` comment is skipped up to and including the newline that ends it. */
  lemma CommentSkipped(s: string, p: nat, n: nat)
    requires p < n < |s| && s[p] == ';' && s[n] == '\n'
    requires forall i :: p < i < n ==> s[i] != '\n'
    ensures SkipWs(s, p) == SkipWs(s, n + 1)
  {
    LineEndAt(s, p, n);
  }

  /** Input of nothing but whitespace and commas reads as nil. */
  lemma BlankReadsNil(s: string)
    requires forall i :: 0 <= i < |s| ==> IsWhitespace(s[i]) || s[i] == ','
    ensures Parse(s) == Ok(Nil)
  {
    SkipBlank(s, 0);
  }

  /**
   * The text from `p` on holds nothing but whitespace, commas, `;` comments
   * and `#_` discards, each discard followed by a form that reads (or by the
   * end of the input).
   */
  predicate Blank(s: string, p: nat)
    requires p <= |s|
    decreases |s| - p
  {
    if p == |s| then true
    else if IsWhitespace(s[p]) || s[p] == ',' then Blank(s, p + 1)
    else if s[p] == ';' then Blank(s, LineEnd(s, p + 1))
    else if AtDiscard(s, p) then
      var d := Discard(s, p + 1);
      d.Ok? && Blank(s, d.value)
    else false
  }

  /** Skipping whitespace, comments and discards from `p` reaches the end exactly when the rest is blank. */
  lemma {:induction false} SkipToEnd(s: string, p: nat)
    requires p <= |s|
    ensures Blank(s, p) <==> SkipDiscards(s, SkipWs(s, p)) == Ok(|s|)
    decreases |s| - p
  {
    if p < |s| {
      if IsWhitespace(s[p]) || s[p] == ',' {
        SkipToEnd(s, p + 1);
      } else if s[p] == ';' {
        assert LineEnd(s, p) == LineEnd(s, p + 1);
        SkipToEnd(s, LineEnd(s, p + 1));
      } else if AtDiscard(s, p) {
        assert SkipWs(s, p) == p;
        var d := Discard(s, p + 1);
        if d.Ok? {
          SkipToEnd(s, d.value);
        }
      } else {
        assert SkipWs(s, p) == p;
      }
    }
  }

  /** Input of nothing but whitespace, comments and discarded forms reads as nil. */
  lemma BlankInputReadsNil(s: string)
    requires Blank(s, 0)
    ensures Parse(s) == Ok(Nil)
  {
    SkipToEnd(s, 0);
  }

  /** At a character that starts a form, the value read there is that form and nothing is skipped first. */
  lemma FormStarts(s: string, p: nat)
    requires p < |s| && !IsWhitespace(s[p]) && s[p] != ',' && s[p] != ';' && !AtDiscard(s, p)
    ensures SkipWs(s, p) == p && SkipDiscards(s, p) == Ok(p)
    ensures ValueAt(s, p) == FormAt(s, p, false)
  {
  }

  /** A colon, one letter and then no symbol character is a one-letter keyword. */
  lemma OneLetterKeyword(s: string, p: nat)
    requires p + 2 <= |s| && s[p] == ':' && IsAlphabetic(s[p + 1])
    requires p + 2 == |s| || !IsSymbolChar(s[p + 2])
    ensures KeywordAt(s, p) == Ok(Read(Keyword([s[p + 1]]), p + 2))
    ensures FormAt(s, p, false) == KeywordAt(s, p) && FormAt(s, p, true) == KeywordAt(s, p)
  {
    assert NameEnd(s, p + 2) == p + 2;
    assert NameEnd(s, p + 1) == p + 2;
    assert s[p + 1..p + 2] == [s[p + 1]];
  }

  /** Input that begins with a form's first character reads as the form there. */
  lemma ParseFirst(s: string)
    requires |s| > 0 && !IsWhitespace(s[0]) && s[0] != ',' && s[0] != ';' && s[0] != '#'
    ensures Parse(s) == (var r := FormAt(s, 0, false); if r.Ok? then Ok(r.value.value) else Err(r.error))
  {
    assert SkipWs(s, 0) == 0;
    assert SkipDiscards(s, 0) == Ok(0);
    assert ValueAt(s, 0) == FormAt(s, 0, false);
  }

  // ---------------------------------------------------------------------
  // Literal words
  // ---------------------------------------------------------------------

  /** `nil` is nil only as a whole word; followed by more symbol characters it begins a symbol. */
  lemma NilIsWord(s: string, p: nat, raw: bool)
    requires p + 3 <= |s| && s[p..p + 3] == "nil"
    ensures FormAt(s, p, raw) ==
      if p + 3 == |s| || !IsSymbolChar(s[p + 3]) then Ok(Read(Nil, p + 3))
      else Ok(Read(Symbol(s[p..NameEnd(s, p)]), NameEnd(s, p)))
  {
    assert s[p] == "nil"[0];
  }

  /** `true` is a boolean only as a whole word. */
  lemma TrueIsWord(s: string, p: nat, raw: bool)
    requires p + 4 <= |s| && s[p..p + 4] == "true"
    ensures FormAt(s, p, raw) ==
      if p + 4 == |s| || !IsSymbolChar(s[p + 4]) then Ok(Read(Bool(true), p + 4))
      else Ok(Read(Symbol(s[p..NameEnd(s, p)]), NameEnd(s, p)))
  {
    assert s[p] == "true"[0];
    assert p + 5 <= |s| ==> s[p..p + 5] != "false" by {
      if p + 5 <= |s| {
        assert s[p..p + 5][0] == s[p];
      }
    }
  }

  /** `false` is a boolean only as a whole word. */
  lemma FalseIsWord(s: string, p: nat, raw: bool)
    requires p + 5 <= |s| && s[p..p + 5] == "false"
    ensures FormAt(s, p, raw) ==
      if p + 5 == |s| || !IsSymbolChar(s[p + 5]) then Ok(Read(Bool(false), p + 5))
      else Ok(Read(Symbol(s[p..NameEnd(s, p)]), NameEnd(s, p)))
  {
    assert s[p] == "false"[0];
    assert s[p..p + 4] != "true" by {
      assert s[p..p + 4][0] == s[p];
    }
  }

  // ---------------------------------------------------------------------
  // Strings
  // ---------------------------------------------------------------------

  /** A string body that reads has consumed its closing quote and extends what was read before it. */
  lemma {:induction false} StringBodyCloses(s: string, p: nat, acc: string)
    requires p <= |s|
    ensures var r := StringBody(s, p, acc);
      r.Ok? ==> s[r.value.next - 1] == '"' && acc <= r.value.value
    decreases |s| - p
  {
    if p < |s| && s[p] != '"' {
      if s[p] != '\\' {
        StringBodyCloses(s, p + 1, acc + [s[p]]);
      } else if p + 1 < |s| {
        if s[p + 1] == 'u' {
          var u := UnicodeEscape(s, p + 2, true);
          if u.Ok? {
            StringBodyCloses(s, u.value.next, acc + [u.value.value]);
          }
        } else {
          var c := EscapedChar(s[p + 1]);
          if c.Some? {
            StringBodyCloses(s, p + 2, acc + [c.value]);
          }
        }
      }
    }
  }

  /** A string with no closing quote after its opening one is an error. */
  lemma UnterminatedString(s: string, p: nat)
    requires p < |s|
    requires forall i :: p < i < |s| ==> s[i] != '"'
    ensures StringAt(s, p).Err?
  {
    StringBodyCloses(s, p + 1, "");
  }

  /** A backslash followed by anything but a known escape is an error naming the escape. */
  lemma InvalidEscape(s: string, p: nat, acc: string)
    requires p + 1 < |s| && s[p] == '\\'
    requires s[p + 1] !in "\"\\nrtu"
    ensures StringBody(s, p, acc) == Err(ParseError("Invalid escape sequence: \\" + [s[p + 1]]))
  {
  }

  // ---------------------------------------------------------------------
  // Collections
  // ---------------------------------------------------------------------

  /** Items that read end just after their closer and extend the items read before. */
  lemma {:induction false} ItemsClose(s: string, p: nat, closer: char, what: string, acc: seq<EdnValue>)
    requires p <= |s|
    ensures var r := ItemsAt(s, p, closer, what, acc);
      r.Ok? ==> s[r.value.next - 1] == closer && acc <= r.value.value
    decreases |s| - p
  {
    if p < |s| && s[p] != closer {
      if AtDiscard(s, p) {
        var d := Discard(s, p + 1);
        if d.Ok? {
          ItemsClose(s, SkipWs(s, d.value), closer, what, acc);
        }
      } else {
        var v := ValueAt(s, p);
        if v.Ok? {
          ItemsClose(s, SkipWs(s, v.value.next), closer, what, acc + [v.value.value]);
        }
      }
    }
  }

  /** A vector ends at a `]`; with no `]` after its opening bracket it is an error. */
  lemma VectorCloses(s: string, p: nat)
    requires p < |s|
    ensures var r := VectorAt(s, p); r.Ok? ==> r.value.value.Vector? && s[r.value.next - 1] == ']'
    ensures (forall i :: p < i < |s| ==> s[i] != ']') ==> VectorAt(s, p).Err?
  {
    ItemsClose(s, SkipWs(s, p + 1), ']', "Unterminated vector", []);
  }

  /** A list ends at a `)`; with no `)` after its opening parenthesis it is an error. */
  lemma ListCloses(s: string, p: nat)
    requires p < |s|
    ensures var r := ListAt(s, p); r.Ok? ==> r.value.value.List? && s[r.value.next - 1] == ')'
    ensures (forall i :: p < i < |s| ==> s[i] != ')') ==> ListAt(s, p).Err?
  {
    ItemsClose(s, SkipWs(s, p + 1), ')', "Unterminated list", []);
  }

  /** `#(...)` ends at a `)` and reads as a three-element list `(fn [%] body)`. */
  lemma AnonymousFunctionShape(s: string, p: nat)
    requires p < |s|
    ensures var r := AnonymousFunctionAt(s, p);
      r.Ok? ==> (s[r.value.next - 1] == ')' && r.value.value.List? && |r.value.value.items| == 3 &&
                 r.value.value.items[0] == Symbol("fn") && r.value.value.items[1] == Vector([Symbol("%")]))
    ensures (forall i :: p < i < |s| ==> s[i] != ')') ==> AnonymousFunctionAt(s, p).Err?
  {
    ItemsClose(s, SkipWs(s, p + 1), ')', "Unterminated anonymous function", []);
  }

  /** Map entries that read end just after a `}` and never repeat a key. */
  lemma {:induction false} EntriesClose(s: string, p: nat, acc: seq<(EdnValue, EdnValue)>)
    requires p <= |s| && UniqueKeys(acc)
    ensures var r := EntriesAt(s, p, acc);
      r.Ok? ==> s[r.value.next - 1] == '}' && UniqueKeys(r.value.value)
    decreases |s| - p, 1
  {
    if p < |s| && s[p] != '}' {
      if AtDiscard(s, p) {
        var d := Discard(s, p + 1);
        if d.Ok? {
          EntriesClose(s, SkipWs(s, d.value), acc);
        }
      } else {
        EntryClose(s, p, acc);
      }
    }
  }

  /** The step of `EntriesClose` that reads one key and its value. */
  lemma {:induction false} EntryClose(s: string, p: nat, acc: seq<(EdnValue, EdnValue)>)
    requires p < |s| && s[p] != '}' && !AtDiscard(s, p) && UniqueKeys(acc)
    ensures var r := EntriesAt(s, p, acc);
      r.Ok? ==> s[r.value.next - 1] == '}' && UniqueKeys(r.value.value)
    decreases |s| - p, 0
  {
    var k := ValueAt(s, p);
    if k.Ok? {
      var q := SkipWs(s, k.value.next);
      if q < |s| && s[q] != '}' {
        var v := ValueAt(s, q);
        if v.Ok? {
          var more := MapInsert(acc, k.value.value, v.value.value);
          MapInsertUnique(acc, k.value.value, v.value.value);
          assert EntriesAt(s, p, acc) == EntriesAt(s, SkipWs(s, v.value.next), more);
          EntriesClose(s, SkipWs(s, v.value.next), more);
        }
      }
    }
  }

  /** A map that reads has unique keys and ends at a `}`; with no `}` it is an error. */
  lemma MapCloses(s: string, p: nat)
    requires p < |s|
    ensures var r := MapAt(s, p);
      r.Ok? ==> r.value.value.Map? && UniqueKeys(r.value.value.entries) && s[r.value.next - 1] == '}'
    ensures (forall i :: p < i < |s| ==> s[i] != '}') ==> MapAt(s, p).Err?
  {
    EntriesClose(s, SkipWs(s, p + 1), []);
  }

  /**
   * After any number of complete entries, a key followed by `}` or by the
   * end of the input is the odd-forms error.
   */
  lemma KeyWithoutValue(s: string, p: nat, acc: seq<(EdnValue, EdnValue)>)
    requires p < |s| && s[p] != '}' && !AtDiscard(s, p) && ValueAt(s, p).Ok?
    requires var q := SkipWs(s, ValueAt(s, p).value.next); q == |s| || s[q] == '}'
    ensures EntriesAt(s, p, acc) == Err(ParseError("Map literal must contain an even number of forms"))
  {
  }

  /** A map literal holding a key and no value is the odd-forms error. */
  lemma OddMapRejected()
    ensures MapAt("{:a}", 0) == Err(ParseError("Map literal must contain an even number of forms"))
  {
    var s := "{:a}";
    FormStarts(s, 1);
    OneLetterKeyword(s, 1);
    assert SkipWs(s, 3) == 3;
    KeyWithoutValue(s, 1, []);
    assert SkipWs(s, 1) == 1;
  }

  /** No element occurs twice. */
  predicate NoDuplicates(xs: seq<EdnValue>)
  {
    forall i, j :: 0 <= i < j < |xs| ==> xs[i] != xs[j]
  }

  /** Set elements that read end just after a `}`, are pairwise different and extend those read before. */
  lemma {:induction false} ElementsClose(s: string, p: nat, acc: seq<EdnValue>)
    requires p <= |s| && NoDuplicates(acc)
    ensures var r := ElementsAt(s, p, acc);
      r.Ok? ==> s[r.value.next - 1] == '}' && NoDuplicates(r.value.value) && acc <= r.value.value
    decreases |s| - p
  {
    if p < |s| && s[p] != '}' {
      if AtDiscard(s, p) {
        var d := Discard(s, p + 1);
        if d.Ok? {
          ElementsClose(s, SkipWs(s, d.value), acc);
        }
      } else {
        var v := ValueAt(s, p);
        if v.Ok? && v.value.value !in acc {
          var more := acc + [v.value.value];
          assert NoDuplicates(more) by {
            forall i, j | 0 <= i < j < |more| ensures more[i] != more[j] {
              if j == |acc| {
                assert more[i] == acc[i];
              }
            }
          }
          ElementsClose(s, SkipWs(s, v.value.next), more);
        }
      }
    }
  }

  /** A set that reads has pairwise different elements and ends at a `}`; with no `}` it is an error. */
  lemma SetCloses(s: string, p: nat)
    requires p < |s|
    ensures var r := SetAt(s, p);
      r.Ok? ==> r.value.value.Set? && NoDuplicates(r.value.value.elements) && s[r.value.next - 1] == '}'
    ensures (forall i :: p < i < |s| ==> s[i] != '}') ==> SetAt(s, p).Err?
  {
    ElementsClose(s, SkipWs(s, p + 1), []);
  }

  /** An element equal to one read before it in the same set is the duplicate-element error. */
  lemma DuplicateElement(s: string, p: nat, acc: seq<EdnValue>)
    requires p < |s| && s[p] != '}' && !AtDiscard(s, p) && ValueAt(s, p).Ok? && ValueAt(s, p).value.value in acc
    ensures ElementsAt(s, p, acc) == Err(ParseError("Duplicate element in set"))
  {
  }

  /** A new element is kept and reading goes on after it. */
  lemma ElementStep(s: string, p: nat, acc: seq<EdnValue>)
    requires p < |s| && s[p] != '}' && !AtDiscard(s, p) && ValueAt(s, p).Ok? && ValueAt(s, p).value.value !in acc
    ensures ElementsAt(s, p, acc) == ElementsAt(s, SkipWs(s, ValueAt(s, p).value.next), acc + [ValueAt(s, p).value.value])
  {
  }

  /** A set literal naming the same element twice is the duplicate-element error. */
  lemma DuplicateSetRejected()
    ensures SetAt("#{:a :a}", 1) == Err(ParseError("Duplicate element in set"))
  {
    var s := "#{:a :a}";
    FormStarts(s, 2);
    FormStarts(s, 5);
    OneLetterKeyword(s, 2);
    OneLetterKeyword(s, 5);
    ElementStep(s, 2, []);
    DuplicateElement(s, 5, [Keyword("a")]);
    assert SkipWs(s, 2) == 2;
  }

  // ---------------------------------------------------------------------
  // Numbers
  // ---------------------------------------------------------------------

  lemma DigitCharValue(d: nat)
    requires d < 10
    ensures DigitChar(d) as nat - '0' as nat == d
  {
    if d < 5 {
      assert d == 0 || d == 1 || d == 2 || d == 3 || d == 4;
    } else {
      assert d == 5 || d == 6 || d == 7 || d == 8 || d == 9;
    }
  }

  /** The decimal digits of a natural number denote that number. */
  lemma {:induction false} NatDigitsValue(n: nat)
    ensures AllDigits(NatToString(n)) && DigitsValue(NatToString(n)) == n
  {
    var t := NatToString(n);
    DigitCharValue(n % 10);
    if n >= 10 {
      NatDigitsValue(n / 10);
      assert t[..|t| - 1] == NatToString(n / 10);
    } else {
      assert t[..|t| - 1] == [];
    }
  }

  /** The decimal text of a 64-bit integer parses back to it, and no other integer's text parses. */
  lemma IntegerTextParses(i: int)
    ensures ParseI64(IntToString(i)) == if MinI64 <= i <= MaxI64 then Some(i) else None
  {
    var t := IntToString(i);
    if i < 0 {
      NatDigitsValue(-i);
      assert t[1..] == NatToString(-i);
    } else {
      NatDigitsValue(i);
    }
  }

  lemma {:induction false} MantissaOfDigits(s: string, p: nat, dot: bool)
    requires p <= |s| && forall i :: p <= i < |s| ==> IsAsciiDigit(s[i])
    ensures Mantissa(s, p, dot) == (|s|, dot)
    decreases |s| - p
  {
    if p < |s| {
      MantissaOfDigits(s, p + 1, dot);
    }
  }

  /** The number scanner reads an integer's whole decimal text, checking the 64-bit range. */
  lemma IntegerTextNumber(i: int)
    ensures NumberAt(IntToString(i), 0) ==
      if MinI64 <= i <= MaxI64 then Ok(Read(Integer(i), |IntToString(i)|))
      else Err(ParseError("Invalid integer: " + IntToString(i)))
  {
    var t := IntToString(i);
    IntegerTextParses(i);
    if i < 0 {
      assert t[1..] == NatToString(-i);
      MantissaOfDigits(t, 1, false);
    } else {
      MantissaOfDigits(t, 0, false);
    }
    assert NumberEnd(t, 0) == (|t|, false);
    assert t[0..|t|] == t;
  }

  /** Reading an integer's decimal text gives that integer in the 64-bit range, and an error outside it. */
  lemma IntegerTextReads(i: int)
    ensures Parse(IntToString(i)) ==
      if MinI64 <= i <= MaxI64 then Ok(Integer(i)) else Err(ParseError("Invalid integer: " + IntToString(i)))
  {
    var t := IntToString(i);
    IntegerTextNumber(i);
    if i < 0 {
      assert t[1..] == NatToString(-i);
      assert IsAsciiDigit(t[1]);
    }
    ParseFirst(t);
    assert FormAt(t, 0, false) == NumberAt(t, 0);
  }

  // ---------------------------------------------------------------------
  // Characters
  // ---------------------------------------------------------------------

  function Pow16(n: nat): nat
  {
    if n == 0 then 1 else 16 * Pow16(n - 1)
  }

  /** `n` hex digits denote a number below 16^n. */
  lemma {:induction false} HexValueBound(t: string)
    requires AllHex(t)
    ensures HexValue(t) < Pow16(|t|)
  {
    if t != [] {
      HexValueBound(t[..|t| - 1]);
    }
  }

  /** Four hex digits name a character exactly when they are not a surrogate, and it is the one they denote. */
  lemma UnicodeEscapeSurrogates(s: string, p: nat, inString: bool)
    requires p + 4 <= |s| && AllHex(s[p..p + 4])
    ensures var r := UnicodeEscape(s, p, inString);
      (r.Ok? <==> !(0xD800 <= HexValue(s[p..p + 4]) < 0xE000)) &&
      (r.Ok? ==> r.value.value as int == HexValue(s[p..p + 4]))
  {
    HexValueBound(s[p..p + 4]);
    assert Pow16(4) == 0x1_0000;
  }

  // ---------------------------------------------------------------------
  // Tagged literals
  // ---------------------------------------------------------------------

  /** Five hex groups of 8, 4, 4, 4 and 12 digits joined by hyphens form a valid UUID. */
  lemma UuidFromGroups(a: string, b: string, c: string, d: string, e: string)
    requires |a| == 8 && |b| == 4 && |c| == 4 && |d| == 4 && |e| == 12
    requires AllHex(a) && AllHex(b) && AllHex(c) && AllHex(d) && AllHex(e)
    ensures IsValidUuid(a + "-" + b + "-" + c + "-" + d + "-" + e)
  {
    var t := a + "-" + b + "-" + c + "-" + d + "-" + e;
    assert forall i :: 0 <= i < 8 ==> t[i] == a[i];
    assert forall i :: 9 <= i < 13 ==> t[i] == b[i - 9];
    assert forall i :: 14 <= i < 18 ==> t[i] == c[i - 14];
    assert forall i :: 19 <= i < 23 ==> t[i] == d[i - 19];
    assert forall i :: 24 <= i < 36 ==> t[i] == e[i - 24];
  }

  /** A valid UUID is five such hex groups joined by hyphens. */
  lemma UuidGroups(t: string)
    requires IsValidUuid(t)
    ensures t == t[..8] + "-" + t[9..13] + "-" + t[14..18] + "-" + t[19..23] + "-" + t[24..]
    ensures AllHex(t[..8]) && AllHex(t[9..13]) && AllHex(t[14..18]) && AllHex(t[19..23]) && AllHex(t[24..])
  {
    var u := t[..8] + "-" + t[9..13] + "-" + t[14..18] + "-" + t[19..23] + "-" + t[24..];
    assert |u| == |t|;
    forall i | 0 <= i < |t| ensures u[i] == t[i] {
    }
  }

  /** The UUID check as written agrees with the corrected one whenever it does not panic. */
  lemma UuidAsWrittenAgrees(t: string)
    ensures UuidAsWritten(t).Some? ==> UuidAsWritten(t).value == IsValidUuid(t)
  {
    if |t| == 36 && IsValidUuid(t) {
      assert forall i :: 0 <= i < |t| ==> (t[i] as int) < 0x80 by {
        forall i | 0 <= i < |t| ensures (t[i] as int) < 0x80 {
          assert i == 8 || i == 13 || i == 18 || i == 23 || IsHexDigit(t[i]);
        }
      }
    }
  }

  /** On text of 36 characters that is plain ASCII the check as written cannot panic. */
  lemma UuidAsWrittenAscii(t: string)
    requires forall i :: 0 <= i < |t| ==> (t[i] as int) < 0x80
    ensures UuidAsWritten(t) == Some(IsValidUuid(t))
  {
    UuidAsWrittenAgrees(t);
  }

  /** 35 characters laid out as a UUID whose last character takes two bytes in UTF-8. */
  const ShortUuid: string :=
    seq(34, i => if i == 8 || i == 13 || i == 18 || i == 23 then '-' else '0') + "\U{E9}"

  /** That text passes the byte-length guard, and slicing its last group panics. */
  lemma UuidAsWrittenPanics()
    ensures |ShortUuid| == 35 && Utf8Len(ShortUuid) == 36
    ensures UuidAsWritten(ShortUuid) == None && !IsValidUuid(ShortUuid)
  {
    var g := seq(34, i => if i == 8 || i == 13 || i == 18 || i == 23 then '-' else '0');
    assert forall i :: 0 <= i < |g| ==> (g[i] as int) < 0x80;
    Utf8LenAppend(g, "\U{E9}");
  }

  /** Only the first 19 characters decide an instant: whatever follows a valid prefix is accepted. */
  lemma InstantPrefix(t: string, u: string)
    requires IsValidInstant(t)
    ensures IsValidInstant(t + u)
  {
    Utf8LenAppend(t, u);
  }

  /** A text of at least 19 characters is an instant exactly when its first 19 characters are. */
  lemma InstantDecidedByPrefix(t: string)
    requires |t| >= 19
    ensures IsValidInstant(t) <==> IsValidInstant(t[..19])
  {
    assert t == t[..19] + t[19..];
    if IsValidInstant(t[..19]) {
      InstantPrefix(t[..19], t[19..]);
    }
  }

  /** `#inst` and `#uuid` accept exactly strings of their format; any other tag keeps the value. */
  lemma TagValueCases(tag: string, v: EdnValue)
    ensures TagValue(tag, v).Ok? <==>
      (tag == "inst" ==> v.Str? && IsValidInstant(v.s)) && (tag == "uuid" ==> v.Str? && IsValidUuid(v.s))
    ensures tag != "inst" && tag != "uuid" ==> TagValue(tag, v) == Ok(Tagged(tag, v))
  {
  }

  // ---------------------------------------------------------------------
  // Worked inputs
  // ---------------------------------------------------------------------

  /**
   * An `e` with no exponent digits ends the number before it, but the
   * rescan does not skip a leading minus sign and keeps a dot already seen.
   */
  lemma DanglingExponent()
    ensures NumberAt("1e", 0) == Ok(Read(Integer(1), 1))
    ensures NumberAt("-1e", 0) == Err(ParseError("Invalid integer: "))
    ensures NumberAt("1.5e", 0) == Ok(Read(Float("1"), 1))
  {
    var a := "1e";
    assert Mantissa(a, 1, false) == (1, false);
    assert Mantissa(a, 0, false) == (1, false);
    assert NumberEnd(a, 0) == (1, false);
    assert a[0..1] == "1";
    assert DigitsValue("1") == 1 by { assert "1"[..0] == []; }
    var b := "-1e";
    assert Mantissa(b, 2, false) == (2, false);
    assert Mantissa(b, 1, false) == (2, false);
    assert Mantissa(b, 0, false) == (0, false);
    assert NumberEnd(b, 0) == (0, false);
    assert b[0..0] == "";
    assert "Invalid integer: " + "" == "Invalid integer: ";
    var c := "1.5e";
    assert Mantissa(c, 3, true) == (3, true);
    assert Mantissa(c, 1, false) == (3, true);
    assert Mantissa(c, 0, true) == (1, true);
    assert NumberEnd(c, 0) == (1, true);
    assert c[0..1] == "1";
  }

  /** A lone `\u` is not the character u: it begins a Unicode escape that needs four digits. */
  lemma LoneU()
    ensures Parse("\\u") == Err(ParseError("Unicode escape requires exactly 4 hex digits"))
  {
  }
}
