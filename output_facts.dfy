/**
 * Properties of the output renderer: what each printing mode writes for
 * strings and empty collections, the shape of the multiline layout and the
 * number of line breaks it adds, the widths the inline tests guarantee, the
 * collection tests' view through metadata, the order independence of
 * compact sets, and that compact output stays on one line.
 */
module OutputFacts {
  import opened Value
  import opened Text
  import opened Errors
  import opened Primitives
  import opened EdnReader
  import opened Output
  import StringOrder

  // ---------------------------------------------------------------------
  // Scalars, strings and empty collections

  /** Atoms print the same in both modes and at every depth. */
  lemma AtomsPrintAlike(v: EdnValue, config: OutputConfig, depth: nat)
    requires IsAtom(v)
    ensures FormatPretty(v, config, depth) == AtomText(v, config.rawStrings)
    ensures FormatCompact(v, config) == AtomText(v, config.rawStrings)
    ensures FormatOutput(v, config) == AtomText(v, config.rawStrings)
  {
  }

  /**
   * With raw strings a string is its own text; without, it is quoted and
   * escaped, and the EDN reader reads that text back as the same string.
   */
  lemma StringsFollowRawFlag(s: string, config: OutputConfig, depth: nat)
    ensures FormatPretty(Str(s), config, depth) == FormatCompact(Str(s), config)
    ensures config.rawStrings ==> FormatCompact(Str(s), config) == s
    ensures !config.rawStrings ==> FormatCompact(Str(s), config) == "\"" + EscapeString(s) + "\""
    ensures !config.rawStrings ==> Parse(FormatCompact(Str(s), config)) == Ok(Str(s))
  {
    if !config.rawStrings {
      StringLiteralReads(s);
    }
  }

  /** An empty collection prints as its delimiters alone, in both modes. */
  lemma EmptyCollectionsPrintDelimiters(config: OutputConfig, depth: nat)
    ensures FormatPretty(Vector([]), config, depth) == FormatCompact(Vector([]), config) == "[]"
    ensures FormatPretty(List([]), config, depth) == FormatCompact(List([]), config) == "()"
    ensures FormatPretty(Map([]), config, depth) == FormatCompact(Map([]), config) == "{}"
    ensures FormatPretty(Set([]), config, depth) == FormatCompact(Set([]), config) == "#{}"
  {
    assert CompactAll([], config) == [];
    assert StringOrder.Sort([]) == [];
    assert PairTexts(CompactPairs(Map([]), 0, config)) == [];
  }

  // ---------------------------------------------------------------------
  // Indentation

  lemma {:induction false} RepeatChar(c: char, n: nat)
    ensures Repeat([c], n) == seq(n, i => c)
  {
    if n > 0 {
      RepeatChar(c, n - 1);
      assert [c] + seq(n - 1, i => c) == seq(n, i => c);
    }
  }

  /** The indent is `depth` tabs, or `depth * indentSize` spaces, and never holds a line break. */
  lemma MakeIndentSpec(config: OutputConfig, depth: nat)
    ensures config.useTabs ==> MakeIndent(config, depth) == seq(depth, i => '\t')
    ensures !config.useTabs ==> MakeIndent(config, depth) == seq(depth * config.indentSize, i => ' ')
    ensures '\n' !in MakeIndent(config, depth)
  {
    if config.useTabs {
      RepeatChar('\t', depth);
      assert "\t" == ['\t'];
    } else {
      RepeatChar(' ', depth * config.indentSize);
      assert " " == [' '];
    }
  }

  // ---------------------------------------------------------------------
  // The multiline layout

  /** Each text on a line of its own after `indent`. */
  function Lines(texts: seq<string>, indent: string): string
  {
    if texts == [] then "" else "\n" + indent + texts[0] + Lines(texts[1..], indent)
  }

  lemma {:induction false} LinesSnoc(texts: seq<string>, t: string, indent: string)
    ensures Lines(texts + [t], indent) == Lines(texts, indent) + "\n" + indent + t
  {
    if texts == [] {
      assert texts + [t] == [t];
      assert Lines([t], indent) == "\n" + indent + t + Lines([], indent);
    } else {
      assert (texts + [t])[1..] == texts[1..] + [t];
      LinesSnoc(texts[1..], t, indent);
    }
  }

  /** The first text follows a single space; each later one starts a new line with `indent`. */
  lemma {:induction false} MultilineFront(texts: seq<string>, indent: string)
    requires texts != []
    ensures Multiline(texts, indent) == " " + texts[0] + Lines(texts[1..], indent)
    decreases |texts|
  {
    if |texts| == 1 {
      assert texts[1..] == [];
    } else {
      var init := texts[..|texts| - 1];
      assert Multiline(texts, indent) == Multiline(init, indent) + "\n" + indent + texts[|texts| - 1];
      assert init[0] == texts[0];
      MultilineFront(init, indent);
      assert init[1..] + [texts[|texts| - 1]] == texts[1..];
      LinesSnoc(init[1..], texts[|texts| - 1], indent);
    }
  }

  /** The line breaks inside the texts. */
  function Newlines(texts: seq<string>): nat
  {
    if texts == [] then 0 else Occurrences(texts[0], '\n') + Newlines(texts[1..])
  }

  lemma {:induction false} LinesNewlines(texts: seq<string>, indent: string)
    requires Occurrences(indent, '\n') == 0
    ensures Occurrences(Lines(texts, indent), '\n') == Newlines(texts) + |texts|
  {
    if texts != [] {
      LinesNewlines(texts[1..], indent);
      OccurrencesAppend("\n" + indent, texts[0], '\n');
      OccurrencesAppend("\n", indent, '\n');
      OccurrencesAppend("\n" + indent + texts[0], Lines(texts[1..], indent), '\n');
    }
  }

  /** The multiline layout of `n` texts adds exactly `n - 1` line breaks to theirs. */
  lemma MultilineNewlines(texts: seq<string>, indent: string)
    requires texts != [] && Occurrences(indent, '\n') == 0
    ensures Occurrences(Multiline(texts, indent), '\n') == Newlines(texts) + |texts| - 1
  {
    MultilineFront(texts, indent);
    LinesNewlines(texts[1..], indent);
    OccurrencesAppend(" ", texts[0], '\n');
    OccurrencesAppend(" " + texts[0], Lines(texts[1..], indent), '\n');
  }

  lemma {:induction false} NoNewlineCount(s: string)
    requires '\n' !in s
    ensures Occurrences(s, '\n') == 0
  {
    if s != [] {
      NoNewlineCount(s[1..]);
    }
  }

  lemma PrettyCollectionMultiline(open: string, close: string, items: seq<EdnValue>, config: OutputConfig, depth: nat)
    requires items != [] && !ShouldFormatInline(CompactAll(items, config))
    ensures PrettyCollection(open, close, items, config, depth)
         == open + Multiline(PrettyAll(items, config, depth + 1), MakeIndent(config, depth + 1)) + close
  {
  }

  lemma PrettyAllHead(items: seq<EdnValue>, config: OutputConfig, depth: nat)
    requires items != []
    ensures PrettyAll(items, config, depth)[0] == FormatPretty(items[0], config, depth)
    ensures PrettyAll(items, config, depth)[1..] == PrettyAll(items[1..], config, depth)
  {
    assert PrettyAll(items, config, depth) == [FormatPretty(items[0], config, depth)] + PrettyAll(items[1..], config, depth);
  }

  /**
   * A pretty vector, list or set too long for one line: the first item,
   * printed one level deeper, follows a space after the opening delimiter,
   * and every later item starts a new line indented for the next level.
   */
  lemma PrettyMultilineLayout(open: string, close: string, items: seq<EdnValue>, config: OutputConfig, depth: nat)
    requires items != [] && !ShouldFormatInline(CompactAll(items, config))
    ensures PrettyCollection(open, close, items, config, depth)
         == open + " " + FormatPretty(items[0], config, depth + 1)
            + Lines(PrettyAll(items[1..], config, depth + 1), MakeIndent(config, depth + 1)) + close
  {
    var texts := PrettyAll(items, config, depth + 1);
    var indent := MakeIndent(config, depth + 1);
    PrettyCollectionMultiline(open, close, items, config, depth);
    MultilineFront(texts, indent);
    PrettyAllHead(items, config, depth + 1);
    assert open + Multiline(texts, indent) + close == open + " " + texts[0] + Lines(texts[1..], indent) + close;
  }

  /** That layout adds one line break per item after the first. */
  lemma PrettyMultilineNewlines(open: string, close: string, items: seq<EdnValue>, config: OutputConfig, depth: nat)
    requires items != [] && !ShouldFormatInline(CompactAll(items, config))
    ensures Occurrences(PrettyCollection(open, close, items, config, depth), '\n')
         == Occurrences(open, '\n') + Occurrences(close, '\n') + Newlines(PrettyAll(items, config, depth + 1)) + |items| - 1
  {
    var texts := PrettyAll(items, config, depth + 1);
    var indent := MakeIndent(config, depth + 1);
    PrettyCollectionMultiline(open, close, items, config, depth);
    MakeIndentSpec(config, depth + 1);
    NoNewlineCount(indent);
    MultilineNewlines(texts, indent);
    OccurrencesAppend(open, Multiline(texts, indent), '\n');
    OccurrencesAppend(open + Multiline(texts, indent), close, '\n');
  }

  // ---------------------------------------------------------------------
  // The inline tests

  lemma {:induction false} JoinWidth(texts: seq<string>)
    requires texts != []
    ensures Utf8Len(Join(texts, " ")) == TotalLen(texts) + |texts| - 1
  {
    if |texts| > 1 {
      JoinWidth(texts[1..]);
      Utf8LenAppend(texts[0], " ");
      Utf8LenAppend(texts[0] + " ", Join(texts[1..], " "));
    }
  }

  /** More than four items never go inline; items that do fit in fewer than 59 bytes joined by spaces. */
  lemma InlineWidth(texts: seq<string>)
    requires texts != []
    ensures |texts| > 4 ==> !ShouldFormatInline(texts)
    ensures ShouldFormatInline(texts) ==> Utf8Len(Join(texts, " ")) < 59
  {
    JoinWidth(texts);
  }

  /** A short pretty vector or list is its compact text. */
  lemma PrettyInlineIsCompact(items: seq<EdnValue>, config: OutputConfig, depth: nat)
    requires items != [] && ShouldFormatInline(CompactAll(items, config))
    ensures FormatPretty(Vector(items), config, depth) == FormatCompact(Vector(items), config)
    ensures FormatPretty(List(items), config, depth) == FormatCompact(List(items), config)
  {
  }

  /** The map estimate is exactly the total length of the `k v` texts. */
  lemma {:induction false} MapEstimateIsWidth(pairs: seq<(string, string)>)
    ensures MapEstimate(pairs) == TotalLen(PairTexts(pairs))
  {
    if pairs != [] {
      MapEstimateIsWidth(pairs[1..]);
      Utf8LenAppend(pairs[0].0, " ");
      Utf8LenAppend(pairs[0].0 + " ", pairs[0].1);
    }
  }

  /**
   * A map printed on one line has at most two entries, is its compact text,
   * and is shorter than 50 bytes.
   */
  lemma MapInlineWidth(v: EdnValue, config: OutputConfig, depth: nat)
    requires v.Map? && v.entries != [] && ShouldFormatMapInline(|v.entries|, MapEstimate(CompactPairs(v, 0, config)))
    ensures |v.entries| <= 2
    ensures FormatPretty(v, config, depth) == FormatCompact(v, config)
    ensures Utf8Len(FormatPretty(v, config, depth)) < 50
  {
    var texts := PairTexts(CompactPairs(v, 0, config));
    MapEstimateIsWidth(CompactPairs(v, 0, config));
    JoinWidth(texts);
    Utf8LenAppend("{", Join(texts, " "));
    Utf8LenAppend("{" + Join(texts, " "), "}");
  }

  // ---------------------------------------------------------------------
  // Collections under metadata

  /**
   * Both collection tests look through metadata, and anything that is not a
   * collection counts as simple, so only a collection holding collections
   * starts a map value on a new line.
   */
  lemma {:induction false} CollectionsSeeThroughMetadata(v: EdnValue)
    ensures IsCollection(v) <==> (var u := StripMetadata(v); u.Vector? || u.List? || u.Map? || u.Set?)
    ensures IsSimpleCollection(v) <==> IsSimpleCollection(StripMetadata(v))
    ensures !IsCollection(v) ==> IsSimpleCollection(v) && EntryGap(v, DefaultConfig, 0) == ""
  {
    if v.WithMetadata? {
      CollectionsSeeThroughMetadata(v.value);
    }
  }

  // ---------------------------------------------------------------------
  // Compact sets

  lemma {:induction false} CompactAllAppend(a: seq<EdnValue>, b: seq<EdnValue>, config: OutputConfig)
    ensures CompactAll(a + b, config) == CompactAll(a, config) + CompactAll(b, config)
  {
    if a == [] {
      assert a + b == b;
    } else {
      assert (a + b)[1..] == a[1..] + b;
      CompactAllAppend(a[1..], b, config);
    }
  }

  lemma RemoveAt(ys: seq<EdnValue>, j: nat)
    requires j < |ys|
    ensures multiset(ys[..j] + ys[j + 1..]) == multiset(ys) - multiset{ys[j]}
  {
    assert ys == ys[..j] + [ys[j]] + ys[j + 1..];
    assert multiset(ys) == multiset(ys[..j]) + multiset{ys[j]} + multiset(ys[j + 1..]);
  }

  lemma DropFirst(xs: seq<EdnValue>)
    requires xs != []
    ensures multiset(xs[1..]) == multiset(xs) - multiset{xs[0]}
  {
    assert xs == [xs[0]] + xs[1..];
  }

  /** Taking out the item at `j` takes out its text. */
  lemma CompactAllRemove(ys: seq<EdnValue>, j: nat, config: OutputConfig)
    requires j < |ys|
    ensures multiset(CompactAll(ys, config)) == multiset(CompactAll(ys[..j] + ys[j + 1..], config)) + multiset{FormatCompact(ys[j], config)}
  {
    assert ys == ys[..j] + ([ys[j]] + ys[j + 1..]);
    CompactAllAppend(ys[..j], [ys[j]] + ys[j + 1..], config);
    CompactAllAppend([ys[j]], ys[j + 1..], config);
    CompactAllAppend(ys[..j], ys[j + 1..], config);
    assert CompactAll([ys[j]], config) == [FormatCompact(ys[j], config)];
  }

  lemma CompactAllFirst(xs: seq<EdnValue>, config: OutputConfig)
    requires xs != []
    ensures multiset(CompactAll(xs, config)) == multiset(CompactAll(xs[1..], config)) + multiset{FormatCompact(xs[0], config)}
  {
    assert CompactAll(xs, config) == [FormatCompact(xs[0], config)] + CompactAll(xs[1..], config);
  }

  /** Rearranging the items rearranges their compact texts. */
  lemma {:induction false} CompactAllPermutation(xs: seq<EdnValue>, ys: seq<EdnValue>, config: OutputConfig)
    requires multiset(xs) == multiset(ys)
    ensures multiset(CompactAll(xs, config)) == multiset(CompactAll(ys, config))
    decreases |xs|
  {
    if xs == [] {
      assert |ys| == |multiset(ys)|;
    } else {
      assert xs[0] in multiset(ys);
      var j :| 0 <= j < |ys| && ys[j] == xs[0];
      RemoveAt(ys, j);
      DropFirst(xs);
      CompactAllPermutation(xs[1..], ys[..j] + ys[j + 1..], config);
      CompactAllRemove(ys, j, config);
      CompactAllFirst(xs, config);
    }
  }

  lemma CompactSetText(xs: seq<EdnValue>, config: OutputConfig)
    ensures FormatCompact(Set(xs), config) == "#{" + Join(StringOrder.Sort(CompactAll(xs, config)), " ") + "}"
  {
  }

  /** A set prints the same compact text whatever order it holds its elements in. */
  lemma CompactSetDeterministic(xs: seq<EdnValue>, ys: seq<EdnValue>, config: OutputConfig)
    requires multiset(xs) == multiset(ys)
    ensures FormatCompact(Set(xs), config) == FormatCompact(Set(ys), config)
  {
    CompactAllPermutation(xs, ys, config);
    StringOrder.SortDeterministic(CompactAll(xs, config), CompactAll(ys, config));
    CompactSetText(xs, config);
    CompactSetText(ys, config);
  }

  // ---------------------------------------------------------------------
  // Compact output is one line

  /**
   * The texts a value carries itself (names, tags, raw strings, float and
   * timestamp texts, parameters) hold no line break.
   */
  predicate NoNewlineIn(v: EdnValue, raw: bool)
    decreases v, 1
  {
    if v.Vector? || v.List? then AllNoNewline(v.items, raw)
    else if v.Map? then EntriesNoNewline(v, 0, raw)
    else if v.Set? then AllNoNewline(v.elements, raw)
    else if v.Tagged? then '\n' !in v.tag && NoNewlineIn(v.value, raw)
    else if v.WithMetadata? then NoNewlineIn(v.metadata, raw) && NoNewlineIn(v.value, raw)
    else if v.Lambda? then (forall i :: 0 <= i < |v.params| ==> '\n' !in v.params[i]) && NoNewlineIn(v.body, raw)
    else if v.Str? then raw ==> '\n' !in v.s
    else if v.Keyword? || v.Symbol? then '\n' !in v.name
    else if v.Float? then '\n' !in v.text
    else if v.Instant? || v.Uuid? then '\n' !in v.s
    else true
  }

  predicate AllNoNewline(items: seq<EdnValue>, raw: bool)
    decreases items, 0
  {
    items == [] || (NoNewlineIn(items[0], raw) && AllNoNewline(items[1..], raw))
  }

  predicate EntriesNoNewline(v: EdnValue, i: nat, raw: bool)
    requires v.Map? && i <= |v.entries|
    decreases v, 0, |v.entries| - i
  {
    if i == |v.entries| then true
    else
      var e := v.entries[i];
      assert e in v.entries;
      NoNewlineIn(e.0, raw) && NoNewlineIn(e.1, raw) && EntriesNoNewline(v, i + 1, raw)
  }

  lemma {:induction false} EscapeNoNewline(s: string)
    ensures '\n' !in EscapeString(s)
  {
    if s != [] {
      EscapeNoNewline(s[1..]);
    }
  }

  lemma {:induction false} JoinNoNewline(texts: seq<string>)
    requires forall i :: 0 <= i < |texts| ==> '\n' !in texts[i]
    ensures '\n' !in Join(texts, " ")
  {
    if |texts| > 1 {
      JoinNoNewline(texts[1..]);
    }
  }

  lemma IntegerNoNewline(i: int)
    ensures '\n' !in IntToString(i)
  {
    var t := IntToString(i);
    if i < 0 {
      assert t == "-" + NatToString(-i);
      assert forall k :: 1 <= k < |t| ==> t[k] == NatToString(-i)[k - 1];
    }
    assert forall k :: 0 <= k < |t| ==> t[k] != '\n';
  }

  lemma CharacterNoNewline(c: char)
    ensures '\n' !in FormatCharacter(c)
  {
  }

  lemma AtomNoNewline(v: EdnValue, raw: bool)
    requires IsAtom(v) && NoNewlineIn(v, raw)
    ensures '\n' !in AtomText(v, raw)
  {
    if v.Str? {
      if !raw {
        EscapeNoNewline(v.s);
      }
    } else if v.Integer? {
      IntegerNoNewline(v.i);
    } else if v.Character? {
      CharacterNoNewline(v.c);
    }
  }

  /** Compact output breaks no line of its own: every line break in it comes from a text the value carries. */
  lemma {:induction false} CompactSingleLine(v: EdnValue, config: OutputConfig)
    requires NoNewlineIn(v, config.rawStrings)
    ensures '\n' !in FormatCompact(v, config)
    decreases v, 1
  {
    if v.Vector? || v.List? {
      CompactAllSingleLine(v.items, config);
      JoinNoNewline(CompactAll(v.items, config));
    } else if v.Map? {
      CompactPairsSingleLine(v, 0, config);
      PairTextsNoNewline(CompactPairs(v, 0, config));
      JoinNoNewline(PairTexts(CompactPairs(v, 0, config)));
    } else if v.Set? {
      var texts := CompactAll(v.elements, config);
      CompactAllSingleLine(v.elements, config);
      StringOrder.SortSpec(texts);
      var sorted := StringOrder.Sort(texts);
      forall i | 0 <= i < |sorted|
        ensures '\n' !in sorted[i]
      {
        assert sorted[i] in multiset(texts);
      }
      JoinNoNewline(sorted);
    } else if v.Tagged? {
      CompactSingleLine(v.value, config);
    } else if v.WithMetadata? {
      CompactSingleLine(v.metadata, config);
      CompactSingleLine(v.value, config);
    } else if v.Lambda? {
      JoinNoNewline(v.params);
      CompactSingleLine(v.body, config);
    } else {
      AtomNoNewline(v, config.rawStrings);
    }
  }

  lemma {:induction false} CompactAllSingleLine(items: seq<EdnValue>, config: OutputConfig)
    requires AllNoNewline(items, config.rawStrings)
    ensures forall i :: 0 <= i < |items| ==> '\n' !in CompactAll(items, config)[i]
    decreases items, 0
  {
    if items != [] {
      CompactSingleLine(items[0], config);
      CompactAllSingleLine(items[1..], config);
    }
  }

  lemma {:induction false} CompactPairsSingleLine(v: EdnValue, i: nat, config: OutputConfig)
    requires v.Map? && i <= |v.entries| && EntriesNoNewline(v, i, config.rawStrings)
    ensures forall j :: 0 <= j < |v.entries| - i ==> '\n' !in CompactPairs(v, i, config)[j].0 && '\n' !in CompactPairs(v, i, config)[j].1
    decreases v, 0, |v.entries| - i
  {
    if i < |v.entries| {
      var e := v.entries[i];
      assert e in v.entries;
      CompactSingleLine(e.0, config);
      CompactSingleLine(e.1, config);
      CompactPairsSingleLine(v, i + 1, config);
    }
  }

  lemma {:induction false} PairTextsNoNewline(pairs: seq<(string, string)>)
    requires forall j :: 0 <= j < |pairs| ==> '\n' !in pairs[j].0 && '\n' !in pairs[j].1
    ensures forall j :: 0 <= j < |pairs| ==> '\n' !in PairTexts(pairs)[j]
  {
    if pairs != [] {
      PairTextsNoNewline(pairs[1..]);
    }
  }

  /** In compact mode the whole output is one line. */
  lemma CompactOutputSingleLine(v: EdnValue, config: OutputConfig)
    requires config.compact && NoNewlineIn(v, config.rawStrings)
    ensures '\n' !in FormatOutput(v, config)
  {
    CompactSingleLine(v, config);
  }
}
