/**
 * Properties of the formatter pair: compact output stays on one line, a
 * lambda prints exactly as the list `(fn [params] body)` would, the pretty
 * formatter's inline case is the compact text, and on values holding no set
 * both formatters print what the output renderer prints.
 */
module FormatterFacts {
  import opened Value
  import opened Text
  import opened Errors
  import opened Primitives
  import opened EdnReader
  import opened Output
  import opened CollectionFormatter
  import opened Formatter
  import OutputFacts

  // ---------------------------------------------------------------------
  // Atoms, strings and empty collections

  /** Atoms print alike in both formatters, and as the compact renderer prints them. */
  lemma AtomsPrintAlike(v: EdnValue, config: OutputConfig, depth: nat)
    requires IsAtom(v)
    ensures CompactFormat(v, config) == AtomText(v, config.rawStrings)
    ensures PrettyFormat(v, config, depth) == AtomText(v, config.rawStrings)
    ensures CompactFormat(v, config) == FormatCompact(v, config)
  {
  }

  /** Strings follow the raw flag in both formatters, and the quoted form reads back. */
  lemma StringsFollowRawFlag(s: string, config: OutputConfig, depth: nat)
    ensures PrettyFormat(Str(s), config, depth) == CompactFormat(Str(s), config)
    ensures config.rawStrings ==> CompactFormat(Str(s), config) == s
    ensures !config.rawStrings ==> CompactFormat(Str(s), config) == "\"" + EscapeString(s) + "\""
    ensures !config.rawStrings ==> Parse(CompactFormat(Str(s), config)) == Ok(Str(s))
  {
    OutputFacts.StringsFollowRawFlag(s, config, depth);
  }

  /** An empty collection prints as its delimiters alone, whatever the layout decides. */
  lemma EmptyCollectionsPrintDelimiters(config: OutputConfig, depth: nat)
    ensures PrettyFormat(Vector([]), config, depth) == CompactFormat(Vector([]), config) == "[]"
    ensures PrettyFormat(List([]), config, depth) == CompactFormat(List([]), config) == "()"
    ensures PrettyFormat(Map([]), config, depth) == CompactFormat(Map([]), config) == "{}"
    ensures PrettyFormat(Set([]), config, depth) == CompactFormat(Set([]), config) == "#{}"
  {
    assert CompactTexts([], config) == [];
    assert PrettyTexts([], config, depth + 1) == [];
    assert CompactFormatPairs(Map([]), 0, config) == [];
  }

  // ---------------------------------------------------------------------
  // Compact output is one line

  /** The compact formatter breaks no line of its own. */
  lemma {:induction false} CompactFormatSingleLine(v: EdnValue, config: OutputConfig)
    requires OutputFacts.NoNewlineIn(v, config.rawStrings)
    ensures '\n' !in CompactFormat(v, config)
    decreases v, 1
  {
    if v.Vector? || v.List? {
      CompactTextsSingleLine(v.items, config);
      OutputFacts.JoinNoNewline(CompactTexts(v.items, config));
    } else if v.Map? {
      CompactFormatPairsSingleLine(v, 0, config);
      OutputFacts.PairTextsNoNewline(CompactFormatPairs(v, 0, config));
      OutputFacts.JoinNoNewline(PairTexts(CompactFormatPairs(v, 0, config)));
    } else if v.Set? {
      CompactTextsSingleLine(v.elements, config);
      OutputFacts.JoinNoNewline(CompactTexts(v.elements, config));
    } else if v.Tagged? {
      CompactFormatSingleLine(v.value, config);
    } else if v.WithMetadata? {
      CompactFormatSingleLine(v.metadata, config);
      CompactFormatSingleLine(v.value, config);
    } else if v.Lambda? {
      OutputFacts.JoinNoNewline(v.params);
      CompactFormatSingleLine(v.body, config);
    } else {
      OutputFacts.AtomNoNewline(v, config.rawStrings);
    }
  }

  lemma {:induction false} CompactTextsSingleLine(items: seq<EdnValue>, config: OutputConfig)
    requires OutputFacts.AllNoNewline(items, config.rawStrings)
    ensures forall i :: 0 <= i < |items| ==> '\n' !in CompactTexts(items, config)[i]
    decreases items, 0
  {
    if items != [] {
      CompactFormatSingleLine(items[0], config);
      CompactTextsSingleLine(items[1..], config);
    }
  }

  lemma {:induction false} CompactFormatPairsSingleLine(v: EdnValue, i: nat, config: OutputConfig)
    requires v.Map? && i <= |v.entries| && OutputFacts.EntriesNoNewline(v, i, config.rawStrings)
    ensures forall j :: 0 <= j < |v.entries| - i ==>
              '\n' !in CompactFormatPairs(v, i, config)[j].0 && '\n' !in CompactFormatPairs(v, i, config)[j].1
    decreases v, 0, |v.entries| - i
  {
    if i < |v.entries| {
      var e := v.entries[i];
      assert e in v.entries;
      CompactFormatSingleLine(e.0, config);
      CompactFormatSingleLine(e.1, config);
      CompactFormatPairsSingleLine(v, i + 1, config);
    }
  }

  // ---------------------------------------------------------------------
  // Lambdas and the inline case

  /** The symbols naming a lambda's parameters. */
  function Symbols(params: seq<string>): (syms: seq<EdnValue>)
    ensures |syms| == |params|
  {
    if params == [] then [] else [Symbol(params[0])] + Symbols(params[1..])
  }

  lemma {:induction false} SymbolTexts(params: seq<string>, config: OutputConfig)
    ensures CompactTexts(Symbols(params), config) == params
  {
    if params != [] {
      SymbolTexts(params[1..], config);
      assert params == [params[0]] + params[1..];
    }
  }

  /** A lambda prints exactly as the list `(fn [p1 p2 ...] body)` prints. */
  lemma LambdaPrintsAsList(params: seq<string>, body: EdnValue, config: OutputConfig)
    ensures CompactFormat(Lambda(params, body), config)
         == CompactFormat(List([Symbol("fn"), Vector(Symbols(params)), body]), config)
  {
    var vec := CompactFormat(Vector(Symbols(params)), config);
    var b := CompactFormat(body, config);
    SymbolVectorText(params, config);
    ThreeItemList(Symbol("fn"), Vector(Symbols(params)), body, config);
    assert "(fn [" + Join(params, " ") + "] " + b + ")" == "(" + "fn" + " " + vec + " " + b + ")";
  }

  lemma SymbolVectorText(params: seq<string>, config: OutputConfig)
    ensures CompactFormat(Vector(Symbols(params)), config) == "[" + Join(params, " ") + "]"
  {
    SymbolTexts(params, config);
  }

  lemma ThreeItemList(x: EdnValue, y: EdnValue, z: EdnValue, config: OutputConfig)
    ensures CompactFormat(List([x, y, z]), config)
         == "(" + CompactFormat(x, config) + " " + CompactFormat(y, config) + " " + CompactFormat(z, config) + ")"
  {
    ThreeTexts(x, y, z, config);
    JoinThree(CompactFormat(x, config), CompactFormat(y, config), CompactFormat(z, config));
  }

  lemma ThreeTexts(x: EdnValue, y: EdnValue, z: EdnValue, config: OutputConfig)
    ensures CompactTexts([x, y, z], config) == [CompactFormat(x, config), CompactFormat(y, config), CompactFormat(z, config)]
  {
    var items := [x, y, z];
    assert items[1..] == [y, z] && items[1..][1..] == [z];
    assert CompactTexts([z], config) == [CompactFormat(z, config)];
    assert CompactTexts([y, z], config) == [CompactFormat(y, config), CompactFormat(z, config)];
  }

  lemma JoinThree(a: string, b: string, c: string)
    ensures Join([a, b, c], " ") == a + " " + b + " " + c
  {
    var texts := [a, b, c];
    assert texts[1..] == [b, c] && texts[1..][1..] == [c];
    assert Join([b, c], " ") == b + " " + c;
  }

  /** When the pretty formatter inlines a collection, it prints the compact text. */
  lemma PrettyInlineIsCompact(items: seq<EdnValue>, config: OutputConfig, depth: nat)
    requires ShouldInline(items, config)
    ensures PrettyFormat(Vector(items), config, depth) == CompactFormat(Vector(items), config)
    ensures PrettyFormat(List(items), config, depth) == CompactFormat(List(items), config)
    ensures PrettyFormat(Set(items), config, depth) == CompactFormat(Set(items), config)
  {
  }

  /** A collection too wide to inline is laid out one item per line, one level deeper. */
  lemma PrettyMultilineLayout(items: seq<EdnValue>, config: OutputConfig, depth: nat)
    requires !ShouldInline(items, config)
    ensures items != []
    ensures PrettyFormat(Vector(items), config, depth)
         == "[" + " " + PrettyFormat(items[0], config, depth + 1)
            + OutputFacts.Lines(PrettyTexts(items[1..], config, depth + 1), MakeIndent(config, depth + 1)) + "]"
  {
    assert CompactTexts([], config) == [];
    LayoutShape("[", "]", PrettyTexts(items, config, depth + 1), depth, false, config);
  }

  // ---------------------------------------------------------------------
  // Agreement with the output renderer

  /** No set anywhere inside: the value whose printed form does not depend on set order. */
  predicate SetFree(v: EdnValue)
    decreases v, 1
  {
    if v.Vector? || v.List? then AllSetFree(v.items)
    else if v.Map? then EntriesSetFree(v, 0)
    else if v.Set? then false
    else if v.Tagged? then SetFree(v.value)
    else if v.WithMetadata? then SetFree(v.metadata) && SetFree(v.value)
    else if v.Lambda? then SetFree(v.body)
    else true
  }

  predicate AllSetFree(items: seq<EdnValue>)
    decreases items, 0
  {
    items == [] || (SetFree(items[0]) && AllSetFree(items[1..]))
  }

  predicate EntriesSetFree(v: EdnValue, i: nat)
    requires v.Map? && i <= |v.entries|
    decreases v, 0, |v.entries| - i
  {
    if i == |v.entries| then true
    else
      var e := v.entries[i];
      assert e in v.entries;
      SetFree(e.0) && SetFree(e.1) && EntriesSetFree(v, i + 1)
  }

  lemma {:induction false} EntriesSetFreeAt(v: EdnValue, i: nat, j: nat)
    requires v.Map? && i <= j < |v.entries| && EntriesSetFree(v, i)
    ensures SetFree(v.entries[j].0) && SetFree(v.entries[j].1)
    decreases j - i
  {
    if i < j {
      EntriesSetFreeAt(v, i + 1, j);
    }
  }

  /** On set-free values the compact formatter prints what the compact renderer prints. */
  lemma {:induction false} CompactAgrees(v: EdnValue, config: OutputConfig)
    requires SetFree(v)
    ensures CompactFormat(v, config) == FormatCompact(v, config)
    decreases v, 1
  {
    if v.Vector? || v.List? {
      CompactTextsAgree(v.items, config);
      if v.items == [] {
        assert Join(CompactAll(v.items, config), " ") == "";
      }
    } else if v.Map? {
      CompactPairsAgree(v, 0, config);
      if v.entries == [] {
        assert Join(PairTexts(CompactPairs(v, 0, config)), " ") == "";
      }
    } else if v.Tagged? {
      CompactAgrees(v.value, config);
    } else if v.WithMetadata? {
      CompactAgrees(v.metadata, config);
      CompactAgrees(v.value, config);
    } else if v.Lambda? {
      CompactAgrees(v.body, config);
    }
  }

  lemma {:induction false} CompactTextsAgree(items: seq<EdnValue>, config: OutputConfig)
    requires AllSetFree(items)
    ensures CompactTexts(items, config) == CompactAll(items, config)
    decreases items, 0
  {
    if items != [] {
      CompactAgrees(items[0], config);
      CompactTextsAgree(items[1..], config);
    }
  }

  lemma {:induction false} CompactPairsAgree(v: EdnValue, i: nat, config: OutputConfig)
    requires v.Map? && i <= |v.entries| && EntriesSetFree(v, i)
    ensures CompactFormatPairs(v, i, config) == CompactPairs(v, i, config)
    decreases v, 0, |v.entries| - i
  {
    if i < |v.entries| {
      var e := v.entries[i];
      assert e in v.entries;
      CompactAgrees(e.0, config);
      CompactAgrees(e.1, config);
      CompactPairsAgree(v, i + 1, config);
    }
  }

  /** On set-free values the pretty formatter prints what the pretty renderer prints. */
  lemma {:induction false} PrettyAgrees(v: EdnValue, config: OutputConfig, depth: nat)
    requires SetFree(v)
    ensures PrettyFormat(v, config, depth) == FormatPretty(v, config, depth)
    decreases v, 3
  {
    if v.Vector? {
      PrettyCollectionAgrees("[", "]", v.items, config, depth);
    } else if v.List? {
      PrettyCollectionAgrees("(", ")", v.items, config, depth);
    } else if v.Map? {
      PrettyMapAgrees(v, config, depth);
    } else if v.Tagged? {
      PrettyAgrees(v.value, config, depth);
    } else if v.WithMetadata? {
      PrettyAgrees(v.metadata, config, depth);
      PrettyAgrees(v.value, config, depth);
    } else if v.Lambda? {
      PrettyAgrees(v.body, config, depth);
    }
  }

  lemma {:induction false} PrettyCollectionAgrees(open: string, close: string, items: seq<EdnValue>, config: OutputConfig, depth: nat)
    requires AllSetFree(items)
    ensures PrettyFormatCollection(open, close, items, config, depth) == PrettyCollection(open, close, items, config, depth)
    decreases items, 2
  {
    CompactTextsAgree(items, config);
    PrettyTextsAgree(items, config, depth + 1);
  }

  lemma {:induction false} PrettyTextsAgree(items: seq<EdnValue>, config: OutputConfig, depth: nat)
    requires AllSetFree(items)
    ensures PrettyTexts(items, config, depth) == PrettyAll(items, config, depth)
    decreases items, 1
  {
    if items != [] {
      PrettyAgrees(items[0], config, depth);
      PrettyTextsAgree(items[1..], config, depth);
    }
  }

  lemma {:induction false} PrettyMapAgrees(v: EdnValue, config: OutputConfig, depth: nat)
    requires v.Map? && SetFree(v)
    ensures PrettyFormatMap(v, config, depth) == PrettyMap(v, config, depth)
    decreases v, 2
  {
    CompactPairsAgree(v, 0, config);
    var pairs := CompactPairs(v, 0, config);
    ShouldInlineMapAgrees(|v.entries|, MapEstimate(pairs));
    var entries := MapEntries(v, config, depth + 1);
    var expected := PrettyEntries(v, config, depth + 1);
    forall j | 0 <= j < |v.entries|
      ensures entries[j] == expected[j]
    {
      assert v.entries[j] in v.entries;
      EntriesSetFreeAt(v, 0, j);
      PrettyAgrees(v.entries[j].0, config, depth + 1);
      PrettyAgrees(v.entries[j].1, config, depth + 1);
      MapEntriesAt(v, j, config, depth + 1);
      PrettyEntriesAt(v, j, config, depth + 1);
    }
    assert entries == expected;
  }
}
