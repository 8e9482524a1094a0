/**
 * The output renderer the command line uses: a compact one-line printer and
 * a pretty printer that keeps small collections on one line and lays larger
 * ones out one item per line, indented by depth.
 *
 * Lengths the layout heuristics compare are byte lengths of the UTF-8
 * encoding, as Rust's `String::len`.
 */
module Output {
  import opened Value
  import opened Text
  import opened Primitives
  import opened EdnReader
  import opened Errors
  import StringOrder

  datatype OutputConfig = OutputConfig(compact: bool, rawStrings: bool, useTabs: bool, indentSize: nat)

  /** Pretty output, quoted strings, two spaces per level. */
  const DefaultConfig: OutputConfig := OutputConfig(false, false, false, 2)

  /** Compact output when the configuration asks for it, otherwise pretty output from depth 0. */
  function FormatOutput(v: EdnValue, config: OutputConfig): string
  {
    if config.compact then FormatCompact(v, config) else FormatPretty(v, config, 0)
  }

  /** A string value: verbatim under raw strings, otherwise quoted and escaped. */
  function StringText(s: string, rawStrings: bool): string
  {
    if rawStrings then s else "\"" + EscapeString(s) + "\""
  }

  /** Values printed the same way by every renderer: neither collections nor wrappers. */
  predicate IsAtom(v: EdnValue)
  {
    !(v.Vector? || v.List? || v.Map? || v.Set? || v.Tagged? || v.WithMetadata? || v.Lambda?)
  }

  function AtomText(v: EdnValue, rawStrings: bool): string
    requires IsAtom(v)
  {
    if v.Nil? then "nil"
    else if v.Bool? then (if v.b then "true" else "false")
    else if v.Str? then StringText(v.s, rawStrings)
    else if v.Keyword? then ":" + v.name
    else if v.Symbol? then v.name
    else if v.Character? then FormatCharacter(v.c)
    else if v.Integer? then IntToString(v.i)
    else if v.Float? then v.text
    else if v.Instant? then "#inst \"" + v.s + "\""
    else "#uuid \"" + v.s + "\""
  }

  // ---------------------------------------------------------------------
  // Compact rendering

  function FormatCompact(v: EdnValue, config: OutputConfig): string
    decreases v, 1
  {
    if v.Vector? then "[" + Join(CompactAll(v.items, config), " ") + "]"
    else if v.List? then "(" + Join(CompactAll(v.items, config), " ") + ")"
    else if v.Map? then "{" + Join(PairTexts(CompactPairs(v, 0, config)), " ") + "}"
    else if v.Set? then "#{" + Join(StringOrder.Sort(CompactAll(v.elements, config)), " ") + "}"
    else if v.Tagged? then "#" + v.tag + " " + FormatCompact(v.value, config)
    else if v.WithMetadata? then "^" + FormatCompact(v.metadata, config) + " " + FormatCompact(v.value, config)
    else if v.Lambda? then "(fn [" + Join(v.params, " ") + "] " + FormatCompact(v.body, config) + ")"
    else AtomText(v, config.rawStrings)
  }

  /** The compact texts of `items`, in order. */
  function CompactAll(items: seq<EdnValue>, config: OutputConfig): (texts: seq<string>)
    ensures |texts| == |items|
    decreases items, 0
  {
    if items == [] then [] else [FormatCompact(items[0], config)] + CompactAll(items[1..], config)
  }

  /** The compact texts of the keys and values of map `v` from index `i` on, in insertion order. */
  function CompactPairs(v: EdnValue, i: nat, config: OutputConfig): (pairs: seq<(string, string)>)
    requires v.Map? && i <= |v.entries|
    ensures |pairs| == |v.entries| - i
    decreases v, 0, |v.entries| - i
  {
    if i == |v.entries| then []
    else
      var e := v.entries[i];
      assert e in v.entries;
      [(FormatCompact(e.0, config), FormatCompact(e.1, config))] + CompactPairs(v, i + 1, config)
  }

  /** Each key and value text as `k v`. */
  function PairTexts(pairs: seq<(string, string)>): (texts: seq<string>)
    ensures |texts| == |pairs|
  {
    if pairs == [] then [] else [pairs[0].0 + " " + pairs[0].1] + PairTexts(pairs[1..])
  }

  // ---------------------------------------------------------------------
  // Pretty rendering

  function FormatPretty(v: EdnValue, config: OutputConfig, depth: nat): string
    decreases v, 3
  {
    if v.Vector? then PrettyCollection("[", "]", v.items, config, depth)
    else if v.List? then PrettyCollection("(", ")", v.items, config, depth)
    else if v.Map? then PrettyMap(v, config, depth)
    else if v.Set? then PrettyCollection("#{", "}", v.elements, config, depth)
    else if v.Tagged? then "#" + v.tag + " " + FormatPretty(v.value, config, depth)
    else if v.WithMetadata? then "^" + FormatPretty(v.metadata, config, depth) + " " + FormatPretty(v.value, config, depth)
    else if v.Lambda? then "(fn [" + Join(v.params, " ") + "] " + FormatPretty(v.body, config, depth) + ")"
    else AtomText(v, config.rawStrings)
  }

  /**
   * A sequence between `open` and `close`: nothing between them when empty,
   * the compact item texts on one line when they are short, otherwise the
   * multiline layout of the items printed one level deeper.
   */
  function PrettyCollection(open: string, close: string, items: seq<EdnValue>, config: OutputConfig, depth: nat): string
    decreases items, 1
  {
    if items == [] then open + close
    else if ShouldFormatInline(CompactAll(items, config)) then open + Join(CompactAll(items, config), " ") + close
    else open + Multiline(PrettyAll(items, config, depth + 1), MakeIndent(config, depth + 1)) + close
  }

  function PrettyAll(items: seq<EdnValue>, config: OutputConfig, depth: nat): (texts: seq<string>)
    ensures |texts| == |items|
    decreases items, 0
  {
    if items == [] then [] else [FormatPretty(items[0], config, depth)] + PrettyAll(items[1..], config, depth)
  }

  function PrettyMap(v: EdnValue, config: OutputConfig, depth: nat): string
    requires v.Map?
    decreases v, 2
  {
    if v.entries == [] then "{}"
    else if ShouldFormatMapInline(|v.entries|, MapEstimate(CompactPairs(v, 0, config))) then "{" + Join(PairTexts(CompactPairs(v, 0, config)), " ") + "}"
    else "{" + Multiline(PrettyEntries(v, config, depth + 1), MakeIndent(config, depth + 1)) + "}"
  }

  /** The multiline texts of the entries of map `v`, at `depth`, in insertion order. */
  function PrettyEntries(v: EdnValue, config: OutputConfig, depth: nat): (texts: seq<string>)
    requires v.Map?
    ensures |texts| == |v.entries|
    decreases v, 1
  {
    seq(|v.entries|, j requires 0 <= j < |v.entries| => EntryText(v, j, config, depth))
  }

  /**
   * Entry `j` of map `v`: the key, a space, and the value, which starts on a
   * line of its own when it is a collection holding collections.
   */
  function EntryText(v: EdnValue, j: nat, config: OutputConfig, depth: nat): string
    requires v.Map? && j < |v.entries|
    decreases v, 0
  {
    var e := v.entries[j];
    assert e in v.entries;
    FormatPretty(e.0, config, depth) + " " + EntryGap(e.1, config, depth) + FormatPretty(e.1, config, depth)
  }

  /** A map value that is a collection of collections starts on a line of its own. */
  function EntryGap(value: EdnValue, config: OutputConfig, depth: nat): string
  {
    if IsCollection(value) && !IsSimpleCollection(value) then "\n" + MakeIndent(config, depth) else ""
  }

  /** The leading whitespace of a line at `depth`. */
  function MakeIndent(config: OutputConfig, depth: nat): string
  {
    if config.useTabs then Repeat("\t", depth) else Repeat(" ", depth * config.indentSize)
  }

  /**
   * The items of a multiline collection: the first after a space, each later
   * one after a newline and `indent`.
   */
  function Multiline(texts: seq<string>, indent: string): string
  {
    if texts == [] then ""
    else if |texts| == 1 then " " + texts[0]
    else Multiline(texts[..|texts| - 1], indent) + "\n" + indent + texts[|texts| - 1]
  }

  /** Total UTF-8 length of the texts. */
  function TotalLen(texts: seq<string>): nat
  {
    if texts == [] then 0 else Utf8Len(texts[0]) + TotalLen(texts[1..])
  }

  /** At most four items whose compact texts and separating spaces are estimated below 60 bytes. */
  predicate ShouldFormatInline(texts: seq<string>)
  {
    |texts| <= 4 && TotalLen(texts) + |texts| < 60
  }

  /** The estimate of a map's inline length: each entry's key, value and a space. */
  function MapEstimate(pairs: seq<(string, string)>): nat
  {
    if pairs == [] then 0 else Utf8Len(pairs[0].0) + Utf8Len(pairs[0].1) + 1 + MapEstimate(pairs[1..])
  }

  /** At most two entries, with the estimate plus two bytes per entry below 50. */
  predicate ShouldFormatMapInline(size: nat, estimate: nat)
  {
    size <= 2 && estimate + 2 * size < 50
  }

  /** Vectors, lists, maps and sets, also under metadata. */
  predicate IsCollection(v: EdnValue)
  {
    if v.WithMetadata? then IsCollection(v.value) else v.Vector? || v.List? || v.Map? || v.Set?
  }

  /** A collection none of whose items (keys and values of a map) is a collection; true of any non-collection. */
  predicate IsSimpleCollection(v: EdnValue)
  {
    if v.Vector? || v.List? then NoCollections(v.items)
    else if v.Map? then NoCollectionEntries(v.entries)
    else if v.Set? then NoCollections(v.elements)
    else if v.WithMetadata? then IsSimpleCollection(v.value)
    else true
  }

  predicate NoCollections(items: seq<EdnValue>)
  {
    items == [] || (!IsCollection(items[0]) && NoCollections(items[1..]))
  }

  predicate NoCollectionEntries(entries: seq<(EdnValue, EdnValue)>)
  {
    entries == [] || (!IsCollection(entries[0].0) && !IsCollection(entries[0].1) && NoCollectionEntries(entries[1..]))
  }

  // ---------------------------------------------------------------------
  // The renderer's loops

  /** The pretty layout of a vector, list or set, built item by item. */
  method FormatPrettyCollection(open: string, close: string, items: seq<EdnValue>, config: OutputConfig, depth: nat)
    returns (result: string)
    ensures result == PrettyCollection(open, close, items, config, depth)
  {
    if items == [] {
      return open + close;
    }
    var compact := CompactAll(items, config);
    if ShouldFormatInline(compact) {
      return open + Join(compact, " ") + close;
    }
    ghost var texts := PrettyAll(items, config, depth + 1);
    var indent := MakeIndent(config, depth + 1);
    result := open;
    for i := 0 to |items|
      invariant result == open + Multiline(texts[..i], indent)
    {
      var item := FormatPretty(items[i], config, depth + 1);
      PrettyAllAt(items, config, depth + 1, i);
      MultilineStep(open, texts, i, indent);
      result := result + Separator(i, indent) + item;
    }
    assert texts[..|items|] == texts;
    result := result + close;
  }

  /** The pretty layout of a map, built entry by entry. */
  method FormatPrettyMap(v: EdnValue, config: OutputConfig, depth: nat) returns (result: string)
    requires v.Map?
    ensures result == PrettyMap(v, config, depth)
  {
    if v.entries == [] {
      return "{}";
    }
    var pairs := CompactPairs(v, 0, config);
    if ShouldFormatMapInline(|v.entries|, MapEstimate(pairs)) {
      return "{" + Join(PairTexts(pairs), " ") + "}";
    }
    ghost var texts := PrettyEntries(v, config, depth + 1);
    var indent := MakeIndent(config, depth + 1);
    result := "{";
    for i := 0 to |v.entries|
      invariant result == "{" + Multiline(texts[..i], indent)
    {
      var (key, value) := v.entries[i];
      var entry := FormatPretty(key, config, depth + 1) + " " + EntryGap(value, config, depth + 1) + FormatPretty(value, config, depth + 1);
      PrettyEntriesAt(v, i, config, depth + 1);
      MultilineStep("{", texts, i, indent);
      result := result + Separator(i, indent) + entry;
    }
    assert texts[..|v.entries|] == texts;
    result := result + "}";
  }

  /** What precedes the item at index `i` of a multiline layout. */
  function Separator(i: nat, indent: string): string
  {
    if i == 0 then " " else "\n" + indent
  }

  /** Adding one more item to the multiline layout. */
  lemma MultilineStep(open: string, texts: seq<string>, i: nat, indent: string)
    requires i < |texts|
    ensures open + Multiline(texts[..i + 1], indent) == open + Multiline(texts[..i], indent) + Separator(i, indent) + texts[i]
  {
    assert texts[..i + 1][..i] == texts[..i];
    if i == 0 {
      assert Multiline(texts[..i], indent) == "";
    }
  }

  /** The item texts are those of the items, in order. */
  lemma {:induction false} CompactAllAt(items: seq<EdnValue>, config: OutputConfig, i: nat)
    requires i < |items|
    ensures CompactAll(items, config)[i] == FormatCompact(items[i], config)
  {
    if i > 0 {
      CompactAllAt(items[1..], config, i - 1);
    }
  }

  lemma {:induction false} PrettyAllAt(items: seq<EdnValue>, config: OutputConfig, depth: nat, i: nat)
    requires i < |items|
    ensures PrettyAll(items, config, depth)[i] == FormatPretty(items[i], config, depth)
  {
    if i > 0 {
      PrettyAllAt(items[1..], config, depth, i - 1);
    }
  }

  /** The compact pairs are the map's keys and values, in insertion order. */
  lemma {:induction false} CompactPairsAt(v: EdnValue, i: nat, j: nat, config: OutputConfig)
    requires v.Map? && i <= j < |v.entries|
    ensures CompactPairs(v, i, config)[j - i] == (FormatCompact(v.entries[j].0, config), FormatCompact(v.entries[j].1, config))
    decreases j - i
  {
    if i < j {
      CompactPairsAt(v, i + 1, j, config);
    }
  }

  /** Each pair text is the key text, a space and the value text. */
  lemma {:induction false} PairTextsAt(pairs: seq<(string, string)>, j: nat)
    requires j < |pairs|
    ensures PairTexts(pairs)[j] == pairs[j].0 + " " + pairs[j].1
  {
    if j > 0 {
      PairTextsAt(pairs[1..], j - 1);
    }
  }

  /** A pretty map entry: key, space, a line break when the value is a collection of collections, value. */
  lemma PrettyEntriesAt(v: EdnValue, j: nat, config: OutputConfig, depth: nat)
    requires v.Map? && j < |v.entries|
    ensures PrettyEntries(v, config, depth)[j]
         == FormatPretty(v.entries[j].0, config, depth) + " " + EntryGap(v.entries[j].1, config, depth)
            + FormatPretty(v.entries[j].1, config, depth)
  {
  }
}
