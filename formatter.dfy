/**
 * The formatter pair built on the shared collection layout: a compact
 * formatter that always lays collections out inline, and a pretty formatter
 * that chooses between inline and multiline layout from the compact texts.
 * Both print lambdas as `(fn [params] body)`.
 *
 * Both sort set elements by their debug text before printing; that order
 * is not modelled, and sets print in the order they hold their elements.
 */
module Formatter {
  import opened Value
  import opened Text
  import opened Output
  import opened CollectionFormatter

  // ---------------------------------------------------------------------
  // The compact formatter

  /** The compact formatter ignores depth, so it takes none. */
  function CompactFormat(v: EdnValue, config: OutputConfig): string
    decreases v, 1
  {
    if v.Vector? then Layout("[", "]", CompactTexts(v.items, config), 0, true, config)
    else if v.List? then Layout("(", ")", CompactTexts(v.items, config), 0, true, config)
    else if v.Map? then Layout("{", "}", PairTexts(CompactFormatPairs(v, 0, config)), 0, true, config)
    else if v.Set? then Layout("#{", "}", CompactTexts(v.elements, config), 0, true, config)
    else if v.Tagged? then "#" + v.tag + " " + CompactFormat(v.value, config)
    else if v.WithMetadata? then "^" + CompactFormat(v.metadata, config) + " " + CompactFormat(v.value, config)
    else if v.Lambda? then "(fn [" + Join(v.params, " ") + "] " + CompactFormat(v.body, config) + ")"
    else AtomText(v, config.rawStrings)
  }

  function CompactTexts(items: seq<EdnValue>, config: OutputConfig): (texts: seq<string>)
    ensures |texts| == |items|
    decreases items, 0
  {
    if items == [] then [] else [CompactFormat(items[0], config)] + CompactTexts(items[1..], config)
  }

  /** The compact formatter's key and value texts of map `v` from index `i` on. */
  function CompactFormatPairs(v: EdnValue, i: nat, config: OutputConfig): (pairs: seq<(string, string)>)
    requires v.Map? && i <= |v.entries|
    ensures |pairs| == |v.entries| - i
    decreases v, 0, |v.entries| - i
  {
    if i == |v.entries| then []
    else
      var e := v.entries[i];
      assert e in v.entries;
      [(CompactFormat(e.0, config), CompactFormat(e.1, config))] + CompactFormatPairs(v, i + 1, config)
  }

  /** The shared inline test: few items with short compact texts. */
  predicate ShouldInline(items: seq<EdnValue>, config: OutputConfig)
  {
    ShouldFormatInline(CompactTexts(items, config))
  }

  // ---------------------------------------------------------------------
  // The pretty formatter

  function PrettyFormat(v: EdnValue, config: OutputConfig, depth: nat): string
    decreases v, 3
  {
    if v.Vector? then PrettyFormatCollection("[", "]", v.items, config, depth)
    else if v.List? then PrettyFormatCollection("(", ")", v.items, config, depth)
    else if v.Map? then PrettyFormatMap(v, config, depth)
    else if v.Set? then PrettyFormatCollection("#{", "}", v.elements, config, depth)
    else if v.Tagged? then "#" + v.tag + " " + PrettyFormat(v.value, config, depth)
    else if v.WithMetadata? then "^" + PrettyFormat(v.metadata, config, depth) + " " + PrettyFormat(v.value, config, depth)
    else if v.Lambda? then "(fn [" + Join(v.params, " ") + "] " + PrettyFormat(v.body, config, depth) + ")"
    else AtomText(v, config.rawStrings)
  }

  /** Inline with the compact texts when they are short, otherwise multiline with the items one level deeper. */
  function PrettyFormatCollection(open: string, close: string, items: seq<EdnValue>, config: OutputConfig, depth: nat): string
    decreases items, 1
  {
    if ShouldInline(items, config) then Layout(open, close, CompactTexts(items, config), depth, true, config)
    else Layout(open, close, PrettyTexts(items, config, depth + 1), depth, false, config)
  }

  function PrettyTexts(items: seq<EdnValue>, config: OutputConfig, depth: nat): (texts: seq<string>)
    ensures |texts| == |items|
    decreases items, 0
  {
    if items == [] then [] else [PrettyFormat(items[0], config, depth)] + PrettyTexts(items[1..], config, depth)
  }

  /** Inline from the compact texts when the estimate allows, otherwise one entry per line. */
  function PrettyFormatMap(v: EdnValue, config: OutputConfig, depth: nat): string
    requires v.Map?
    decreases v, 2
  {
    var pairs := CompactFormatPairs(v, 0, config);
    if ShouldInlineMap(|v.entries|, MapEstimate(pairs) + 2 * |v.entries|) then Layout("{", "}", PairTexts(pairs), depth, true, config)
    else "{" + Multiline(MapEntries(v, config, depth + 1), MakeIndent(config, depth + 1)) + "}"
  }

  function MapEntries(v: EdnValue, config: OutputConfig, depth: nat): (texts: seq<string>)
    requires v.Map?
    ensures |texts| == |v.entries|
    decreases v, 1
  {
    seq(|v.entries|, j requires 0 <= j < |v.entries| => MapEntryText(v, j, config, depth))
  }

  /** Entry `j`: key, space, a line break when the value is a collection of collections, value. */
  function MapEntryText(v: EdnValue, j: nat, config: OutputConfig, depth: nat): string
    requires v.Map? && j < |v.entries|
    decreases v, 0
  {
    var e := v.entries[j];
    assert e in v.entries;
    PrettyFormat(e.0, config, depth) + " " + EntryGap(e.1, config, depth) + PrettyFormat(e.1, config, depth)
  }

  /** The pretty formatter's map layout, built entry by entry. */
  method FormatMap(v: EdnValue, config: OutputConfig, depth: nat) returns (result: string)
    requires v.Map?
    ensures result == PrettyFormatMap(v, config, depth)
  {
    var pairs := CompactFormatPairs(v, 0, config);
    var estimate := MapEstimate(pairs) + |v.entries| * 2;
    if ShouldInlineMap(|v.entries|, estimate) {
      result := FormatPairs("{", "}", pairs, depth, true, config);
      return;
    }
    ghost var texts := MapEntries(v, config, depth + 1);
    var indent := MakeIndent(config, depth + 1);
    result := "{";
    for i := 0 to |v.entries|
      invariant result == "{" + Multiline(texts[..i], indent)
    {
      var (key, value) := v.entries[i];
      var entry := PrettyFormat(key, config, depth + 1) + " " + EntryGap(value, config, depth + 1) + PrettyFormat(value, config, depth + 1);
      MapEntriesAt(v, i, config, depth + 1);
      MultilineStep("{", texts, i, indent);
      result := result + Separator(i, indent) + entry;
    }
    assert texts[..|v.entries|] == texts;
    result := result + "}";
  }

  lemma MapEntriesAt(v: EdnValue, j: nat, config: OutputConfig, depth: nat)
    requires v.Map? && j < |v.entries|
    ensures MapEntries(v, config, depth)[j]
         == PrettyFormat(v.entries[j].0, config, depth) + " " + EntryGap(v.entries[j].1, config, depth)
            + PrettyFormat(v.entries[j].1, config, depth)
  {
  }
}
