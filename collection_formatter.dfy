/**
 * The collection layout the compact and pretty formatters share: already
 * formatted item texts between a prefix and a suffix, either on one line
 * separated by spaces or one item per line indented for the next level.
 */
module CollectionFormatter {
  import opened Text
  import opened Output
  import OutputFacts

  /** The items between `prefix` and `suffix`: nothing when empty, one line when inline, else the multiline layout. */
  function Layout(prefix: string, suffix: string, items: seq<string>, depth: nat, inline: bool, config: OutputConfig): string
  {
    if items == [] then prefix + suffix
    else if inline then prefix + Join(items, " ") + suffix
    else prefix + Multiline(items, MakeIndent(config, depth + 1)) + suffix
  }

  method Format(prefix: string, suffix: string, items: seq<string>, depth: nat, shouldInline: bool, config: OutputConfig)
    returns (result: string)
    ensures result == Layout(prefix, suffix, items, depth, shouldInline, config)
  {
    if items == [] {
      return prefix + suffix;
    }
    if shouldInline {
      result := prefix + Join(items, " ") + suffix;
    } else {
      result := FormatMultiline(prefix, suffix, items, depth, config);
    }
  }

  /** Map entries: each pair as `k v`, then the same layout. */
  method FormatPairs(prefix: string, suffix: string, pairs: seq<(string, string)>, depth: nat, shouldInline: bool, config: OutputConfig)
    returns (result: string)
    ensures result == Layout(prefix, suffix, PairTexts(pairs), depth, shouldInline, config)
  {
    var items := PairTexts(pairs);
    result := Format(prefix, suffix, items, depth, shouldInline, config);
  }

  /** Items one per line; both branches for the first item write the same single space. */
  method FormatMultiline(prefix: string, suffix: string, items: seq<string>, depth: nat, config: OutputConfig)
    returns (result: string)
    ensures result == prefix + Multiline(items, MakeIndent(config, depth + 1)) + suffix
  {
    var indent := MakeIndent(config, depth + 1);
    result := prefix;
    for i := 0 to |items|
      invariant result == prefix + Multiline(items[..i], indent)
    {
      MultilineStep(prefix, items, i, indent);
      var sep;
      if i == 0 && (prefix == [] || prefix[|prefix| - 1] != '{') {
        sep := " ";
      } else if i == 0 {
        sep := " ";
      } else {
        sep := "\n" + indent;
      }
      assert sep == Separator(i, indent);
      result := result + sep + items[i];
    }
    assert items[..|items|] == items;
    result := result + suffix;
  }

  /** At most two entries with an estimate, spacing included, below 50. */
  predicate ShouldInlineMap(size: nat, estimate: nat)
  {
    size <= 2 && estimate < 50
  }

  /** The map test here, given the estimate with two bytes per entry added, is the renderer's map test. */
  lemma ShouldInlineMapAgrees(size: nat, estimate: nat)
    ensures ShouldInlineMap(size, estimate + 2 * size) <==> ShouldFormatMapInline(size, estimate)
    ensures size > 2 ==> !ShouldInlineMap(size, estimate + 2 * size)
  {
  }

  lemma {:induction false} JoinNewlines(texts: seq<string>)
    ensures Occurrences(Join(texts, " "), '\n') == OutputFacts.Newlines(texts)
  {
    if |texts| == 1 {
      assert texts[1..] == [];
    } else if |texts| > 1 {
      JoinNewlines(texts[1..]);
      OccurrencesAppend(texts[0], " ", '\n');
      OccurrencesAppend(texts[0] + " ", Join(texts[1..], " "), '\n');
    }
  }

  /**
   * The layout adds no line break to its items' when they are inline, and
   * exactly one per item after the first when they are not.
   */
  lemma LayoutNewlines(prefix: string, suffix: string, items: seq<string>, depth: nat, inline: bool, config: OutputConfig)
    requires items != []
    ensures Occurrences(Layout(prefix, suffix, items, depth, inline, config), '\n')
         == Occurrences(prefix, '\n') + Occurrences(suffix, '\n') + OutputFacts.Newlines(items) + (if inline then 0 else |items| - 1)
  {
    var middle := if inline then Join(items, " ") else Multiline(items, MakeIndent(config, depth + 1));
    assert Layout(prefix, suffix, items, depth, inline, config) == prefix + middle + suffix;
    if inline {
      JoinNewlines(items);
    } else {
      OutputFacts.MakeIndentSpec(config, depth + 1);
      OutputFacts.NoNewlineCount(MakeIndent(config, depth + 1));
      OutputFacts.MultilineNewlines(items, MakeIndent(config, depth + 1));
    }
    OccurrencesAppend(prefix, middle, '\n');
    OccurrencesAppend(prefix + middle, suffix, '\n');
  }

  /** Inline items sit one space apart; multiline items follow the renderer's line layout. */
  lemma LayoutShape(prefix: string, suffix: string, items: seq<string>, depth: nat, inline: bool, config: OutputConfig)
    requires items != []
    ensures inline ==> Layout(prefix, suffix, items, depth, inline, config) == prefix + Join(items, " ") + suffix
    ensures !inline ==> Layout(prefix, suffix, items, depth, inline, config)
                        == prefix + " " + items[0] + OutputFacts.Lines(items[1..], MakeIndent(config, depth + 1)) + suffix
  {
    if !inline {
      OutputFacts.MultilineFront(items, MakeIndent(config, depth + 1));
    }
  }
}
