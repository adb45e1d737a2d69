/**
 * Expansion: finding glyph expansion opportunities and reporting them.
 *
 * An opportunity is a family that lacks only a few of the characters a
 * language needs. For every family that passes the name filter and every
 * language, the missing characters are the language's base set minus the
 * characters of the family's exemplar font; when there are between 1 and
 * `maxMissing` of them, the language is added to the group keyed by the family
 * and the sorted tuple of those characters. The report then walks the keys in
 * sorted order and prices each one.
 *
 * Characters are Unicode code points (`int`). The catalogs that the program
 * loads from disk, and the character maps it reads from font files, are
 * inputs here.
 */
module Expansion {
  import opened Ordering
  import opened Costs

  /** A group key: a family name and the sorted tuple of characters it lacks. */
  type Key = (string, seq<int>)

  /**
   * Everything one run works on: families by name, each language's base
   * character set by language code, the characters in each font file, the
   * family name filter and the `max_missing` threshold.
   */
  datatype Inputs = Inputs(
    families: map<string, Family>,
    baseSets: map<string, set<int>>,
    charsInFont: string -> set<int>,
    filter: string -> bool,
    maxMissing: int)

  /**
   * The characters of language `lang` that family `family` does not have:
   * part of the language's base set, none of them in the exemplar font, and
   * none at all exactly when the font covers the whole base set.
   */
  function MissingChars(inputs: Inputs, family: string, lang: string): (m: set<int>)
    requires family in inputs.families && lang in inputs.baseSets
    ensures m <= inputs.baseSets[lang]
    ensures m !! inputs.charsInFont(inputs.families[family].exemplarFontFile)
    ensures m == {} <==> inputs.baseSets[lang] <= inputs.charsInFont(inputs.families[family].exemplarFontFile)
  {
    var fontChars := inputs.charsInFont(inputs.families[family].exemplarFontFile);
    var m := inputs.baseSets[lang] - fontChars;
    assert forall c :: c in inputs.baseSets[lang] && c !in fontChars ==> c in m;
    m
  }

  /** Whether a missing-character tuple is worth reporting: not empty, and no longer than the threshold. */
  predicate IsOpportunity(missing: seq<int>, maxMissing: int): (b: bool)
    ensures b ==> missing != []
    ensures maxMissing <= 0 ==> !b
  {
    0 < |missing| <= maxMissing
  }

  /**
   * Language `lang` belongs in the group keyed by `k`: the family exists and
   * passes the filter, the language exists, `k`'s tuple lists the characters
   * the family lacks for it in increasing order, and that tuple is an
   * opportunity.
   */
  ghost predicate Matches(inputs: Inputs, k: Key, lang: string) {
    && k.0 in inputs.families
    && inputs.filter(k.0)
    && lang in inputs.baseSets
    && Increasing(k.1)
    && Elements(k.1) == MissingChars(inputs, k.0, lang)
    && IsOpportunity(k.1, inputs.maxMissing)
  }

  /**
   * The key tuple of the specification is the one the program builds: an
   * increasing tuple holds exactly the missing characters if and only if it
   * is `tuple(sorted(...))` of them.
   */
  lemma MatchesUsesSortedTuple(inputs: Inputs, family: string, lang: string, t: seq<int>)
    requires family in inputs.families && lang in inputs.baseSets
    ensures Increasing(t) && Elements(t) == MissingChars(inputs, family, lang)
        <==> t == SortedChars(MissingChars(inputs, family, lang))
  {
    var sorted := SortedChars(MissingChars(inputs, family, lang));
    if Increasing(t) && Elements(t) == MissingChars(inputs, family, lang) {
      IncreasingUnique(t, sorted);
    }
  }

  /**
   * `opps` is the grouping of all matches: every stored group is non-empty,
   * and a language is in the group of `k` exactly when it matches `k`.
   */
  ghost predicate Grouped(opps: map<Key, set<string>>, inputs: Inputs) {
    && (forall k :: k in opps ==> opps[k] != {})
    && (forall k, lang {:trigger lang in opps[k]} {:trigger Matches(inputs, k, lang)} ::
          k in opps && lang in opps[k] <==> Matches(inputs, k, lang))
  }

  /**
   * The grouping restricted to the (family, language) pairs already visited:
   * all pairs of the families in `familiesDone`, and the languages in
   * `langsDone` for the family `current`. Between families no family is
   * current: callers then pass `""` with an empty `langsDone`, so the name
   * `""` covers no pair even if a family is called that.
   */
  ghost predicate GroupedSoFar(
    opps: map<Key, set<string>>, inputs: Inputs,
    familiesDone: set<string>, current: string, langsDone: set<string>)
  {
    && (forall k :: k in opps ==> opps[k] != {})
    && (forall k, lang {:trigger lang in opps[k]} :: k in opps && lang in opps[k] ==>
          Matches(inputs, k, lang) && (k.0 in familiesDone || (k.0 == current && lang in langsDone)))
    && (forall k, lang {:trigger Matches(inputs, k, lang)} ::
          Matches(inputs, k, lang) && (k.0 in familiesDone || (k.0 == current && lang in langsDone)) ==>
          k in opps && lang in opps[k])
  }

  /** The families that the name filter rejects: exactly the catalog's families that fail it. */
  function SkippedFamilies(inputs: Inputs): (s: set<string>)
    ensures s <= inputs.families.Keys
    ensures forall f :: f in s ==> !inputs.filter(f)
    ensures forall f :: f in inputs.families && !inputs.filter(f) ==> f in s
  {
    SkippedAmong(inputs, inputs.families.Keys)
  }

  /**
   * The matching loop: visit every family, count and pass over those the
   * filter rejects, and for every other family and every language add the
   * language to the group of its missing-character tuple when that tuple is an
   * opportunity.
   */
  method FindOpportunities(inputs: Inputs) returns (opps: map<Key, set<string>>, skipped: nat)
    ensures Grouped(opps, inputs)
    ensures skipped == |SkippedFamilies(inputs)|
  {
    opps := map[];
    skipped := 0;
    var families := inputs.families.Keys;
    while families != {}
      invariant families <= inputs.families.Keys
      invariant GroupedSoFar(opps, inputs, inputs.families.Keys - families, "", {})
      invariant skipped == |SkippedAmong(inputs, inputs.families.Keys - families)|
      decreases |families|
    {
      var name :| name in families;
      ghost var familiesDone := inputs.families.Keys - families;
      if !inputs.filter(name) {
        skipped := skipped + 1;
        SkipFamily(opps, inputs, familiesDone, name);
      } else {
        opps := MatchLanguages(inputs, name, opps, familiesDone);
      }
      SkippedStep(inputs, familiesDone, name);
      MoveToDone(inputs.families.Keys, families, name);
      families := families - {name};
    }
    assert inputs.families.Keys - families == inputs.families.Keys;
    AllFamiliesVisited(opps, inputs);
  }

  /**
   * The inner loop, for one family that passes the filter: read the family's
   * character set once, then add every language whose missing characters
   * form an opportunity to the group of the family and that tuple.
   */
  method MatchLanguages(inputs: Inputs, name: string, start: map<Key, set<string>>, ghost familiesDone: set<string>)
    returns (opps: map<Key, set<string>>)
    requires name in inputs.families && inputs.filter(name) && name !in familiesDone
    requires GroupedSoFar(start, inputs, familiesDone, "", {})
    ensures GroupedSoFar(opps, inputs, familiesDone + {name}, "", {})
  {
    opps := start;
    var fontChars := inputs.charsInFont(inputs.families[name].exemplarFontFile);
    var langs := inputs.baseSets.Keys;
    StartFamily(opps, inputs, familiesDone, name);
    while langs != {}
      invariant langs <= inputs.baseSets.Keys
      invariant GroupedSoFar(opps, inputs, familiesDone, name, inputs.baseSets.Keys - langs)
      decreases |langs|
    {
      var lang :| lang in langs;
      var missing := SortedChars(inputs.baseSets[lang] - fontChars);
      ghost var before := opps;
      if IsOpportunity(missing, inputs.maxMissing) {
        var key := (name, missing);
        var group := if key in opps then opps[key] else {};
        opps := opps[key := group + {lang}];
      }
      VisitLanguage(before, opps, inputs, familiesDone, name, inputs.baseSets.Keys - langs, lang, missing);
      MoveToDone(inputs.baseSets.Keys, langs, lang);
      langs := langs - {lang};
    }
    FinishFamily(opps, inputs, familiesDone, name);
  }

  /** Taking `x` from the work list `rest` adds it to what is done. */
  lemma MoveToDone<T>(all: set<T>, rest: set<T>, x: T)
    requires x in rest && rest <= all
    ensures (all - rest) + {x} == all - (rest - {x})
  {
  }

  lemma AllFamiliesVisited(opps: map<Key, set<string>>, inputs: Inputs)
    requires GroupedSoFar(opps, inputs, inputs.families.Keys, "", {})
    ensures Grouped(opps, inputs)
  {
  }

  /** The families among `names` that the filter rejects. */
  function SkippedAmong(inputs: Inputs, names: set<string>): set<string> {
    set f | f in names && !inputs.filter(f)
  }

  lemma SkippedStep(inputs: Inputs, names: set<string>, name: string)
    requires name !in names
    ensures |SkippedAmong(inputs, names + {name})|
         == |SkippedAmong(inputs, names)| + (if inputs.filter(name) then 0 else 1)
  {
    if inputs.filter(name) {
      assert SkippedAmong(inputs, names + {name}) == SkippedAmong(inputs, names);
    } else {
      assert SkippedAmong(inputs, names + {name}) == SkippedAmong(inputs, names) + {name};
    }
  }

  /** A family the filter rejects is done as soon as it is visited. */
  lemma SkipFamily(opps: map<Key, set<string>>, inputs: Inputs, familiesDone: set<string>, name: string)
    requires GroupedSoFar(opps, inputs, familiesDone, "", {})
    requires !inputs.filter(name)
    ensures GroupedSoFar(opps, inputs, familiesDone + {name}, "", {})
  {
  }

  lemma StartFamily(opps: map<Key, set<string>>, inputs: Inputs, familiesDone: set<string>, name: string)
    requires GroupedSoFar(opps, inputs, familiesDone, "", {})
    ensures GroupedSoFar(opps, inputs, familiesDone, name, {})
  {
  }

  lemma FinishFamily(opps: map<Key, set<string>>, inputs: Inputs, familiesDone: set<string>, name: string)
    requires GroupedSoFar(opps, inputs, familiesDone, name, inputs.baseSets.Keys)
    ensures GroupedSoFar(opps, inputs, familiesDone + {name}, "", {})
  {
  }

  /** Visiting one more language of the current family adds it to its group, if it has one. */
  lemma VisitLanguage(
    before: map<Key, set<string>>, after: map<Key, set<string>>, inputs: Inputs,
    familiesDone: set<string>, name: string, langsDone: set<string>, lang: string, missing: seq<int>)
    requires GroupedSoFar(before, inputs, familiesDone, name, langsDone)
    requires name in inputs.families && inputs.filter(name) && name !in familiesDone
    requires lang in inputs.baseSets && lang !in langsDone
    requires Increasing(missing) && Elements(missing) == MissingChars(inputs, name, lang)
    requires after == if IsOpportunity(missing, inputs.maxMissing)
               then before[(name, missing) := (if (name, missing) in before then before[(name, missing)] else {}) + {lang}]
               else before
    ensures GroupedSoFar(after, inputs, familiesDone, name, langsDone + {lang})
  {
    var key := (name, missing);
    forall k, l | k in before && l in before[k]
      ensures k in after && l in after[k]
    {
    }
    forall k, l | k in after && l in after[k]
      ensures Matches(inputs, k, l)
      ensures k.0 in familiesDone || (k.0 == name && l in langsDone + {lang})
    {
      if !(k in before && l in before[k]) {
        assert k == key && l == lang;
      }
    }
    forall k, l | Matches(inputs, k, l) && (k.0 in familiesDone || (k.0 == name && l in langsDone + {lang}))
      ensures k in after && l in after[k]
    {
      if !(k.0 in familiesDone || (k.0 == name && l in langsDone)) {
        IncreasingUnique(k.1, missing);
        assert k == key && l == lang;
      }
    }
  }

  /** Every reported key lacks at least one and at most `maxMissing` characters. */
  lemma OpportunityBounds(opps: map<Key, set<string>>, inputs: Inputs, k: Key)
    requires Grouped(opps, inputs)
    requires k in opps
    ensures 0 < |k.1| <= inputs.maxMissing
  {
    var lang :| lang in opps[k];
    assert Matches(inputs, k, lang);
  }

  /**
   * A key's tuple is strictly increasing, so free of duplicates, and holds
   * exactly the characters its family lacks for each language of the group.
   */
  lemma KeyIsMissingSet(opps: map<Key, set<string>>, inputs: Inputs, k: Key, lang: string)
    requires Grouped(opps, inputs)
    requires k in opps && lang in opps[k]
    ensures Increasing(k.1)
    ensures k.0 in inputs.families && lang in inputs.baseSets
    ensures Elements(k.1) == MissingChars(inputs, k.0, lang)
  {
    assert Matches(inputs, k, lang);
  }

  /** A language whose base set the family already covers is in none of that family's groups. */
  lemma CoveredLanguageNotGrouped(opps: map<Key, set<string>>, inputs: Inputs, family: string, lang: string, missing: seq<int>)
    requires Grouped(opps, inputs)
    requires family in inputs.families && lang in inputs.baseSets
    requires inputs.baseSets[lang] <= inputs.charsInFont(inputs.families[family].exemplarFontFile)
    requires (family, missing) in opps
    ensures lang !in opps[(family, missing)]
  {
    assert MissingChars(inputs, family, lang) == {};
    assert !Matches(inputs, (family, missing), lang) by {
      if missing != [] {
        assert missing[0] in Elements(missing);
      }
    }
  }

  /**
   * Two grouped languages of one family share a key exactly when the family
   * lacks the same characters for both.
   */
  lemma SharedKeyIffSameMissing(
    opps: map<Key, set<string>>, inputs: Inputs, family: string,
    lang1: string, missing1: seq<int>, lang2: string, missing2: seq<int>)
    requires Grouped(opps, inputs)
    requires (family, missing1) in opps && lang1 in opps[(family, missing1)]
    requires (family, missing2) in opps && lang2 in opps[(family, missing2)]
    ensures missing1 == missing2 <==> MissingChars(inputs, family, lang1) == MissingChars(inputs, family, lang2)
  {
    assert Matches(inputs, (family, missing1), lang1);
    assert Matches(inputs, (family, missing2), lang2);
    if Elements(missing1) == Elements(missing2) {
      IncreasingUnique(missing1, missing2);
    }
  }

  /**
   * Grouping is by exact deficiency: a language that lacks the same characters
   * as a grouped language, against the same family, is in the same group.
   */
  lemma SameMissingSameGroup(opps: map<Key, set<string>>, inputs: Inputs, k: Key, lang1: string, lang2: string)
    requires Grouped(opps, inputs)
    requires k in opps && lang1 in opps[k]
    requires lang2 in inputs.baseSets
    requires k.0 in inputs.families && MissingChars(inputs, k.0, lang2) == MissingChars(inputs, k.0, lang1)
    ensures lang2 in opps[k]
  {
    assert Matches(inputs, k, lang1);
    assert Matches(inputs, k, lang2);
  }

  /** A family that the filter rejects owns no key. */
  lemma FilteredFamilyHasNoKeys(opps: map<Key, set<string>>, inputs: Inputs, k: Key)
    requires Grouped(opps, inputs)
    requires k in opps
    ensures k.0 in inputs.families && inputs.filter(k.0)
    ensures k.0 !in SkippedFamilies(inputs)
  {
    var lang :| lang in opps[k];
    assert Matches(inputs, k, lang);
  }

  /** A threshold of zero (or less) yields no opportunities at all. */
  lemma NoOpportunitiesWithoutThreshold(opps: map<Key, set<string>>, inputs: Inputs)
    requires Grouped(opps, inputs)
    requires inputs.maxMissing <= 0
    ensures opps == map[]
  {
    forall k | k in opps
      ensures false
    {
      OpportunityBounds(opps, inputs, k);
    }
  }

  /**
   * The grouping is determined by the inputs: any two maps that group the same
   * inputs are equal, whatever order the loops visit families and languages in.
   */
  lemma GroupedUnique(a: map<Key, set<string>>, b: map<Key, set<string>>, inputs: Inputs)
    requires Grouped(a, inputs) && Grouped(b, inputs)
    ensures a == b
  {
    forall k | k in a
      ensures k in b && a[k] == b[k]
    {
      var lang :| lang in a[k];
      assert Matches(inputs, k, lang);
      assert forall l :: l in a[k] <==> l in b[k];
    }
    forall k | k in b
      ensures k in a
    {
      var lang :| lang in b[k];
      assert Matches(inputs, k, lang);
    }
  }

  /**
   * Language "xx" needs 'A', 'B' and 'C'; family "Foo" has 'A' and 'B'; with a
   * threshold of 1 the only opportunity is "Foo" lacking 'C', for "xx" alone.
   */
  lemma OneMissingCharacter(opps: map<Key, set<string>>, inputs: Inputs)
    requires inputs.families == map["Foo" := Family("Foo", 1, 0, "Foo-Regular.ttf")]
    requires inputs.baseSets == map["xx" := {'A' as int, 'B' as int, 'C' as int}]
    requires inputs.charsInFont("Foo-Regular.ttf") == {'A' as int, 'B' as int}
    requires inputs.filter("Foo") && inputs.maxMissing == 1
    requires Grouped(opps, inputs)
    ensures opps == map[("Foo", ['C' as int]) := {"xx"}]
  {
    var key := ("Foo", ['C' as int]);
    assert MissingChars(inputs, "Foo", "xx") == {'C' as int};
    assert Elements(key.1) == {'C' as int};
    assert Matches(inputs, key, "xx");
    assert opps[key] == {"xx"};
    forall k | k in opps
      ensures k == key
    {
      var lang :| lang in opps[k];
      assert Matches(inputs, k, lang);
      IncreasingUnique(k.1, key.1);
    }
  }


  /** One line of the report. */
  datatype ReportLine = ReportLine(
    family: string,          // the family to extend
    missing: seq<int>,       // the key's tuple of missing characters
    languages: seq<string>,  // the codes of the languages it would support, sorted
    chars: seq<int>,         // the missing characters as printed, sorted
    cost: real)              // the estimated effort

  function KeyOf(line: ReportLine): Key {
    (line.family, line.missing)
  }

  function ReportKeys(lines: seq<ReportLine>): set<Key> {
    set i | 0 <= i < |lines| :: KeyOf(lines[i])
  }

  /**
   * `line` reports the group of its key in `opps`: the group's languages in
   * increasing order, the key's characters in increasing order, and the cost
   * of the opportunity for the line's family.
   */
  ghost predicate Describes(line: ReportLine, opps: map<Key, set<string>>, families: map<string, Family>) {
    && KeyOf(line) in opps
    && line.family in families
    && SortedBy(line.languages, StrLess)
    && Elements(line.languages) == opps[KeyOf(line)]
    && Increasing(line.chars)
    && Elements(line.chars) == Elements(line.missing)
    && line.cost == OpportunityCost(families[line.family], |line.missing|)
  }

  /** The report line of key `k`: its group's languages sorted, its characters sorted, and its cost. */
  function LineFor(k: Key, opps: map<Key, set<string>>, families: map<string, Family>): (line: ReportLine)
    requires k in opps && k.0 in families
    ensures KeyOf(line) == k
    ensures Describes(line, opps, families)
  {
    var (family, missing) := k;
    ReportLine(family, missing, SortedStrings(opps[k]), SortedChars(Elements(missing)),
               OpportunityCost(families[family], |missing|))
  }

  /**
   * The report loop: one line per key, keys in increasing order of (family
   * name, missing tuple), each with its languages and characters sorted and
   * its cost.
   */
  method BuildReport(opps: map<Key, set<string>>, families: map<string, Family>) returns (lines: seq<ReportLine>)
    requires forall k :: k in opps ==> k.0 in families
    ensures |lines| == |opps|
    ensures ReportKeys(lines) == opps.Keys
    ensures forall i, j :: 0 <= i < j < |lines| ==> KeyLess(KeyOf(lines[i]), KeyOf(lines[j]))
    ensures forall i :: 0 <= i < |lines| ==> Describes(lines[i], opps, families)
  {
    var keys := SortedKeys(opps.Keys);
    lines := [];
    var i := 0;
    while i < |keys|
      invariant 0 <= i <= |keys|
      invariant |lines| == i
      invariant forall j :: 0 <= j < i ==> KeyOf(lines[j]) == keys[j]
      invariant forall j :: 0 <= j < i ==> Describes(lines[j], opps, families)
    {
      lines := lines + [LineFor(keys[i], opps, families)];
      i := i + 1;
    }
    LinesCoverKeys(lines, keys);
  }

  /** Lines whose keys are `keys`, one for one, report exactly the keys in `keys`. */
  lemma LinesCoverKeys(lines: seq<ReportLine>, keys: seq<Key>)
    requires |lines| == |keys|
    requires forall j :: 0 <= j < |keys| ==> KeyOf(lines[j]) == keys[j]
    ensures ReportKeys(lines) == Elements(keys)
  {
    forall k | k in Elements(keys)
      ensures k in ReportKeys(lines)
    {
      var j :| 0 <= j < |keys| && keys[j] == k;
      assert KeyOf(lines[j]) == k;
    }
  }

  /** The report as a whole: its lines, the number of opportunities and the number of skipped families. */
  datatype Report = Report(lines: seq<ReportLine>, found: nat, skipped: nat)

  /**
   * One run: group the opportunities, then report them. The report lists every
   * opportunity once, in key order, each line exactly the languages that
   * match its key, and counts the families the filter skipped.
   */
  method Run(inputs: Inputs) returns (report: Report)
    ensures report.skipped == |SkippedFamilies(inputs)|
    ensures report.found == |report.lines|
    ensures forall i, j :: 0 <= i < j < |report.lines| ==> KeyLess(KeyOf(report.lines[i]), KeyOf(report.lines[j]))
    ensures forall i :: 0 <= i < |report.lines| ==> SortedBy(report.lines[i].languages, StrLess)
    ensures forall i, lang :: 0 <= i < |report.lines| ==>
      (lang in Elements(report.lines[i].languages) <==> Matches(inputs, KeyOf(report.lines[i]), lang))
    ensures forall k, lang :: Matches(inputs, k, lang) ==> k in ReportKeys(report.lines)
    ensures forall i :: 0 <= i < |report.lines| ==>
      && report.lines[i].languages != []
      && IsOpportunity(report.lines[i].missing, inputs.maxMissing)
      && report.lines[i].chars == report.lines[i].missing
      && report.lines[i].family in inputs.families
      && report.lines[i].cost == OpportunityCost(inputs.families[report.lines[i].family], |report.lines[i].missing|)
      && report.lines[i].cost > 0.0
  {
    var opps, skipped := FindOpportunities(inputs);
    forall k | k in opps
      ensures k.0 in inputs.families
    {
      FilteredFamilyHasNoKeys(opps, inputs, k);
    }
    var lines := BuildReport(opps, inputs.families);
    forall i | 0 <= i < |lines|
      ensures IsOpportunity(lines[i].missing, inputs.maxMissing)
      ensures lines[i].languages != []
      ensures lines[i].chars == lines[i].missing
    {
      var k := KeyOf(lines[i]);
      assert Describes(lines[i], opps, inputs.families);
      var lang :| lang in opps[k];
      KeyIsMissingSet(opps, inputs, k, lang);
      OpportunityBounds(opps, inputs, k);
      assert lang in Elements(lines[i].languages);
      IncreasingUnique(lines[i].chars, lines[i].missing);
    }
    report := Report(lines, |opps|, skipped);
  }
}
