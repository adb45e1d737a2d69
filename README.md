# gf_glyph_expansion, modelled in Dafny

`gf_glyph_expansion` looks for cheap ways to extend the language coverage of
the Google Fonts catalog. For every font family and every language it computes
the characters of the language's base set that the family's exemplar font
lacks. When a family lacks between 1 and `max_missing` characters for a
language, that is an *opportunity*. Opportunities are grouped by family and by
the exact tuple of missing characters, so that one set of new glyphs serves
every language in the group. The program then prints one line per group, in
sorted key order, with an estimated cost. It also prints how many groups it
found and how many families the name filter skipped.

The model has three modules:

- `Costs` (`costs.dfy`) holds the `Family` record, `glyph_cost` and
  `Family.cost_multiplier`. Arithmetic is exact, over `real`.
- `Ordering` (`ordering.dfy`) holds Python's `sorted` on a set (`Sorted`) and
  Python's ordering of strings and tuples (`LexLess` and its instances). It
  proves that this ordering is a strict total order and that sorting a set
  gives its one canonical tuple.
- `Expansion` (`expansion.dfy`) holds the body of `_run`:
  - the matching loops (`FindOpportunities`, with the per-family inner loop
    `MatchLanguages`), proved against the specification `Grouped`;
  - the report loop (`BuildReport`), proved to describe every group in key
    order;
  - the whole run (`Run`).

`Grouped(opps, inputs)` says exactly which languages belong to which group. A
language is in the group of `(family, tuple)` if and only if all of these hold:

- the family exists and passes the filter;
- the language exists;
- the tuple lists, in increasing order, exactly the characters the family
  lacks for that language;
- the tuple's length is between 1 and `max_missing`.

Every group in the map is non-empty. `GroupedUnique` shows that this
determines the map completely. So the result does not depend on the order in
which the loops visit families and languages. The model picks those orders
nondeterministically.

`IntLess` (code points, for the character tuples) and `CharLess` (for the
characters of strings) are only the element orders given to `LexLess`. They
are Python's `<` on single characters, which compares code points.

Characters are Unicode code points (`int`). The language catalog, the family
catalog, the character map of each font file, the name filter and
`max_missing` are fields of `Inputs`.

## Model

| member | source | states |
|---|---|---|
| Costs.Pow2 | src/gf_glyph_expansion/main.py:33 | 2 ** k on natural numbers is at least 1 |
| Costs.GlyphCost | src/gf_glyph_expansion/main.py:42-43 | the cost of n glyphs is never below the fixed 0.9 |
| Costs.GlyphCostIncreasing | src/gf_glyph_expansion/main.py:42-43 | each extra glyph adds exactly 0.1, so more glyphs always cost strictly more |
| Costs.CostMultiplier | src/gf_glyph_expansion/main.py:31-39 | the multiplier is at least 0.9, and at least 2 for a family with a variation axis |
| Costs.CostMultiplierAxisDoubling | src/gf_glyph_expansion/main.py:32-35 | one more axis doubles a variable family's multiplier once its fixed part is taken off |
| Costs.CostMultiplierAxesMonotone | src/gf_glyph_expansion/main.py:32-35 | with the same font count, a variable family with more axes never costs less |
| Costs.CostMultiplierFirstAxisCanCostLess | src/gf_glyph_expansion/main.py:32-37 | monotonicity in axes stops at the first axis: 30 static fonts cost 3.9, the same family with one axis costs 3 |
| Costs.CostMultiplierFontsMonotone | src/gf_glyph_expansion/main.py:31-39 | with the same axis count, a family with more fonts never costs less, in both the static and the variable branch |
| Costs.CostMultiplierThreeAxesTwoFonts | src/gf_glyph_expansion/main.py:32-35 | three axes and two fonts give (1 + 4) * 1.5 = 7.5 |
| Costs.OpportunityCost | src/gf_glyph_expansion/main.py:143 | every reported cost is strictly positive |
| Costs.OpportunityCostIncreasing | src/gf_glyph_expansion/main.py:143 | for one family, a group missing more characters costs strictly more |
| Ordering.Sorted | src/gf_glyph_expansion/main.py:135 | sorting a set gives each element exactly once, in strictly increasing order |
| Ordering.SortedUnique | src/gf_glyph_expansion/main.py:135 | two strictly increasing sequences with the same elements are equal |
| Ordering.SortedIsCanonical | src/gf_glyph_expansion/main.py:144 | sorting the elements of an already sorted sequence gives it back |
| Ordering.SortedInjective | src/gf_glyph_expansion/main.py:135 | two sets sort to the same tuple exactly when they are equal, which is why the sorted tuple can stand for the set as a key |
| Ordering.LexLess | src/gf_glyph_expansion/main.py:142 | Python's sequence comparison: only a non-empty sequence can be greater, and a proper prefix is always less than the longer sequence |
| Ordering.StrLess | src/gf_glyph_expansion/main.py:144 | Python's `<` on strings, by code point; a string is never less than itself |
| Ordering.IntSeqLess | src/gf_glyph_expansion/main.py:142 | Python's `<` on tuples of characters, by code point; a tuple is never less than itself |
| Ordering.KeyLess | src/gf_glyph_expansion/main.py:142 | Python's `<` on (family, tuple) keys, family name first; a key is never less than itself |
| Ordering.LexStrictTotal | src/gf_glyph_expansion/main.py:142 | comparing sequences element by element, a proper prefix first, is irreflexive, transitive and total whenever the element order is |
| Ordering.StrLessIsStrictTotal | src/gf_glyph_expansion/main.py:144 | Python's string order is a strict total order, so sorting language codes is well defined |
| Ordering.IntSeqLessIsStrictTotal | src/gf_glyph_expansion/main.py:142 | the order on missing-character tuples is a strict total order |
| Ordering.KeyLessIsStrictTotal | src/gf_glyph_expansion/main.py:142 | the order on (family, tuple) keys is a strict total order, so sorting the keys is well defined |
| Ordering.SortedChars | src/gf_glyph_expansion/main.py:135 | the tuple built from a set of code points is strictly increasing and holds exactly that set |
| Ordering.IncreasingUnique | src/gf_glyph_expansion/main.py:135 | an increasing tuple of code points is determined by its set of elements |
| Ordering.SortedStrings | src/gf_glyph_expansion/main.py:144 | the sorted list of a group's languages is increasing and holds exactly the group |
| Ordering.SortedKeys | src/gf_glyph_expansion/main.py:142 | the sorted list of keys is increasing in (family, tuple) order and holds exactly the keys |
| Expansion.MissingChars | src/gf_glyph_expansion/main.py:135 | the missing characters lie in the language's base set and not in the exemplar font; there are none exactly when the font covers the base set |
| Expansion.IsOpportunity | src/gf_glyph_expansion/main.py:136 | an opportunity misses at least one character, and no tuple is an opportunity when max_missing is 0 or less |
| Expansion.SkippedFamilies | src/gf_glyph_expansion/main.py:126-130 | the skipped families are exactly the catalog's families that fail the filter |
| Expansion.MatchesUsesSortedTuple | src/gf_glyph_expansion/main.py:135 | a tuple is increasing and holds exactly the missing characters if and only if it equals `tuple(sorted(...))` of them, so the grouping specification uses the program's own key |
| Expansion.FindOpportunities | src/gf_glyph_expansion/main.py:118-140 | the map groups exactly the matching (family, language) pairs by missing tuple, with no empty group, and the skipped count is the number of families the filter rejects |
| Expansion.MatchLanguages | src/gf_glyph_expansion/main.py:132-140 | after the inner loop for a family that passes the filter, the map groups exactly the matching pairs of the families visited so far and of that family, and no other pair |
| Expansion.VisitLanguage | src/gf_glyph_expansion/main.py:134-140 | adding one language to its group, when its tuple is an opportunity, extends the grouping to that language and breaks nothing already grouped |
| Expansion.OpportunityBounds | src/gf_glyph_expansion/main.py:136 | every key's tuple has at least one and at most max_missing characters |
| Expansion.KeyIsMissingSet | src/gf_glyph_expansion/main.py:135 | a key's tuple is strictly increasing and holds exactly the characters its family lacks for each language in the group |
| Expansion.CoveredLanguageNotGrouped | src/gf_glyph_expansion/main.py:135-139 | a language whose base set the family's font already covers is in none of that family's groups |
| Expansion.SharedKeyIffSameMissing | src/gf_glyph_expansion/main.py:135-140 | two grouped languages of a family have the same key if and only if the family lacks the same characters for both |
| Expansion.SameMissingSameGroup | src/gf_glyph_expansion/main.py:140 | a language lacking the same characters as a grouped language, for the same family, is in the same group |
| Expansion.FilteredFamilyHasNoKeys | src/gf_glyph_expansion/main.py:127-130 | every key belongs to a family that passes the filter, so a skipped family contributes nothing |
| Expansion.NoOpportunitiesWithoutThreshold | src/gf_glyph_expansion/main.py:136 | with max_missing at most 0 the map is empty |
| Expansion.GroupedUnique | src/gf_glyph_expansion/main.py:127-140 | the grouping is determined by the inputs alone, whatever order families and languages are visited in |
| Expansion.OneMissingCharacter | src/gf_glyph_expansion/main.py:127-140 | a family with 'A' and 'B', a language needing 'A', 'B' and 'C', and max_missing 1 give exactly one group: that family lacking 'C', for that language |
| Expansion.LineFor | src/gf_glyph_expansion/main.py:143-144 | a report line carries its group's languages sorted, its key's characters sorted, and the cost of the group for its family |
| Expansion.BuildReport | src/gf_glyph_expansion/main.py:142-144 | there is one line per key, each key exactly once, in strictly increasing (family, tuple) order, and each line describes its group |
| Expansion.Run | src/gf_glyph_expansion/main.py:114-148 | the report lists every matching (family, tuple) key exactly once and in key order; each line's languages are exactly those matching its key (at least one), in increasing order without repeats; its characters are its tuple; its cost is positive; the counts are the number of groups and the number of families the filter rejects |

## Left out

- Loading the language catalog and the family catalog from disk (`load_language_base_sets`, `load_families`) is not modelled. Their results are the `baseSets` and `families` fields of `Inputs`. How a family's exemplar font, font count and axis count are read from its metadata is not modelled either.
- Reading a font's character map (`chars_in_font`) is not modelled. It becomes the `charsInFont` field of `Inputs`, keyed by the exemplar font file.
- The on-disk memoization (`disk_cache`, `cache_dir`) is not modelled. Its cache file names come from the function name and positional arguments only, so they ignore `--gf_repo`, and two font paths can map to one file. A later run can therefore get a stale catalog or the wrong font's characters back. The model takes the catalogs and character maps as given.
- The regular-expression family filter is a predicate field of `Inputs`. With no pattern, this predicate is true for every name. Python's `re.search` itself is not modelled.
- Command-line flags (`absl`), `main` and the exit status are not modelled.
- The text of the printed lines is not modelled. That includes the `:.1f` rounding of the cost and the joining of the characters into a string. The model keeps what a line holds, as a `ReportLine` value.
- Python floats are not modelled. Costs are exact rationals, so the model does not capture floating-point rounding.
- Dictionary iteration order is not modelled: the loops pick the next family and language nondeterministically. `GroupedUnique` shows the result is the same for every order.
- Expansion.BuildReport: Python sorts the key's tuple of characters as a sequence. The model sorts the set of those characters. The two differ only for a tuple with repeated characters, and the matcher never builds one (`Run` shows the printed characters equal the key's tuple).
- The program computes no popularity or value score and no value-over-cost ranking. It orders the report by key and prints only the cost, and so does the model.
- `max_missing` is any integer (`DEFINE_integer`, main.py:20), and so it is in the model. A threshold of 0 or less gives no opportunities (`NoOpportunitiesWithoutThreshold`).
