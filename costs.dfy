/**
 * Costs: the effort heuristic of the glyph expansion report.
 *
 * The cost of filling one opportunity is the per-glyph authoring cost of the
 * missing characters times a multiplier for how complicated the family is to
 * rebuild. Python computes both in floating point; here they are exact
 * rationals, so 0.9, 0.1 and 1.5 mean exactly what they say.
 */
module Costs {

  /**
   * A font family from the catalog: its name, how many font files it ships,
   * how many variation axes it has and the file whose character map stands for
   * the whole family. The two counts are lengths of lists in the family's
   * metadata, hence natural numbers.
   */
  datatype Family = Family(name: string, numFonts: nat, numAxes: nat, exemplarFontFile: string)

  /** `2 ** k` on natural numbers. */
  function Pow2(k: nat): (r: nat)
    ensures r >= 1
  {
    if k == 0 then 1 else 2 * Pow2(k - 1)
  }

  lemma {:induction false} Pow2Monotone(j: nat, k: nat)
    requires j <= k
    ensures Pow2(j) <= Pow2(k)
    decreases k
  {
    if j < k {
      Pow2Monotone(j, k - 1);
    }
  }

  /** The cost of drawing `numGlyphs` new glyphs: a fixed 0.9 plus 0.1 per glyph. */
  function GlyphCost(numGlyphs: nat): (c: real)
    ensures c >= 0.9
  {
    0.9 + 0.1 * numGlyphs as real
  }

  /** Every additional glyph costs the same 0.1 more, so the cost strictly grows. */
  lemma GlyphCostIncreasing(m: nat, n: nat)
    requires m < n
    ensures GlyphCost(m) < GlyphCost(n)
    ensures GlyphCost(n) - GlyphCost(m) == 0.1 * (n - m) as real
  {
  }

  /**
   * How much harder a family is to update than a single static font. A
   * variable family costs `1 + 2 ** (axes - 1)`, half as much again when it
   * ships more than one font file; a static family costs 0.9 plus 0.1 per font.
   */
  function CostMultiplier(f: Family): (m: real)
    ensures m >= 0.9
    ensures f.numAxes > 0 ==> m >= 2.0
  {
    if f.numAxes > 0 then
      var multiplier := (1 + Pow2(f.numAxes - 1)) as real;
      if f.numFonts > 1 then multiplier * 1.5 else multiplier
    else
      0.9 + 0.1 * f.numFonts as real
  }

  /** The multiplier of a variable family, once the fixed 1 is taken off, doubles with each added axis. */
  lemma CostMultiplierAxisDoubling(f: Family)
    requires f.numAxes > 0
    ensures var scale := if f.numFonts > 1 then 1.5 else 1.0;
      CostMultiplier(f.(numAxes := f.numAxes + 1)) - scale
        == 2.0 * (CostMultiplier(f) - scale)
  {
  }

  /** Among variable families with the same number of fonts, more axes never cost less. */
  lemma CostMultiplierAxesMonotone(f: Family, g: Family)
    requires 0 < f.numAxes <= g.numAxes
    requires f.numFonts == g.numFonts
    ensures CostMultiplier(f) <= CostMultiplier(g)
  {
    Pow2Monotone(f.numAxes - 1, g.numAxes - 1);
  }

  /**
   * Monotonicity in axes stops at the step from static to variable: a static
   * family of 30 fonts costs 0.9 + 3.0 = 3.9, while the same family with one
   * axis costs 1 + 2 ** 0 = 2, times 1.5, which is 3.
   */
  lemma CostMultiplierFirstAxisCanCostLess(f: Family)
    requires f.numAxes == 0 && f.numFonts == 30
    ensures CostMultiplier(f) == 3.9
    ensures CostMultiplier(f.(numAxes := 1)) == 3.0
    ensures CostMultiplier(f.(numAxes := 1)) < CostMultiplier(f)
  {
  }

  /** With the same number of axes, more fonts never cost less. */
  lemma CostMultiplierFontsMonotone(f: Family, g: Family)
    requires f.numAxes == g.numAxes
    requires f.numFonts <= g.numFonts
    ensures CostMultiplier(f) <= CostMultiplier(g)
  {
  }

  /** Three axes and two fonts: `(1 + 2 ** 2) * 1.5`. */
  lemma CostMultiplierThreeAxesTwoFonts(f: Family)
    requires f.numAxes == 3 && f.numFonts == 2
    ensures CostMultiplier(f) == 7.5
  {
  }

  /** The cost reported for an opportunity missing `numMissing` characters of family `f`. */
  function OpportunityCost(f: Family, numMissing: nat): (c: real)
    ensures c > 0.0
  {
    GlyphCost(numMissing) * CostMultiplier(f)
  }

  /** For a given family, an opportunity missing more characters costs strictly more. */
  lemma OpportunityCostIncreasing(f: Family, m: nat, n: nat)
    requires m < n
    ensures OpportunityCost(f, m) < OpportunityCost(f, n)
  {
    GlyphCostIncreasing(m, n);
    var k := CostMultiplier(f);
    var d := GlyphCost(n) - GlyphCost(m);
    assert GlyphCost(n) == GlyphCost(m) + d;
    assert OpportunityCost(f, n) == OpportunityCost(f, m) + d * k;
    assert d * k > 0.0;
  }
}
