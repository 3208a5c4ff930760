/**
 * The fonts table of the sticker generator and its real-size cache
 * (`__generate_fonts_real_sizes`): the line height of each of the four fonts
 * is computed once, from the font library's measurements, the first time a
 * generator is made, and every later call sees the cache filled and changes
 * nothing.
 */
module FontSizes {
  import opened Wrappers

  /** The names of the fonts of the table, in the order the table lists them. */
  const FontNames: seq<string> := ["normal", "bold", "big", "big_bold"]

  /** The font whose entry tells whether the cache has been filled. */
  const GuardFont := "normal"

  /** The sample text whose bounding box gives the height of a font. */
  const SampleText := "AjQlafTB"

  /** The padding added below every font's height. */
  const SizePadding := 5

  /**
   * The font library's measurements: `sampleBottom(font)` is the bottom of the
   * bounding box of `SampleText` drawn in `font`, `descent(font)` the font's
   * descent.
   */
  datatype FontMetrics = FontMetrics(sampleBottom: string -> int, descent: string -> int)

  /** The line height recorded for a font. */
  function RealSizeOf(fm: FontMetrics, font: string): int
  {
    fm.sampleBottom(font) - fm.descent(font) + SizePadding
  }

  /** The names of the table as a set. */
  function FontKeys(): set<string>
  {
    set k | k in FontNames
  }

  /** An entry for every font, none of them computed yet. */
  function EmptyCache(): map<string, Option<int>>
  {
    map k | k in FontNames :: None
  }

  /** An entry for every font, each holding the height computed from `fm`. */
  function FilledCache(fm: FontMetrics): map<string, Option<int>>
  {
    map k | k in FontNames :: Some(RealSizeOf(fm, k))
  }

  /** The table a call leaves: filled when the guard font has no height yet, else unchanged. */
  function Generated(cache: map<string, Option<int>>, fm: FontMetrics): map<string, Option<int>>
    requires GuardFont in cache
  {
    if cache[GuardFont].None? then FilledCache(fm) else cache
  }

  /**
   * The state the table is always in: an entry for each of the four fonts,
   * and when the guard font has its height every font has one.
   */
  predicate Consistent(cache: map<string, Option<int>>)
  {
    cache.Keys == FontKeys() &&
    (cache[GuardFont].Some? ==> forall k :: k in cache ==> cache[k].Some?)
  }

  /** A call keeps the table consistent and leaves every font with a height. */
  lemma GeneratedIsComplete(cache: map<string, Option<int>>, fm: FontMetrics)
    requires Consistent(cache)
    ensures Consistent(Generated(cache, fm))
    ensures forall k :: k in FontNames ==> k in Generated(cache, fm) && Generated(cache, fm)[k].Some?
  {
  }

  /**
   * Only the first call computes anything: a second call, whatever the
   * measurements it would use, leaves the table as the first one left it.
   */
  lemma SecondCallChangesNothing(cache: map<string, Option<int>>, fm: FontMetrics, later: FontMetrics)
    requires Consistent(cache)
    ensures GuardFont in Generated(cache, fm)
    ensures Generated(Generated(cache, fm), later) == Generated(cache, fm)
  {
    assert GuardFont in FontNames;
  }

  /** The first call records, for every font, the sample's bottom less the descent plus the padding. */
  lemma FirstCallMeasures(cache: map<string, Option<int>>, fm: FontMetrics, font: string)
    requires Consistent(cache) && cache[GuardFont].None? && font in FontNames
    ensures Generated(cache, fm)[font] == Some(fm.sampleBottom(font) - fm.descent(font) + 5)
  {
  }

  /** The class-level `fonts` table, reduced to the `real_size` entry of each font. */
  class FontTable {
    var realSize: map<string, Option<int>>

    predicate Valid()
      reads this
    {
      Consistent(realSize)
    }

    /** The table as the class defines it: no height computed. */
    constructor ()
      ensures Valid()
      ensures realSize == EmptyCache()
    {
      realSize := EmptyCache();
    }

    /** `__generate_fonts_real_sizes`. */
    method GenerateRealSizes(fm: FontMetrics)
      requires Valid()
      modifies this
      ensures Valid()
      ensures realSize == Generated(old(realSize), fm)
    {
      if realSize[GuardFont].None? {
        var i := 0;
        while i < |FontNames|
          invariant 0 <= i <= |FontNames|
          invariant realSize.Keys == FontKeys()
          invariant forall j :: 0 <= j < i ==> realSize[FontNames[j]] == Some(RealSizeOf(fm, FontNames[j]))
        {
          var key := FontNames[i];
          realSize := realSize[key := Some(RealSizeOf(fm, key))];
          i := i + 1;
        }
        assert forall k :: k in realSize ==> exists j :: 0 <= j < |FontNames| && FontNames[j] == k;
      }
    }
  }
}
