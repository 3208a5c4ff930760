/**
 * The layout of one sticker image (`create_sticker` and its helpers): each
 * field becomes a block-prefix line, a main line (inline prefix, value,
 * inline suffix) and a block-suffix line, each measured against the drawable
 * width, placed at the left margin or centred, and stacked top to bottom.
 *
 * Text measurement (`get_text_width`) and the fonts' real sizes are PIL
 * computations; they enter the model as the functions of a `Metrics` value.
 */
module Layout {
  import opened Wrappers
  import opened StickerFields
  import StickerTypes

  /** The x coordinate where the drawable area of the image starts. */
  const LeftMargin := 84

  /** The x coordinate where the drawable area of the image ends. */
  const RightEdge := 301

  /** The width `create_sticker` passes to the layout helpers. */
  const DrawableWidth := RightEdge - LeftMargin

  /** The vertical space added after every field. */
  const FieldGap := 10

  /** The alignment that centres the lines; any other alignment puts them at the left margin. */
  const Center := "center"

  /**
   * The font measurements: `maskWidth(text, font)` is the right edge of the
   * bounding box of `text` drawn in `font`, and `realSize(font)` is the line
   * height recorded for `font` in the fonts table.
   */
  datatype Metrics = Metrics(maskWidth: (string, string) -> nat, realSize: string -> int)

  datatype LayoutError =
    | UnknownElement(element: string)   // "Unknown element: ..."
    | MissingText(element: string)      // `len(None)` on an absent decoration or value
    | EmptyValue                        // the bounding box of an empty value does not exist
    | LineTooLong(name: string, text: string)

  /** One `draw.text` call: the text, its font and the point it is drawn at. */
  datatype Draw = Draw(text: string, font: string, x: real, y: int)

  /** What is drawn for one field: the main value always, each decoration when it is not empty. */
  datatype Placement = Placement(
    blockPrefix: Option<Draw>,
    inlinePrefix: Option<Draw>,
    value: Draw,
    inlineSuffix: Option<Draw>,
    blockSuffix: Option<Draw>)

  // ---------------------------------------------------------------------------
  // Measuring text
  // ---------------------------------------------------------------------------

  /** `text.replace(" ", "_")`. */
  function Underscored(text: string): (r: string)
    ensures |r| == |text|
    ensures forall i :: 0 <= i < |text| ==> r[i] == (if text[i] == ' ' then '_' else text[i])
  {
    if text == [] then []
    else [if text[0] == ' ' then '_' else text[0]] + Underscored(text[1..])
  }

  /** `get_text_width`: spaces are measured as underscores, so they have a width. */
  function TextWidth(m: Metrics, text: string, font: string): nat
    requires text != ""
  {
    m.maskWidth(Underscored(text), font)
  }

  /** Python truthiness of an optional string: present and not empty. */
  predicate Truthy(t: Option<string>)
  {
    t.Some? && t.value != ""
  }

  /** The width a decoration adds to its line: nothing when it is absent or empty. */
  function Width(m: Metrics, t: Option<string>, font: string): nat
  {
    if Truthy(t) then TextWidth(m, t.value, font) else 0
  }

  // ---------------------------------------------------------------------------
  // Line sizes
  // ---------------------------------------------------------------------------

  const BlockPrefix := "blockprefix"
  const BlockSuffix := "blocksuffix"
  const InlinePrefix := "inlineprefix"
  const InlineSuffix := "inlinesuffix"
  const ValueElement := "value"

  /** The attributes of a field a line can be made of. */
  datatype Part = BlockPrefixPart | BlockSuffixPart | InlinePrefixPart | InlineSuffixPart | ValuePart

  /** The parts of the three lines of a field. */
  const PrefixParts := [BlockPrefixPart]
  const MainParts := [InlinePrefixPart, ValuePart, InlineSuffixPart]
  const SuffixParts := [BlockSuffixPart]

  /** The name by which `get_line_size` is asked for a part. */
  function PartName(p: Part): string
  {
    match p
    case BlockPrefixPart => BlockPrefix
    case BlockSuffixPart => BlockSuffix
    case InlinePrefixPart => InlinePrefix
    case InlineSuffixPart => InlineSuffix
    case ValuePart => ValueElement
  }

  /** The part an element name stands for, or nothing for a name outside the five known ones. */
  function PartNamed(e: string): (r: Option<Part>)
    ensures r.Some? ==> PartName(r.value) == e
  {
    if e == BlockPrefix then Some(BlockPrefixPart)
    else if e == BlockSuffix then Some(BlockSuffixPart)
    else if e == InlinePrefix then Some(InlinePrefixPart)
    else if e == InlineSuffix then Some(InlineSuffixPart)
    else if e == ValueElement then Some(ValuePart)
    else None
  }

  /** Every part is found again under its name: the five names are distinct. */
  lemma PartNamesDistinct(p: Part)
    ensures PartNamed(PartName(p)) == Some(p)
  {
    assert BlockPrefix[5] == 'p' && BlockSuffix[5] == 's';
    assert InlinePrefix[6] == 'p' && InlineSuffix[6] == 's';
  }

  predicate IsElement(e: string)
  {
    PartNamed(e).Some?
  }

  /** The attribute of the field a part stands for. */
  function PartText(f: Field, p: Part): Option<string>
  {
    match p
    case BlockPrefixPart => f.blockPrefix
    case BlockSuffixPart => f.blockSuffix
    case InlinePrefixPart => f.inlinePrefix
    case InlineSuffixPart => f.inlineSuffix
    case ValuePart => f.value
  }

  /** The font a part is measured in: prefixes in the prefix font, suffixes in the suffix font. */
  function PartFont(f: Field, p: Part): string
  {
    match p
    case BlockPrefixPart => f.prefixFont
    case InlinePrefixPart => f.prefixFont
    case BlockSuffixPart => f.suffixFont
    case InlineSuffixPart => f.suffixFont
    case ValuePart => f.font
  }

  /** An element the line measurement accepts: a known name whose attribute is not `None`. */
  predicate Measurable(f: Field, e: string)
  {
    PartNamed(e).Some? && PartText(f, PartNamed(e).value).Some?
  }

  /** The contribution of one element to its line, or the error measuring it raises. */
  function ElementSize(m: Metrics, f: Field, e: string): (r: Result<nat, LayoutError>)
    ensures r.Success? <==> Measurable(f, e)
    ensures r.Success? ==> r.value == Width(m, PartText(f, PartNamed(e).value), PartFont(f, PartNamed(e).value))
  {
    match PartNamed(e)
    case None => Failure(UnknownElement(e))
    case Some(part) =>
      match PartText(f, part)
      case None => Failure(MissingText(e))
      case Some(t) => Success(if |t| > 0 then TextWidth(m, t, PartFont(f, part)) else 0)
  }

  /**
   * `get_line_size`: the sum of the widths of the listed elements, or the
   * error of the first element that is unknown or absent.
   */
  function LineSize(m: Metrics, f: Field, elements: seq<string>): Result<nat, LayoutError>
  {
    if elements == [] then Success(0)
    else
      var first :- ElementSize(m, f, elements[0]);
      var rest :- LineSize(m, f, elements[1..]);
      Success(first + rest)
  }

  /** The names of a list of parts, as `get_lines_sizes` passes them. */
  function PartNames(parts: seq<Part>): (names: seq<string>)
    ensures |names| == |parts|
    ensures forall i :: 0 <= i < |parts| ==> names[i] == PartName(parts[i])
  {
    seq(|parts|, i requires 0 <= i < |parts| => PartName(parts[i]))
  }

  /** `get_line_size` on the names of known parts: the name lookup always succeeds. */
  function PartsSize(m: Metrics, f: Field, parts: seq<Part>): Result<nat, LayoutError>
  {
    if parts == [] then Success(0)
    else
      var first :- match PartText(f, parts[0])
        case None => Failure(MissingText(PartName(parts[0])))
        case Some(t) => Success(if |t| > 0 then TextWidth(m, t, PartFont(f, parts[0])) else 0);
      var rest :- PartsSize(m, f, parts[1..]);
      Success(first + rest)
  }

  /** Measuring the names of parts is measuring the parts themselves. */
  lemma {:induction false} LineSizeOfNames(m: Metrics, f: Field, parts: seq<Part>)
    ensures LineSize(m, f, PartNames(parts)) == PartsSize(m, f, parts)
  {
    if parts != [] {
      PartNamesDistinct(parts[0]);
      assert PartNames(parts)[1..] == PartNames(parts[1..]);
      LineSizeOfNames(m, f, parts[1..]);
    }
  }

  /** `r` with `n` added to its value when it is a success. */
  function Plus(n: nat, r: Result<nat, LayoutError>): Result<nat, LayoutError>
  {
    if r.Success? then Success(n + r.value) else r
  }

  /** Measuring from the i-th element on is measuring that element, then the ones after it. */
  lemma LineSizeStep(m: Metrics, f: Field, elements: seq<string>, i: nat)
    requires i < |elements|
    ensures ElementSize(m, f, elements[i]).Failure? ==>
      LineSize(m, f, elements[i..]) == Failure(ElementSize(m, f, elements[i]).error)
    ensures ElementSize(m, f, elements[i]).Success? ==>
      LineSize(m, f, elements[i..]) == Plus(ElementSize(m, f, elements[i]).value, LineSize(m, f, elements[i + 1..]))
  {
    assert elements[i..][0] == elements[i] && elements[i..][1..] == elements[i + 1..];
  }

  /** `get_line_size`, computed by its loop. */
  method GetLineSize(m: Metrics, f: Field, elements: seq<string>) returns (r: Result<nat, LayoutError>)
    ensures r == LineSize(m, f, elements)
  {
    var totalSize: nat := 0;
    var i := 0;
    assert elements[0..] == elements;
    while i < |elements|
      invariant 0 <= i <= |elements|
      invariant LineSize(m, f, elements) == Plus(totalSize, LineSize(m, f, elements[i..]))
    {
      var size := ElementSize(m, f, elements[i]);
      LineSizeStep(m, f, elements, i);
      if size.Failure? {
        return Failure(size.error);
      }
      totalSize := totalSize + size.value;
      i := i + 1;
    }
    assert elements[i..] == [];
    return Success(totalSize);
  }

  /** The measurement succeeds exactly when every listed element is known and present. */
  lemma {:induction false} LineSizeSucceedsIff(m: Metrics, f: Field, elements: seq<string>)
    ensures LineSize(m, f, elements).Success? <==> forall i :: 0 <= i < |elements| ==> Measurable(f, elements[i])
  {
    if elements != [] {
      LineSizeSucceedsIff(m, f, elements[1..]);
      assert forall i :: 1 <= i < |elements| ==> elements[1..][i - 1] == elements[i];
    }
  }

  /** A line's size is the sum of the sizes of its parts, in either order of measurement. */
  lemma {:induction false} LineSizeAppend(m: Metrics, f: Field, a: seq<string>, b: seq<string>)
    requires LineSize(m, f, a).Success? && LineSize(m, f, b).Success?
    ensures LineSize(m, f, a + b) == Success(LineSize(m, f, a).value + LineSize(m, f, b).value)
  {
    if a != [] {
      assert (a + b)[0] == a[0] && (a + b)[1..] == a[1..] + b;
      var first := ElementSize(m, f, a[0]);
      assert LineSize(m, f, a) == Plus(first.value, LineSize(m, f, a[1..]));
      LineSizeAppend(m, f, a[1..], b);
    } else {
      assert a + b == b;
    }
  }

  /** The first element that is unknown or absent decides the error of the measurement. */
  lemma {:induction false} LineSizeError(m: Metrics, f: Field, elements: seq<string>, k: nat)
    requires k < |elements| && !Measurable(f, elements[k])
    requires forall i :: 0 <= i < k ==> Measurable(f, elements[i])
    ensures LineSize(m, f, elements) ==
      Failure(if IsElement(elements[k]) then MissingText(elements[k]) else UnknownElement(elements[k]))
  {
    if k > 0 {
      assert Measurable(f, elements[0]);
      LineSizeError(m, f, elements[1..], k - 1);
    }
  }

  /** The width of the block-prefix line. */
  function PrefixWidth(m: Metrics, f: Field): nat
  {
    Width(m, f.blockPrefix, f.prefixFont)
  }

  /** The width of the main line: inline prefix, value and inline suffix side by side. */
  function MainWidth(m: Metrics, f: Field): nat
  {
    Width(m, f.inlinePrefix, f.prefixFont) + Width(m, f.value, f.font) + Width(m, f.inlineSuffix, f.suffixFont)
  }

  /** The width of the block-suffix line. */
  function SuffixWidth(m: Metrics, f: Field): nat
  {
    Width(m, f.blockSuffix, f.suffixFont)
  }

  /** The three lines measure as their closed forms, or fail on their first absent part. */
  lemma LineSizesOfField(m: Metrics, f: Field)
    ensures PartsSize(m, f, PrefixParts) ==
      if f.blockPrefix.None? then Failure(MissingText(BlockPrefix)) else Success(PrefixWidth(m, f))
    ensures PartsSize(m, f, SuffixParts) ==
      if f.blockSuffix.None? then Failure(MissingText(BlockSuffix)) else Success(SuffixWidth(m, f))
    ensures PartsSize(m, f, MainParts) ==
      if f.inlinePrefix.None? then Failure(MissingText(InlinePrefix))
      else if f.value.None? then Failure(MissingText(ValueElement))
      else if f.inlineSuffix.None? then Failure(MissingText(InlineSuffix))
      else Success(MainWidth(m, f))
  {
    assert PrefixParts[1..] == [] && SuffixParts[1..] == [];
    var e := MainParts;
    assert e[1..] == [ValuePart, InlineSuffixPart] && e[1..][1..] == [InlineSuffixPart] && e[1..][1..][1..] == [];
    var last := PartsSize(m, f, [InlineSuffixPart]);
    assert last == if f.inlineSuffix.None? then Failure(MissingText(InlineSuffix))
      else Success(Width(m, f.inlineSuffix, f.suffixFont));
    var middle := PartsSize(m, f, [ValuePart, InlineSuffixPart]);
    assert middle == if f.value.None? then Failure(MissingText(ValueElement))
      else if f.inlineSuffix.None? then Failure(MissingText(InlineSuffix))
      else Success(Width(m, f.value, f.font) + Width(m, f.inlineSuffix, f.suffixFont));
  }

  /**
   * The three measurements of `get_lines_sizes`, made by name, agree with the
   * measurements of the parts those names stand for.
   */
  lemma LinesMeasuredByName(m: Metrics, f: Field)
    ensures LineSize(m, f, [BlockPrefix]) == PartsSize(m, f, PrefixParts)
    ensures LineSize(m, f, [InlinePrefix, ValueElement, InlineSuffix]) == PartsSize(m, f, MainParts)
    ensures LineSize(m, f, [BlockSuffix]) == PartsSize(m, f, SuffixParts)
  {
    assert PartNames(PrefixParts) == [BlockPrefix];
    assert PartNames(MainParts) == [InlinePrefix, ValueElement, InlineSuffix];
    assert PartNames(SuffixParts) == [BlockSuffix];
    LineSizeOfNames(m, f, PrefixParts);
    LineSizeOfNames(m, f, MainParts);
    LineSizeOfNames(m, f, SuffixParts);
  }

  /** `element_to_big`: a line is too wide only when it is strictly wider than the maximum. */
  predicate ElementTooBig(size: int, maxSize: int)
  {
    size > maxSize
  }

  /** All five texts of the field are present, as measuring its three lines demands. */
  predicate Complete(f: Field)
  {
    f.blockPrefix.Some? && f.inlinePrefix.Some? && f.value.Some? && f.inlineSuffix.Some? && f.blockSuffix.Some?
  }

  /**
   * `get_lines_sizes`: the sizes of the prefix, main and suffix lines, each
   * at most `width`; the lines are checked in that order and the first that
   * is too wide is reported with the field's name and its text.
   */
  function LinesSizes(m: Metrics, f: Field, width: int): (r: Result<(nat, nat, nat), LayoutError>)
    ensures r.Success? ==> Complete(f)
    ensures r.Success? ==> r.value == (PrefixWidth(m, f), MainWidth(m, f), SuffixWidth(m, f))
    ensures r.Success? ==> r.value.0 <= width && r.value.1 <= width && r.value.2 <= width
  {
    LineSizesOfField(m, f);
    var prefixLineSize :- PartsSize(m, f, PrefixParts);
    var mainLineSize :- PartsSize(m, f, MainParts);
    var suffixLineSize :- PartsSize(m, f, SuffixParts);
    if ElementTooBig(prefixLineSize, width) then
      Failure(LineTooLong(f.name, f.blockPrefix.value))
    else if ElementTooBig(mainLineSize, width) then
      Failure(LineTooLong(f.name, f.inlineSuffix.value + f.value.value + f.inlineSuffix.value))
    else if ElementTooBig(suffixLineSize, width) then
      Failure(LineTooLong(f.name, f.blockSuffix.value))
    else
      Success((prefixLineSize, mainLineSize, suffixLineSize))
  }

  /**
   * For a field with all its texts, the sizes succeed exactly when no line is
   * strictly wider than `width` (a line exactly `width` wide fits), and
   * otherwise the first line too wide, in the order prefix, main, suffix, is
   * reported.
   */
  lemma LinesSizesOutcome(m: Metrics, f: Field, width: int)
    requires Complete(f)
    ensures LinesSizes(m, f, width).Success? <==>
      PrefixWidth(m, f) <= width && MainWidth(m, f) <= width && SuffixWidth(m, f) <= width
    ensures PrefixWidth(m, f) > width ==>
      LinesSizes(m, f, width) == Failure(LineTooLong(f.name, f.blockPrefix.value))
    ensures PrefixWidth(m, f) <= width && MainWidth(m, f) > width ==>
      LinesSizes(m, f, width) ==
        Failure(LineTooLong(f.name, f.inlineSuffix.value + f.value.value + f.inlineSuffix.value))
    ensures PrefixWidth(m, f) <= width && MainWidth(m, f) <= width && SuffixWidth(m, f) > width ==>
      LinesSizes(m, f, width) == Failure(LineTooLong(f.name, f.blockSuffix.value))
  {
    LineSizesOfField(m, f);
  }

  /** An absent text fails the measurement before any width is compared. */
  lemma LinesSizesNeedAllTexts(m: Metrics, f: Field, width: int)
    requires !Complete(f)
    ensures LinesSizes(m, f, width).Failure? && LinesSizes(m, f, width).error.MissingText?
  {
    LineSizesOfField(m, f);
  }

  /**
   * `get_lines_offsets`: the x where each of the three lines starts; the left
   * margin, or for a centred sticker the margin plus half the room the line
   * leaves.
   */
  function LinesOffsets(m: Metrics, align: string, f: Field, width: int): (r: Result<(real, real, real), LayoutError>)
    ensures r.Success? <==> LinesSizes(m, f, width).Success?
    ensures r.Failure? ==> r.error == LinesSizes(m, f, width).error
    ensures r.Success? && align != Center ==> r.value == (LeftMargin as real, LeftMargin as real, LeftMargin as real)
    ensures r.Success? && align == Center ==>
      var (prefixSize, mainSize, suffixSize) := LinesSizes(m, f, width).value;
      2.0 * (r.value.0 - LeftMargin as real) + prefixSize as real == width as real &&
      2.0 * (r.value.1 - LeftMargin as real) + mainSize as real == width as real &&
      2.0 * (r.value.2 - LeftMargin as real) + suffixSize as real == width as real
  {
    var (prefixLineSize, mainLineSize, suffixLineSize) :- LinesSizes(m, f, width);
    var margin := LeftMargin as real;
    if align == Center then
      Success((margin + (width - prefixLineSize) as real / 2.0,
               margin + (width - mainLineSize) as real / 2.0,
               margin + (width - suffixLineSize) as real / 2.0))
    else
      Success((margin, margin, margin))
  }

  /** A centred line never starts left of the margin, since no line is wider than the width. */
  lemma CentredLinesStayRight(m: Metrics, f: Field, width: int)
    requires LinesOffsets(m, Center, f, width).Success?
    ensures var (p, q, s) := LinesOffsets(m, Center, f, width).value;
      p >= LeftMargin as real && q >= LeftMargin as real && s >= LeftMargin as real
  {
  }

  // ---------------------------------------------------------------------------
  // Placing a field
  // ---------------------------------------------------------------------------

  /**
   * The height of the main line: the value font's size, raised to the prefix
   * font's size when that is larger, and otherwise to the suffix font's size
   * when that is larger.
   */
  function MainLineHeight(m: Metrics, f: Field): (h: int)
    ensures h >= m.realSize(f.font) && h >= m.realSize(f.prefixFont)
    ensures m.realSize(f.prefixFont) > m.realSize(f.font) ==> h == m.realSize(f.prefixFont)
    ensures m.realSize(f.prefixFont) <= m.realSize(f.font) ==>
      h == if m.realSize(f.suffixFont) > m.realSize(f.font) then m.realSize(f.suffixFont) else m.realSize(f.font)
  {
    var biggestFont := m.realSize(f.font);
    if m.realSize(f.prefixFont) > biggestFont then m.realSize(f.prefixFont)
    else if m.realSize(f.suffixFont) > biggestFont then m.realSize(f.suffixFont)
    else biggestFont
  }

  /** When the prefix font is no taller than the value font, the main line is at least as tall as the suffix font. */
  lemma MainLineHeightCovers(m: Metrics, f: Field)
    requires m.realSize(f.prefixFont) <= m.realSize(f.font)
    ensures MainLineHeight(m, f) >= m.realSize(f.suffixFont)
  {
  }

  /** The vertical space a field takes: its block lines when present, the main line and the gap. */
  function FieldHeight(m: Metrics, f: Field): int
  {
    (if Truthy(f.blockPrefix) then m.realSize(f.prefixFont) else 0)
    + MainLineHeight(m, f)
    + (if Truthy(f.blockSuffix) then m.realSize(f.suffixFont) else 0)
    + FieldGap
  }

  /** A field the loop of `create_sticker` gets through: its lines fit and its value is not empty. */
  predicate Placeable(m: Metrics, align: string, f: Field)
  {
    LinesOffsets(m, align, f, DrawableWidth).Success? && f.value.value != ""
  }

  /**
   * The drawing of one field whose top is at `y`: the block prefix at the
   * prefix offset, then the main line from the main offset, each part
   * starting where the previous one ends, then the block suffix under the
   * main line.
   */
  function PlaceField(m: Metrics, align: string, f: Field, y: int): (r: Result<Placement, LayoutError>)
    ensures r.Success? <==> Placeable(m, align, f)
    ensures r.Failure? && LinesOffsets(m, align, f, DrawableWidth).Failure? ==>
      r.error == LinesSizes(m, f, DrawableWidth).error
    ensures r.Failure? && LinesOffsets(m, align, f, DrawableWidth).Success? ==> r.error == EmptyValue
  {
    var (prefixOffset, mainOffset, suffixOffset) :- LinesOffsets(m, align, f, DrawableWidth);
    if f.value.value == "" then Failure(EmptyValue)
    else
      var mainY := y + (if Truthy(f.blockPrefix) then m.realSize(f.prefixFont) else 0);
      var valueX := mainOffset + Width(m, f.inlinePrefix, f.prefixFont) as real;
      var suffixX := valueX + TextWidth(m, f.value.value, f.font) as real;
      var suffixY := mainY + MainLineHeight(m, f);
      Success(Placement(
        if Truthy(f.blockPrefix) then Some(Draw(f.blockPrefix.value, f.prefixFont, prefixOffset, y)) else None,
        if Truthy(f.inlinePrefix) then Some(Draw(f.inlinePrefix.value, f.prefixFont, mainOffset, mainY)) else None,
        Draw(f.value.value, f.font, valueX, mainY),
        if Truthy(f.inlineSuffix) then Some(Draw(f.inlineSuffix.value, f.suffixFont, suffixX, mainY)) else None,
        if Truthy(f.blockSuffix) then Some(Draw(f.blockSuffix.value, f.suffixFont, suffixOffset, suffixY)) else None))
  }

  /** The x where the main line of a placement starts. */
  function MainStart(p: Placement): real
  {
    if p.inlinePrefix.Some? then p.inlinePrefix.value.x else p.value.x
  }

  /** The x where the main line of a placement ends. */
  function MainEnd(m: Metrics, p: Placement): real
    requires p.value.text != ""
    requires p.inlineSuffix.Some? ==> p.inlineSuffix.value.text != ""
  {
    if p.inlineSuffix.Some? then p.inlineSuffix.value.x + TextWidth(m, p.inlineSuffix.value.text, p.inlineSuffix.value.font) as real
    else p.value.x + TextWidth(m, p.value.text, p.value.font) as real
  }

  /**
   * The main line is drawn without gaps or overlaps: the value starts where
   * the inline prefix ends, the inline suffix where the value ends, and the
   * whole line spans exactly its measured size.
   */
  lemma MainLineContiguous(m: Metrics, align: string, f: Field, y: int)
    requires PlaceField(m, align, f, y).Success?
    ensures var p := PlaceField(m, align, f, y).value;
      var mainOffset := LinesOffsets(m, align, f, DrawableWidth).value.1;
      MainStart(p) == mainOffset &&
      (p.inlinePrefix.Some? ==> p.value.x == p.inlinePrefix.value.x + TextWidth(m, f.inlinePrefix.value, f.prefixFont) as real) &&
      (p.inlineSuffix.Some? ==> p.inlineSuffix.value.x == p.value.x + TextWidth(m, f.value.value, f.font) as real) &&
      MainEnd(m, p) - MainStart(p) == MainWidth(m, f) as real
  {
  }

  /** A sticker not aligned to the centre starts all three lines at the left margin. */
  lemma LeftAlignedAtMargin(m: Metrics, align: string, f: Field, y: int)
    requires align != Center && PlaceField(m, align, f, y).Success?
    ensures var p := PlaceField(m, align, f, y).value;
      MainStart(p) == LeftMargin as real &&
      (p.blockPrefix.Some? ==> p.blockPrefix.value.x == LeftMargin as real) &&
      (p.blockSuffix.Some? ==> p.blockSuffix.value.x == LeftMargin as real)
  {
  }

  /** A centred sticker leaves as much room right of each line as left of it. */
  lemma CentredIsSymmetric(m: Metrics, f: Field, y: int)
    requires PlaceField(m, Center, f, y).Success?
    ensures var p := PlaceField(m, Center, f, y).value;
      MainStart(p) - LeftMargin as real == RightEdge as real - MainEnd(m, p) &&
      (p.blockPrefix.Some? ==>
        p.blockPrefix.value.x - LeftMargin as real == RightEdge as real - (p.blockPrefix.value.x + PrefixWidth(m, f) as real)) &&
      (p.blockSuffix.Some? ==>
        p.blockSuffix.value.x - LeftMargin as real == RightEdge as real - (p.blockSuffix.value.x + SuffixWidth(m, f) as real))
  {
    MainLineContiguous(m, Center, f, y);
  }

  /**
   * The lines of a field are stacked: the block prefix at the field's top,
   * the main line one prefix-font height lower when there is a block prefix,
   * the block suffix one main-line height below the main line.
   */
  lemma FieldStacksDown(m: Metrics, align: string, f: Field, y: int)
    requires PlaceField(m, align, f, y).Success?
    ensures var p := PlaceField(m, align, f, y).value;
      (p.blockPrefix.Some? ==> p.blockPrefix.value.y == y) &&
      p.value.y == y + (if p.blockPrefix.Some? then m.realSize(f.prefixFont) else 0) &&
      (p.inlinePrefix.Some? ==> p.inlinePrefix.value.y == p.value.y) &&
      (p.inlineSuffix.Some? ==> p.inlineSuffix.value.y == p.value.y) &&
      (p.blockSuffix.Some? ==> p.blockSuffix.value.y == p.value.y + MainLineHeight(m, f)) &&
      y + FieldHeight(m, f) == p.value.y + MainLineHeight(m, f) +
        (if p.blockSuffix.Some? then m.realSize(f.suffixFont) else 0) + FieldGap
  {
  }

  // ---------------------------------------------------------------------------
  // The whole sticker
  // ---------------------------------------------------------------------------

  /**
   * Fields stacked down from `y`: each one placed by `place` with its top at
   * the current y, which then moves down by the field's `height`; the first
   * field that cannot be placed stops the stacking with its error.
   */
  function Stack(place: (Field, int) -> Result<Placement, LayoutError>, height: Field -> int,
                 fields: seq<Field>, y: int): Result<seq<Placement>, LayoutError>
  {
    if fields == [] then Success([])
    else
      var first :- place(fields[0], y);
      var rest :- Stack(place, height, fields[1..], y + height(fields[0]));
      Success([first] + rest)
  }

  /** The total height of a list of fields. */
  function Total(height: Field -> int, fields: seq<Field>): int
  {
    if fields == [] then 0 else height(fields[0]) + Total(height, fields[1..])
  }

  /** `PlaceField` as a function of the field and its top. */
  function PlaceAt(m: Metrics, align: string): (Field, int) -> Result<Placement, LayoutError>
  {
    (f: Field, y: int) => PlaceField(m, align, f, y)
  }

  /** `FieldHeight` as a function of the field. */
  function HeightOf(m: Metrics): Field -> int
  {
    (f: Field) => FieldHeight(m, f)
  }

  /** The placements of the fields of a sticker, in order, the first at `y`, each one below the previous one. */
  function Compose(m: Metrics, align: string, fields: seq<Field>, y: int): Result<seq<Placement>, LayoutError>
  {
    Stack(PlaceAt(m, align), HeightOf(m), fields, y)
  }

  /** The total height of a list of fields as the layout stacks them. */
  function Heights(m: Metrics, fields: seq<Field>): int
  {
    Total(HeightOf(m), fields)
  }

  /** When whether a field can be placed does not depend on where, the stacking succeeds exactly when each can be. */
  lemma {:induction false} StackSucceedsIff(place: (Field, int) -> Result<Placement, LayoutError>, height: Field -> int,
                                            ok: Field -> bool, fields: seq<Field>, y: int)
    requires forall f: Field, t: int :: place(f, t).Success? == ok(f)
    ensures Stack(place, height, fields, y).Success? <==> forall k :: 0 <= k < |fields| ==> ok(fields[k])
  {
    if fields != [] {
      StackSucceedsIff(place, height, ok, fields[1..], y + height(fields[0]));
      assert forall k :: 1 <= k < |fields| ==> fields[1..][k - 1] == fields[k];
    }
  }

  lemma {:induction false} StackLength(place: (Field, int) -> Result<Placement, LayoutError>, height: Field -> int,
                                       fields: seq<Field>, y: int)
    requires Stack(place, height, fields, y).Success?
    ensures |Stack(place, height, fields, y).value| == |fields|
  {
    if fields != [] {
      StackLength(place, height, fields[1..], y + height(fields[0]));
    }
  }

  lemma {:induction false} StackPlacesField(place: (Field, int) -> Result<Placement, LayoutError>, height: Field -> int,
                                            fields: seq<Field>, y: int, k: nat)
    requires Stack(place, height, fields, y).Success? && k < |fields|
    ensures |Stack(place, height, fields, y).value| == |fields|
    ensures place(fields[k], y + Total(height, fields[..k])) == Success(Stack(place, height, fields, y).value[k])
  {
    StackLength(place, height, fields, y);
    var y1 := y + height(fields[0]);
    var ps := Stack(place, height, fields, y).value;
    var rest := Stack(place, height, fields[1..], y1).value;
    assert ps == [place(fields[0], y).value] + rest;
    if k == 0 {
      assert fields[..0] == [];
    } else {
      StackPlacesField(place, height, fields[1..], y1, k - 1);
      assert fields[..k][1..] == fields[1..][..k - 1];
      assert fields[..k][0] == fields[0];
      assert fields[1..][k - 1] == fields[k];
      assert ps[k] == rest[k - 1];
    }
  }

  /** The sticker is drawn exactly when every one of its fields can be placed. */
  lemma ComposeSucceedsIff(m: Metrics, align: string, fields: seq<Field>, y: int)
    ensures Compose(m, align, fields, y).Success? <==>
      forall i :: 0 <= i < |fields| ==> Placeable(m, align, fields[i])
  {
    var ok := (f: Field) => Placeable(m, align, f);
    StackSucceedsIff(PlaceAt(m, align), HeightOf(m), ok, fields, y);
  }

  /**
   * One placement per field, the k-th drawn with its top at `y` plus the
   * heights of the fields before it.
   */
  lemma ComposePlacesEachField(m: Metrics, align: string, fields: seq<Field>, y: int)
    requires Compose(m, align, fields, y).Success?
    ensures |Compose(m, align, fields, y).value| == |fields|
    ensures forall k :: 0 <= k < |fields| ==>
      PlaceField(m, align, fields[k], y + Heights(m, fields[..k])) == Success(Compose(m, align, fields, y).value[k])
  {
    StackLength(PlaceAt(m, align), HeightOf(m), fields, y);
    forall k | 0 <= k < |fields|
      ensures PlaceField(m, align, fields[k], y + Heights(m, fields[..k])) == Success(Compose(m, align, fields, y).value[k])
    {
      ComposePlacesField(m, align, fields, y, k);
    }
  }

  lemma ComposePlacesField(m: Metrics, align: string, fields: seq<Field>, y: int, k: nat)
    requires Compose(m, align, fields, y).Success? && k < |fields|
    ensures |Compose(m, align, fields, y).value| == |fields|
    ensures PlaceField(m, align, fields[k], y + Heights(m, fields[..k])) == Success(Compose(m, align, fields, y).value[k])
  {
    var place, top := PlaceAt(m, align), y + Heights(m, fields[..k]);
    StackPlacesField(place, HeightOf(m), fields, y, k);
    assert place(fields[k], top) == PlaceField(m, align, fields[k], top);
  }

  /** `r` with `done` put in front of its placements when it is a success. */
  function After(done: seq<Placement>, r: Result<seq<Placement>, LayoutError>): Result<seq<Placement>, LayoutError>
  {
    if r.Success? then Success(done + r.value) else r
  }

  lemma AfterAfter(a: seq<Placement>, b: seq<Placement>, r: Result<seq<Placement>, LayoutError>)
    ensures After(a, After(b, r)) == After(a + b, r)
  {
    if r.Success? {
      assert a + (b + r.value) == (a + b) + r.value;
    }
  }

  /** A field that is placed puts its placement after the earlier ones and moves the rest below it. */
  lemma StackStep(place: (Field, int) -> Result<Placement, LayoutError>, height: Field -> int,
                  fields: seq<Field>, i: nat, y: int, placed: seq<Placement>, p: Placement)
    requires i < |fields|
    requires Stack(place, height, fields, 0) == After(placed, Stack(place, height, fields[i..], y))
    requires place(fields[i], y) == Success(p)
    ensures Stack(place, height, fields, 0) ==
      After(placed + [p], Stack(place, height, fields[i + 1..], y + height(fields[i])))
  {
    var tail := fields[i..];
    assert tail[0] == fields[i] && tail[1..] == fields[i + 1..];
    var rest := Stack(place, height, fields[i + 1..], y + height(fields[i]));
    assert Stack(place, height, tail, y) == After([p], rest);
    AfterAfter(placed, [p], rest);
  }

  /** A field that cannot be placed stops the stacking with its error. */
  lemma StackStop(place: (Field, int) -> Result<Placement, LayoutError>, height: Field -> int,
                  fields: seq<Field>, i: nat, y: int, placed: seq<Placement>)
    requires i < |fields|
    requires Stack(place, height, fields, 0) == After(placed, Stack(place, height, fields[i..], y))
    requires place(fields[i], y).Failure?
    ensures Stack(place, height, fields, 0) == Failure(place(fields[i], y).error)
  {
    assert fields[i..][0] == fields[i];
  }

  /** Nothing placed yet: the whole list is still to be stacked. */
  lemma StackStart(place: (Field, int) -> Result<Placement, LayoutError>, height: Field -> int, fields: seq<Field>)
    ensures Stack(place, height, fields, 0) == After([], Stack(place, height, fields[0..], 0))
  {
    assert fields[0..] == fields;
    var whole := Stack(place, height, fields, 0);
    if whole.Success? {
      assert [] + whole.value == whole.value;
    }
  }

  /** Every field placed: the stacking is complete. */
  lemma StackEnd(place: (Field, int) -> Result<Placement, LayoutError>, height: Field -> int,
                 fields: seq<Field>, y: int, placed: seq<Placement>)
    requires Stack(place, height, fields, 0) == After(placed, Stack(place, height, fields[|fields|..], y))
    ensures Stack(place, height, fields, 0) == Success(placed)
  {
    assert fields[|fields|..] == [];
    assert placed + [] == placed;
  }

  /** A field that is placed puts its placement after the earlier ones and moves the rest below it. */
  lemma ComposeStep(m: Metrics, align: string, fields: seq<Field>, i: nat, y: int,
                    placed: seq<Placement>, p: Placement)
    requires i < |fields|
    requires Compose(m, align, fields, 0) == After(placed, Compose(m, align, fields[i..], y))
    requires PlaceField(m, align, fields[i], y) == Success(p)
    ensures Compose(m, align, fields, 0) ==
      After(placed + [p], Compose(m, align, fields[i + 1..], y + FieldHeight(m, fields[i])))
  {
    var place, height := PlaceAt(m, align), HeightOf(m);
    assert place(fields[i], y) == Success(p) && height(fields[i]) == FieldHeight(m, fields[i]);
    StackStep(place, height, fields, i, y, placed, p);
  }

  /** A field that cannot be placed stops the drawing with its error. */
  lemma ComposeStop(m: Metrics, align: string, fields: seq<Field>, i: nat, y: int, placed: seq<Placement>)
    requires i < |fields|
    requires Compose(m, align, fields, 0) == After(placed, Compose(m, align, fields[i..], y))
    requires PlaceField(m, align, fields[i], y).Failure?
    ensures Compose(m, align, fields, 0) == Failure(PlaceField(m, align, fields[i], y).error)
  {
    var place := PlaceAt(m, align);
    assert place(fields[i], y) == PlaceField(m, align, fields[i], y);
    StackStop(place, HeightOf(m), fields, i, y, placed);
  }

  /**
   * One pass of the loop of `create_sticker`: the field is drawn with its top
   * at `top`, the x cursor running along its main line; `bottom` is where
   * the y cursor ends, which is the top of the next field.
   */
  method DrawField(m: Metrics, align: string, data: Field, top: int) returns (r: Result<Placement, LayoutError>, bottom: int)
    ensures r == PlaceField(m, align, data, top)
    ensures r.Success? ==> bottom == top + FieldHeight(m, data)
  {
    var width := RightEdge - LeftMargin;
    var textY := top;
    var offsets := LinesOffsets(m, align, data, width);
    if offsets.Failure? {
      return Failure(offsets.error), top;
    }
    var (prefixLineOffset, mainLineOffset, suffixLineOffset) := offsets.value;

    var blockPrefixDraw := None;
    if Truthy(data.blockPrefix) {
      blockPrefixDraw := Some(Draw(data.blockPrefix.value, data.prefixFont, prefixLineOffset, textY));
      textY := textY + m.realSize(data.prefixFont);
    }
    ghost var mainY := textY;
    assert mainY == top + (if Truthy(data.blockPrefix) then m.realSize(data.prefixFont) else 0);

    var inlinePrefixDraw := None;
    if Truthy(data.inlinePrefix) {
      inlinePrefixDraw := Some(Draw(data.inlinePrefix.value, data.prefixFont, mainLineOffset, textY));
      mainLineOffset := mainLineOffset + TextWidth(m, data.inlinePrefix.value, data.prefixFont) as real;
    }
    assert mainLineOffset == offsets.value.1 + Width(m, data.inlinePrefix, data.prefixFont) as real;

    if data.value.value == "" {
      return Failure(EmptyValue), top;
    }
    var valueDraw := Draw(data.value.value, data.font, mainLineOffset, textY);
    mainLineOffset := mainLineOffset + TextWidth(m, data.value.value, data.font) as real;

    var inlineSuffixDraw := None;
    if Truthy(data.inlineSuffix) {
      inlineSuffixDraw := Some(Draw(data.inlineSuffix.value, data.suffixFont, mainLineOffset, textY));
      mainLineOffset := mainLineOffset + TextWidth(m, data.inlineSuffix.value, data.suffixFont) as real;
    }

    var biggestFont := m.realSize(data.font);
    if m.realSize(data.prefixFont) > biggestFont {
      biggestFont := m.realSize(data.prefixFont);
    } else if m.realSize(data.suffixFont) > biggestFont {
      biggestFont := m.realSize(data.suffixFont);
    }
    assert biggestFont == MainLineHeight(m, data);
    textY := textY + biggestFont;

    var blockSuffixDraw := None;
    if Truthy(data.blockSuffix) {
      blockSuffixDraw := Some(Draw(data.blockSuffix.value, data.suffixFont, suffixLineOffset, textY));
      textY := textY + m.realSize(data.suffixFont);
    }

    textY := textY + FieldGap;
    var placement := Placement(blockPrefixDraw, inlinePrefixDraw, valueDraw, inlineSuffixDraw, blockSuffixDraw);
    return Success(placement), textY;
  }

  /**
   * The loop of `create_sticker` over the fields of a sticker: a y cursor
   * going down the image, the first field that cannot be placed stopping the
   * drawing with its error.
   */
  method DrawFields(m: Metrics, align: string, fields: seq<Field>) returns (r: Result<seq<Placement>, LayoutError>)
    ensures r == Compose(m, align, fields, 0)
  {
    var textY := 0;
    var placed: seq<Placement> := [];
    var i := 0;
    StackStart(PlaceAt(m, align), HeightOf(m), fields);
    while i < |fields|
      invariant 0 <= i <= |fields|
      invariant Compose(m, align, fields, 0) == After(placed, Compose(m, align, fields[i..], textY))
    {
      var placement, bottom := DrawField(m, align, fields[i], textY);
      if placement.Failure? {
        ComposeStop(m, align, fields, i, textY, placed);
        return Failure(placement.error);
      }
      ComposeStep(m, align, fields, i, textY, placed, placement.value);
      placed := placed + [placement.value];
      textY := bottom;
      i := i + 1;
    }
    StackEnd(PlaceAt(m, align), HeightOf(m), fields, textY, placed);
    return Success(placed);
  }

  /** `create_sticker`: the fields of the sticker drawn in order, aligned as the sticker says. */
  method CreateSticker(m: Metrics, sticker: StickerTypes.StickerType) returns (r: Result<seq<Placement>, LayoutError>)
    ensures r == Compose(m, sticker.align, Views(sticker.data), 0)
  {
    r := DrawFields(m, sticker.align, Views(sticker.data));
  }
}
