# Sticker sheet engine, modelled in Dafny

This project models the core of a desktop tool that prints labels ("stickers")
for a shop. A sticker type is a named, ordered list of fields (number, text,
date or a choice from a list). Each field has a value, optional inline and
block decorations, and fonts. The engine does four things, and each is
modelled here:

- **Validation** (`StickerTypes`, with `Dates`). It checks every field against
  its kind's rule. Date fields are rewritten in place to `dd/mm/yyyy` after
  `convert_date` tries the formats `%d/%m/%Y`, `%d-%m-%Y` and `%d.%m.%Y` in
  that order.
- **Layout of the sticker image** (`Layout`). Each field is drawn as three
  lines: block prefix; inline prefix + value + inline suffix; block suffix.
  Each line is measured and rejected when strictly wider than `301 - 84 = 217`.
  Each line starts at x = 84, or is centred. An x cursor runs along the main
  line and a y cursor runs down the image.
- **Pagination** (`Pagination`). The 8×3 slot grid of an A4 sheet is filled
  with the image. The fill starts on the first sheet after the slots already
  used and continues on fresh sheets.
- **Containers** (`StickerFields`, `StickerTypes.StickerType`,
  `Catalogue.Stickers`, `FontSizes.FontTable`). These cover the field records
  with their font defaulting, the sticker catalogue list and the fonts'
  real-size cache.

The font library's measurements enter as functions:

- `Layout.Metrics`: the width of a text in a font, and the line height
  recorded for a font.
- `FontSizes.FontMetrics`: the bottom of the sample text's box, and the
  descent.

The model computes everything around them exactly. Centred x offsets are
`real` numbers, because the source halves integers with `/`.

Files:

- `wrappers.dfy`: Option, Result and Outcome.
- `sticker_fields.dfy`: `StickerData` and its kinds.
- `dates.dfy`: `convert_date`.
- `sticker_types.dfy`: `int()`, the validation rules and `StickerType`.
- `layout.dfy`: `create_sticker` and its helpers.
- `font_sizes.dfy`: the real-size cache.
- `pagination.dfy`: the grid fill of `generate_pdf`.
- `catalogue.dfy`: `Stickers`.

Where the code and its evident intent disagree, the model follows the
code:

- **Main-line height.** It is computed with an `if`/`elif`, not as the largest
  of the three fonts. A prefix font larger than the value font wins even when
  the suffix font is larger still.
- **Where the fill starts.** The first sheet fills slots `25 - stickers_left`
  upward. A full sheet therefore starts at slot 1, which is in the second row
  of the table. The top row (slots 19-21) is reached only after 18 stickers.
- **Error text of a too-long main line.** It is `inlinesuffix + value +
  inlinesuffix`, as written.

## Model

| member | source | states |
|---|---|---|
| Pagination.FirstSheetFree | sticker/sticker_generation.py:74-77 | `None`, 0 or more than 24 free slots means a full sheet of 24; 1..5 is the "Not enough stickers left" error; 6..24 is kept |
| Pagination.TemplateNumbering | sticker/sticker_generation.py:94-103 | the literal table is 8 rows of 3 and equals the formula: row 0 holds 19-21, rows 1-6 hold 1..18 row by row, row 7 holds 22-24 |
| Pagination.SlotNumberingIsBijective | sticker/sticker_generation.py:94-103 | every cell carries one slot of 1..24 and every slot sits in exactly one cell |
| Pagination.PlaceNextSlot | sticker/sticker_generation.py:109-112 | one pass of the inner loop puts the image in the cell of slot `i` and leaves the other cells as they were |
| Pagination.PlaceImage | sticker/sticker_generation.py:111 | the cell carrying slot number `n` becomes the image; every other cell is kept |
| Pagination.BlankUnused | sticker/sticker_generation.py:114 | every cell that is not the image becomes `""` |
| Pagination.FinishSheet | sticker/sticker_generation.py:109-114 | after the inner loop and the blanking pass, the sheet holds the image exactly in the slots of the fill range and `""` elsewhere |
| Pagination.FillSheet | sticker/sticker_generation.py:106-114 | one pass of the outer loop yields the finished sheet filled from slot `25 - left` and leaves `total - min(total, left)` stickers to place |
| Pagination.GeneratePdf | sticker/sticker_generation.py:71-119 | the loop's list of tables (or its exception) equals `Paginate`: the defaulting, then one finished sheet per iteration, with `stickers_left` reset to 24 after the first |
| Pagination.Sheets | sticker/sticker_generation.py:105-119 | the sheets the loop produces: none once the total is used up, otherwise a sheet filled from slot `25 - free` followed by the sheets for the remaining total with 24 free slots |
| Pagination.Paginate | sticker/sticker_generation.py:71-119 | `generate_pdf`'s tables: the defaulted free slots (or the "Not enough stickers left" error) and the total defaulting to 24, then `Sheets` |
| Pagination.ImagesOnFilledSheet | sticker/sticker_generation.py:105-114 | a finished sheet starting at slot `s` holds `min(count, 25 - s)` images |
| Pagination.SheetsPlaceEverySticker | sticker/sticker_generation.py:105-119 | the images summed over all sheets equal the requested total |
| Pagination.SheetCount | sticker/sticker_generation.py:105-119 | no sheet for a total ≤ 0; one sheet when the total fits the first sheet; otherwise `1 + ceil((total - free) / 24)` |
| Pagination.FirstSheetSlots | sticker/sticker_generation.py:105-114 | the first sheet holds the image in slot `k` iff `25 - free ≤ k < 25 - free + min(total, free)`, and every other cell is `""` |
| Pagination.LaterSheets | sticker/sticker_generation.py:105-119 | every sheet after the first is filled from slot 1 with what is left of the total |
| Pagination.SheetsHoldOnlyImagesAndBlanks | sticker/sticker_generation.py:114 | no slot number survives: every cell of every sheet is the image or `""` |
| StickerFields.FontOr | sticker/sticker_data.py:36-37 | `given or font`: the given font unless it is `None` or `""`, in which case the font |
| StickerFields.StickerData.constructor | sticker/sticker_data.py:8-37 | name, value, decorations and font are stored as given (defaults `None` and `'normal'`); the prefix and suffix fonts fall back to the font when not given or empty |
| StickerFields.Views | sticker/sticker_data.py:29-37 | one snapshot per field, in order, holding that field's current attributes |
| Dates.LeadingDigits | sticker/sticker_type.py:69 | the run of digits that starts a string ends at its first non-digit |
| Dates.SplitNumber | sticker/sticker_type.py:69 | a `%d` or `%m` directive: one or two digits, then the separator |
| Dates.ParseDate | sticker/sticker_type.py:69 | `strptime` with one format accepts only real calendar dates of years 1 to 9999 |
| Dates.Padded | sticker/sticker_type.py:70 | zero-padded rendering to a fixed number of digits |
| Dates.FormatDate | sticker/sticker_type.py:70 | `strftime('%d/%m/%Y')`: two-digit day, '/', two-digit month, '/', four-digit year |
| Dates.TryFormats | sticker/sticker_type.py:67-73 | the loop over the formats from the `k`-th on: the first that parses the string gives its rewritten date; none left is the error |
| Dates.ConvertDate | sticker/sticker_type.py:67-73 | the first of the three formats that parses the string decides the result, which is the date rewritten as `dd/mm/yyyy`; no match is the "no valid date format found" error |
| Dates.PaddedValue | sticker/sticker_type.py:70 | a padded rendering reads back as the number it renders |
| Dates.ParseDateAccepts | sticker/sticker_type.py:69 | every day, separator, month, separator, four-digit year that names a real date parses as that date |
| Dates.ParseDateShape | sticker/sticker_type.py:67-69 | the converse of ParseDateAccepts: a string a format parses is one or two day digits, the separator, one or two month digits, the separator and exactly four year digits, read as the date those digits name |
| Dates.ParsedLayout | sticker/sticker_type.py:67-69 | a parsed string is 8 to 10 characters long and its first separator is its second or third character |
| Dates.TwoDigitYearRejected | sticker/sticker_type.py:67-73 | "1/1/24", with a two-digit year, matches no format and is the error |
| Dates.YearFirstRejected | sticker/sticker_type.py:67-73 | "2024-01-15", year first, matches no format and is the error |
| Dates.FormatRoundTrip | sticker/sticker_type.py:67-70 | the output, parsed with the first format, gives back the date |
| Dates.ReadDate | sticker/sticker_type.py:67-70 | a successful conversion is the rendering of a real date |
| Dates.ConvertDateShape | sticker/sticker_type.py:70 | the output is two digits, '/', two digits, '/', four digits |
| Dates.ConvertDateIdempotent | sticker/sticker_type.py:67-70 | converting a converted date gives it back unchanged |
| Dates.OneFormatAtMost | sticker/sticker_type.py:67-72 | no string matches two of the formats |
| Dates.ConvertDateExample | sticker/sticker_type.py:67-70 | "1-2-2024" becomes "01/02/2024" |
| Dates.ExampleRead | sticker/sticker_type.py:67-70 | "1-2-2024" fails the first format and parses with the second as 1 February 2024 |
| Dates.ExampleWritten | sticker/sticker_type.py:70 | 1 February 2024 is written "01/02/2024" |
| Dates.ParsedCharsAreDigitsOrSep | sticker/sticker_type.py:67-69 | a string that a format parses holds only digits and that format's separator |
| Dates.MixedSeparatorsAlwaysRejected | sticker/sticker_type.py:67-73 | every string holding two different ones of '/', '-', '.' matches no format and is the error |
| Dates.MixedSeparatorsRejected | sticker/sticker_type.py:67-73 | an example of the general rule: "1/2-2024" matches no format |
| Dates.NoLeapDayRejected | sticker/sticker_type.py:67-73 | "29/02/2023" matches no format |
| Dates.ThirtyFirstAprilRejected | sticker/sticker_type.py:67-73 | "31/04/2024" matches no format |
| Dates.ZeroDayRejected | sticker/sticker_type.py:67-73 | "00/05/2024" matches no format |
| Dates.NonexistentDay | sticker/sticker_type.py:67-73 | any `dd/mm/yyyy` whose day is 00 or does not exist in its month is the error |
| StickerTypes.StripLeft | sticker/sticker_type.py:43 | `int()` drops leading whitespace: the result is a suffix of the input starting with a non-space, and every character dropped is ASCII whitespace as `int()` counts it (space, tab, line feed, vertical tab, form feed, carriage return) |
| StickerTypes.StripRight | sticker/sticker_type.py:43 | `int()` drops trailing whitespace: the result is a prefix of the input ending with a non-space, and every character dropped is ASCII whitespace as `int()` counts it (space, tab, line feed, vertical tab, form feed, carriage return) |
| StickerTypes.UnpaddedIntLiteral | sticker/sticker_type.py:42-45 | for a string with no surrounding whitespace, `int()` accepts exactly an optional sign followed by digit groups |
| StickerTypes.IsIntLiteral | sticker/sticker_type.py:42-45 | `int(value)` does not raise: after stripping space, tab, line feed, vertical tab, form feed and carriage return, an optional sign directly followed by underscore-separated groups of decimal digits |
| StickerTypes.DecimalIsIntLiteral | sticker/sticker_type.py:42-45 | the decimal rendering of every integer is accepted by `int()` |
| StickerTypes.BlankIsNotIntLiteral | sticker/sticker_type.py:42-45 | a string of whitespace only is refused by `int()` |
| StickerTypes.MalformedNumbersRejected | sticker/sticker_type.py:42-45 | "1__0", "10_", "4.5", "- 1" and "42" preceded by the file separator character 28 (which `int()` does not strip) are refused |
| StickerTypes.WellFormedNumbersAccepted | sticker/sticker_type.py:42-45 | " 42\n" and "-1_000" are accepted |
| StickerTypes.Validated | sticker/sticker_type.py:46-53 | the value an accepted field holds after validation is accepted again; a date becomes its converted form; any other kind is unchanged |
| StickerTypes.Accepts | sticker/sticker_type.py:36-56 | a field passes its kind's check: a non-empty value, and beyond that an `int()` literal for a number, a convertible date for a date, a member of the choices for a list |
| StickerTypes.ValidatedIsStable | sticker/sticker_type.py:46-53 | validating a second time rewrites nothing |
| StickerTypes.FirstRejected | sticker/sticker_type.py:35-57 | the position where the loop stops: every field before it is accepted and the field at it is not |
| StickerTypes.StickerType.constructor | sticker/sticker_type.py:11-21 | name, data and align are stored unchanged, align defaulting to "left" |
| StickerTypes.StickerType.ValidateField | sticker/sticker_type.py:36-56 | one pass: true iff the field's rule accepts its value (not `None`, not `""`, and parsing as an integer, converting as a date, or being one of the allowed values); only an accepted date is rewritten |
| StickerTypes.StickerType.IsValid | sticker/sticker_type.py:30-57 | true iff every field is accepted; the fields before the first rejected one hold their validated values, that field and the rest are untouched |
| FontSizes.EmptyCache | sticker/sticker_generation.py:19-36 | definition: the class-level table, one entry per font and no height; `FontTable.constructor` starts from it |
| FontSizes.FilledCache | sticker/sticker_generation.py:208-212 | definition: every font's height is the sample's bottom less the descent plus 5; `FirstCallMeasures` and `GeneratedIsComplete` state what a call leaves |
| FontSizes.GeneratedIsComplete | sticker/sticker_generation.py:202-212 | after a call every font has a height, and the table stays consistent |
| FontSizes.Generated | sticker/sticker_generation.py:208-212 | the table after a call: every font measured when the guard font has no height yet, otherwise unchanged |
| FontSizes.SecondCallChangesNothing | sticker/sticker_generation.py:208 | the guard makes every later call leave the table as the first call left it, whatever it would measure |
| FontSizes.FirstCallMeasures | sticker/sticker_generation.py:208-212 | the first call gives every font `bottom - descent + 5` |
| FontSizes.FontTable.constructor | sticker/sticker_generation.py:19-36 | the class-level table, with no height computed |
| FontSizes.FontTable.GenerateRealSizes | sticker/sticker_generation.py:202-212 | the loop fills every entry when the "normal" entry is empty, and otherwise changes nothing |
| Layout.Underscored | sticker/sticker_generation.py:222 | spaces are measured as underscores; nothing else changes |
| Layout.TextWidth | sticker/sticker_generation.py:215-222 | the width of a text is the font's mask width of the text with spaces measured as underscores |
| Layout.PartNamed | sticker/sticker_generation.py:234-235 | only the five known element names stand for an attribute of the field |
| Layout.PartNamesDistinct | sticker/sticker_generation.py:234-253 | each element name selects its own attribute |
| Layout.ElementSize | sticker/sticker_generation.py:233-252 | an element contributes its text's width in its own font (prefix font for both prefixes, suffix font for both suffixes, value font for the value), 0 for an empty text; unknown name and `None` text are errors |
| Layout.LineSize | sticker/sticker_generation.py:225-253 | the sum of the elements' sizes in list order, failing at the first element that cannot be measured |
| Layout.GetLineSize | sticker/sticker_generation.py:225-253 | the loop computes the line size of the list |
| Layout.LineSizeSucceedsIff | sticker/sticker_generation.py:225-253 | the measurement succeeds iff every element is known and present |
| Layout.LineSizeAppend | sticker/sticker_generation.py:225-253 | the size of a line is the sum of the sizes of its pieces |
| Layout.LineSizeError | sticker/sticker_generation.py:233-252 | the first unknown or absent element decides the error |
| Layout.LineSizeOfNames | sticker/sticker_generation.py:338-340 | measuring by name is measuring the attributes the names stand for |
| Layout.LineSizesOfField | sticker/sticker_generation.py:338-340 | the prefix, main and suffix lines measure as their closed forms, or fail at their first absent text |
| Layout.LinesMeasuredByName | sticker/sticker_generation.py:338-340 | the three calls with literal element lists agree with those closed forms |
| Layout.LinesSizes | sticker/sticker_generation.py:330-349 | on success all five texts are present, the sizes are the three line widths, and each is at most the width |
| Layout.ElementTooBig | sticker/sticker_generation.py:256-265 | a line is too big exactly when its size is strictly greater than the maximum |
| Layout.LinesSizesOutcome | sticker/sticker_generation.py:342-349 | success iff no line is strictly wider than the width (217 fits); otherwise the first line too wide, in the order prefix, main, suffix, is reported with its text |
| Layout.LinesSizesNeedAllTexts | sticker/sticker_generation.py:338-340 | an absent text fails before any width is compared |
| Layout.LinesOffsets | sticker/sticker_generation.py:352-371 | fails exactly as the sizes do; 84 for all lines unless centred; when centred, `2 * (offset - 84) + size = width` for each line |
| Layout.CentredLinesStayRight | sticker/sticker_generation.py:366-369 | a centred line never starts left of x = 84 |
| Layout.MainLineHeight | sticker/sticker_generation.py:182-186 | the value font's size, raised to the prefix font's when that is larger, otherwise to the suffix font's when that is larger |
| Layout.FieldHeight | sticker/sticker_generation.py:165-194 | how far the y cursor moves for a field: the prefix font's height when there is a block prefix, the main line's height, the suffix font's height when there is a block suffix, and the gap |
| Layout.MainLineHeightCovers | sticker/sticker_generation.py:182-186 | when the prefix font is no taller than the value font, the main line is at least as tall as the suffix font |
| Layout.PlaceField | sticker/sticker_generation.py:159-194 | a field is drawn iff its lines fit and its value is not empty; otherwise the error of the sizes, or the empty value |
| Layout.MainLineContiguous | sticker/sticker_generation.py:169-180 | the value starts where the inline prefix ends, the inline suffix where the value ends, and the main line spans its measured size |
| Layout.LeftAlignedAtMargin | sticker/sticker_generation.py:362-366 | a sticker that is not centred starts every line at x = 84 |
| Layout.CentredIsSymmetric | sticker/sticker_generation.py:366-371 | a centred line leaves as much room on its right as on its left |
| Layout.FieldStacksDown | sticker/sticker_generation.py:157-194 | the block prefix is at the field's top, the main line below it by the prefix font's height, the block suffix below the main line by its height; the next field starts 10 further down |
| Layout.StackSucceedsIff | sticker/sticker_generation.py:159-194 | the fields are drawn iff each can be, when that does not depend on where it is drawn |
| Layout.StackPlacesField | sticker/sticker_generation.py:157-194 | the k-th placement is the k-th field drawn at the height of the fields before it |
| Layout.ComposeSucceedsIff | sticker/sticker_generation.py:159-194 | the sticker is drawn iff every field can be placed |
| Layout.Compose | sticker/sticker_generation.py:157-194 | the field loop: each field placed in order, each at the y cursor left by the fields before it, stopping at the first error |
| Layout.ComposePlacesField | sticker/sticker_generation.py:157-194 | the k-th placement is the k-th field drawn with its top at the heights of the fields before it |
| Layout.ComposePlacesEachField | sticker/sticker_generation.py:157-194 | one placement per field, the k-th with its top at the sum of the heights of the fields before it |
| Layout.DrawField | sticker/sticker_generation.py:161-194 | one pass of the loop draws the field as `PlaceField` says and moves the y cursor by the field's height |
| Layout.DrawFields | sticker/sticker_generation.py:157-194 | the loop's drawing equals `Compose` from y = 0 |
| Layout.CreateSticker | sticker/sticker_generation.py:148-194 | the sticker's fields drawn in order with the sticker's alignment |
| Catalogue.Names | sticker/stickers.py:16-21 | the names, in list order, one per sticker |
| Catalogue.NamesAppend | sticker/stickers.py:16-29 | appending a sticker appends its name |
| Catalogue.IndexOf | sticker/stickers.py:31-37 | the first occurrence of the sticker, or the length when it is absent |
| Catalogue.RemoveFirstCounts | sticker/stickers.py:31-37 | removal takes out one element, and exactly one copy of the sticker |
| Catalogue.RemoveFirst | sticker/stickers.py:37 | `list.remove`: the list without the first occurrence of the sticker |
| Catalogue.RemoveFirstPositions | sticker/stickers.py:31-37 | the elements before the first occurrence keep their places; the ones after it move up by one |
| Catalogue.RemoveUndoesAdd | sticker/stickers.py:23-37 | adding a new sticker and then removing it gives the list back |
| Catalogue.Stickers.constructor | sticker/stickers.py:5-14 | the list is empty or the one given, and nothing is selected |
| Catalogue.Stickers.GetStickersValues | sticker/stickers.py:16-21 | the names of the stickers, in list order |
| Catalogue.Stickers.AddSticker | sticker/stickers.py:23-29 | the sticker is appended; the earlier ones and the selection are unchanged |
| Catalogue.Stickers.RemoveSticker | sticker/stickers.py:31-37 | the first occurrence is removed; an absent sticker is the error and changes nothing |

## Left out

- Drawing and files: opening and saving the image, `draw.text`, building the PDF with reportlab, and the font files. `create_sticker` and `generate_pdf` return what they would draw (`Placement` values, tables of `Cell`s) rather than an image path or a file.
- The text width and the fonts' heights: these are the font library's bounding-box computations. They are the functions of `Layout.Metrics` and `FontSizes.FontMetrics`.
  - `Layout.Metrics.realSize` stands for the table that `GenerateRealSizes` fills. The model does not connect the two.
  - An unknown font name, a `KeyError`, is not modelled: every font name has a size.
- The PDF wait loop: the timeout, `time.sleep`, deleting the image and the progress callbacks are timing and I/O.
- `print(e)` in `is_valid`: console output.
- `Pagination.GeneratePdf` requires `stickers_left ≥ 0`, as the form that calls it checks. A negative value is not modelled: the source would start the fill past slot 24, emit one blank sheet first, and then fill later sheets from slot 1 as usual.
- `Layout.PlaceField`: an empty value cannot be measured, because its bounding box does not exist. The model reports this as an `EmptyValue` error instead of a crash. Validation never lets an empty value through.
- `StickerTypes.StickerType.IsValid` requires the field objects of a sticker to be distinct. Two slots sharing one field object (aliasing) are not modelled.
- `StickerTypes.IsIntLiteral`: `int()` with non-ASCII digits or non-ASCII whitespace is not modelled, and neither is the limit of 4300 digits that recent Python versions impose by default (`sys.get_int_max_str_digits`); the model accepts a valid literal of any length, where such a Python would reject a Number field with more than 4300 digits.
- `Dates.ParseDate`: `strptime`'s corner cases are not modelled. These are space-padded days, spellings other than one or two day/month digits followed by four year digits, and non-ASCII decimal digits (`strptime` matches `\d` as any Unicode digit, so "01/02/２０２４" parses there; the model reads ASCII digits only).
- `Dates.FormatDate`: a year below 1000 is padded to four digits; the platform's `strftime` may not pad it.
- `Catalogue.Stickers.constructor`: the list passed in is copied as a value. The model does not capture that the catalogue and the caller share one list object.
- `StickerType.__str__` and `StickerType.generate`: a name accessor and a call into the generator. `create_sticker` and `generate_pdf` are modelled directly.
