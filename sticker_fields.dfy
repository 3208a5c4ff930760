/**
 * The data of one sticker field (`StickerData` and its four kinds): the value,
 * the optional inline and block decorations and the three fonts, the prefix
 * and suffix fonts falling back to the value's font.
 */
module StickerFields {
  import opened Wrappers

  /**
   * The kind of a field, standing for the subclasses `StickerDataNumber`,
   * `StickerDataText`, `StickerDataDate` and `StickerDataList`; a list field
   * carries its allowed values.
   */
  datatype Kind = NumberKind | TextKind | DateKind | ListKind(values: seq<string>)

  /** The font a field uses when its constructor is given none. */
  const DefaultFont := "normal"

  /** A snapshot of the attributes of a field that the layout reads. */
  datatype Field = Field(
    name: string,
    value: Option<string>,
    inlinePrefix: Option<string>,
    inlineSuffix: Option<string>,
    blockPrefix: Option<string>,
    blockSuffix: Option<string>,
    font: string,
    prefixFont: string,
    suffixFont: string)

  /** Python's `given or font`: the given font unless it is `None` or the empty string. */
  function FontOr(given: Option<string>, font: string): (r: string)
    ensures given.None? || given.value == "" ==> r == font
    ensures given.Some? && given.value != "" ==> r == given.value
  {
    match given
    case Some(g) => if g != "" then g else font
    case None => font
  }

  /** One field of a sticker; only `value` is written after construction. */
  class StickerData {
    const kind: Kind
    const name: string
    var value: Option<string>
    const inlinePrefix: Option<string>
    const inlineSuffix: Option<string>
    const blockPrefix: Option<string>
    const blockSuffix: Option<string>
    const font: string
    const prefixFont: string
    const suffixFont: string

    /** The constructor shared by the four kinds, with the defaults of `StickerData.__init__`. */
    constructor (kind: Kind, name: string,
                 value: Option<string> := None,
                 inlinePrefix: Option<string> := None,
                 inlineSuffix: Option<string> := None,
                 blockPrefix: Option<string> := None,
                 blockSuffix: Option<string> := None,
                 font: string := DefaultFont,
                 prefixFont: Option<string> := None,
                 suffixFont: Option<string> := None)
      ensures this.kind == kind && this.name == name && this.value == value
      ensures this.inlinePrefix == inlinePrefix && this.inlineSuffix == inlineSuffix
      ensures this.blockPrefix == blockPrefix && this.blockSuffix == blockSuffix
      ensures this.font == font
      ensures (prefixFont.None? || prefixFont.value == "") ==> this.prefixFont == font
      ensures (prefixFont.Some? && prefixFont.value != "") ==> this.prefixFont == prefixFont.value
      ensures (suffixFont.None? || suffixFont.value == "") ==> this.suffixFont == font
      ensures (suffixFont.Some? && suffixFont.value != "") ==> this.suffixFont == suffixFont.value
    {
      this.kind := kind;
      this.name := name;
      this.value := value;
      this.inlinePrefix := inlinePrefix;
      this.inlineSuffix := inlineSuffix;
      this.blockPrefix := blockPrefix;
      this.blockSuffix := blockSuffix;
      this.font := font;
      this.prefixFont := FontOr(prefixFont, font);
      this.suffixFont := FontOr(suffixFont, font);
    }

    /** The field's current attributes. */
    function View(): Field
      reads this
    {
      Field(name, value, inlinePrefix, inlineSuffix, blockPrefix, blockSuffix, font, prefixFont, suffixFont)
    }
  }

  /** The current attributes of a list of fields, in order. */
  function Views(ds: seq<StickerData>): (fs: seq<Field>)
    reads set d | d in ds
    ensures |fs| == |ds|
    ensures forall i :: 0 <= i < |ds| ==> fs[i] == ds[i].View()
  {
    if ds == [] then [] else [ds[0].View()] + Views(ds[1..])
  }
}
