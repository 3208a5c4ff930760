/**
 * The catalogue of stickers the user can choose from (`Stickers`): an ordered
 * list of stickers, appended to and removed from in place, and the sticker
 * currently selected.
 */
module Catalogue {
  import opened Wrappers
  import StickerTypes

  /** The `ValueError` of `list.remove` when the sticker is not in the list. */
  datatype CatalogueError = NotInList

  /** The names of a list of stickers, in list order. */
  function Names(stickers: seq<StickerTypes.StickerType>): (names: seq<string>)
    ensures |names| == |stickers|
    ensures forall i :: 0 <= i < |stickers| ==> names[i] == stickers[i].name
  {
    if stickers == [] then [] else [stickers[0].name] + Names(stickers[1..])
  }

  /** The names of a list with a sticker appended are the old names followed by its name. */
  lemma NamesAppend(stickers: seq<StickerTypes.StickerType>, s: StickerTypes.StickerType)
    ensures Names(stickers + [s]) == Names(stickers) + [s.name]
  {
  }

  /** The position of the first occurrence of `s`, or the length of the list when it does not occur. */
  function IndexOf(stickers: seq<StickerTypes.StickerType>, s: StickerTypes.StickerType): (i: nat)
    ensures i <= |stickers|
    ensures i < |stickers| <==> s in stickers
    ensures i < |stickers| ==> stickers[i] == s
    ensures forall j :: 0 <= j < i ==> stickers[j] != s
  {
    if stickers == [] then 0
    else if stickers[0] == s then 0
    else 1 + IndexOf(stickers[1..], s)
  }

  /** `list.remove`: the list without the first occurrence of `s`. */
  function RemoveFirst(stickers: seq<StickerTypes.StickerType>, s: StickerTypes.StickerType): seq<StickerTypes.StickerType>
    requires s in stickers
  {
    var i := IndexOf(stickers, s);
    stickers[..i] + stickers[i + 1..]
  }

  /** Removing takes out exactly one occurrence: one element fewer, one `s` fewer, nothing else changed. */
  lemma RemoveFirstCounts(stickers: seq<StickerTypes.StickerType>, s: StickerTypes.StickerType)
    requires s in stickers
    ensures |RemoveFirst(stickers, s)| == |stickers| - 1
    ensures multiset(RemoveFirst(stickers, s)) == multiset(stickers) - multiset{s}
  {
    var i := IndexOf(stickers, s);
    var before, after := stickers[..i], stickers[i + 1..];
    assert stickers == before + [s] + after;
    assert RemoveFirst(stickers, s) == before + after;
    assert multiset(stickers) == multiset(before) + multiset{s} + multiset(after);
  }

  /**
   * The occurrence removed is the first: the elements before it keep their
   * places, the ones after it move up by one.
   */
  lemma RemoveFirstPositions(stickers: seq<StickerTypes.StickerType>, s: StickerTypes.StickerType)
    requires s in stickers
    ensures forall j :: 0 <= j < IndexOf(stickers, s) ==> RemoveFirst(stickers, s)[j] == stickers[j]
    ensures forall j :: IndexOf(stickers, s) <= j < |stickers| - 1 ==> RemoveFirst(stickers, s)[j] == stickers[j + 1]
  {
  }

  /** Adding a sticker that is not yet in the list and then removing it gives the list back. */
  lemma RemoveUndoesAdd(stickers: seq<StickerTypes.StickerType>, s: StickerTypes.StickerType)
    requires s !in stickers
    ensures s in stickers + [s]
    ensures RemoveFirst(stickers + [s], s) == stickers
  {
    assert (stickers + [s])[..|stickers|] == stickers;
  }

  /** The list of stickers and the sticker selected in it. */
  class Stickers {
    var stickersList: seq<StickerTypes.StickerType>
    var selectedSticker: StickerTypes.StickerType?

    /** The catalogue starts with the given stickers, or with none, and nothing selected. */
    constructor (stickers: Option<seq<StickerTypes.StickerType>> := None)
      ensures stickers.None? ==> stickersList == []
      ensures stickers.Some? ==> stickersList == stickers.value
      ensures selectedSticker == null
    {
      if stickers.None? {
        stickersList := [];
      } else {
        stickersList := stickers.value;
      }
      selectedSticker := null;
    }

    /** `get_stickers_values`: the names of the stickers, in list order. */
    function GetStickersValues(): (names: seq<string>)
      reads this
      ensures |names| == |stickersList|
      ensures forall i :: 0 <= i < |stickersList| ==> names[i] == stickersList[i].name
    {
      Names(stickersList)
    }

    /** `add_sticker`: the sticker goes at the end of the list. */
    method AddSticker(sticker: StickerTypes.StickerType)
      modifies this
      ensures stickersList == old(stickersList) + [sticker]
      ensures selectedSticker == old(selectedSticker)
      ensures GetStickersValues() == old(GetStickersValues()) + [sticker.name]
    {
      NamesAppend(stickersList, sticker);
      stickersList := stickersList + [sticker];
    }

    /**
     * `remove_sticker`: the first occurrence of the sticker is taken out of
     * the list; a sticker that is not in the list is an error and changes
     * nothing.
     */
    method RemoveSticker(sticker: StickerTypes.StickerType) returns (r: Outcome<CatalogueError>)
      modifies this
      ensures r.Pass? <==> sticker in old(stickersList)
      ensures r.Pass? ==> stickersList == RemoveFirst(old(stickersList), sticker)
      ensures r.Fail? ==> r.error == NotInList && stickersList == old(stickersList)
      ensures selectedSticker == old(selectedSticker)
    {
      if sticker !in stickersList {
        return Fail(NotInList);
      }
      stickersList := RemoveFirst(stickersList, sticker);
      return Pass;
    }
  }
}
