/** The preview line of the letter list. */
module LetterList {
  import opened Text

  const DEFAULT_PREVIEW_LENGTH: int := 50

  /**
   * `getPreviewContent`: content of at most `maxLength` UTF-16 code units is
   * shown unchanged; longer content is cut to its longest prefix within
   * `maxLength` code units (none when the limit is negative) and followed by "...".
   */
  function GetPreviewContent(content: string, maxLength: int := DEFAULT_PREVIEW_LENGTH): (r: string)
    ensures JsLength(content) <= maxLength ==> r == content
    ensures JsLength(content) > maxLength ==>
      |r| >= 3 && r[|r| - 3..] == "..." &&
      var cut := r[..|r| - 3];
      |cut| <= |content| && cut == content[..|cut|] &&
      JsLength(cut) <= (if maxLength < 0 then 0 else maxLength) &&
      (maxLength >= 0 ==> |cut| < |content|) &&
      (|cut| < |content| ==> JsLength(cut) + CodeUnits(content[|cut|]) > maxLength)
  {
    if JsLength(content) <= maxLength then content
    else
      var cut := JsPrefix(content, maxLength);
      PrefixOfLonger(content, maxLength);
      Ellipsis(cut);
      cut + "..."
  }

  /** Content longer than a non-negative limit is cut short of its end. */
  lemma PrefixOfLonger(content: string, maxLength: int)
    requires JsLength(content) > maxLength
    ensures maxLength >= 0 ==> |JsPrefix(content, maxLength)| < |content|
  {
    var cut := JsPrefix(content, maxLength);
    if |cut| == |content| {
      assert cut == content;
    }
  }

  /** Appending "..." adds three characters and three code units, and cuts back off. */
  lemma Ellipsis(cut: string)
    ensures |cut + "..."| == |cut| + 3
    ensures (cut + "...")[|cut|..] == "..." && (cut + "...")[..|cut|] == cut
    ensures JsLength(cut + "...") == JsLength(cut) + 3
  {
    JsLengthAppend(cut, "...");
    assert "..."[1..] == ".." && ".."[1..] == "." && "."[1..] == [];
  }

  /** A preview is at most three code units longer than the limit and begins with a prefix of the content. */
  lemma PreviewBounds(content: string, maxLength: nat)
    ensures JsLength(GetPreviewContent(content, maxLength)) <= maxLength + 3
    ensures var r := GetPreviewContent(content, maxLength);
      exists n :: 0 <= n <= |content| && n <= |r| && r[..n] == content[..n]
        && (n == |content| || JsLength(content[..n]) + CodeUnits(content[n]) > maxLength)
  {
    var r := GetPreviewContent(content, maxLength);
    if JsLength(content) <= maxLength {
      assert r[..|content|] == content[..|content|];
    } else {
      var cut := JsPrefix(content, maxLength);
      Ellipsis(cut);
      PrefixOfLonger(content, maxLength);
      assert r == cut + "...";
      assert r[..|cut|] == content[..|cut|];
    }
  }
}
