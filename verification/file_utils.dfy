/**
  The icon shown next to a file, chosen from its MIME type by a fixed list of
  rules tried in order: three prefix rules, then three substring rules, then a
  default.
 */
module FileUtils {

  const ImageGlyph: string := "\U{1F5BC}\U{FE0F}"  // framed picture
  const VideoGlyph: string := "\U{1F3A5}"          // movie camera
  const AudioGlyph: string := "\U{1F3B5}"          // musical note
  const DocumentGlyph: string := "\U{1F4C4}"       // page facing up
  const TextGlyph: string := "\U{1F4DD}"           // memo
  const ArchiveGlyph: string := "\U{1F4E6}"        // package

  /** `sub` occurs in `text` at some position. */
  ghost predicate Occurs(sub: string, text: string) {
    exists i :: 0 <= i <= |text| && sub <= text[i..]
  }

  /** `text.includes(sub)`. */
  function Includes(text: string, sub: string): (r: bool)
    ensures r <==> Occurs(sub, text)
    decreases |text|
  {
    if sub <= text then
      assert text[0..] == text;
      true
    else if |text| == 0 then
      assert forall i :: 0 <= i <= |text| ==> text[i..] == [];
      false
    else
      var r := Includes(text[1..], sub);
      assert forall i :: 1 <= i <= |text| ==> text[i..] == text[1..][i - 1..];
      if r then
        var i :| 0 <= i <= |text[1..]| && sub <= text[1..][i..];
        assert text[i + 1..] == text[1..][i..];
        true
      else
        false
  }

  /** No prefix rule applies. */
  predicate NoPrefixRule(m: string) {
    !("image/" <= m) && !("video/" <= m) && !("audio/" <= m)
  }

  /**
    `getFileIcon`: a type starting with `image/`, `video/` or `audio/` gets its
    media glyph, tried in that order and before any substring rule; then one
    containing `pdf` gets the page, one containing `text/` anywhere the memo, one
    containing `zip` or `rar` the package; anything else the page.
   */
  function GetFileIcon(mimeType: string): (glyph: string)
    ensures glyph in {ImageGlyph, VideoGlyph, AudioGlyph, DocumentGlyph, TextGlyph, ArchiveGlyph}
    ensures glyph == ImageGlyph <==> "image/" <= mimeType
    ensures glyph == VideoGlyph <==> !("image/" <= mimeType) && "video/" <= mimeType
    ensures glyph == AudioGlyph <==> !("image/" <= mimeType) && !("video/" <= mimeType) && "audio/" <= mimeType
    ensures glyph == TextGlyph <==>
      NoPrefixRule(mimeType) && !Occurs("pdf", mimeType) && Occurs("text/", mimeType)
    ensures glyph == ArchiveGlyph <==>
      && NoPrefixRule(mimeType) && !Occurs("pdf", mimeType) && !Occurs("text/", mimeType)
      && (Occurs("zip", mimeType) || Occurs("rar", mimeType))
    ensures glyph == DocumentGlyph <==>
      NoPrefixRule(mimeType) &&
      (Occurs("pdf", mimeType) || (!Occurs("text/", mimeType) && !Occurs("zip", mimeType) && !Occurs("rar", mimeType)))
  {
    if "image/" <= mimeType then ImageGlyph
    else if "video/" <= mimeType then VideoGlyph
    else if "audio/" <= mimeType then AudioGlyph
    else if Includes(mimeType, "pdf") then DocumentGlyph
    else if Includes(mimeType, "text/") then TextGlyph
    else if Includes(mimeType, "zip") || Includes(mimeType, "rar") then ArchiveGlyph
    else DocumentGlyph
  }

  /** A prefix rule beats every substring rule: an image type mentioning `pdf` still shows the picture. */
  lemma PrefixBeatsSubstring()
    ensures GetFileIcon("image/x-pdf") == ImageGlyph
    ensures GetFileIcon("video/x-zip") == VideoGlyph
  {
    assert "video/x-zip"[0] != "image/"[0];
  }

  /** `pdf` counts anywhere in the type and is tried before `text/`. */
  lemma SubstringRulesInOrder()
    ensures GetFileIcon("application/pdf") == DocumentGlyph
    ensures GetFileIcon("x-text/pdf") == DocumentGlyph
  {
    assert "application/pdf"[1] != "audio/"[1];
    assert "x-text/pdf"[0] != 'i' && "x-text/pdf"[0] != 'v' && "x-text/pdf"[0] != 'a';
    assert "pdf" <= "application/pdf"[12..];
    assert "pdf" <= "x-text/pdf"[7..];
  }
}
