/**
 The image-file filter: a path is an image when it has an extension whose
 lower-case form is on a fixed allow-list. The extension is given as an
 optional string (the path's extension parsing is not modelled), and lower
 casing is ASCII only.
 */
module ImageFilter {
  import opened Common

  /** The allow-list, all lower case. */
  const Extensions: seq<string> := ["jpg", "jpeg", "png", "gif", "bmp", "webp", "avif", "ico"]

  /** ASCII lower casing of one character. */
  function LowerChar(c: char): char {
    if 'A' <= c <= 'Z' then (c as int - 'A' as int + 'a' as int) as char else c
  }

  /** ASCII lower casing of a string, character by character. */
  function Lower(s: string): (r: string)
    ensures SameIgnoringCase(s, r)
    ensures forall i :: 0 <= i < |r| ==> !('A' <= r[i] <= 'Z')
  {
    seq(|s|, i requires 0 <= i < |s| => LowerChar(s[i]))
  }

  /** Two strings are equal once their letters are folded to lower case. */
  predicate SameIgnoringCase(s: string, t: string) {
    |s| == |t| && forall i :: 0 <= i < |s| ==> LowerChar(s[i]) == LowerChar(t[i])
  }

  /** The filter: an extension exists and its lower-case form is allowed. */
  function IsImageFile(extension: Option<string>): (r: bool)
    ensures r <==> extension.Some? && exists e :: e in Extensions && SameIgnoringCase(extension.value, e)
  {
    match extension
    case None => false
    case Some(ext) =>
      AllowedLowerCase();
      LowerMatches(ext);
      Lower(ext) in Extensions
  }

  /** Every allowed extension is its own lower-case form. */
  lemma AllowedLowerCase()
    ensures forall e :: e in Extensions ==> Lower(e) == e
  {
  }

  /** Lower casing `s` yields a lower-case string `e` exactly when `s`
      equals `e` ignoring case. */
  lemma LowerMatches(s: string)
    ensures forall e :: Lower(e) == e ==> (Lower(s) == e <==> SameIgnoringCase(s, e))
  {
  }

  /** The filter does not depend on letter case. */
  lemma CaseInsensitive(s: string, t: string)
    requires SameIgnoringCase(s, t)
    ensures IsImageFile(Some(s)) == IsImageFile(Some(t))
  {
  }

  /** A missing extension is never an image; upper-case extensions are
      accepted; extensions off the list are not. */
  lemma Examples()
    ensures !IsImageFile(None)
    ensures IsImageFile(Some("JPG"))
    ensures IsImageFile(Some("WebP"))
    ensures !IsImageFile(Some("tiff"))
    ensures !IsImageFile(Some(""))
  {
    assert SameIgnoringCase("JPG", "jpg");
    assert SameIgnoringCase("WebP", "webp");
    assert Lower("tiff") == "tiff";
    assert Lower("") == "";
  }
}
