/**
 * Classification of a response by its `content-type` header: case-sensitive
 * substring tests for `text/html`, `image`, `video` and `audio`, tried in
 * that order, with `unknown` when none succeeds or the header is missing.
 */
module ContentType {
  import opened Wrappers
  import opened JsString

  datatype Kind = Html | Image | Video | Audio | Unknown
  {
    /** The value of the record's `type` key. */
    function Name(): string {
      match this
      case Html => "html"
      case Image => "image"
      case Video => "video"
      case Audio => "audio"
      case Unknown => "unknown"
    }

    /** The substring that selects this kind (`Unknown` is the fallback and has none). */
    function Needle(): string
      requires this != Unknown
    {
      match this
      case Html => "text/html"
      case Image => "image"
      case Video => "video"
      case Audio => "audio"
    }
  }

  /** The kinds in the order the header is tested for them. */
  const TestOrder: seq<Kind> := [Html, Image, Video, Audio]

  /** `headers.get("content-type")?.includes(k.Needle())`: false for a missing header. */
  predicate HeaderIncludes(contentType: Option<string>, k: Kind)
    requires k != Unknown
  {
    contentType.Some? && Contains(contentType.value, k.Needle())
  }

  /** The kind of a response; any kind but `unknown` has its substring in the header. */
  function Classify(contentType: Option<string>): (k: Kind)
    ensures k != Unknown ==> HeaderIncludes(contentType, k)
    ensures contentType.None? ==> k == Unknown
  {
    if HeaderIncludes(contentType, Html) then Html
    else if HeaderIncludes(contentType, Image) then Image
    else if HeaderIncludes(contentType, Video) then Video
    else if HeaderIncludes(contentType, Audio) then Audio
    else Unknown
  }

  /**
   * The kind is the first of html, image, video, audio whose substring the
   * header contains, and `unknown` exactly when it contains none of them.
   */
  lemma ClassifyIsFirstIncluded(contentType: Option<string>)
    ensures Classify(contentType) == Unknown <==> forall k :: k in TestOrder ==> !HeaderIncludes(contentType, k)
    ensures Classify(contentType) != Unknown ==>
      exists i :: 0 <= i < |TestOrder| && TestOrder[i] == Classify(contentType)
        && HeaderIncludes(contentType, TestOrder[i])
        && forall j :: 0 <= j < i ==> !HeaderIncludes(contentType, TestOrder[j])
  {
    var k := Classify(contentType);
    if k == Html { assert TestOrder[0] == k; }
    else if k == Image { assert TestOrder[1] == k; }
    else if k == Video { assert TestOrder[2] == k; }
    else if k == Audio { assert TestOrder[3] == k; }
  }

  /** A needle whose first character does not occur in the header is not included in it. */
  lemma MissingFirstCharacter(s: string, p: string)
    requires p != [] && p[0] !in s
    ensures !Contains(s, p)
  {
  }

  /** A response without a `content-type` header is `unknown`. */
  lemma MissingHeaderIsUnknown()
    ensures Classify(None) == Unknown
  {
  }

  /** `image/png` is an image. */
  lemma PngIsImage()
    ensures Classify(Some("image/png")) == Image
  {
    assert "image/png"[..5] == "image";
    MissingFirstCharacter("image/png", "text/html");
  }

  /**
   * A header that does not contain `text/html` but contains `image` is an
   * image, whatever else it contains: the image test comes before the video
   * and audio tests.
   */
  lemma ImageWhenNotHtml(contentType: Option<string>)
    requires !HeaderIncludes(contentType, Html) && HeaderIncludes(contentType, Image)
    ensures Classify(contentType) == Image
  {
  }

  /** The header `video/image` is an image, because the image test runs before the video test. */
  lemma ImageTestedBeforeVideo()
    ensures Classify(Some("video/image")) == Image
  {
    ContainsIffOccurs("video/image", "image");
    assert "video/image"[6..11] == "image";
    assert OccursAt("video/image", "image", 6);
    MissingFirstCharacter("video/image", "text/html");
  }

  /**
   * The tests are case-sensitive: `Text/HTML` is not recognised as HTML
   * (nor as anything else), although media types are case-insensitive.
   */
  lemma UpperCaseHtmlIsUnknown()
    ensures Classify(Some("Text/HTML")) == Unknown
  {
    var s := "Text/HTML";
    assert s[..9][0] != "text/html"[0];
    assert !Contains(s[1..], "text/html");
    MissingFirstCharacter(s, "image");
    MissingFirstCharacter(s, "video");
    MissingFirstCharacter(s, "audio");
  }
}
