/**
 * The resolver exported by metascraper.ts: trim the URL, fetch it, give up on
 * a failed response, classify the response by its `content-type` header and,
 * for an HTML page, build the record field by field.
 *
 * The network is a parameter: `fetch` gives the response the server returns
 * for a URL (success flag, `content-type` header if any, and the body as a
 * parsed document). `pageTitle` is the text of the `<title>` element of the
 * global page the resolver runs in, if there is one.
 */
module Metascraper {
  import opened Wrappers
  import opened Dom
  import opened JsString
  import opened Fallback
  import opened ContentType
  import opened Fields

  datatype Response = Response(ok: bool, contentType: Option<string>, body: Document)

  type Record = map<string, string>

  /**
   * What the resolver yields for the response to its request: null exactly
   * when the response failed; otherwise a record whose `type` is the
   * classified kind, which for a page other than HTML is all it holds and for
   * an HTML page comes with exactly the fields found on it.
   */
  function Answer(response: Response, pageTitle: Option<string>): (r: Option<Record>)
    ensures r.None? <==> !response.ok
    ensures r.Some? ==> "type" in r.value && r.value["type"] == Classify(response.contentType).Name()
    ensures r.Some? && Classify(response.contentType) != Kind.Html ==> r.value.Keys == {"type"}
    ensures r.Some? && Classify(response.contentType) == Kind.Html ==> DescribesPage(r.value, response.body, pageTitle)
  {
    if !response.ok then None
    else
      var kind := Classify(response.contentType);
      if kind == Kind.Html then
        HtmlRecordDescribesPage(response.body, pageTitle);
        Some(HtmlRecord(response.body, pageTitle))
      else Some(map["type" := kind.Name()])
  }

  /**
   * The default export. `requested` is the URL the request went to, and is
   * absent when no request was made.
   */
  method Scrape(url: string, fetch: string -> Response, pageTitle: Option<string>)
    returns (result: Option<Record>, requested: Option<string>)
    ensures requested == if Trim(url) == [] then None else Some(Trim(url))
    ensures result == if requested == None then None else Answer(fetch(requested.value), pageTitle)
  {
    var u := Trim(url);
    if u == [] {
      return None, None;
    }
    requested := Some(u);
    var siteData := fetch(u);
    if !siteData.ok {
      return None, requested;
    }
    var data := BuildRecord(siteData, pageTitle);
    result := Some(data);
  }

  /**
   * The body of the default export once a successful response is in hand:
   * classify it by its header and build the record of that kind.
   */
  method BuildRecord(siteData: Response, pageTitle: Option<string>) returns (data: Record)
    requires siteData.ok
    ensures Answer(siteData, pageTitle) == Some(data)
  {
    data := map[];
    if HeaderIncludes(siteData.contentType, Kind.Html) {
      data := AssignFields(PageValues(siteData.body, pageTitle));
      AnswerForHtml(siteData, pageTitle);
    } else if HeaderIncludes(siteData.contentType, Kind.Image) {
      data := data["type" := "image"];
      AnswerForOtherKind(siteData, pageTitle);
    } else if HeaderIncludes(siteData.contentType, Kind.Video) {
      data := data["type" := "video"];
      AnswerForOtherKind(siteData, pageTitle);
    } else if HeaderIncludes(siteData.contentType, Kind.Audio) {
      data := data["type" := "audio"];
      AnswerForOtherKind(siteData, pageTitle);
    } else {
      data := data["type" := "unknown"];
      AnswerForOtherKind(siteData, pageTitle);
    }
  }

  /** A successful response whose header names `text/html` is answered with the page's record. */
  lemma AnswerForHtml(response: Response, pageTitle: Option<string>)
    requires response.ok && HeaderIncludes(response.contentType, Kind.Html)
    ensures Answer(response, pageTitle) == Some(HtmlRecord(response.body, pageTitle))
  {
  }

  /** Any other successful response is answered with a record holding only its kind. */
  lemma AnswerForOtherKind(response: Response, pageTitle: Option<string>)
    requires response.ok && !HeaderIncludes(response.contentType, Kind.Html)
    ensures Answer(response, pageTitle) == Some(map["type" := Classify(response.contentType).Name()])
  {
  }

  /**
   * The HTML branch of the default export: set `type` to `html`, then for each
   * field in turn evaluate its chain (`values` gives the value of a field's
   * chain on the page) and assign it when it is a non-empty string.
   */
  method AssignFields(values: Field -> Option<string>) returns (data: Record)
    ensures data == Collect(FieldOrder, values)["type" := "html"]
  {
    data := map["type" := "html"];
    var title := values(Field.Title);
    data := AssignIfTruthy(data, Field.Title.Key(), title);
    var siteName := values(Field.SiteName);
    data := AssignIfTruthy(data, Field.SiteName.Key(), siteName);
    var description := values(Field.Description);
    data := AssignIfTruthy(data, Field.Description.Key(), description);
    var author := values(Field.Author);
    data := AssignIfTruthy(data, Field.Author.Key(), author);
    var image := values(Field.Image);
    data := AssignIfTruthy(data, Field.Image.Key(), image);
    var imageWidth := values(Field.ImageWidth);
    data := AssignIfTruthy(data, Field.ImageWidth.Key(), imageWidth);
    var imageHeight := values(Field.ImageHeight);
    data := AssignIfTruthy(data, Field.ImageHeight.Key(), imageHeight);
    var imageAlt := values(Field.ImageAlt);
    data := AssignIfTruthy(data, Field.ImageAlt.Key(), imageAlt);
    var video := values(Field.Video);
    data := AssignIfTruthy(data, Field.Video.Key(), video);
    var videoWidth := values(Field.VideoWidth);
    data := AssignIfTruthy(data, Field.VideoWidth.Key(), videoWidth);
    var videoHeight := values(Field.VideoHeight);
    data := AssignIfTruthy(data, Field.VideoHeight.Key(), videoHeight);
    var audio := values(Field.Audio);
    data := AssignIfTruthy(data, Field.Audio.Key(), audio);
    var themeColor := values(Field.ThemeColor);
    data := AssignIfTruthy(data, Field.ThemeColor.Key(), themeColor);
    var favicon := values(Field.Favicon);
    data := AssignIfTruthy(data, Field.Favicon.Key(), favicon);
    var pageUrl := values(Field.Url);
    data := AssignIfTruthy(data, Field.Url.Key(), pageUrl);
    var creationDate := values(Field.CreationDate);
    data := AssignIfTruthy(data, Field.CreationDate.Key(), creationDate);
    var updateDate := values(Field.UpdateDate);
    data := AssignIfTruthy(data, Field.UpdateDate.Key(), updateDate);
    AssignedInOrder(values);
  }

  /** One `if (value) data.key = value` step: only a non-empty string is stored. */
  method AssignIfTruthy(data: Record, key: string, value: Option<string>) returns (updated: Record)
    ensures Truthy(value) ==> updated == data[key := value.value]
    ensures !Truthy(value) ==> updated == data
  {
    updated := data;
    if Truthy(value) {
      updated := data[key := value.value];
    }
  }
}
