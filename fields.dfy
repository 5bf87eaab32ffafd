/**
 * The seventeen output fields of an HTML page, each with its output key and
 * its fallback chain, in the order metascraper.ts evaluates them, and the
 * record they produce.
 */
module Fields {
  import opened Wrappers
  import opened Dom
  import opened Fallback

  datatype Field =
    | Title | SiteName | Description | Author | Image | ImageWidth | ImageHeight | ImageAlt
    | Video | VideoWidth | VideoHeight | Audio | ThemeColor | Favicon | Url | CreationDate | UpdateDate
  {
    /** The key of the field in the output record. */
    function Key(): string {
      match this
      case Title => "title"
      case SiteName => "siteName"
      case Description => "description"
      case Author => "author"
      case Image => "image"
      case ImageWidth => "imageWidth"
      case ImageHeight => "imageHeight"
      case ImageAlt => "imageAlt"
      case Video => "video"
      case VideoWidth => "videoWidth"
      case VideoHeight => "videoHeight"
      case Audio => "audio"
      case ThemeColor => "themeColor"
      case Favicon => "favicon"
      case Url => "url"
      case CreationDate => "creationDate"
      case UpdateDate => "updateDate"
    }

    /**
     * The fallback chain, operand for operand. Kept verbatim: the three
     * creation-date keys that end in a space, and the second probe of
     * `og:video:width` and `og:video:height`.
     */
    function Chain(): (c: seq<Probe>)
      ensures c != []
    {
      match this
      case Title =>
        [Meta("twitter:title"), Meta("og:title"), PageTitle, Meta("title"), Meta("dc.title"),
         Meta("dcterms.title"), Meta("application-name"), Meta("citation.title")]
      case SiteName =>
        [Meta("og:site_name"), Meta("application-name"), Meta("citation.title"), MetaWithoutAt("twitter:site")]
      case Description =>
        [Meta("twitter:description"), Meta("og:description"), Meta("description"), Meta("dc:description"),
         Meta("dcterms.description"), Meta("fdse-description"), Meta("FSPageDescription"),
         Meta("citation_issue"), Meta("dcterms.subject")]
      case Author =>
        [Meta("twitter:creator"), Meta("author"), Meta("dc.creator"), Meta("dcterms.creator"),
         Meta("citation_author"), Meta("creator"), Meta("dc.publisher"), Meta("dcterms.publisher"),
         Meta("citation_publisher")]
      case Image =>
        [Meta("twitter:image"), Meta("twitter:image:src"), Meta("og:image:secure_url"), Meta("og:image"),
         Meta("og:image:url")]
      case ImageWidth => [Meta("twitter:image:width"), Meta("og:image:width")]
      case ImageHeight => [Meta("twitter:image:height"), Meta("og:image:height")]
      case ImageAlt => [Meta("twitter:image:alt"), Meta("og:image:alt")]
      case Video =>
        [Meta("twitter:player"), Meta("og:video:secure_url"), Meta("og:video"), Meta("og:video:url")]
      case VideoWidth => [Meta("twitter:player:width"), Meta("og:video:width"), Meta("og:video:width")]
      case VideoHeight => [Meta("twitter:player:height"), Meta("og:video:height"), Meta("og:video:height")]
      case Audio => [Meta("og:audio:secure_url"), Meta("og:audio"), Meta("og:audio:url")]
      case ThemeColor => [Meta("theme-color"), Meta("msapplication-TileColor")]
      case Favicon =>
        [IconHref, Meta("msapplication-TileImage"), Meta("msapplication-square70x70logo"),
         Meta("msapplication-square150x150logo"), Meta("msapplication-wide310x150logo"),
         Meta("msapplication-square310x310logo")]
      case Url =>
        [Meta("twitter:url"), Meta("og:url"), Meta("url"), Meta("dc.identifier"), Meta("dcterms.identifier"),
         Meta("citation_identifier"), Meta("identifier"), Meta("dc.source"), Meta("dcterms.source"),
         Meta("citation_source")]
      case CreationDate =>
        [Meta("date"), Meta("dc.date.issued "), Meta("dcterms.date "), Meta("FSDateCreation "),
         Meta("FSDatePublish"), Meta("citation_date")]
      case UpdateDate => [Meta("dc.modified")]
    }
  }

  /** The order in which the fields are evaluated and assigned. */
  const FieldOrder: seq<Field> :=
    [Title, SiteName, Description, Author, Image, ImageWidth, ImageHeight, ImageAlt,
     Video, VideoWidth, VideoHeight, Audio, ThemeColor, Favicon, Url, CreationDate, UpdateDate]

  /** The field whose output key is `k`, if any. */
  function FieldNamed(k: string): Option<Field> {
    if k == "title" then Some(Title)
    else if k == "siteName" then Some(SiteName)
    else if k == "description" then Some(Description)
    else if k == "author" then Some(Author)
    else if k == "image" then Some(Image)
    else if k == "imageWidth" then Some(ImageWidth)
    else if k == "imageHeight" then Some(ImageHeight)
    else if k == "imageAlt" then Some(ImageAlt)
    else if k == "video" then Some(Video)
    else if k == "videoWidth" then Some(VideoWidth)
    else if k == "videoHeight" then Some(VideoHeight)
    else if k == "audio" then Some(Audio)
    else if k == "themeColor" then Some(ThemeColor)
    else if k == "favicon" then Some(Favicon)
    else if k == "url" then Some(Url)
    else if k == "creationDate" then Some(CreationDate)
    else if k == "updateDate" then Some(UpdateDate)
    else None
  }

  /** The key of a field names that field, and every field is evaluated. */
  lemma KeyNamesField(f: Field)
    ensures FieldNamed(f.Key()) == Some(f)
    ensures f in FieldOrder
  {
  }

  /** Every field is evaluated, each under its own key, and none under the key `type`. */
  lemma KeysDistinct()
    ensures forall f: Field :: f in FieldOrder && FieldNamed(f.Key()) == Some(f)
    ensures forall f: Field, g: Field :: f.Key() == g.Key() ==> f == g
    ensures forall f: Field :: f.Key() != "type"
  {
    forall f: Field ensures f in FieldOrder && FieldNamed(f.Key()) == Some(f) {
      KeyNamesField(f);
    }
    assert FieldNamed("type") == None;
  }

  /** The value of the chain of `f` on a document. */
  function Value(f: Field, doc: Document, pageTitle: Option<string>): Option<string> {
    Resolve(f.Chain(), doc, pageTitle)
  }

  /** The entries the fields of `fs` contribute under `val`, assigned in order. */
  function Collect(fs: seq<Field>, val: Field -> Option<string>): map<string, string> {
    if fs == [] then map[]
    else
      var last := fs[|fs| - 1];
      var m := Collect(fs[..|fs| - 1], val);
      if Truthy(val(last)) then m[last.Key() := val(last).value] else m
  }

  /**
   * The entries of `fs` are exactly the fields whose value is truthy, each
   * under its own key with that exact value.
   */
  lemma {:induction false} CollectCharacterized(fs: seq<Field>, val: Field -> Option<string>)
    ensures forall f :: f in fs ==>
      (f.Key() in Collect(fs, val) <==> Truthy(val(f))) &&
      (f.Key() in Collect(fs, val) ==> Collect(fs, val)[f.Key()] == val(f).value)
    ensures forall k :: k in Collect(fs, val) ==> exists f :: f in fs && f.Key() == k
  {
    if fs != [] {
      var last := fs[|fs| - 1];
      var init := fs[..|fs| - 1];
      CollectCharacterized(init, val);
      var m := Collect(init, val);
      var r := Collect(fs, val);
      forall f | f in fs ensures (f.Key() in r <==> Truthy(val(f))) && (f.Key() in r ==> r[f.Key()] == val(f).value) {
        if f != last {
          assert f in init;
          KeyInjective(f, last);
        }
      }
      forall k | k in r ensures exists f :: f in fs && f.Key() == k {
        if k != last.Key() {
          var f :| f in init && f.Key() == k;
          assert f in fs;
        }
      }
    }
  }

  /** Distinct fields have distinct keys. */
  lemma KeyInjective(f: Field, g: Field)
    requires f != g
    ensures f.Key() != g.Key()
  {
  }

  /** The values of all fields on a document. */
  function PageValues(doc: Document, pageTitle: Option<string>): Field -> Option<string> {
    f => Value(f, doc, pageTitle)
  }

  /** The record of an HTML page: `type` is `html`, plus one entry per field found. */
  function HtmlRecord(doc: Document, pageTitle: Option<string>): map<string, string> {
    Collect(FieldOrder, PageValues(doc, pageTitle))["type" := "html"]
  }

  /** `if (x) data.x = x;` for the field `f` whose value is `val(f)`. */
  function Put(data: map<string, string>, f: Field, val: Field -> Option<string>): map<string, string> {
    if Truthy(val(f)) then data[f.Key() := val(f).value] else data
  }

  /** Assigning one more field extends the record of the fields before it. */
  lemma CollectNext(done: seq<Field>, f: Field, val: Field -> Option<string>)
    ensures Collect(done + [f], val)["type" := "html"] == Put(Collect(done, val)["type" := "html"], f, val)
  {
  }

  /** Assigning the fields one by one, in order, from a record holding only `type`, builds the record of the page. */
  lemma AssignedInOrder(val: Field -> Option<string>)
    ensures Put(Put(Put(Put(Put(Put(Put(Put(Put(Put(Put(Put(Put(Put(Put(Put(Put(map["type" := "html"], Title, val), SiteName, val), Description, val), Author, val), Image, val), ImageWidth, val), ImageHeight, val), ImageAlt, val), Video, val), VideoWidth, val), VideoHeight, val), Audio, val), ThemeColor, val), Favicon, val), Url, val), CreationDate, val), UpdateDate, val)
              == Collect(FieldOrder, val)["type" := "html"]
  {
    var done: seq<Field> := [];
    var data := map["type" := "html"];
    CollectNext(done, Title, val);
    data, done := Put(data, Title, val), done + [Title];
    CollectNext(done, SiteName, val);
    data, done := Put(data, SiteName, val), done + [SiteName];
    CollectNext(done, Description, val);
    data, done := Put(data, Description, val), done + [Description];
    CollectNext(done, Author, val);
    data, done := Put(data, Author, val), done + [Author];
    CollectNext(done, Image, val);
    data, done := Put(data, Image, val), done + [Image];
    CollectNext(done, ImageWidth, val);
    data, done := Put(data, ImageWidth, val), done + [ImageWidth];
    CollectNext(done, ImageHeight, val);
    data, done := Put(data, ImageHeight, val), done + [ImageHeight];
    CollectNext(done, ImageAlt, val);
    data, done := Put(data, ImageAlt, val), done + [ImageAlt];
    CollectNext(done, Video, val);
    data, done := Put(data, Video, val), done + [Video];
    CollectNext(done, VideoWidth, val);
    data, done := Put(data, VideoWidth, val), done + [VideoWidth];
    CollectNext(done, VideoHeight, val);
    data, done := Put(data, VideoHeight, val), done + [VideoHeight];
    CollectNext(done, Audio, val);
    data, done := Put(data, Audio, val), done + [Audio];
    CollectNext(done, ThemeColor, val);
    data, done := Put(data, ThemeColor, val), done + [ThemeColor];
    CollectNext(done, Favicon, val);
    data, done := Put(data, Favicon, val), done + [Favicon];
    CollectNext(done, Url, val);
    data, done := Put(data, Url, val), done + [Url];
    CollectNext(done, CreationDate, val);
    data, done := Put(data, CreationDate, val), done + [CreationDate];
    CollectNext(done, UpdateDate, val);
    data, done := Put(data, UpdateDate, val), done + [UpdateDate];
    assert done == FieldOrder;
  }

  /**
   * What a record of an HTML page is: `type` is `html`; the key of a field is
   * present exactly when its chain produced a non-empty string, and then its
   * value is that exact string; there is no other key.
   */
  ghost predicate DescribesPage(data: map<string, string>, doc: Document, pageTitle: Option<string>) {
    && "type" in data && data["type"] == "html"
    && (forall f: Field :: f.Key() in data <==> Truthy(Value(f, doc, pageTitle)))
    && (forall f: Field :: f.Key() in data ==> data[f.Key()] == Value(f, doc, pageTitle).value)
    && (forall k :: k in data ==> k == "type" || FieldNamed(k).Some?)
  }

  lemma HtmlRecordDescribesPage(doc: Document, pageTitle: Option<string>)
    ensures DescribesPage(HtmlRecord(doc, pageTitle), doc, pageTitle)
  {
    KeysDistinct();
    CollectCharacterized(FieldOrder, PageValues(doc, pageTitle));
    var m := Collect(FieldOrder, PageValues(doc, pageTitle));
    forall k | k in m ensures FieldNamed(k).Some? {
      var f :| f in FieldOrder && f.Key() == k;
    }
  }

  /** A page determines its record: any two records describing the same page are equal. */
  lemma DescribesPageUnique(d1: map<string, string>, d2: map<string, string>, doc: Document, pageTitle: Option<string>)
    requires DescribesPage(d1, doc, pageTitle) && DescribesPage(d2, doc, pageTitle)
    ensures d1 == d2
  {
    KeysDistinct();
    forall k | k in d1 ensures k in d2 && d1[k] == d2[k] {
      if k != "type" {
        var f := FieldNamed(k).value;
        assert f.Key() == k by {
          FieldNamedInverse(k);
        }
      }
    }
    forall k | k in d2 ensures k in d1 {
      if k != "type" {
        FieldNamedInverse(k);
      }
    }
  }

  lemma FieldNamedInverse(k: string)
    requires FieldNamed(k).Some?
    ensures FieldNamed(k).value.Key() == k
  {
  }
  /** The record's entry for one field: present exactly when the field's chain is truthy, holding that value. */
  lemma RecordEntry(f: Field, doc: Document, pageTitle: Option<string>)
    ensures f.Key() in HtmlRecord(doc, pageTitle) <==> Truthy(Value(f, doc, pageTitle))
    ensures f.Key() in HtmlRecord(doc, pageTitle) ==> HtmlRecord(doc, pageTitle)[f.Key()] == Value(f, doc, pageTitle).value
  {
    HtmlRecordDescribesPage(doc, pageTitle);
  }

  /** A field's value is the earliest operand of its chain that is a non-empty string. */
  lemma ValueIsEarliest(f: Field, doc: Document, pageTitle: Option<string>, i: nat)
    requires i < |f.Chain()| && Truthy(Eval(f.Chain()[i], doc, pageTitle))
    requires forall j :: 0 <= j < i ==> !Truthy(Eval(f.Chain()[j], doc, pageTitle))
    ensures Value(f, doc, pageTitle) == Eval(f.Chain()[i], doc, pageTitle)
  {
    EarliestTruthyWins(EvalAll(f.Chain(), doc, pageTitle), i);
  }

  /** A field is left out of the record exactly when no operand of its chain is a non-empty string. */
  lemma FieldOmittedIff(f: Field, doc: Document, pageTitle: Option<string>)
    ensures f.Key() !in HtmlRecord(doc, pageTitle) <==>
      forall i :: 0 <= i < |f.Chain()| ==> !Truthy(Eval(f.Chain()[i], doc, pageTitle))
  {
    RecordEntry(f, doc, pageTitle);
  }
}
