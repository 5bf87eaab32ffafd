/**
 * Consequences of the fallback chains of metascraper.ts for particular
 * fields of an HTML page's record: which source wins, what is stripped, and
 * the keys that can never match.
 */
module Precedence {
  import opened Wrappers
  import opened Dom
  import opened JsString
  import opened MetaLookup
  import opened Fallback
  import opened Fields

  /** `twitter:title` takes precedence over every other source of the title. */
  lemma TwitterTitleFirst(doc: Document, pageTitle: Option<string>)
    requires Truthy(GetMeta(doc, "twitter:title"))
    ensures Value(Title, doc, pageTitle) == GetMeta(doc, "twitter:title")
  {
    ValueIsEarliest(Title, doc, pageTitle, 0);
  }

  /** Without a usable `twitter:title`, `og:title` is the title. */
  lemma OgTitleSecond(doc: Document, pageTitle: Option<string>)
    requires !Truthy(GetMeta(doc, "twitter:title"))
    requires Truthy(GetMeta(doc, "og:title"))
    ensures Value(Title, doc, pageTitle) == GetMeta(doc, "og:title")
  {
    assert Title.Chain()[0] == Meta("twitter:title") && Title.Chain()[1] == Meta("og:title");
    ValueIsEarliest(Title, doc, pageTitle, 1);
  }

  /** Without either of those, the `<title>` of the page the resolver runs in is the title, ahead of the `title` meta. */
  lemma PageTitleThird(doc: Document, pageTitle: Option<string>)
    requires !Truthy(GetMeta(doc, "twitter:title")) && !Truthy(GetMeta(doc, "og:title"))
    requires Truthy(pageTitle)
    ensures Value(Title, doc, pageTitle) == pageTitle
  {
    var chain := Title.Chain();
    assert chain[0] == Meta("twitter:title") && chain[1] == Meta("og:title") && chain[2] == PageTitle;
    ValueIsEarliest(Title, doc, pageTitle, 2);
  }

  /** `twitter:image` takes precedence over `og:image` and every other source of the image. */
  lemma TwitterImageFirst(doc: Document, pageTitle: Option<string>)
    requires Truthy(GetMeta(doc, "twitter:image"))
    ensures Value(Image, doc, pageTitle) == GetMeta(doc, "twitter:image")
  {
    assert Image.Chain()[0] == Meta("twitter:image");
    ValueIsEarliest(Image, doc, pageTitle, 0);
  }

  /** `og:site_name` is taken unchanged, `@` included. */
  lemma SiteNameFirst(doc: Document, pageTitle: Option<string>)
    requires Truthy(GetMeta(doc, "og:site_name"))
    ensures Value(SiteName, doc, pageTitle) == GetMeta(doc, "og:site_name")
  {
    ValueIsEarliest(SiteName, doc, pageTitle, 0);
  }

  /**
   * The last resort for the site name is `twitter:site` with its first `@`
   * removed, wherever in the value that `@` is.
   */
  lemma SiteNameFromTwitterSite(doc: Document, pageTitle: Option<string>, v: string)
    requires !Truthy(GetMeta(doc, "og:site_name")) && !Truthy(GetMeta(doc, "application-name"))
    requires !Truthy(GetMeta(doc, "citation.title"))
    requires GetMeta(doc, "twitter:site") == Some(v) && RemoveFirst(v, '@') != ""
    ensures Value(SiteName, doc, pageTitle) == Some(RemoveFirst(v, '@'))
  {
    var chain := SiteName.Chain();
    forall j | 0 <= j < 3 ensures !Truthy(Eval(chain[j], doc, pageTitle)) {
      if j == 0 {
        assert chain[0] == Meta("og:site_name");
      } else if j == 1 {
        assert chain[1] == Meta("application-name");
      } else {
        assert chain[2] == Meta("citation.title");
      }
    }
    assert chain[3] == MetaWithoutAt("twitter:site");
    ValueIsEarliest(SiteName, doc, pageTitle, 3);
  }

  /**
   * A `twitter:site` of just `@` becomes the empty string: the chain ends on
   * that falsy operand, so the record leaves the site name out (`RecordEntry`).
   */
  lemma BareAtSiteOmitted(doc: Document, pageTitle: Option<string>)
    requires !Truthy(GetMeta(doc, "og:site_name")) && !Truthy(GetMeta(doc, "application-name"))
    requires !Truthy(GetMeta(doc, "citation.title"))
    requires GetMeta(doc, "twitter:site") == Some("@")
    ensures Value(SiteName, doc, pageTitle) == Some("")
    ensures SiteName.Key() !in HtmlRecord(doc, pageTitle)
  {
    var chain := SiteName.Chain();
    assert chain[3] == MetaWithoutAt("twitter:site");
    assert Eval(chain[3], doc, pageTitle) == Some("") by {
      assert RemoveFirst("@", '@') == "";
    }
    var vs := EvalAll(chain, doc, pageTitle);
    forall j | 0 <= j < |vs| ensures !Truthy(vs[j]) {
      if j == 0 {
        assert chain[0] == Meta("og:site_name");
      } else if j == 1 {
        assert chain[1] == Meta("application-name");
      } else if j == 2 {
        assert chain[2] == Meta("citation.title");
      }
    }
    AllFalsyGivesLast(vs);
    RecordEntry(SiteName, doc, pageTitle);
  }

  /** A page whose only metadata is `twitter:site` = `@example` gets the site name `example`. */
  lemma TwitterHandleStripped()
    ensures Value(SiteName, [Element("meta", map["name" := "twitter:site", "content" := "@example"])], None) == Some("example")
  {
    var doc := [Element("meta", map["name" := "twitter:site", "content" := "@example"])];
    assert GetMeta(doc, "og:site_name") == None;
    assert GetMeta(doc, "application-name") == None;
    assert GetMeta(doc, "citation.title") == None;
    NameMatchDecides(doc, "twitter:site", 0);
    assert RemoveFirst("@example", '@') == "example";
    SiteNameFromTwitterSite(doc, None, "@example");
  }

  /** The `href` of the first `link[rel='icon']` is the favicon whenever it is non-empty. */
  lemma FaviconPrefersIconLink(doc: Document, pageTitle: Option<string>, e: Element)
    requires QuerySelector(doc, IconLink) == Some(e) && Truthy(GetAttribute(e, "href"))
    ensures Value(Favicon, doc, pageTitle) == GetAttribute(e, "href")
  {
    assert Favicon.Chain()[0] == IconHref;
    ValueIsEarliest(Favicon, doc, pageTitle, 0);
  }

  /** A page whose only metadata is one `meta` with a `name` answers null for every other key. */
  lemma LoneMetaOtherKey(name: string, content: string, key: string)
    requires key != name
    ensures GetMeta([Element("meta", map["name" := name, "content" := content])], key) == None
  {
  }

  /**
   * Three creation-date keys end in a space, so a page whose only date is a
   * `dc.date.issued` meta, spelled as published, gets no creation date
   * (`RecordEntry`).
   */
  lemma IssuedDateNeverFound()
    ensures Value(CreationDate, [Element("meta", map["name" := "dc.date.issued", "content" := "2020-01-01"])], None) == None
    ensures CreationDate.Key() !in HtmlRecord([Element("meta", map["name" := "dc.date.issued", "content" := "2020-01-01"])], None)
  {
    var doc := [Element("meta", map["name" := "dc.date.issued", "content" := "2020-01-01"])];
    assert Value(CreationDate, doc, None) == None by {
      var chain := CreationDate.Chain();
      forall j | 0 <= j < |chain| ensures Eval(chain[j], doc, None) == None {
        LoneMetaOtherKey("dc.date.issued", "2020-01-01", chain[j].key);
      }
      AllFalsyGivesLast(EvalAll(chain, doc, None));
    }
    RecordEntry(CreationDate, doc, None);
  }

  /** The second `og:video:width` probe changes nothing: the chain is that of its first two operands. */
  lemma VideoWidthRepeatRedundant(doc: Document, pageTitle: Option<string>)
    ensures Value(VideoWidth, doc, pageTitle)
         == Resolve([Meta("twitter:player:width"), Meta("og:video:width")], doc, pageTitle)
  {
    var tw := Eval(Meta("twitter:player:width"), doc, pageTitle);
    var og := Eval(Meta("og:video:width"), doc, pageTitle);
    assert EvalAll(VideoWidth.Chain(), doc, pageTitle) == [tw] + [og, og] + [];
    assert EvalAll([Meta("twitter:player:width"), Meta("og:video:width")], doc, pageTitle) == [tw] + [og] + [];
    RepeatedOperandRedundant([tw], og, []);
  }

  /** Likewise for the second `og:video:height` probe. */
  lemma VideoHeightRepeatRedundant(doc: Document, pageTitle: Option<string>)
    ensures Value(VideoHeight, doc, pageTitle)
         == Resolve([Meta("twitter:player:height"), Meta("og:video:height")], doc, pageTitle)
  {
    var tw := Eval(Meta("twitter:player:height"), doc, pageTitle);
    var og := Eval(Meta("og:video:height"), doc, pageTitle);
    assert EvalAll(VideoHeight.Chain(), doc, pageTitle) == [tw] + [og, og] + [];
    assert EvalAll([Meta("twitter:player:height"), Meta("og:video:height")], doc, pageTitle) == [tw] + [og] + [];
    RepeatedOperandRedundant([tw], og, []);
  }

  /** Widths are copied as the strings the page gives, unit suffixes included; nothing is parsed. */
  lemma ImageWidthVerbatim(doc: Document, pageTitle: Option<string>, w: string)
    requires GetMeta(doc, "twitter:image:width") == Some(w) && w != ""
    ensures Value(ImageWidth, doc, pageTitle) == Some(w)
  {
    ValueIsEarliest(ImageWidth, doc, pageTitle, 0);
  }
}
