/**
 * `getMeta(key, doc)`: the `content` attribute of the first `meta` element
 * whose `name` is `key`; only when there is no such element, the `content` of
 * the first `meta` element whose `property` is `key`; null when neither exists.
 */
module MetaLookup {
  import opened Wrappers
  import opened Dom

  function ByName(key: string): Selector { Selector("meta", "name", key) }
  function ByProperty(key: string): Selector { Selector("meta", "property", key) }

  function GetMeta(doc: Document, key: string): (r: Option<string>)
    ensures r.Some? ==> exists e :: e in doc && (Matches(e, ByName(key)) || Matches(e, ByProperty(key)))
                                    && GetAttribute(e, "content") == r
    ensures (forall j :: 0 <= j < |doc| ==> !Matches(doc[j], ByName(key)) && !Matches(doc[j], ByProperty(key)))
            ==> r.None?
  {
    match QuerySelector(doc, ByName(key))
    case Some(e) => GetAttribute(e, "content")
    case None =>
      match QuerySelector(doc, ByProperty(key))
      case Some(e) => GetAttribute(e, "content")
      case None => None
  }

  /** The first `meta[name=key]` decides, whatever its `content` is (missing or empty included). */
  lemma NameMatchDecides(doc: Document, key: string, i: nat)
    requires i < |doc| && Matches(doc[i], ByName(key))
    requires forall j :: 0 <= j < i ==> !Matches(doc[j], ByName(key))
    ensures GetMeta(doc, key) == GetAttribute(doc[i], "content")
  {
  }

  /** Without any `meta[name=key]`, the first `meta[property=key]` decides. */
  lemma PropertyMatchDecides(doc: Document, key: string, i: nat)
    requires forall j :: 0 <= j < |doc| ==> !Matches(doc[j], ByName(key))
    requires i < |doc| && Matches(doc[i], ByProperty(key))
    requires forall j :: 0 <= j < i ==> !Matches(doc[j], ByProperty(key))
    ensures GetMeta(doc, key) == GetAttribute(doc[i], "content")
  {
  }

  /** A `name` match without `content` yields null even when a `property` match with content follows. */
  lemma NameWithoutContentShadowsProperty(key: string, v: string)
    ensures GetMeta([Element("meta", map["name" := key]), Element("meta", map["property" := key, "content" := v])], key) == None
  {
  }

  /** `meta[property=key]` is used when there is no `meta[name=key]`. */
  lemma PropertyUsedWithoutName(key: string, v: string)
    ensures GetMeta([Element("meta", map["property" := key, "content" := v])], key) == Some(v)
  {
  }
}
