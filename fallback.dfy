/**
 * The fallback chains `a || b || ... || z` over lookup results. A result is
 * a JavaScript string or null; it is truthy when it is a non-empty string.
 * `||` returns its first truthy operand, or its last operand when none is.
 */
module Fallback {
  import opened Wrappers
  import opened Dom
  import opened JsString
  import opened MetaLookup

  predicate Truthy(v: Option<string>) {
    v.Some? && v.value != ""
  }

  /** JavaScript `a || b` on strings-or-null. */
  function Or(a: Option<string>, b: Option<string>): (r: Option<string>)
    ensures r == a || r == b
    ensures Truthy(r) <==> Truthy(a) || Truthy(b)
  {
    if Truthy(a) then a else b
  }

  /**
   * `vs[0] || vs[1] || ... || vs[|vs| - 1]`. JavaScript groups `||` to the
   * left; grouping it to the right, as here, gives the same value.
   */
  function OrAll(vs: seq<Option<string>>): (r: Option<string>)
    requires vs != []
    ensures Truthy(r) <==> exists i :: 0 <= i < |vs| && Truthy(vs[i])
    ensures r in vs
  {
    if |vs| == 1 then vs[0] else Or(vs[0], OrAll(vs[1..]))
  }

  /** The earliest truthy operand is the value of the chain. */
  lemma {:induction false} EarliestTruthyWins(vs: seq<Option<string>>, i: nat)
    requires i < |vs| && Truthy(vs[i])
    requires forall j :: 0 <= j < i ==> !Truthy(vs[j])
    ensures OrAll(vs) == vs[i]
  {
    if i > 0 {
      EarliestTruthyWins(vs[1..], i - 1);
    }
  }

  /** When no operand is truthy, the chain evaluates to its last operand. */
  lemma {:induction false} AllFalsyGivesLast(vs: seq<Option<string>>)
    requires vs != []
    requires forall j :: 0 <= j < |vs| ==> !Truthy(vs[j])
    ensures OrAll(vs) == vs[|vs| - 1]
  {
    if |vs| > 1 {
      AllFalsyGivesLast(vs[1..]);
    }
  }

  /** Operands after a truthy one cannot affect the chain: any tail may replace them. */
  lemma {:induction false} LaterOperandsIrrelevant(vs: seq<Option<string>>, i: nat, tail: seq<Option<string>>)
    requires i < |vs| && Truthy(vs[i])
    ensures OrAll(vs[..i + 1] + tail) == OrAll(vs)
  {
    if i > 0 {
      LaterOperandsIrrelevant(vs[1..], i - 1, tail);
      assert (vs[..i + 1] + tail)[1..] == vs[1..][..i] + tail;
    }
  }

  /** Repeating an operand right after itself does not change the chain. */
  lemma {:induction false} RepeatedOperandRedundant(front: seq<Option<string>>, v: Option<string>, back: seq<Option<string>>)
    ensures OrAll(front + [v, v] + back) == OrAll(front + [v] + back)
  {
    if front != [] {
      RepeatedOperandRedundant(front[1..], v, back);
      assert (front + [v, v] + back)[1..] == front[1..] + [v, v] + back;
      assert (front + [v] + back)[1..] == front[1..] + [v] + back;
    } else if back != [] {
      assert ([v, v] + back)[1..] == [v] + back;
      assert ([v] + back)[1..] == back;
    }
  }

  /**
   * One operand of a chain in metascraper.ts:
   * `getMeta(key, doc)`, `getMeta(key, doc)?.replace("@", "")`, the text of the
   * ambient page's `<title>`, or the `href` of the document's first `link[rel='icon']`.
   */
  datatype Probe = Meta(key: string) | MetaWithoutAt(key: string) | PageTitle | IconHref

  const IconLink := Selector("link", "rel", "icon")

  /** The value of one operand; `pageTitle` is the text of the `<title>` of the global page, if it has one. */
  function Eval(p: Probe, doc: Document, pageTitle: Option<string>): Option<string> {
    match p
    case Meta(key) => GetMeta(doc, key)
    case MetaWithoutAt(key) =>
      (match GetMeta(doc, key)
       case None => None
       case Some(v) => Some(RemoveFirst(v, '@')))
    case PageTitle => pageTitle
    case IconHref =>
      (match QuerySelector(doc, IconLink)
       case None => None
       case Some(e) => GetAttribute(e, "href"))
  }

  /** The operands of a chain, evaluated in order. */
  function EvalAll(chain: seq<Probe>, doc: Document, pageTitle: Option<string>): (vs: seq<Option<string>>)
    ensures |vs| == |chain|
    ensures forall i :: 0 <= i < |chain| ==> vs[i] == Eval(chain[i], doc, pageTitle)
  {
    seq(|chain|, i requires 0 <= i < |chain| => Eval(chain[i], doc, pageTitle))
  }

  /** The value of a whole chain. */
  function Resolve(chain: seq<Probe>, doc: Document, pageTitle: Option<string>): Option<string>
    requires chain != []
  {
    OrAll(EvalAll(chain, doc, pageTitle))
  }
}
