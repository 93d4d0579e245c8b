/**
 * The records of the static-site data layer (src/seo/data): topics, their
 * FAQs, categories and subcategories, plus the order-preserving filter that
 * `Array.prototype.filter` performs on topic lists.
 *
 * A string field that a record lacks is the empty string: every place that
 * reads such a field tests it for truthiness, and `undefined` and `''` are
 * both falsy. `faqs` and `relatedSlugs` are arrays, which are truthy even when
 * empty, so their absence is `None`.
 */
module SeoModel {
  import opened Wrappers

  /** Site origin and name (src/seo/schema.js:6-7). */
  const SITE_URL: string := "https://clearmark.dharmikgohil.in"
  const SITE_NAME: string := "Clearmark"

  datatype Faq = Faq(q: string, a: string)

  /**
   * A topic page. `model`, `dim2` and `intent` are the factory's `_model`,
   * `_dim2` and `_intent` bookkeeping fields.
   */
  datatype Topic = Topic(
    slug: string,
    category: string,
    subcategory: string,
    title: string,
    heading: string,
    description: string,
    content: string,
    faqs: Option<seq<Faq>>,
    schemaType: string,
    model: string,
    dim2: string,
    intent: string,
    relatedSlugs: Option<seq<string>>)

  datatype Category = Category(slug: string, title: string, description: string, icon: string)

  datatype Subcategory = Subcategory(parent: string, slug: string, title: string, description: string)

  /** The canonical path `/${category}/${slug}/` of a topic page. */
  function Canonical(t: Topic): string
  {
    "/" + t.category + "/" + t.slug + "/"
  }

  /** The slugs of a topic list, as a set. */
  function SlugSet(ts: seq<Topic>): set<string>
  {
    if ts == [] then {} else SlugSet(ts[..|ts| - 1]) + {ts[|ts| - 1].slug}
  }

  /** x is in the slug set exactly when some topic of the list has slug x. */
  lemma {:induction false} SlugSetMembers(ts: seq<Topic>)
    ensures forall i | 0 <= i < |ts| :: ts[i].slug in SlugSet(ts)
    ensures forall x | x in SlugSet(ts) :: exists i :: 0 <= i < |ts| && ts[i].slug == x
  {
    if ts != [] {
      var init := ts[..|ts| - 1];
      SlugSetMembers(init);
      forall i | 0 <= i < |ts| - 1
        ensures ts[i] == init[i]
      {
      }
    }
  }

  lemma SlugSetAppend(ts: seq<Topic>, t: Topic)
    ensures SlugSet(ts + [t]) == SlugSet(ts) + {t.slug}
  {
    assert (ts + [t])[..|ts|] == ts;
  }

  /** No two topics of the list share a slug. */
  predicate DistinctSlugs(ts: seq<Topic>)
  {
    forall i, j | 0 <= i < j < |ts| :: ts[i].slug != ts[j].slug
  }

  /** `ts.filter(p)`. */
  function Where(ts: seq<Topic>, p: Topic -> bool): (r: seq<Topic>)
    ensures |r| <= |ts|
  {
    if ts == [] then [] else Where(ts[..|ts| - 1], p) + (if p(ts[|ts| - 1]) then [ts[|ts| - 1]] else [])
  }

  /** The filter keeps exactly the topics satisfying p. */
  lemma {:induction false} WhereMembers(ts: seq<Topic>, p: Topic -> bool)
    ensures forall t :: t in Where(ts, p) <==> t in ts && p(t)
  {
    if ts != [] {
      WhereMembers(ts[..|ts| - 1], p);
      assert ts == ts[..|ts| - 1] + [ts[|ts| - 1]];
    }
  }

  /** The filter keeps the original order: filtering a concatenation filters each part. */
  lemma {:induction false} WhereConcat(a: seq<Topic>, b: seq<Topic>, p: Topic -> bool)
    ensures Where(a + b, p) == Where(a, p) + Where(b, p)
    decreases |b|
  {
    if b == [] {
      assert a + b == a;
    } else {
      var b' := b[..|b| - 1];
      assert (a + b)[..|a + b| - 1] == a + b';
      WhereConcat(a, b', p);
    }
  }

  /** Nothing passes the filter when no topic satisfies p. */
  lemma {:induction false} WhereEmpty(ts: seq<Topic>, p: Topic -> bool)
    requires forall t | t in ts :: !p(t)
    ensures Where(ts, p) == []
  {
    if ts != [] {
      WhereEmpty(ts[..|ts| - 1], p);
      assert ts[|ts| - 1] in ts;
    }
  }

  /** A filter of a list with distinct slugs has distinct slugs. */
  lemma {:induction false} WhereDistinct(ts: seq<Topic>, p: Topic -> bool)
    requires DistinctSlugs(ts)
    ensures DistinctSlugs(Where(ts, p))
  {
    if ts != [] {
      var init := ts[..|ts| - 1];
      WhereDistinct(init, p);
      WhereMembers(init, p);
      var last := ts[|ts| - 1];
      forall t | t in Where(init, p)
        ensures t.slug != last.slug
      {
        var k :| 0 <= k < |init| && init[k] == t;
      }
    }
  }
}
