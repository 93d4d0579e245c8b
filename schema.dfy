/**
 * The schema.org JSON-LD objects the pages embed (src/seo/schema.js), as
 * values, and their rendering into script tags. `JSON.stringify` is a
 * parameter of the rendering: the model fixes which objects are emitted, in
 * which order, and how they are wrapped.
 */
module StructuredData {
  import opened Wrappers
  import opened SeoModel
  import opened Text

  /** The fixed publication date (src/seo/schema.js:26). */
  const DATE_PUBLISHED: string := "2025-01-01"

  /** A breadcrumb as the templates write it; `url` is empty for the crumb of the page itself. */
  datatype Crumb = Crumb(name: string, url: string)

  /** A `ListItem`; `item` is absent (`undefined`) when the crumb has no url. */
  datatype ListItem = ListItem(position: nat, name: string, item: Option<string>)

  /** A `Question` with its accepted answer's text. */
  datatype Question = Question(name: string, answer: string)

  datatype Schema =
    | Article(headline: string, description: string, mainEntityOfPage: string, datePublished: string, dateModified: string)
    | FaqPage(mainEntity: seq<Question>)
    | BreadcrumbList(itemListElement: seq<ListItem>)
    | CollectionPage(name: string, description: string, url: string, numberOfItems: Option<nat>, elements: seq<ListItem>)

  /** `articleSchema(topic, categorySlug)`; `today` is the build date `new Date()` supplies. */
  function ArticleSchema(topic: Topic, categorySlug: string, today: string): Schema
  {
    Article(topic.heading, topic.description, SITE_URL + "/" + categorySlug + "/" + topic.slug + "/", DATE_PUBLISHED, today)
  }

  /** Called with the topic's own category, the article's page is the topic's canonical URL. */
  lemma ArticleSchemaPage(topic: Topic, today: string)
    ensures var s := ArticleSchema(topic, topic.category, today);
      s.mainEntityOfPage == SITE_URL + Canonical(topic)
      && s.headline == topic.heading && s.description == topic.description
      && s.datePublished == DATE_PUBLISHED && s.dateModified == today
  {
  }

  /** `faqSchema(faqs)`: `null` (None) for a missing or empty list. */
  function FaqSchema(faqs: Option<seq<Faq>>): (r: Option<Schema>)
    ensures r.None? <==> faqs.None? || |faqs.value| == 0
    ensures r.Some? ==> r.value.FaqPage? && |r.value.mainEntity| == |faqs.value|
  {
    if faqs.None? || |faqs.value| == 0 then None
    else Some(FaqPage(seq(|faqs.value|, i requires 0 <= i < |faqs.value| => Question(faqs.value[i].q, faqs.value[i].a))))
  }

  /** The FAQ page lists one question per FAQ, in order: the question's name is q, its answer's text is a. */
  lemma FaqSchemaQuestions(faqs: seq<Faq>)
    requires faqs != []
    ensures var r := FaqSchema(Some(faqs));
      r.Some? && forall i | 0 <= i < |faqs| :: r.value.mainEntity[i].name == faqs[i].q && r.value.mainEntity[i].answer == faqs[i].a
  {
  }

  /** One crumb's `ListItem` at index i. */
  function CrumbItem(c: Crumb, i: nat): ListItem
  {
    ListItem(i + 1, c.name, if c.url != "" then Some(SITE_URL + c.url) else None)
  }

  /** `breadcrumbSchema(crumbs)` (src/seo/schema.js:50-61). */
  function BreadcrumbSchema(crumbs: seq<Crumb>): (r: Schema)
    ensures r.BreadcrumbList? && |r.itemListElement| == |crumbs|
  {
    BreadcrumbList(seq(|crumbs|, i requires 0 <= i < |crumbs| => CrumbItem(crumbs[i], i)))
  }

  /**
   * One `ListItem` per crumb in order: positions run 1..n, the name is the
   * crumb's, and `item` is the absolute URL exactly when the crumb has a url.
   */
  lemma BreadcrumbItems(crumbs: seq<Crumb>)
    ensures var items := BreadcrumbSchema(crumbs).itemListElement;
      forall i | 0 <= i < |crumbs| ::
        items[i].position == i + 1 && items[i].name == crumbs[i].name
        && (items[i].item.Some? <==> crumbs[i].url != "")
        && (items[i].item.Some? ==> items[i].item.value == SITE_URL + crumbs[i].url)
  {
  }

  /** The positions of a list are 1, 2, ... in order. */
  predicate Numbered(items: seq<ListItem>)
  {
    forall i | 0 <= i < |items| :: items[i].position == i + 1
  }

  /** `.filter(Boolean)` over the schema arguments: the objects present, in order. */
  function Present(schemas: seq<Option<Schema>>): seq<Schema>
  {
    if schemas == [] then []
    else Present(schemas[..|schemas| - 1]) + (if schemas[|schemas| - 1].Some? then [schemas[|schemas| - 1].value] else [])
  }

  /** `Present` keeps exactly the present objects: none exactly when every argument is absent. */
  lemma {:induction false} PresentMembers(schemas: seq<Option<Schema>>)
    ensures forall s :: s in Present(schemas) <==> Some(s) in schemas
    ensures Present(schemas) == [] <==> forall k | 0 <= k < |schemas| :: schemas[k].None?
    ensures |Present(schemas)| <= |schemas|
  {
    if schemas != [] {
      var init := schemas[..|schemas| - 1];
      PresentMembers(init);
      assert schemas == init + [schemas[|schemas| - 1]];
      if Present(schemas) == [] {
        forall k | 0 <= k < |schemas|
          ensures schemas[k].None?
        {
          if k < |init| {
            assert schemas[k] == init[k];
          }
        }
      }
    }
  }

  /** The filter works argument by argument: it keeps the order of the arguments and each present one once. */
  lemma {:induction false} PresentConcat(a: seq<Option<Schema>>, b: seq<Option<Schema>>, o: Option<Schema>)
    ensures Present(a + b) == Present(a) + Present(b)
    ensures Present([o]) == (if o.Some? then [o.value] else [])
    decreases |b|
  {
    assert [o][..0] == [];
    if b == [] {
      assert a + b == a;
    } else {
      var b' := b[..|b| - 1];
      assert (a + b)[..|a + b| - 1] == a + b';
      PresentConcat(a, b', o);
    }
  }

  const SCRIPT_OPEN: string := "<script type=\"application/ld+json\">"
  const SCRIPT_CLOSE: string := "</script>"
  const SCRIPT_SEPARATOR: string := "\n    "

  /** One script tag around the serialised object. */
  function ScriptTag(json: string): (tag: string)
    ensures |tag| > 0
  {
    SCRIPT_OPEN + json + SCRIPT_CLOSE
  }

  /** `renderSchemaScripts(...schemas)`, with `stringify` standing for `JSON.stringify`. */
  function RenderSchemaScripts(schemas: seq<Option<Schema>>, stringify: Schema -> string): string
  {
    Join(ScriptTags(Present(schemas), stringify), SCRIPT_SEPARATOR)
  }

  /** `.map(...)`: one script tag per object. */
  function ScriptTags(present: seq<Schema>, stringify: Schema -> string): seq<string>
  {
    seq(|present|, i requires 0 <= i < |present| => ScriptTag(stringify(present[i])))
  }

  lemma ScriptTagsConcat(x: seq<Schema>, y: seq<Schema>, stringify: Schema -> string)
    ensures ScriptTags(x + y, stringify) == ScriptTags(x, stringify) + ScriptTags(y, stringify)
  {
    assert forall i | 0 <= i < |x + y| :: (x + y)[i] == if i < |x| then x[i] else y[i - |x|];
  }

  /**
    * The scripts of two argument lists rendered together are the scripts of each, with one separator between
    * them when both have a present object.
    */
  lemma RenderSchemaScriptsConcat(a: seq<Option<Schema>>, b: seq<Option<Schema>>, stringify: Schema -> string)
    ensures RenderSchemaScripts(a + b, stringify) ==
      if Present(a) == [] then RenderSchemaScripts(b, stringify)
      else if Present(b) == [] then RenderSchemaScripts(a, stringify)
      else RenderSchemaScripts(a, stringify) + SCRIPT_SEPARATOR + RenderSchemaScripts(b, stringify)
  {
    PresentConcat(a, b, None);
    var ta, tb := ScriptTags(Present(a), stringify), ScriptTags(Present(b), stringify);
    ScriptTagsConcat(Present(a), Present(b), stringify);
    if ta == [] {
      assert ta + tb == tb;
    } else if tb == [] {
      assert ta + tb == ta;
    } else {
      JoinConcat(ta, tb, SCRIPT_SEPARATOR);
    }
  }

  /** The rendering is empty exactly when every schema is absent (falsy). */
  lemma RenderSchemaScriptsEmpty(schemas: seq<Option<Schema>>, stringify: Schema -> string)
    ensures RenderSchemaScripts(schemas, stringify) == "" <==> forall k | 0 <= k < |schemas| :: schemas[k].None?
  {
    PresentMembers(schemas);
    var tags := ScriptTags(Present(schemas), stringify);
    JoinEmpty(tags, SCRIPT_SEPARATOR);
    if |tags| == 1 {
      assert |tags[0]| > 0;
    }
  }

  /** A single present schema renders as exactly its script tag, with no separator. */
  lemma RenderSchemaScriptsSingle(schemas: seq<Option<Schema>>, stringify: Schema -> string, k: nat)
    requires k < |schemas| && schemas[k].Some?
    requires forall j | 0 <= j < |schemas| && j != k :: schemas[j].None?
    ensures RenderSchemaScripts(schemas, stringify) == ScriptTag(stringify(schemas[k].value))
  {
    PresentOnly(schemas, k);
  }

  lemma {:induction false} PresentOnly(schemas: seq<Option<Schema>>, k: nat)
    requires k < |schemas| && schemas[k].Some?
    requires forall j | 0 <= j < |schemas| && j != k :: schemas[j].None?
    ensures Present(schemas) == [schemas[k].value]
  {
    var init := schemas[..|schemas| - 1];
    if k == |schemas| - 1 {
      PresentMembers(init);
      assert forall j | 0 <= j < |init| :: init[j] == schemas[j];
    } else {
      PresentOnly(init, k);
    }
  }
}
