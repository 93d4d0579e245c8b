/**
 * The list-shaping rules of a topic page (src/seo/templates/topicPage.js):
 * its breadcrumb trail, the structured data it embeds, and the FAQ and
 * related-article sections that appear only when they have something to show.
 * The surrounding markup's whitespace is not modelled; each section is the
 * concatenation of its opening markup, its items and its closing markup.
 */
module TopicPageTemplate {
  import opened Wrappers
  import opened SeoModel
  import opened Text
  import opened StructuredData
  import Metadata
  import Topics

  /** `topic.subcategory ? SUBCATEGORIES[topic.subcategory] : null`; an unknown key reads as `undefined`. */
  function SubcategoryOf(topic: Topic, subcategories: map<string, Subcategory>): Option<Subcategory>
  {
    if topic.subcategory != "" && topic.subcategory in subcategories then Some(subcategories[topic.subcategory]) else None
  }

  /** Home, the category, the subcategory when there is one, then the page itself without a url. */
  function TopicCrumbs(topic: Topic, cat: Category, sub: Option<Subcategory>): seq<Crumb>
  {
    [Crumb("Home", "/"), Crumb(cat.title, "/" + cat.slug + "/")]
    + (if sub.Some? then [Crumb(sub.value.title, "/" + sub.value.parent + "/" + sub.value.slug + "/")] else [])
    + [Crumb(topic.heading, "")]
  }

  /**
   * There are 3 crumbs, or 4 when the topic has a subcategory; they start at
   * Home and the category hub, end at the page's heading, and only that last
   * one has no url.
   */
  lemma TopicCrumbsShape(topic: Topic, cat: Category, sub: Option<Subcategory>)
    ensures var crumbs := TopicCrumbs(topic, cat, sub);
      (|crumbs| == 4 <==> sub.Some?) && (|crumbs| == 3 <==> sub.None?)
      && crumbs[0] == Crumb("Home", "/") && crumbs[1] == Crumb(cat.title, "/" + cat.slug + "/")
      && crumbs[|crumbs| - 1] == Crumb(topic.heading, "")
      && forall i | 0 <= i < |crumbs| :: crumbs[i].url == "" <==> i == |crumbs| - 1
  {
  }

  /** The markup of crumb i: a link followed by a separator, or a plain span for the last crumb. */
  function CrumbHtml(crumbs: seq<Crumb>, i: nat): string
    requires i < |crumbs|
  {
    if i < |crumbs| - 1 then "<a href=\"" + SITE_URL + crumbs[i].url + "\">" + crumbs[i].name + "</a> <span>/</span>"
    else "<span>" + crumbs[i].name + "</span>"
  }

  /** The crumbs' markup joined by spaces (src/seo/templates/topicPage.js:39-43). */
  function BreadcrumbHtml(crumbs: seq<Crumb>): string
  {
    Join(seq(|crumbs|, i requires 0 <= i < |crumbs| => CrumbHtml(crumbs, i)), " ")
  }

  /** On a topic page every crumb but the heading links to its absolute URL; the heading is a span. */
  lemma TopicBreadcrumbLinks(topic: Topic, cat: Category, sub: Option<Subcategory>)
    ensures var crumbs := TopicCrumbs(topic, cat, sub);
      (forall i | 0 <= i < |crumbs| - 1 :: "<a href=\"" + SITE_URL + crumbs[i].url + "\">" <= CrumbHtml(crumbs, i))
      && CrumbHtml(crumbs, |crumbs| - 1) == "<span>" + topic.heading + "</span>"
  {
    var crumbs := TopicCrumbs(topic, cat, sub);
    forall i | 0 <= i < |crumbs| - 1
      ensures "<a href=\"" + SITE_URL + crumbs[i].url + "\">" <= CrumbHtml(crumbs, i)
    {
      var p := "<a href=\"" + SITE_URL + crumbs[i].url + "\">";
      assert CrumbHtml(crumbs, i) == p + (crumbs[i].name + "</a> <span>/</span>");
    }
  }

  const FAQ_OPEN: string := "<section class=\"faq\"><h2>Frequently Asked Questions</h2>"
  const SECTION_CLOSE: string := "</section>"

  function FaqItem(f: Faq): string
  {
    "<div class=\"faq-item\"><h3>" + f.q + "</h3><p>" + f.a + "</p></div>"
  }

  function FaqItems(faqs: seq<Faq>): seq<string>
  {
    seq(|faqs|, i requires 0 <= i < |faqs| => FaqItem(faqs[i]))
  }

  /** The FAQ section (src/seo/templates/topicPage.js:62-71). */
  function FaqSection(faqs: Option<seq<Faq>>): string
  {
    if faqs.Some? && |faqs.value| > 0 then FAQ_OPEN + Join(FaqItems(faqs.value), "") + SECTION_CLOSE else ""
  }

  /**
   * The FAQ section is empty exactly when the FAQs are missing or empty, which
   * is exactly when the page carries no FAQ schema; otherwise it has one item
   * per FAQ, in order.
   */
  lemma FaqSectionShown(faqs: Option<seq<Faq>>)
    ensures FaqSection(faqs) == "" <==> faqs.None? || |faqs.value| == 0
    ensures FaqSection(faqs) == "" <==> FaqSchema(faqs).None?
    ensures faqs.Some? ==>
      |FaqItems(faqs.value)| == |faqs.value| && forall i | 0 <= i < |faqs.value| :: FaqItems(faqs.value)[i] == FaqItem(faqs.value[i])
  {
    if faqs.Some? && |faqs.value| > 0 {
      assert |FaqSection(faqs)| >= |FAQ_OPEN|;
    }
  }

  const RELATED_OPEN: string := "<section class=\"related\"><h2>Related Articles</h2><div class=\"related-grid\">"
  const RELATED_CLOSE: string := "</div></section>"

  /** A related article's card, with the first 100 characters of its description. */
  function RelatedCard(r: Topic): string
  {
    "<a href=\"" + SITE_URL + Canonical(r) + "\" class=\"related-card\"><h3>" + r.heading + "</h3><p>"
    + Prefix(r.description, 100) + "…</p></a>"
  }

  /** The related-articles section (src/seo/templates/topicPage.js:47-59). */
  function RelatedSection(related: seq<Topic>): string
  {
    if |related| > 0 then RELATED_OPEN + Join(seq(|related|, i requires 0 <= i < |related| => RelatedCard(related[i])), "") + RELATED_CLOSE
    else ""
  }

  /**
   * The related section is empty exactly when `getRelatedTopics` finds no
   * topic. When every related slug names a topic, as the factory's resolution
   * guarantees for generated topics, that is exactly when the topic has no
   * related slugs.
   */
  lemma RelatedSectionShown(ts: seq<Topic>, topic: Topic)
    ensures RelatedSection(Topics.RelatedTopics(ts, topic)) == "" <==> Topics.RelatedTopics(ts, topic) == []
    ensures topic.relatedSlugs.Some? && (forall s | s in topic.relatedSlugs.value :: s in SlugSet(ts)) ==>
      (RelatedSection(Topics.RelatedTopics(ts, topic)) == "" <==> topic.relatedSlugs.value == [])
  {
    var related := Topics.RelatedTopics(ts, topic);
    if |related| > 0 {
      assert |RelatedSection(related)| >= |RELATED_OPEN|;
    }
    if topic.relatedSlugs.Some? && (forall s | s in topic.relatedSlugs.value :: s in SlugSet(ts)) {
      Topics.SlugIndexLastWins(ts);
      Topics.LookUpAllKnown(Topics.SlugIndex(ts), topic.relatedSlugs.value, []);
    }
  }

  /** The parts of a rendered topic page. */
  datatype TopicPage = TopicPage(
    canonical: string,
    meta: seq<Metadata.Tag>,
    schemas: seq<Option<Schema>>,
    crumbs: seq<Crumb>,
    breadcrumbHtml: string,
    faqHtml: string,
    relatedHtml: string)

  /**
   * `renderTopicPage(topic)` over the topic list ts and the category and
   * subcategory tables; `today` is the build date. None stands for the
   * TypeError the template raises when the topic's category is not in the table.
   */
  function RenderTopicPage(topic: Topic, ts: seq<Topic>, categories: map<string, Category>,
                           subcategories: map<string, Subcategory>, today: string): Option<TopicPage>
  {
    if topic.category !in categories then None
    else
      var cat := categories[topic.category];
      var canonical := "/" + topic.category + "/" + topic.slug + "/";
      var crumbs := TopicCrumbs(topic, cat, SubcategoryOf(topic, subcategories));
      Some(TopicPage(
        canonical,
        Metadata.MetaTags(topic.title, topic.description, canonical, None),
        [Some(ArticleSchema(topic, topic.category, today)), FaqSchema(topic.faqs), Some(BreadcrumbSchema(crumbs))],
        crumbs,
        BreadcrumbHtml(crumbs),
        FaqSection(topic.faqs),
        RelatedSection(Topics.RelatedTopics(ts, topic))))
  }

  /**
   * A topic page exists exactly when its category is known. Its canonical path
   * is the topic's, its metadata is an article's and points at that path, its
   * article schema names the same page, and its breadcrumb schema has one item
   * per crumb with the page's own item last and without a link.
   */
  lemma TopicPageFacts(topic: Topic, ts: seq<Topic>, categories: map<string, Category>,
                       subcategories: map<string, Subcategory>, today: string)
    ensures RenderTopicPage(topic, ts, categories, subcategories, today).Some? <==> topic.category in categories
    ensures var p := RenderTopicPage(topic, ts, categories, subcategories, today);
      p.Some? ==>
        p.value.canonical == Canonical(topic)
        && Metadata.LinkTag("canonical", SITE_URL + Canonical(topic)) in p.value.meta
        && Metadata.MetaProperty("og:type", "article") in p.value.meta
        && p.value.schemas[0].value.mainEntityOfPage == SITE_URL + Canonical(topic)
        && |p.value.schemas[2].value.itemListElement| == |p.value.crumbs|
        && p.value.schemas[2].value.itemListElement[|p.value.crumbs| - 1] == ListItem(|p.value.crumbs|, topic.heading, None)
  {
    var p := RenderTopicPage(topic, ts, categories, subcategories, today);
    if p.Some? {
      var cat := categories[topic.category];
      TopicCrumbsShape(topic, cat, SubcategoryOf(topic, subcategories));
      ArticleSchemaPage(topic, today);
      BreadcrumbItems(p.value.crumbs);
    }
  }
}
