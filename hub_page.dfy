/**
 * The list-shaping rules of a category hub page (src/seo/templates/hubPage.js):
 * which topics it lists and in which order, the numbered item list of its
 * collection schema, the cross-links to the other hubs and the article count.
 */
module HubPageTemplate {
  import opened Wrappers
  import opened SeoModel
  import opened Text
  import opened StructuredData
  import Metadata
  import Topics

  /** A listed topic's `ListItem`: position i + 1, its heading and its absolute URL. */
  function TopicItem(t: Topic, i: nat): ListItem
  {
    ListItem(i + 1, t.heading, Some(SITE_URL + Canonical(t)))
  }

  /** The `itemListElement` of the collection schema (src/seo/templates/hubPage.js:34-39). */
  function TopicItems(topics: seq<Topic>): seq<ListItem>
  {
    seq(|topics|, i requires 0 <= i < |topics| => TopicItem(topics[i], i))
  }

  /** The items are numbered 1..n and the i-th links the i-th topic's canonical URL. */
  lemma TopicItemsNumbered(topics: seq<Topic>)
    ensures |TopicItems(topics)| == |topics| && Numbered(TopicItems(topics))
    ensures forall i | 0 <= i < |topics| :: TopicItems(topics)[i].item == Some(SITE_URL + Canonical(topics[i]))
  {
  }

  /** `Object.values(CATEGORIES).filter(c => c.slug !== slug)`. */
  function OtherCategories(categories: seq<Category>, slug: string): seq<Category>
  {
    if categories == [] then []
    else
      var last := categories[|categories| - 1];
      OtherCategories(categories[..|categories| - 1], slug) + (if last.slug != slug then [last] else [])
  }

  /** The sibling hubs are exactly the categories with another slug. */
  lemma {:induction false} OtherCategoriesMembers(categories: seq<Category>, slug: string)
    ensures forall c :: c in OtherCategories(categories, slug) <==> c in categories && c.slug != slug
    ensures |OtherCategories(categories, slug)| <= |categories|
  {
    if categories != [] {
      OtherCategoriesMembers(categories[..|categories| - 1], slug);
      assert categories == categories[..|categories| - 1] + [categories[|categories| - 1]];
    }
  }

  /** A sibling hub's card, with the first 100 characters of its description. */
  function HubCard(h: Category): string
  {
    "<a href=\"" + SITE_URL + "/" + h.slug + "/\" class=\"related-card\"><h3>" + h.title + "</h3><p>"
    + Prefix(h.description, 100) + "…</p></a>"
  }

  const SIBLINGS_OPEN: string := "<section class=\"related\"><h2>Explore More</h2><div class=\"related-grid\">"
  const SIBLINGS_CLOSE: string := "</div></section>"

  /** The sibling section (src/seo/templates/hubPage.js:59-70). */
  function SiblingSection(siblings: seq<Category>): string
  {
    if |siblings| > 0 then SIBLINGS_OPEN + Join(seq(|siblings|, i requires 0 <= i < |siblings| => HubCard(siblings[i])), "") + SIBLINGS_CLOSE
    else ""
  }

  /** The sibling section is the empty string exactly when no other category exists. */
  lemma SiblingSectionShown(categories: seq<Category>, slug: string)
    ensures SiblingSection(OtherCategories(categories, slug)) == "" <==> forall c | c in categories :: c.slug == slug
  {
    var siblings := OtherCategories(categories, slug);
    OtherCategoriesMembers(categories, slug);
    if |siblings| > 0 {
      assert |SiblingSection(siblings)| >= |SIBLINGS_OPEN|;
      assert siblings[0] in siblings;
    }
  }

  /** A topic's card in a hub grid, with the first `width` characters of its description. */
  function GridCard(t: Topic, width: nat): string
  {
    "<a href=\"" + SITE_URL + Canonical(t) + "\" class=\"hub-card\"><h3>" + t.heading + "</h3><p>"
    + Prefix(t.description, width) + "…</p></a>"
  }

  /** The grid of topic cards, in list order. */
  function Grid(topics: seq<Topic>, width: nat): string
  {
    Join(seq(|topics|, i requires 0 <= i < |topics| => GridCard(topics[i], width)), "")
  }

  /** The description width of the cards of a category hub (src/seo/templates/hubPage.js:80). */
  const HUB_CARD_WIDTH: nat := 120

  /** `${n} article${n !== 1 ? 's' : ''}`. */
  function ArticleCount(n: nat): string
  {
    NatToString(n) + " article" + (if n != 1 then "s" else "")
  }

  /** The label reads `article` for exactly one topic and `articles` for any other count, zero included. */
  lemma ArticleCountPlural(n: nat)
    ensures var words := ArticleCount(n);
      (words[|words| - 1] == 's' <==> n != 1) && NatToString(n) <= words
  {
    var words := ArticleCount(n);
    assert words == NatToString(n) + (" article" + (if n != 1 then "s" else ""));
  }

  /** The parts of a rendered hub page. */
  datatype HubPage = HubPage(
    canonical: string,
    meta: seq<Metadata.Tag>,
    topics: seq<Topic>,
    schemas: seq<Option<Schema>>,
    siblings: seq<Category>,
    siblingHtml: string,
    countLabel: string,
    gridHtml: string)

  /** `renderHubPage(category)` over the topic list ts and the category table. */
  function RenderHubPage(category: Category, categories: seq<Category>, ts: seq<Topic>): HubPage
  {
    var topics := Topics.TopicsByCategory(ts, category.slug);
    var canonical := "/" + category.slug + "/";
    var collection := CollectionPage(category.title, category.description, SITE_URL + canonical, None, TopicItems(topics));
    var siblings := OtherCategories(categories, category.slug);
    HubPage(
      canonical,
      Metadata.MetaTags(category.title + " | Clearmark", category.description, canonical, Some("website")),
      topics,
      [Some(collection), Some(BreadcrumbSchema([Crumb("Home", "/"), Crumb(category.title, "")]))],
      siblings,
      SiblingSection(siblings),
      ArticleCount(|topics|),
      Grid(topics, HUB_CARD_WIDTH))
  }

  /**
   * A hub lists exactly the topics of its category, in list order, numbered
   * 1..n in its collection schema; its canonical path is `/slug/`, its
   * metadata is a website's, its breadcrumb is Home (linked) then the category
   * (unlinked), and its sibling hubs are all the other categories.
   */
  lemma HubPageFacts(category: Category, categories: seq<Category>, ts: seq<Topic>)
    ensures var p := RenderHubPage(category, categories, ts);
      (forall t :: t in p.topics <==> t in ts && t.category == category.slug)
      && p.canonical == "/" + category.slug + "/"
      && Metadata.MetaProperty("og:type", "website") in p.meta
      && |p.schemas[0].value.elements| == |p.topics| && Numbered(p.schemas[0].value.elements)
      && p.schemas[1].value.itemListElement == [ListItem(1, "Home", Some(SITE_URL + "/")), ListItem(2, category.title, None)]
      && (forall c :: c in p.siblings <==> c in categories && c.slug != category.slug)
  {
    var p := RenderHubPage(category, categories, ts);
    Topics.TopicsByCategoryExact(ts, [], category.slug);
    TopicItemsNumbered(p.topics);
    OtherCategoriesMembers(categories, category.slug);
    var items := p.schemas[1].value.itemListElement;
    BreadcrumbItems([Crumb("Home", "/"), Crumb(category.title, "")]);
  }
}
