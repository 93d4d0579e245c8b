/**
 * The list-shaping rules of a subcategory hub page
 * (src/seo/templates/subcategoryPage.js): the grid capped at 100 topics with
 * a note counting the rest, the collection schema capped at 50 items while
 * still counting every topic, and the cross-links to sibling subcategories.
 */
module SubcategoryPageTemplate {
  import opened Wrappers
  import opened SeoModel
  import opened Text
  import opened StructuredData
  import Metadata
  import HubPageTemplate

  /** `MAX_DISPLAY` (src/seo/templates/subcategoryPage.js:14). */
  const MAX_DISPLAY: nat := 100

  /** The number of topics the collection schema lists (src/seo/templates/subcategoryPage.js:36). */
  const ITEM_LIST_MAX: nat := 50

  /** `topics.slice(0, n)`. */
  function Take(topics: seq<Topic>, n: nat): (r: seq<Topic>)
    ensures |r| == if |topics| <= n then |topics| else n
    ensures r <= topics
  {
    if |topics| <= n then topics else topics[..n]
  }

  /** `Object.values(SUBCATEGORIES).filter(s => s.parent === sub.parent && s.slug !== sub.slug)`. */
  function Siblings(subcategories: seq<Subcategory>, sub: Subcategory): seq<Subcategory>
  {
    if subcategories == [] then []
    else
      var last := subcategories[|subcategories| - 1];
      Siblings(subcategories[..|subcategories| - 1], sub)
      + (if last.parent == sub.parent && last.slug != sub.slug then [last] else [])
  }

  /** The siblings are exactly the subcategories under the same parent with another slug. */
  lemma {:induction false} SiblingsMembers(subcategories: seq<Subcategory>, sub: Subcategory)
    ensures forall s :: s in Siblings(subcategories, sub) <==> s in subcategories && s.parent == sub.parent && s.slug != sub.slug
    ensures sub !in Siblings(subcategories, sub)
  {
    if subcategories != [] {
      SiblingsMembers(subcategories[..|subcategories| - 1], sub);
      assert subcategories == subcategories[..|subcategories| - 1] + [subcategories[|subcategories| - 1]];
    }
  }

  /** The description width of the grid's cards (src/seo/templates/subcategoryPage.js:87). */
  const CARD_WIDTH: nat := 100

  /** A sibling subcategory's card, with the first 100 characters of its description. */
  function SiblingCard(s: Subcategory): string
  {
    "<a href=\"" + SITE_URL + "/" + s.parent + "/" + s.slug + "/\" class=\"related-card\"><h3>" + s.title + "</h3><p>"
    + Prefix(s.description, 100) + "…</p></a>"
  }

  /** The sibling section (src/seo/templates/subcategoryPage.js:63-74), headed with the parent's title. */
  function SiblingSection(parentTitle: string, siblings: seq<Subcategory>): string
  {
    if |siblings| > 0 then
      "<section class=\"related\"><h2>More in " + parentTitle + "</h2><div class=\"related-grid\">"
      + Join(seq(|siblings|, i requires 0 <= i < |siblings| => SiblingCard(siblings[i])), "") + "</div></section>"
    else ""
  }

  /** The sibling section is the empty string exactly when the parent has no other subcategory. */
  lemma SiblingSectionShown(parentTitle: string, subcategories: seq<Subcategory>, sub: Subcategory)
    ensures SiblingSection(parentTitle, Siblings(subcategories, sub)) == ""
      <==> forall s | s in subcategories && s.parent == sub.parent :: s.slug == sub.slug
  {
    var siblings := Siblings(subcategories, sub);
    SiblingsMembers(subcategories, sub);
    if |siblings| > 0 {
      assert |SiblingSection(parentTitle, siblings)| >= 1;
      assert siblings[0] in siblings;
    }
  }

  /** The note under the grid; `formatCount` stands for `Number.prototype.toLocaleString`. */
  function MoreNote(remaining: int, formatCount: int -> string): string
  {
    if remaining > 0 then "<p>+ " + formatCount(remaining) + " more articles indexed in the sitemap</p>" else ""
  }

  /** The parts of a rendered subcategory page. */
  datatype SubcategoryPage = SubcategoryPage(
    canonical: string,
    meta: seq<Metadata.Tag>,
    schemas: seq<Option<Schema>>,
    displayed: seq<Topic>,
    remaining: int,
    moreNote: string,
    siblings: seq<Subcategory>,
    siblingHtml: string,
    countLabel: string,
    gridHtml: string)

  /**
   * `renderSubcategoryPage(sub, topics)` over the category table and the
   * subcategory list. None stands for the TypeError the template raises when
   * the parent category is not in the table.
   */
  function RenderSubcategoryPage(sub: Subcategory, topics: seq<Topic>, categories: map<string, Category>,
                                 subcategories: seq<Subcategory>, formatCount: int -> string): Option<SubcategoryPage>
  {
    if sub.parent !in categories then None
    else
      var parent := categories[sub.parent];
      var canonical := "/" + sub.parent + "/" + sub.slug + "/";
      var collection := CollectionPage(sub.title, sub.description, SITE_URL + canonical, Some(|topics|),
                                       HubPageTemplate.TopicItems(Take(topics, ITEM_LIST_MAX)));
      var crumbs := [Crumb("Home", "/"), Crumb(parent.title, "/" + parent.slug + "/"), Crumb(sub.title, "")];
      var displayed := Take(topics, MAX_DISPLAY);
      var remaining := |topics| - |displayed|;
      Some(SubcategoryPage(
        canonical,
        Metadata.MetaTags(sub.title + " | Clearmark", sub.description, canonical, Some("website")),
        [Some(collection), Some(BreadcrumbSchema(crumbs))],
        displayed,
        remaining,
        MoreNote(remaining, formatCount),
        Siblings(subcategories, sub),
        SiblingSection(parent.title, Siblings(subcategories, sub)),
        formatCount(|topics|) + " articles",
        HubPageTemplate.Grid(displayed, CARD_WIDTH)))
  }

  /**
   * The grid shows the first min(n, 100) topics in order, the rest are
   * counted, and the note appears exactly when some topic is not shown.
   */
  lemma DisplayCap(sub: Subcategory, topics: seq<Topic>, categories: map<string, Category>,
                   subcategories: seq<Subcategory>, formatCount: int -> string)
    requires sub.parent in categories
    ensures var p := RenderSubcategoryPage(sub, topics, categories, subcategories, formatCount).value;
      p.displayed <= topics
      && |p.displayed| == (if |topics| <= MAX_DISPLAY then |topics| else MAX_DISPLAY)
      && p.remaining == |topics| - |p.displayed| && p.remaining >= 0
      && (p.moreNote != "" <==> p.remaining > 0)
      && (p.remaining > 0 <==> |topics| > MAX_DISPLAY)
  {
  }

  /**
   * The collection schema counts every topic but lists at most 50, numbered
   * from 1, each linking the topic at the same position.
   */
  lemma ItemListCap(sub: Subcategory, topics: seq<Topic>, categories: map<string, Category>,
                    subcategories: seq<Subcategory>, formatCount: int -> string)
    requires sub.parent in categories
    ensures var p := RenderSubcategoryPage(sub, topics, categories, subcategories, formatCount).value;
      var c := p.schemas[0].value;
      c.numberOfItems == Some(|topics|)
      && |c.elements| <= ITEM_LIST_MAX
      && |c.elements| == (if |topics| <= ITEM_LIST_MAX then |topics| else ITEM_LIST_MAX)
      && Numbered(c.elements)
      && forall i | 0 <= i < |c.elements| :: c.elements[i].item == Some(SITE_URL + Canonical(topics[i]))
  {
    var shown := Take(topics, ITEM_LIST_MAX);
    HubPageTemplate.TopicItemsNumbered(shown);
    assert forall i | 0 <= i < |shown| :: shown[i] == topics[i];
  }

  /**
   * The canonical path is `/parent/slug/`, the breadcrumb is Home, the parent
   * hub and the subcategory (unlinked), and the siblings are the other
   * subcategories of the same parent.
   */
  lemma SubcategoryPageFacts(sub: Subcategory, topics: seq<Topic>, categories: map<string, Category>,
                             subcategories: seq<Subcategory>, formatCount: int -> string)
    ensures RenderSubcategoryPage(sub, topics, categories, subcategories, formatCount).Some? <==> sub.parent in categories
    ensures var r := RenderSubcategoryPage(sub, topics, categories, subcategories, formatCount);
      r.Some? ==>
        var parent := categories[sub.parent];
        r.value.canonical == "/" + sub.parent + "/" + sub.slug + "/"
        && r.value.schemas[1].value.itemListElement == [
             ListItem(1, "Home", Some(SITE_URL + "/")),
             ListItem(2, parent.title, Some(SITE_URL + ("/" + parent.slug + "/"))),
             ListItem(3, sub.title, None)]
        && (forall s :: s in r.value.siblings <==> s in subcategories && s.parent == sub.parent && s.slug != sub.slug)
  {
    var r := RenderSubcategoryPage(sub, topics, categories, subcategories, formatCount);
    if sub.parent in categories {
      var parent := categories[sub.parent];
      var crumbs := [Crumb("Home", "/"), Crumb(parent.title, "/" + parent.slug + "/"), Crumb(sub.title, "")];
      assert r.value.schemas[1] == Some(BreadcrumbSchema(crumbs));
      BreadcrumbItems(crumbs);
      assert r.value.siblings == Siblings(subcategories, sub);
      SiblingsMembers(subcategories, sub);
    }
  }
}
