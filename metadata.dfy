/**
 * The `<head>` metadata of a page (src/seo/metadata.js): HTML escaping of
 * text placed in attributes and elements, and the list of title, meta and
 * link tags a page carries.
 */
module Metadata {
  import opened Wrappers
  import opened SeoModel

  /** `s.replace(/c/g, rep)`: every occurrence of the character c replaced by rep. */
  function ReplaceAll(s: string, c: char, rep: string): string
  {
    if s == [] then [] else (if s[0] == c then rep else [s[0]]) + ReplaceAll(s[1..], c, rep)
  }

  /** `esc` (src/seo/metadata.js:42-44): `&` first, then `"`, `<` and `>`. */
  function Esc(s: string): string
  {
    ReplaceAll(ReplaceAll(ReplaceAll(ReplaceAll(s, '&', "&amp;"), '"', "&quot;"), '<', "&lt;"), '>', "&gt;")
  }

  /** The entity a single character becomes, or the character itself. */
  function EscChar(c: char): string
  {
    if c == '&' then "&amp;"
    else if c == '"' then "&quot;"
    else if c == '<' then "&lt;"
    else if c == '>' then "&gt;"
    else [c]
  }

  /** Reference definition: each character escaped on its own, in order. */
  function EscapeEach(s: string): string
  {
    if s == [] then [] else EscChar(s[0]) + EscapeEach(s[1..])
  }

  lemma {:induction false} ReplaceAllConcat(a: string, b: string, c: char, rep: string)
    ensures ReplaceAll(a + b, c, rep) == ReplaceAll(a, c, rep) + ReplaceAll(b, c, rep)
  {
    if a != [] {
      var head := if a[0] == c then rep else [a[0]];
      assert (a + b)[0] == a[0] && (a + b)[1..] == a[1..] + b;
      ReplaceAllConcat(a[1..], b, c, rep);
      calc {
        ReplaceAll(a + b, c, rep);
        head + ReplaceAll(a[1..] + b, c, rep);
        head + (ReplaceAll(a[1..], c, rep) + ReplaceAll(b, c, rep));
        (head + ReplaceAll(a[1..], c, rep)) + ReplaceAll(b, c, rep);
      }
    } else {
      assert a + b == b;
    }
  }

  lemma {:induction false} ReplaceAllAbsent(s: string, c: char, rep: string)
    requires c !in s
    ensures ReplaceAll(s, c, rep) == s
  {
    if s != [] {
      assert s[1..] <= s[1..] && forall x | x in s[1..] :: x in s;
      ReplaceAllAbsent(s[1..], c, rep);
    }
  }

  lemma ReplaceAllSingle(x: char, c: char, rep: string)
    ensures ReplaceAll([x], c, rep) == if x == c then rep else [x]
  {
    assert [x][1..] == [];
  }

  /** Escaping one character: the chain of replacements turns it into its entity. */
  lemma EscSingle(c: char)
    ensures Esc([c]) == EscChar(c)
  {
    ChainSingle(c, "&amp;", "&quot;", "&lt;", "&gt;");
  }

  /**
   * The chain of four replacements on one character, for any entities e1..e4
   * that do not contain the characters replaced after them.
   */
  lemma ChainSingle(c: char, e1: string, e2: string, e3: string, e4: string)
    requires '"' !in e1 && '<' !in e1 && '>' !in e1 && '<' !in e2 && '>' !in e2 && '>' !in e3
    ensures ReplaceAll(ReplaceAll(ReplaceAll(ReplaceAll([c], '&', e1), '"', e2), '<', e3), '>', e4)
      == if c == '&' then e1 else if c == '"' then e2 else if c == '<' then e3 else if c == '>' then e4 else [c]
  {
    ReplaceAllSingle(c, '&', e1);
    var r1 := ReplaceAll([c], '&', e1);
    if c == '&' {
      ReplaceAllAbsent(r1, '"', e2);
      ReplaceAllAbsent(r1, '<', e3);
      ReplaceAllAbsent(r1, '>', e4);
    } else {
      ReplaceAllSingle(c, '"', e2);
      var r2 := ReplaceAll(r1, '"', e2);
      if c == '"' {
        ReplaceAllAbsent(r2, '<', e3);
        ReplaceAllAbsent(r2, '>', e4);
      } else {
        ReplaceAllSingle(c, '<', e3);
        var r3 := ReplaceAll(r2, '<', e3);
        if c == '<' {
          ReplaceAllAbsent(r3, '>', e4);
        } else {
          ReplaceAllSingle(c, '>', e4);
        }
      }
    }
  }

  /** The four chained global replacements escape each character on its own. */
  lemma {:induction false} EscIsPerCharacter(s: string)
    ensures Esc(s) == EscapeEach(s)
  {
    if s != [] {
      var a, b := [s[0]], s[1..];
      assert s == a + b;
      ReplaceAllConcat(a, b, '&', "&amp;");
      var a1, b1 := ReplaceAll(a, '&', "&amp;"), ReplaceAll(b, '&', "&amp;");
      ReplaceAllConcat(a1, b1, '"', "&quot;");
      var a2, b2 := ReplaceAll(a1, '"', "&quot;"), ReplaceAll(b1, '"', "&quot;");
      ReplaceAllConcat(a2, b2, '<', "&lt;");
      var a3, b3 := ReplaceAll(a2, '<', "&lt;"), ReplaceAll(b2, '<', "&lt;");
      ReplaceAllConcat(a3, b3, '>', "&gt;");
      assert Esc(s) == Esc(a) + Esc(b);
      EscSingle(s[0]);
      EscIsPerCharacter(b);
    }
  }

  /** A character that needs escaping. */
  predicate Special(c: char)
  {
    c == '&' || c == '"' || c == '<' || c == '>'
  }

  /** The four entities `esc` produces. */
  predicate EntityAt(s: string, i: nat)
  {
    i <= |s| && ("&amp;" <= s[i..] || "&quot;" <= s[i..] || "&lt;" <= s[i..] || "&gt;" <= s[i..])
  }

  lemma {:induction false} EscapeEachShape(s: string)
    ensures forall i | 0 <= i < |EscapeEach(s)| :: EscapeEach(s)[i] != '"' && EscapeEach(s)[i] != '<' && EscapeEach(s)[i] != '>'
    ensures forall i | 0 <= i < |EscapeEach(s)| && EscapeEach(s)[i] == '&' :: EntityAt(EscapeEach(s), i)
  {
    if s != [] {
      var head, tail := EscChar(s[0]), EscapeEach(s[1..]);
      EscapeEachShape(s[1..]);
      var r := EscapeEach(s);
      assert r == head + tail;
      forall i | 0 <= i < |r| && r[i] == '&'
        ensures EntityAt(r, i)
      {
        if i < |head| {
          assert i == 0;
          assert r[i..] == head + tail;
        } else {
          assert r[i..] == tail[i - |head|..];
        }
      }
    }
  }

  /** `esc` output never holds `"`, `<` or `>`, so it cannot close an attribute value or open a tag. */
  lemma EscHasNoQuotesOrBrackets(s: string)
    ensures forall i | 0 <= i < |Esc(s)| :: Esc(s)[i] != '"' && Esc(s)[i] != '<' && Esc(s)[i] != '>'
  {
    EscIsPerCharacter(s);
    EscapeEachShape(s);
  }

  /** Every `&` of `esc` output begins one of the four entities, because `&` is replaced first. */
  lemma EscAmpersandsBeginEntities(s: string)
    ensures forall i | 0 <= i < |Esc(s)| && Esc(s)[i] == '&' :: EntityAt(Esc(s), i)
  {
    EscIsPerCharacter(s);
    EscapeEachShape(s);
  }

  /** Decoding of the four entities, as an HTML reader does; any other character passes through. */
  function Unescape(s: string): string
    decreases |s|
  {
    if s == [] then []
    else if "&amp;" <= s then "&" + Unescape(s[5..])
    else if "&quot;" <= s then "\"" + Unescape(s[6..])
    else if "&lt;" <= s then "<" + Unescape(s[4..])
    else if "&gt;" <= s then ">" + Unescape(s[4..])
    else [s[0]] + Unescape(s[1..])
  }

  lemma UnescapeStep(c: char, rest: string)
    ensures Unescape(EscChar(c) + rest) == [c] + Unescape(rest)
  {
    var s := EscChar(c) + rest;
    if c == '&' {
      assert "&amp;" <= s && s[5..] == rest;
    } else if c == '"' {
      assert !("&amp;" <= s) by { assert s[1] == 'q'; }
      assert "&quot;" <= s && s[6..] == rest;
    } else if c == '<' {
      assert !("&amp;" <= s) && !("&quot;" <= s) by { assert s[1] == 'l'; }
      assert "&lt;" <= s && s[4..] == rest;
    } else if c == '>' {
      assert !("&amp;" <= s) && !("&quot;" <= s) && !("&lt;" <= s) by { assert s[1] == 'g'; }
      assert "&gt;" <= s && s[4..] == rest;
    } else {
      assert s[0] == c && s[1..] == rest;
      assert !("&amp;" <= s) && !("&quot;" <= s) && !("&lt;" <= s) && !("&gt;" <= s) by {
        assert s[0] != '&';
      }
    }
  }

  /** Decoding the entities of `esc(s)` gives back s: characters other than `&"<>` pass through unchanged and in order. */
  lemma {:induction false} UnescapeEsc(s: string)
    ensures Unescape(Esc(s)) == s
  {
    EscIsPerCharacter(s);
    UnescapeEscapeEach(s);
  }

  lemma {:induction false} UnescapeEscapeEach(s: string)
    ensures Unescape(EscapeEach(s)) == s
  {
    if s != [] {
      UnescapeStep(s[0], EscapeEach(s[1..]));
      UnescapeEscapeEach(s[1..]);
    }
  }

  /** Distinct texts stay distinct once escaped. */
  lemma EscInjective(a: string, b: string)
    requires Esc(a) == Esc(b)
    ensures a == b
  {
    UnescapeEsc(a);
    UnescapeEsc(b);
  }

  /** A text with none of `&"<>` is emitted as it is. */
  lemma {:induction false} EscPlainText(s: string)
    requires forall i | 0 <= i < |s| :: !Special(s[i])
    ensures Esc(s) == s
  {
    EscIsPerCharacter(s);
    EscapeEachPlain(s);
  }

  lemma {:induction false} EscapeEachPlain(s: string)
    requires forall i | 0 <= i < |s| :: !Special(s[i])
    ensures EscapeEach(s) == s
  {
    if s != [] {
      EscapeEachPlain(s[1..]);
    }
  }

  /** One element of the metadata block. */
  datatype Tag =
    | TitleTag(text: string)
    | MetaName(name: string, content: string)
    | MetaProperty(property: string, content: string)
    | LinkTag(rel: string, href: string)

  /** The Open Graph image (src/seo/metadata.js:19). */
  const OG_IMAGE: string := SITE_URL + "/og-default.png"

  /** `generateMetaTags` (src/seo/metadata.js:17-40), in document order; an absent `ogType` is `'article'`. */
  function MetaTags(title: string, description: string, canonical: string, ogType: Option<string>): seq<Tag>
  {
    TagsOf(Esc(title), Esc(description), SITE_URL + canonical, if ogType.Some? then ogType.value else "article")
  }

  /** The template of the metadata block, filled with the escaped title and description, the full URL and the type. */
  function TagsOf(title: string, description: string, fullUrl: string, kind: string): seq<Tag>
  {
    [ TitleTag(title),
      MetaName("description", description),
      LinkTag("canonical", fullUrl),
      MetaProperty("og:type", kind),
      MetaProperty("og:title", title),
      MetaProperty("og:description", description),
      MetaProperty("og:url", fullUrl),
      MetaProperty("og:site_name", SITE_NAME),
      MetaProperty("og:image", OG_IMAGE),
      MetaName("twitter:card", "summary_large_image"),
      MetaName("twitter:title", title),
      MetaName("twitter:description", description),
      MetaName("twitter:image", OG_IMAGE) ]
  }

  /** The text a tag carries: its content, its href or its element text. */
  function Carried(tag: Tag): string
  {
    match tag
    case TitleTag(text) => text
    case MetaName(_, content) => content
    case MetaProperty(_, content) => content
    case LinkTag(_, href) => href
  }

  /** The tags that show the page's title or description. */
  predicate CarriesPageText(tag: Tag)
  {
    match tag
    case TitleTag(_) => true
    case MetaName(name, _) => name == "description" || name == "twitter:title" || name == "twitter:description"
    case MetaProperty(property, _) => property == "og:title" || property == "og:description"
    case LinkTag(_, _) => false
  }

  /** The page's address: the canonical link and `og:url` are both the site origin followed by the canonical path. */
  lemma MetaTagsAddress(title: string, description: string, canonical: string, ogType: Option<string>)
    ensures var tags := MetaTags(title, description, canonical, ogType);
      forall tag | tag in tags && (tag == LinkTag("canonical", Carried(tag)) || tag == MetaProperty("og:url", Carried(tag))) ::
        Carried(tag) == SITE_URL + canonical
    ensures LinkTag("canonical", SITE_URL + canonical) in MetaTags(title, description, canonical, ogType)
    ensures MetaProperty("og:url", SITE_URL + canonical) in MetaTags(title, description, canonical, ogType)
  {
    TagsOfAddress(Esc(title), Esc(description), SITE_URL + canonical, if ogType.Some? then ogType.value else "article");
  }

  /** Both address tags carry the full URL, over the tag list of plain strings. */
  lemma TagsOfAddress(title: string, description: string, fullUrl: string, kind: string)
    ensures var tags := TagsOf(title, description, fullUrl, kind);
      (forall tag | tag in tags && (tag == LinkTag("canonical", Carried(tag)) || tag == MetaProperty("og:url", Carried(tag))) ::
        Carried(tag) == fullUrl)
      && LinkTag("canonical", fullUrl) in tags && MetaProperty("og:url", fullUrl) in tags
  {
    var tags := TagsOf(title, description, fullUrl, kind);
    assert tags[2] == LinkTag("canonical", fullUrl) && tags[6] == MetaProperty("og:url", fullUrl);
  }

  /** `og:type` is the given type, or `article` when none is given. */
  lemma MetaTagsType(title: string, description: string, canonical: string, ogType: Option<string>)
    ensures var tags := MetaTags(title, description, canonical, ogType);
      MetaProperty("og:type", if ogType.None? then "article" else ogType.value) in tags
      && forall tag | tag in tags && tag.MetaProperty? && tag.property == "og:type" ::
        tag.content == (if ogType.None? then "article" else ogType.value)
  {
    TagsOfType(Esc(title), Esc(description), SITE_URL + canonical, if ogType.Some? then ogType.value else "article");
  }

  /** The `og:type` tag carries the kind, over the tag list of plain strings. */
  lemma TagsOfType(title: string, description: string, fullUrl: string, kind: string)
    ensures var tags := TagsOf(title, description, fullUrl, kind);
      MetaProperty("og:type", kind) in tags
      && forall tag | tag in tags && tag.MetaProperty? && tag.property == "og:type" :: tag.content == kind
  {
    assert TagsOf(title, description, fullUrl, kind)[3] == MetaProperty("og:type", kind);
  }

  /**
   * Title and description are escaped wherever they appear: each tag that
   * shows them carries the escaped title or the escaped description, so none
   * of them holds a raw `"`, `<` or `>`.
   */
  lemma MetaTagsEscapeText(title: string, description: string, canonical: string, ogType: Option<string>)
    ensures var tags := MetaTags(title, description, canonical, ogType);
      forall tag | tag in tags && CarriesPageText(tag) :: Carried(tag) == Esc(title) || Carried(tag) == Esc(description)
    ensures var tags := MetaTags(title, description, canonical, ogType);
      forall tag | tag in tags && CarriesPageText(tag) ::
        forall i | 0 <= i < |Carried(tag)| :: Carried(tag)[i] != '"' && Carried(tag)[i] != '<' && Carried(tag)[i] != '>'
  {
    TagsOfText(Esc(title), Esc(description), SITE_URL + canonical, if ogType.Some? then ogType.value else "article");
    EscHasNoQuotesOrBrackets(title);
    EscHasNoQuotesOrBrackets(description);
  }

  /** Every tag that shows page text carries the title or the description it was given. */
  lemma TagsOfText(title: string, description: string, fullUrl: string, kind: string)
    ensures var tags := TagsOf(title, description, fullUrl, kind);
      forall tag | tag in tags && CarriesPageText(tag) :: Carried(tag) == title || Carried(tag) == description
  {
    var tags := TagsOf(title, description, fullUrl, kind);
    assert !CarriesPageText(tags[2]) && !CarriesPageText(tags[3]) && !CarriesPageText(tags[6]);
    assert !CarriesPageText(tags[7]) && !CarriesPageText(tags[8]) && !CarriesPageText(tags[9]);
    assert !CarriesPageText(tags[12]);
    forall tag | tag in tags && CarriesPageText(tag)
      ensures Carried(tag) == title || Carried(tag) == description
    {
      var k :| 0 <= k < |tags| && tags[k] == tag;
      if k == 0 || k == 4 || k == 10 {
        assert Carried(tags[k]) == title;
      } else if k == 1 || k == 5 || k == 11 {
        assert Carried(tags[k]) == description;
      }
    }
  }
}
