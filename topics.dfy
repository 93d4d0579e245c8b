/**
 * The unified topic list and its lookups (src/seo/data/topics.js): seed
 * topics first, then the generated topics whose slug no seed uses, with the
 * generated topics' related slugs resolved over the whole generated list.
 * The lookups are parameterised over the topic list they read.
 */
module Topics {
  import opened Wrappers
  import opened SeoModel
  import Factory

  /** Keeps the topics whose slug is not in `slugs`. */
  function SlugNotIn(slugs: set<string>): Topic -> bool
  {
    (t: Topic) => t.slug !in slugs
  }

  /** `[...SEED_TOPICS, ...dedupedFactory]` (src/seo/data/topics.js:216-219). */
  function MergeTopics(seeds: seq<Topic>, generated: seq<Topic>): seq<Topic>
  {
    seeds + Where(generated, SlugNotIn(SlugSet(seeds)))
  }

  /**
   * Builds `TOPICS` (src/seo/data/topics.js:212-219): generate, resolve the
   * related slugs in place over the full generated list, then drop the
   * generated topics whose slug a seed topic already uses.
   */
  method BuildTopics(seeds: seq<Topic>, intents: map<string, Factory.Intent>, calls: seq<Factory.AddCall>) returns (topics: seq<Topic>)
    requires Factory.Callable(intents, calls)
    ensures topics == MergeTopics(seeds, Factory.Resolved(Factory.Generated(intents, calls)))
  {
    var generated := Factory.GenerateAllTopics(intents, calls);
    var factoryTopics := new Topic[|generated|](i requires 0 <= i < |generated| => generated[i]);
    assert factoryTopics[..] == generated;
    Factory.ResolveRelatedSlugs(factoryTopics);
    var seedSlugs := SlugSet(seeds);
    var deduped := Where(factoryTopics[..], SlugNotIn(seedSlugs));
    topics := seeds + deduped;
  }

  /**
   * The merged list starts with the seeds in order; after them come exactly
   * the generated topics whose slug is not a seed slug, in generated order:
   * merging a concatenation appends the second part's kept topics to the
   * first part's merge, and a single generated topic is kept exactly when no
   * seed has its slug.
   */
  lemma MergeShape(seeds: seq<Topic>, generated: seq<Topic>, more: seq<Topic>)
    ensures var ts := MergeTopics(seeds, generated);
      ts[..|seeds|] == seeds
      && (forall t :: t in ts[|seeds|..] <==> t in generated && t.slug !in SlugSet(seeds))
    ensures MergeTopics(seeds, generated + more) == MergeTopics(seeds, generated) + MergeTopics(seeds, more)[|seeds|..]
    ensures forall g :: MergeTopics(seeds, [g]) == seeds + (if g.slug in SlugSet(seeds) then [] else [g])
  {
    var ts := MergeTopics(seeds, generated);
    var keep := SlugNotIn(SlugSet(seeds));
    assert ts[..|seeds|] == seeds;
    assert ts[|seeds|..] == Where(generated, keep);
    WhereMembers(generated, keep);
    MergeConcat(seeds, generated, more);
    forall g
      ensures MergeTopics(seeds, [g]) == seeds + (if g.slug in SlugSet(seeds) then [] else [g])
    {
      MergeOne(seeds, g);
    }
  }

  /** Merging a concatenation appends the second part's kept topics. */
  lemma MergeConcat(seeds: seq<Topic>, generated: seq<Topic>, more: seq<Topic>)
    ensures MergeTopics(seeds, generated + more) == MergeTopics(seeds, generated) + MergeTopics(seeds, more)[|seeds|..]
  {
    var keep := SlugNotIn(SlugSet(seeds));
    var a, b := Where(generated, keep), Where(more, keep);
    WhereConcat(generated, more, keep);
    assert MergeTopics(seeds, more)[|seeds|..] == b;
    calc {
      MergeTopics(seeds, generated + more);
      seeds + (a + b);
      { Factory.AppendAssoc(seeds, a, b); }
      seeds + a + b;
    }
  }

  /** A single generated topic is kept exactly when no seed has its slug. */
  lemma MergeOne(seeds: seq<Topic>, g: Topic)
    ensures MergeTopics(seeds, [g]) == seeds + (if g.slug in SlugSet(seeds) then [] else [g])
  {
    assert [g][..0] == [];
  }

  /** When seeds and generated topics each have distinct slugs, so does the merged list. */
  lemma MergeDistinct(seeds: seq<Topic>, generated: seq<Topic>)
    requires DistinctSlugs(seeds) && DistinctSlugs(generated)
    ensures DistinctSlugs(MergeTopics(seeds, generated))
  {
    var rest := Where(generated, SlugNotIn(SlugSet(seeds)));
    WhereDistinct(generated, SlugNotIn(SlugSet(seeds)));
    WhereMembers(generated, SlugNotIn(SlugSet(seeds)));
    SlugSetMembers(seeds);
    var ts := seeds + rest;
    forall i, j | 0 <= i < j < |ts|
      ensures ts[i].slug != ts[j].slug
    {
      if i < |seeds| && |seeds| <= j {
        assert ts[j] == rest[j - |seeds|] && rest[j - |seeds|] in rest;
      } else if |seeds| <= i {
        assert ts[i] == rest[i - |seeds|] && ts[j] == rest[j - |seeds|];
      }
    }
  }

  /**
   * Because related slugs are resolved before the seed filter, a dropped
   * generated topic can still be named; its slug then belongs to a seed, so
   * every related slug of a generated topic in the merged list still names a
   * topic of the merged list.
   */
  lemma GeneratedRelatedSlugsResolve(seeds: seq<Topic>, generated: seq<Topic>)
    ensures var ts := MergeTopics(seeds, Factory.Resolved(generated));
      forall t, s | t in ts[|seeds|..] && t.relatedSlugs.Some? && s in t.relatedSlugs.value :: s in SlugSet(ts)
  {
    var resolved := Factory.Resolved(generated);
    var ts := MergeTopics(seeds, resolved);
    assert ts[|seeds|..] == Where(resolved, SlugNotIn(SlugSet(seeds)));
    WhereMembers(resolved, SlugNotIn(SlugSet(seeds)));
    forall t, s | t in ts[|seeds|..] && t.relatedSlugs.Some? && s in t.relatedSlugs.value
      ensures s in SlugSet(ts)
    {
      var i :| 0 <= i < |resolved| && resolved[i] == t;
      RelatedSlugResolves(seeds, generated, i, s);
    }
  }

  lemma RelatedSlugResolves(seeds: seq<Topic>, generated: seq<Topic>, i: nat, s: string)
    requires i < |generated|
    requires Factory.Resolved(generated)[i].relatedSlugs.Some? && s in Factory.Resolved(generated)[i].relatedSlugs.value
    ensures s in SlugSet(MergeTopics(seeds, Factory.Resolved(generated)))
  {
    var resolved := Factory.Resolved(generated);
    Factory.ResolvedRelatedAreSlugs(generated, i);
    var k :| 0 <= k < |generated| && generated[k].slug == s;
    assert resolved[k].slug == s;
    MergedKeepsSlug(seeds, resolved, k);
  }

  /** Every slug of the generated list is still a slug of the merged list, through a seed or through the kept topic. */
  lemma MergedKeepsSlug(seeds: seq<Topic>, generated: seq<Topic>, k: nat)
    requires k < |generated|
    ensures generated[k].slug in SlugSet(MergeTopics(seeds, generated))
  {
    var ts := MergeTopics(seeds, generated);
    var keep := SlugNotIn(SlugSet(seeds));
    SlugSetMembers(ts);
    SlugSetMembers(seeds);
    if generated[k].slug in SlugSet(seeds) {
      var j :| 0 <= j < |seeds| && seeds[j].slug == generated[k].slug;
      assert ts[j] == seeds[j];
    } else {
      WhereMembers(generated, keep);
      assert generated[k] in Where(generated, keep);
      assert generated[k] in ts;
    }
  }

  /** `_slugIndex`: `new Map(TOPICS.map(t => [t.slug, t]))`, where a later topic overwrites an earlier one with the same slug. */
  function SlugIndex(ts: seq<Topic>): map<string, Topic>
  {
    if ts == [] then map[] else SlugIndex(ts[..|ts| - 1])[ts[|ts| - 1].slug := ts[|ts| - 1]]
  }

  /** `getTopicBySlug`: the indexed topic, or `null` (src/seo/data/topics.js:225-227). */
  function TopicBySlug(ts: seq<Topic>, slug: string): Option<Topic>
  {
    var index := SlugIndex(ts);
    if slug in index then Some(index[slug]) else None
  }

  /**
   * The index maps each slug of the list to the last topic with that slug, and
   * has no other keys.
   */
  lemma {:induction false} SlugIndexLastWins(ts: seq<Topic>)
    ensures forall slug :: slug in SlugIndex(ts) <==> slug in SlugSet(ts)
    ensures forall slug | slug in SlugIndex(ts) ::
      exists i :: 0 <= i < |ts| && ts[i] == SlugIndex(ts)[slug] && ts[i].slug == slug
        && forall j | i < j < |ts| :: ts[j].slug != slug
  {
    if ts != [] {
      var init := ts[..|ts| - 1];
      var last := ts[|ts| - 1];
      SlugIndexLastWins(init);
      forall slug | slug in SlugIndex(ts)
        ensures exists i :: 0 <= i < |ts| && ts[i] == SlugIndex(ts)[slug] && ts[i].slug == slug && forall j | i < j < |ts| :: ts[j].slug != slug
      {
        if slug == last.slug {
          assert ts[|ts| - 1] == SlugIndex(ts)[slug];
        } else {
          var i :| 0 <= i < |init| && init[i] == SlugIndex(init)[slug] && init[i].slug == slug
            && forall j | i < j < |init| :: init[j].slug != slug;
          assert ts[i] == SlugIndex(ts)[slug];
          forall j | i < j < |ts|
            ensures ts[j].slug != slug
          {
            if j < |init| {
              assert ts[j] == init[j];
            }
          }
        }
      }
    }
  }

  /**
   * `getTopicBySlug` returns `null` exactly for slugs no topic has; with
   * distinct slugs it returns the one topic carrying the slug.
   */
  lemma TopicBySlugFinds(ts: seq<Topic>, slug: string)
    ensures TopicBySlug(ts, slug).None? <==> slug !in SlugSet(ts)
    ensures DistinctSlugs(ts) ==> forall i | 0 <= i < |ts| && ts[i].slug == slug :: TopicBySlug(ts, slug) == Some(ts[i])
  {
    SlugIndexLastWins(ts);
    SlugSetMembers(ts);
    if DistinctSlugs(ts) {
      forall i | 0 <= i < |ts| && ts[i].slug == slug
        ensures TopicBySlug(ts, slug) == Some(ts[i])
      {
        var k :| 0 <= k < |ts| && ts[k] == SlugIndex(ts)[slug] && ts[k].slug == slug
          && forall j | k < j < |ts| :: ts[j].slug != slug;
        assert k == i;
      }
    }
  }

  function InCategory(categorySlug: string): Topic -> bool
  {
    (t: Topic) => t.category == categorySlug
  }

  function InSubcategory(subcategorySlug: string): Topic -> bool
  {
    (t: Topic) => t.subcategory == subcategorySlug
  }

  /** `getTopicsByCategory` (src/seo/data/topics.js:229-231). */
  function TopicsByCategory(ts: seq<Topic>, categorySlug: string): seq<Topic>
  {
    Where(ts, InCategory(categorySlug))
  }

  /** `getTopicsBySubcategory` (src/seo/data/topics.js:233-235). */
  function TopicsBySubcategory(ts: seq<Topic>, subcategorySlug: string): seq<Topic>
  {
    Where(ts, InSubcategory(subcategorySlug))
  }

  /**
   * Exactly the topics of the category, in list order: membership is the
   * category test, and the lookup over a concatenation is the concatenation of
   * the lookups.
   */
  lemma TopicsByCategoryExact(a: seq<Topic>, b: seq<Topic>, categorySlug: string)
    ensures forall t :: t in TopicsByCategory(a, categorySlug) <==> t in a && t.category == categorySlug
    ensures TopicsByCategory(a + b, categorySlug) == TopicsByCategory(a, categorySlug) + TopicsByCategory(b, categorySlug)
  {
    WhereMembers(a, InCategory(categorySlug));
    WhereConcat(a, b, InCategory(categorySlug));
  }

  /** The same for subcategories. */
  lemma TopicsBySubcategoryExact(a: seq<Topic>, b: seq<Topic>, subcategorySlug: string)
    ensures forall t :: t in TopicsBySubcategory(a, subcategorySlug) <==> t in a && t.subcategory == subcategorySlug
    ensures TopicsBySubcategory(a + b, subcategorySlug) == TopicsBySubcategory(a, subcategorySlug) + TopicsBySubcategory(b, subcategorySlug)
  {
    WhereMembers(a, InSubcategory(subcategorySlug));
    WhereConcat(a, b, InSubcategory(subcategorySlug));
  }

  /** `.map(s => index.get(s)).filter(Boolean)`: the indexed topics of the slugs, in order, unknown slugs dropped. */
  function LookUpAll(index: map<string, Topic>, slugs: seq<string>): seq<Topic>
  {
    if slugs == [] then []
    else
      var last := slugs[|slugs| - 1];
      LookUpAll(index, slugs[..|slugs| - 1]) + (if last in index then [index[last]] else [])
  }

  /** `getRelatedTopics` (src/seo/data/topics.js:237-241). */
  function RelatedTopics(ts: seq<Topic>, topic: Topic): seq<Topic>
  {
    LookUpAll(SlugIndex(ts), if topic.relatedSlugs.Some? then topic.relatedSlugs.value else [])
  }

  /** Looking up a concatenation looks up each part in turn. */
  lemma {:induction false} LookUpAllConcat(index: map<string, Topic>, a: seq<string>, b: seq<string>)
    ensures LookUpAll(index, a + b) == LookUpAll(index, a) + LookUpAll(index, b)
    decreases |b|
  {
    if b == [] {
      assert a + b == a;
    } else {
      var b' := b[..|b| - 1];
      assert (a + b)[..|a + b| - 1] == a + b';
      LookUpAllConcat(index, a, b');
    }
  }

  /**
   * Lookup keeps order and drops exactly the unknown slugs: looking up a
   * concatenation concatenates the lookups, a known slug gives its indexed
   * topic and an unknown one nothing, so when every slug is known the result
   * has one topic per slug, position by position.
   */
  lemma LookUpAllKnown(index: map<string, Topic>, slugs: seq<string>, more: seq<string>)
    ensures LookUpAll(index, slugs + more) == LookUpAll(index, slugs) + LookUpAll(index, more)
    ensures forall s :: LookUpAll(index, [s]) == (if s in index then [index[s]] else [])
    ensures |LookUpAll(index, slugs)| <= |slugs|
    ensures forall t | t in LookUpAll(index, slugs) :: exists s :: s in slugs && s in index && index[s] == t
    ensures (forall s | s in slugs :: s in index) ==>
      |LookUpAll(index, slugs)| == |slugs| && forall i | 0 <= i < |slugs| :: LookUpAll(index, slugs)[i] == index[slugs[i]]
  {
    LookUpAllConcat(index, slugs, more);
    forall s
      ensures LookUpAll(index, [s]) == (if s in index then [index[s]] else [])
    {
      LookUpOne(index, s);
    }
    LookUpAllEntries(index, slugs);
  }

  /** A known slug gives its indexed topic, an unknown one nothing. */
  lemma LookUpOne(index: map<string, Topic>, s: string)
    ensures LookUpAll(index, [s]) == (if s in index then [index[s]] else [])
  {
    assert [s][..0] == [];
  }

  /** Every looked-up topic is the entry of a known slug, and all known slugs give one topic each. */
  lemma {:induction false} LookUpAllEntries(index: map<string, Topic>, slugs: seq<string>)
    ensures |LookUpAll(index, slugs)| <= |slugs|
    ensures forall t | t in LookUpAll(index, slugs) :: exists s :: s in slugs && s in index && index[s] == t
    ensures (forall s | s in slugs :: s in index) ==>
      |LookUpAll(index, slugs)| == |slugs| && forall i | 0 <= i < |slugs| :: LookUpAll(index, slugs)[i] == index[slugs[i]]
  {
    if slugs != [] {
      var init := slugs[..|slugs| - 1];
      LookUpAllEntries(index, init);
      forall s | s in init
        ensures s in slugs
      {
      }
    }
  }

  /** A topic without `relatedSlugs` has no related topics; otherwise each related topic is the indexed topic of one of its slugs. */
  lemma RelatedTopicsSound(ts: seq<Topic>, topic: Topic)
    ensures topic.relatedSlugs.None? ==> RelatedTopics(ts, topic) == []
    ensures topic.relatedSlugs.Some? ==>
      forall t | t in RelatedTopics(ts, topic) :: exists s :: s in topic.relatedSlugs.value && TopicBySlug(ts, s) == Some(t)
  {
    if topic.relatedSlugs.Some? {
      LookUpAllKnown(SlugIndex(ts), topic.relatedSlugs.value, []);
    }
  }
}
