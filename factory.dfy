/**
 * Combinatorial topic generation and related-slug selection
 * (src/seo/data/factory.js).
 *
 * `generateAllTopics` is a sequence of `add` calls over the dimension tables;
 * the class `TopicFactory` holds the `topics` list and `slugSet` that `add`
 * updates, and `Generated` is the list a given sequence of calls produces.
 * The page text comes from the `INTENTS` templates, which are kept abstract:
 * an `Intent` is five functions of the two dimension arguments.
 */
module Factory {
  import opened Wrappers
  import opened SeoModel

  /** A dimension value (model, platform, format, size, use case or a composite of them); `attrs` holds its descriptive fields. */
  datatype Arg = Arg(id: string, slug: string, attrs: map<string, string>)

  /** The templates of one `INTENTS` entry. */
  datatype Intent = Intent(
    titleTpl: (Arg, Arg) -> string,
    headingTpl: (Arg, Arg) -> string,
    descTpl: (Arg, Arg) -> string,
    contentTpl: (Arg, Arg) -> string,
    faqsTpl: (Arg, Arg) -> seq<Faq>)

  /** The arguments of one `add(slug, category, subcategory, intentKey, arg1, arg2)` call. */
  datatype AddCall = AddCall(slug: string, category: string, subcategory: string, intentKey: string, arg1: Arg, arg2: Arg)

  /** `arg.id || arg.slug || ''`. */
  function KeyOf(a: Arg): string
  {
    if a.id != "" then a.id else if a.slug != "" then a.slug else ""
  }

  /** The `dummy` second argument of the three overview blocks (src/seo/data/factory.js:637). */
  const OVERVIEW_ARG: Arg := Arg("_", "", map["name" := ""])

  const COMPARE_INTENT: string := "watermark-vs"

  /** The topic record that `add` pushes for a call. */
  function MakeTopic(intents: map<string, Intent>, c: AddCall): Topic
    requires c.intentKey in intents
  {
    var intent := intents[c.intentKey];
    Topic(
      c.slug, c.category, c.subcategory,
      intent.titleTpl(c.arg1, c.arg2),
      intent.headingTpl(c.arg1, c.arg2),
      intent.descTpl(c.arg1, c.arg2),
      intent.contentTpl(c.arg1, c.arg2),
      Some(intent.faqsTpl(c.arg1, c.arg2)),
      "Article",
      KeyOf(c.arg1), KeyOf(c.arg2), c.intentKey,
      None)
  }

  /** The slugs of a call list, as a set. */
  function CallSlugs(calls: seq<AddCall>): set<string>
  {
    if calls == [] then {} else CallSlugs(calls[..|calls| - 1]) + {calls[|calls| - 1].slug}
  }

  /** x is in the set exactly when some call has slug x. */
  lemma {:induction false} CallSlugsMembers(calls: seq<AddCall>)
    ensures forall k | 0 <= k < |calls| :: calls[k].slug in CallSlugs(calls)
    ensures forall x | x in CallSlugs(calls) :: exists k :: 0 <= k < |calls| && calls[k].slug == x
  {
    if calls != [] {
      var init := calls[..|calls| - 1];
      CallSlugsMembers(init);
      forall k | 0 <= k < |calls| - 1
        ensures calls[k] == init[k]
      {
      }
    }
  }

  /**
   * Every call that reaches `INTENTS[intentKey]` finds its intent: a call
   * whose slug an earlier call already used returns before the lookup.
   */
  predicate Callable(intents: map<string, Intent>, calls: seq<AddCall>)
    decreases |calls|
  {
    calls == []
    || (Callable(intents, calls[..|calls| - 1])
        && (calls[|calls| - 1].slug in CallSlugs(calls[..|calls| - 1]) || calls[|calls| - 1].intentKey in intents))
  }

  /** Call k is the first call with this slug. */
  predicate IsFirstCall(calls: seq<AddCall>, k: int, slug: string)
  {
    0 <= k < |calls| && calls[k].slug == slug && forall k' | 0 <= k' < k :: calls[k'].slug != slug
  }

  lemma CallableAppend(intents: map<string, Intent>, calls: seq<AddCall>, c: AddCall)
    requires Callable(intents, calls)
    requires c.slug in CallSlugs(calls) || c.intentKey in intents
    ensures Callable(intents, calls + [c])
  {
    assert (calls + [c])[..|calls|] == calls;
  }

  lemma {:induction false} CallablePrefix(intents: map<string, Intent>, calls: seq<AddCall>, k: nat)
    requires Callable(intents, calls) && k <= |calls|
    ensures Callable(intents, calls[..k])
    decreases |calls|
  {
    if k < |calls| {
      CallablePrefix(intents, calls[..|calls| - 1], k);
      assert calls[..|calls| - 1][..k] == calls[..k];
    } else {
      assert calls[..k] == calls;
    }
  }

  /**
   * The topic list that the calls produce, in call order, with a call whose
   * slug was already added skipped. Its slugs are exactly the calls' slugs.
   */
  function Generated(intents: map<string, Intent>, calls: seq<AddCall>): (ts: seq<Topic>)
    requires Callable(intents, calls)
    ensures SlugSet(ts) == CallSlugs(calls)
  {
    if calls == [] then []
    else
      var init := calls[..|calls| - 1];
      var last := calls[|calls| - 1];
      var prev := Generated(intents, init);
      if last.slug in SlugSet(prev) then prev
      else
        SlugSetAppend(prev, MakeTopic(intents, last));
        prev + [MakeTopic(intents, last)]
  }

  /** One step of `Generated`: the last call adds a topic exactly when its slug is new. */
  lemma GeneratedStep(intents: map<string, Intent>, calls: seq<AddCall>)
    requires calls != [] && Callable(intents, calls)
    ensures Callable(intents, calls[..|calls| - 1])
    ensures var prev := Generated(intents, calls[..|calls| - 1]);
      var last := calls[|calls| - 1];
      if last.slug in CallSlugs(calls[..|calls| - 1]) then Generated(intents, calls) == prev
      else last.intentKey in intents && Generated(intents, calls) == prev + [MakeTopic(intents, last)]
  {
  }

  /** Generated slugs are pairwise distinct. */
  lemma {:induction false} GeneratedDistinct(intents: map<string, Intent>, calls: seq<AddCall>)
    requires Callable(intents, calls)
    ensures DistinctSlugs(Generated(intents, calls))
  {
    if calls != [] {
      GeneratedStep(intents, calls);
      var init := calls[..|calls| - 1];
      GeneratedDistinct(intents, init);
      SlugSetMembers(Generated(intents, init));
    }
  }

  lemma FirstCallExtends(calls: seq<AddCall>, k: int, slug: string)
    requires calls != [] && IsFirstCall(calls[..|calls| - 1], k, slug)
    ensures IsFirstCall(calls, k, slug)
  {
  }

  lemma LastIsFirstCall(calls: seq<AddCall>)
    requires calls != [] && calls[|calls| - 1].slug !in CallSlugs(calls[..|calls| - 1])
    ensures IsFirstCall(calls, |calls| - 1, calls[|calls| - 1].slug)
  {
    var init := calls[..|calls| - 1];
    CallSlugsMembers(init);
    forall k' | 0 <= k' < |calls| - 1
      ensures calls[k'].slug != calls[|calls| - 1].slug
    {
      assert calls[k'] == init[k'];
    }
  }

  /** A first call of a slug that already occurs before the last call lies before the last call. */
  lemma FirstCallInInit(calls: seq<AddCall>, k: int, slug: string)
    requires calls != [] && IsFirstCall(calls, k, slug)
    requires slug in CallSlugs(calls[..|calls| - 1])
    ensures k < |calls| - 1 && IsFirstCall(calls[..|calls| - 1], k, slug)
  {
    var init := calls[..|calls| - 1];
    CallSlugsMembers(init);
    var k0 :| 0 <= k0 < |init| && init[k0].slug == slug;
    assert calls[k0].slug == slug;
  }

  /** t is the record `add` builds from the first call with t's slug. */
  ghost predicate BuiltByFirstCall(intents: map<string, Intent>, calls: seq<AddCall>, t: Topic)
  {
    exists k :: IsFirstCall(calls, k, t.slug) && calls[k].intentKey in intents && t == MakeTopic(intents, calls[k])
  }

  /**
   * First `add` wins: every generated topic is the record built from the
   * first call with its slug.
   */
  lemma {:induction false} GeneratedFirstWins(intents: map<string, Intent>, calls: seq<AddCall>)
    requires Callable(intents, calls)
    ensures var ts := Generated(intents, calls);
      forall i | 0 <= i < |ts| :: BuiltByFirstCall(intents, calls, ts[i])
  {
    if calls != [] {
      GeneratedStep(intents, calls);
      var init := calls[..|calls| - 1];
      var last := calls[|calls| - 1];
      GeneratedFirstWins(intents, init);
      var prev := Generated(intents, init);
      var ts := Generated(intents, calls);
      forall i | 0 <= i < |ts|
        ensures BuiltByFirstCall(intents, calls, ts[i])
      {
        if i < |prev| {
          assert BuiltByFirstCall(intents, init, prev[i]);
          var k :| IsFirstCall(init, k, prev[i].slug) && init[k].intentKey in intents && prev[i] == MakeTopic(intents, init[k]);
          FirstCallExtends(calls, k, prev[i].slug);
          assert ts[i] == prev[i] && calls[k] == init[k];
        } else {
          LastIsFirstCall(calls);
          assert ts[i] == MakeTopic(intents, last);
        }
      }
    }
  }

  /** Generated topics keep the order of the first calls of their slugs. */
  lemma {:induction false} GeneratedInCallOrder(intents: map<string, Intent>, calls: seq<AddCall>)
    requires Callable(intents, calls)
    ensures var ts := Generated(intents, calls);
      forall i, j, ki, kj | 0 <= i < j < |ts| && IsFirstCall(calls, ki, ts[i].slug) && IsFirstCall(calls, kj, ts[j].slug) :: ki < kj
  {
    if calls != [] {
      GeneratedStep(intents, calls);
      var init := calls[..|calls| - 1];
      var last := calls[|calls| - 1];
      GeneratedInCallOrder(intents, init);
      var prev := Generated(intents, init);
      var ts := Generated(intents, calls);
      forall i, j, ki, kj | 0 <= i < j < |ts| && IsFirstCall(calls, ki, ts[i].slug) && IsFirstCall(calls, kj, ts[j].slug)
        ensures ki < kj
      {
        assert ts[i] == prev[i];
        SlugSetMembers(prev);
        FirstCallInInit(calls, ki, ts[i].slug);
        if j < |prev| {
          assert ts[j] == prev[j];
          FirstCallInInit(calls, kj, ts[j].slug);
          assert IsFirstCall(init, ki, prev[i].slug) && IsFirstCall(init, kj, prev[j].slug);
        } else {
          assert ts[j].slug == last.slug;
          CallSlugsMembers(init);
          forall k | 0 <= k < |init|
            ensures calls[k].slug != last.slug
          {
            assert calls[k] == init[k];
          }
        }
      }
    }
  }

  /** The call that compares m1 with m2 (src/seo/data/factory.js:528). */
  function CompareCall(m1: Arg, m2: Arg): AddCall
  {
    AddCall(m1.id + "-vs-" + m2.id + "-watermark", "learn", "compare", COMPARE_INTENT, m1, m2)
  }

  /** The calls of outer iteration i of the comparison block: models[i] against each later model. */
  function CompareRow(models: seq<Arg>, i: nat): seq<AddCall>
    requires i < |models|
  {
    seq(|models| - i - 1, k requires 0 <= k < |models| - i - 1 => CompareCall(models[i], models[i + 1 + k]))
  }

  /** Inner iteration j of row i appends the comparison of models[i] with models[j]. */
  lemma CompareRowStep(models: seq<Arg>, i: nat, j: nat)
    requires i < j < |models|
    ensures CompareRow(models, i)[..j - i] == CompareRow(models, i)[..j - i - 1] + [CompareCall(models[i], models[j])]
  {
    assert CompareRow(models, i)[j - i - 1] == CompareCall(models[i], models[j]);
  }

  /** The calls of the first i outer iterations. */
  function CompareRowsBefore(models: seq<Arg>, i: nat): seq<AddCall>
    requires i <= |models|
  {
    if i == 0 then [] else CompareRowsBefore(models, i - 1) + CompareRow(models, i - 1)
  }

  lemma CompareRowsBeforeStep(models: seq<Arg>, i: nat)
    requires i < |models|
    ensures CompareRowsBefore(models, i + 1) == CompareRowsBefore(models, i) + CompareRow(models, i)[..|models| - i - 1]
  {
    assert CompareRow(models, i)[..|models| - i - 1] == CompareRow(models, i);
  }

  lemma AppendAssoc<T>(a: seq<T>, b: seq<T>, c: seq<T>)
    ensures a + b + c == a + (b + c)
  {
  }

  /** The calls made by the comparison block (src/seo/data/factory.js:526-530). */
  function ComparisonCalls(models: seq<Arg>): seq<AddCall>
  {
    CompareRowsBefore(models, |models|)
  }

  /** Every call of the first i rows compares models[a] with a later models[b], a < i. */
  lemma {:induction false} CompareRowsBeforeSound(models: seq<Arg>, i: nat)
    requires i <= |models|
    ensures forall c | c in CompareRowsBefore(models, i) :: exists a, b :: 0 <= a < b < |models| && a < i && c == CompareCall(models[a], models[b])
  {
    if i > 0 {
      CompareRowsBeforeSound(models, i - 1);
      var row := CompareRow(models, i - 1);
      forall c | c in row
        ensures exists a, b :: 0 <= a < b < |models| && a < i && c == CompareCall(models[a], models[b])
      {
        var k :| 0 <= k < |row| && row[k] == c;
        assert c == CompareCall(models[i - 1], models[i + k]);
      }
    }
  }

  /** Every pair a < b with a < i is compared in the first i rows. */
  lemma {:induction false} CompareRowsBeforeComplete(models: seq<Arg>, i: nat)
    requires i <= |models|
    ensures forall a, b | 0 <= a < b < |models| && a < i :: CompareCall(models[a], models[b]) in CompareRowsBefore(models, i)
  {
    if i > 0 {
      CompareRowsBeforeComplete(models, i - 1);
      var row := CompareRow(models, i - 1);
      forall b | i - 1 < b < |models|
        ensures CompareCall(models[i - 1], models[b]) in row
      {
        assert row[b - i] == CompareCall(models[i - 1], models[b]);
      }
    }
  }

  /** Twice the number of calls in the first i rows is i(2n - i - 1). */
  lemma {:induction false} CompareRowsBeforeCount(models: seq<Arg>, i: nat)
    requires i <= |models|
    ensures 2 * |CompareRowsBefore(models, i)| == i * (2 * |models| - i - 1)
  {
    if i > 0 {
      CompareRowsBeforeCount(models, i - 1);
      var n := |models|;
      var m := i - 1;
      assert |CompareRow(models, m)| == n - m - 1;
      assert i * (2 * n - i - 1) == m * (2 * n - m - 1) + 2 * (n - m - 1) by {
        assert i * (2 * n - i - 1) == (m + 1) * (2 * n - m - 2);
        assert (m + 1) * (2 * n - m - 2) == m * (2 * n - m - 2) + (2 * n - m - 2);
        assert m * (2 * n - m - 2) == m * (2 * n - m - 1) - m;
      }
    }
  }

  /**
   * The comparison block compares only index pairs i < j, so no model meets
   * itself, every such pair occurs, and there are n(n-1)/2 calls, hence each
   * unordered pair exactly once.
   */
  lemma ComparisonPairs(models: seq<Arg>)
    ensures forall c | c in ComparisonCalls(models) :: exists i, j :: 0 <= i < j < |models| && c.arg1 == models[i] && c.arg2 == models[j]
    ensures forall i, j | 0 <= i < j < |models| :: CompareCall(models[i], models[j]) in ComparisonCalls(models)
    ensures 2 * |ComparisonCalls(models)| == |models| * (|models| - 1)
  {
    CompareRowsBeforeSound(models, |models|);
    CompareRowsBeforeComplete(models, |models|);
    CompareRowsBeforeCount(models, |models|);
  }

  /** `generateAllTopics`'s `topics` and `slugSet`, with the history of `add` calls as ghost state. */
  class TopicFactory {
    const intents: map<string, Intent>
    var topics: seq<Topic>
    var slugSet: set<string>
    ghost var calls: seq<AddCall>

    /** The list is what the recorded calls generate, and `slugSet` holds exactly its slugs. */
    ghost predicate Valid()
      reads this
    {
      Callable(intents, calls) && topics == Generated(intents, calls) && slugSet == SlugSet(topics)
    }

    constructor(intents: map<string, Intent>)
      ensures Valid()
      ensures this.intents == intents && calls == [] && topics == [] && slugSet == {}
    {
      this.intents := intents;
      topics := [];
      slugSet := {};
      calls := [];
    }

    /** `add` (src/seo/data/factory.js:476-495). */
    method Add(slug: string, category: string, subcategory: string, intentKey: string, arg1: Arg, arg2: Arg)
      requires Valid()
      requires slug in slugSet || intentKey in intents
      modifies this
      ensures Valid()
      ensures calls == old(calls) + [AddCall(slug, category, subcategory, intentKey, arg1, arg2)]
      ensures slug in old(slugSet) ==> topics == old(topics) && slugSet == old(slugSet)
      ensures slug !in old(slugSet) ==>
        intentKey in intents
        && topics == old(topics) + [MakeTopic(intents, AddCall(slug, category, subcategory, intentKey, arg1, arg2))]
        && slugSet == old(slugSet) + {slug}
    {
      var c := AddCall(slug, category, subcategory, intentKey, arg1, arg2);
      ghost var calls' := calls + [c];
      CallableAppend(intents, calls, c);
      GeneratedStep(intents, calls');
      assert calls'[..|calls|] == calls;
      if slug in slugSet {
        calls := calls';
        return;
      }
      slugSet := slugSet + {slug};
      var intent := intents[intentKey];
      topics := topics + [Topic(
        slug, category, subcategory,
        intent.titleTpl(arg1, arg2),
        intent.headingTpl(arg1, arg2),
        intent.descTpl(arg1, arg2),
        intent.contentTpl(arg1, arg2),
        Some(intent.faqsTpl(arg1, arg2)),
        "Article",
        KeyOf(arg1), KeyOf(arg2), intentKey,
        None)];
      assert topics == old(topics) + [MakeTopic(intents, c)];
      SlugSetAppend(old(topics), MakeTopic(intents, c));
      calls := calls';
    }

    /** The comparison block: `add` for every pair i < j of models (src/seo/data/factory.js:526-530). */
    method AddComparisons(models: seq<Arg>)
      requires Valid() && COMPARE_INTENT in intents
      modifies this
      ensures Valid()
      ensures calls == old(calls) + ComparisonCalls(models)
    {
      for i := 0 to |models|
        invariant Valid()
        invariant calls == old(calls) + CompareRowsBefore(models, i)
      {
        AddComparisonRow(models, i);
        CompareRowsBeforeStep(models, i);
        AppendAssoc(old(calls), CompareRowsBefore(models, i), CompareRow(models, i)[..|models| - i - 1]);
      }
    }

    /** Outer iteration i of the comparison block: models[i] against every later model. */
    method AddComparisonRow(models: seq<Arg>, i: nat)
      requires Valid() && COMPARE_INTENT in intents && i < |models|
      modifies this
      ensures Valid()
      ensures calls == old(calls) + CompareRow(models, i)[..|models| - i - 1]
    {
      ghost var row := CompareRow(models, i);
      for j := i + 1 to |models|
        invariant Valid()
        invariant calls == old(calls) + row[..j - i - 1]
      {
        Add(models[i].id + "-vs-" + models[j].id + "-watermark", "learn", "compare", COMPARE_INTENT, models[i], models[j]);
        CompareRowStep(models, i, j);
        AppendAssoc(old(calls), row[..j - i - 1], [CompareCall(models[i], models[j])]);
      }
    }
  }

  /** `generateAllTopics`, given the sequence of `add` calls its blocks make. */
  method GenerateAllTopics(intents: map<string, Intent>, calls: seq<AddCall>) returns (topics: seq<Topic>)
    requires Callable(intents, calls)
    ensures topics == Generated(intents, calls)
  {
    var factory := new TopicFactory(intents);
    for k := 0 to |calls|
      invariant factory.Valid() && factory.intents == intents
      invariant factory.calls == calls[..k]
    {
      var c := calls[k];
      CallablePrefix(intents, calls, k + 1);
      assert calls[..k + 1][..k] == calls[..k];
      factory.Add(c.slug, c.category, c.subcategory, c.intentKey, c.arg1, c.arg2);
      assert calls[..k + 1] == calls[..k] + [c];
    }
    assert calls[..|calls|] == calls;
    topics := factory.topics;
  }

  // ---------------------------------------------------------------------
  // resolveRelatedSlugs (src/seo/data/factory.js:661-685)

  /** `t.subcategory || t.category`, the key topics are grouped by. */
  function GroupKey(t: Topic): string
  {
    if t.subcategory != "" then t.subcategory else t.category
  }

  /** `bySub[key]`: the topics with that group key, in list order. */
  function Pool(ts: seq<Topic>, key: string): seq<Topic>
  {
    Where(ts, InGroup(key))
  }

  function InGroup(key: string): Topic -> bool
  {
    (u: Topic) => GroupKey(u) == key
  }

  /** The candidate filter of src/seo/data/factory.js:672-675. */
  function IsSiblingOf(t: Topic): Topic -> bool
  {
    (c: Topic) => c.slug != t.slug && c.intent == t.intent && c.dim2 != t.dim2
  }

  /** The pool members that share t's intent and differ from t in slug and in `_dim2`. */
  function Siblings(pool: seq<Topic>, t: Topic): seq<Topic>
  {
    Where(pool, IsSiblingOf(t))
  }

  function Candidates(ts: seq<Topic>, t: Topic): seq<Topic>
  {
    Siblings(Pool(ts, GroupKey(t)), t)
  }

  /** `Math.max(1, Math.floor(n / 3))`. */
  function Step(n: nat): nat
  {
    if n / 3 > 1 then n / 3 else 1
  }

  function PickCount(n: nat): nat
  {
    if n < 3 then n else 3
  }

  /** `candidates[i * step]?.slug || candidates[i]?.slug`. */
  function PickAt(cands: seq<Topic>, i: nat): string
    requires i < |cands|
  {
    var k := i * Step(|cands|);
    if k < |cands| && cands[k].slug != "" then cands[k].slug else cands[i].slug
  }

  /** The slugs pushed before de-duplication. */
  function Picks(cands: seq<Topic>): (s: seq<string>)
    ensures |s| == PickCount(|cands|)
  {
    seq(PickCount(|cands|), i requires 0 <= i < PickCount(|cands|) => PickAt(cands, i))
  }

  /** `[...new Set(s)]`: every element of s, each once. */
  function Dedupe(s: seq<string>): (r: seq<string>)
    ensures forall x :: x in r <==> x in s
    ensures forall i, j | 0 <= i < j < |r| :: r[i] != r[j]
    ensures |r| <= |s|
  {
    if s == [] then []
    else
      var d := Dedupe(s[..|s| - 1]);
      assert s == s[..|s| - 1] + [s[|s| - 1]];
      if s[|s| - 1] in d then d else d + [s[|s| - 1]]
  }

  /** `.filter(Boolean)` on strings. */
  function DropEmpty(s: seq<string>): (r: seq<string>)
    ensures forall x :: x in r <==> x in s && x != ""
    ensures |r| <= |s|
  {
    if s == [] then []
    else
      assert s == s[..|s| - 1] + [s[|s| - 1]];
      DropEmpty(s[..|s| - 1]) + (if s[|s| - 1] != "" then [s[|s| - 1]] else [])
  }

  /** The related slugs `resolveRelatedSlugs` gives t within the list ts. */
  function RelatedFor(ts: seq<Topic>, t: Topic): seq<string>
  {
    DropEmpty(Dedupe(Picks(Candidates(ts, t))))
  }

  /** Every topic of ts with its related slugs resolved against ts; nothing else changes. */
  function Resolved(ts: seq<Topic>): (r: seq<Topic>)
    ensures |r| == |ts|
  {
    seq(|ts|, i requires 0 <= i < |ts| => ts[i].(relatedSlugs := Some(RelatedFor(ts, ts[i]))))
  }

  lemma PoolExtend(s: seq<Topic>, x: Topic, key: string)
    ensures Pool(s + [x], key) == Pool(s, key) + (if GroupKey(x) == key then [x] else [])
  {
    assert (s + [x])[..|s|] == s;
  }

  /**
   * `resolveRelatedSlugs`: groups the topics by `GroupKey` in a first pass,
   * then assigns each topic its related slugs in place.
   */
  method ResolveRelatedSlugs(topics: array<Topic>)
    modifies topics
    ensures topics[..] == Resolved(old(topics[..]))
  {
    ghost var orig := topics[..];
    ghost var resolved := Resolved(orig);
    var bySub := IndexByGroup(topics[..]);
    for i := 0 to topics.Length
      invariant forall j | 0 <= j < i :: topics[j] == resolved[j]
      invariant forall j | i <= j < topics.Length :: topics[j] == orig[j]
    {
      var t := topics[i];
      var related := RelatedSlugsOf(bySub, orig, t);
      assert resolved[i] == t.(relatedSlugs := Some(related));
      topics[i] := t.(relatedSlugs := Some(related));
    }
    assert topics[..] == resolved;
  }

  /** One pass of the resolving loop (src/seo/data/factory.js:671-683): t's related slugs, looked up in the index of ts. */
  method RelatedSlugsOf(bySub: map<string, seq<Topic>>, ghost ts: seq<Topic>, t: Topic) returns (related: seq<string>)
    requires forall k :: (k in bySub ==> bySub[k] == Pool(ts, k)) && (k !in bySub ==> Pool(ts, k) == [])
    ensures related == RelatedFor(ts, t)
  {
    var key := GroupKey(t);
    var pool := if key in bySub then bySub[key] else [];
    var candidates := Siblings(pool, t);
    assert candidates == Candidates(ts, t);
    var picked := PickRelated(candidates);
    related := DropEmpty(Dedupe(picked));
  }

  /** The `bySub` index (src/seo/data/factory.js:663-668): each group key maps to its pool, in list order. */
  method IndexByGroup(topics: seq<Topic>) returns (bySub: map<string, seq<Topic>>)
    ensures forall k :: (k in bySub ==> bySub[k] == Pool(topics, k)) && (k !in bySub ==> Pool(topics, k) == [])
  {
    bySub := map[];
    for i := 0 to |topics|
      invariant forall k :: (k in bySub ==> bySub[k] == Pool(topics[..i], k)) && (k !in bySub ==> Pool(topics[..i], k) == [])
    {
      var t := topics[i];
      var key := GroupKey(t);
      assert topics[..i + 1] == topics[..i] + [t];
      forall k
        ensures Pool(topics[..i + 1], k) == Pool(topics[..i], k) + (if GroupKey(t) == k then [t] else [])
      {
        PoolExtend(topics[..i], t, k);
      }
      if key !in bySub {
        bySub := bySub[key := []];
      }
      bySub := bySub[key := bySub[key] + [t]];
    }
    assert topics[..|topics|] == topics;
  }

  /** The pick loop (src/seo/data/factory.js:679-682): `candidates[i * step]`, or `candidates[i]` when that is missing or empty. */
  method PickRelated(candidates: seq<Topic>) returns (picked: seq<string>)
    ensures picked == Picks(candidates)
  {
    var step := Step(|candidates|);
    var count := if |candidates| < 3 then |candidates| else 3;
    picked := [];
    for p := 0 to count
      invariant picked == Picks(candidates)[..p]
    {
      var k := p * step;
      var s := if k < |candidates| && candidates[k].slug != "" then candidates[k].slug else candidates[p].slug;
      assert Picks(candidates)[..p + 1] == picked + [s];
      picked := picked + [s];
    }
  }


  /** The pick index `i * step` is always inside the candidate list, so the `?.` fallback is never taken. */
  lemma PickIndexInRange(n: nat, i: nat)
    requires i < PickCount(n)
    ensures i * Step(n) < n
  {
    if n / 3 > 1 {
      assert i <= 2;
      assert i * (n / 3) <= 2 * (n / 3);
    }
  }

  /** A candidate's membership facts: it shares t's group and intent, and differs in slug and `_dim2`. */
  lemma CandidateMembers(ts: seq<Topic>, t: Topic)
    ensures forall c | c in Candidates(ts, t) ::
      c in ts && GroupKey(c) == GroupKey(t) && c.intent == t.intent && c.slug != t.slug && c.dim2 != t.dim2
  {
    WhereMembers(ts, InGroup(GroupKey(t)));
    WhereMembers(Pool(ts, GroupKey(t)), IsSiblingOf(t));
  }

  /** Each topic ends with at most three related slugs, none repeated and none empty. */
  lemma RelatedShape(ts: seq<Topic>, t: Topic)
    ensures var r := RelatedFor(ts, t);
      |r| <= 3 && (forall i, j | 0 <= i < j < |r| :: r[i] != r[j]) && "" !in r
  {
    var d := Dedupe(Picks(Candidates(ts, t)));
    DropEmptyDistinct(d);
    assert RelatedFor(ts, t) == DropEmpty(d);
  }

  lemma {:induction false} DropEmptyDistinct(s: seq<string>)
    requires forall i, j | 0 <= i < j < |s| :: s[i] != s[j]
    ensures forall i, j | 0 <= i < j < |DropEmpty(s)| :: DropEmpty(s)[i] != DropEmpty(s)[j]
  {
    if s != [] {
      var init := s[..|s| - 1];
      var last := s[|s| - 1];
      DropEmptyDistinct(init);
      assert last !in init;
      var r0 := DropEmpty(init);
      var r := DropEmpty(s);
      assert r == r0 + (if last != "" then [last] else []);
      forall i, j | 0 <= i < j < |r|
        ensures r[i] != r[j]
      {
        assert r[i] == r0[i] && r0[i] in r0;
        if j < |r0| {
          assert r[j] == r0[j];
          assert r0[i] != r0[j];
        } else {
          assert r[j] == last && r0[i] in init;
        }
      }
    }
  }

  lemma PicksAreCandidateSlugs(cands: seq<Topic>)
    ensures forall s | s in Picks(cands) :: exists c :: c in cands && c.slug == s
  {
    var picks := Picks(cands);
    forall i | 0 <= i < |picks|
      ensures exists c :: c in cands && c.slug == picks[i]
    {
      var k := i * Step(|cands|);
      if k < |cands| && cands[k].slug != "" {
        assert cands[k] in cands;
      } else {
        assert cands[i] in cands;
      }
    }
  }

  /** Every related slug is the slug of a genuine candidate: same group, same intent, different slug and `_dim2`. */
  lemma RelatedAreCandidates(ts: seq<Topic>, t: Topic)
    ensures forall s | s in RelatedFor(ts, t) ::
      exists c :: c in ts && c.slug == s && GroupKey(c) == GroupKey(t) && c.intent == t.intent && c.slug != t.slug && c.dim2 != t.dim2
  {
    var cands := Candidates(ts, t);
    CandidateMembers(ts, t);
    PicksAreCandidateSlugs(cands);
    forall s | s in RelatedFor(ts, t)
      ensures exists c :: c in ts && c.slug == s && GroupKey(c) == GroupKey(t) && c.intent == t.intent && c.slug != t.slug && c.dim2 != t.dim2
    {
      assert s in Picks(cands);
      var c :| c in cands && c.slug == s;
    }
  }

  /** Every related slug that resolution assigns is the slug of some topic of the list. */
  lemma ResolvedRelatedAreSlugs(ts: seq<Topic>, i: nat)
    requires i < |ts|
    ensures Resolved(ts)[i].relatedSlugs.Some?
    ensures forall s | s in Resolved(ts)[i].relatedSlugs.value :: exists k :: 0 <= k < |ts| && ts[k].slug == s
  {
    RelatedAreCandidates(ts, ts[i]);
    forall s | s in RelatedFor(ts, ts[i])
      ensures exists k :: 0 <= k < |ts| && ts[k].slug == s
    {
      var c :| c in ts && c.slug == s && GroupKey(c) == GroupKey(ts[i]) && c.intent == ts[i].intent && c.slug != ts[i].slug && c.dim2 != ts[i].dim2;
      var k :| 0 <= k < |ts| && ts[k] == c;
    }
  }

  /** With non-empty slugs, a topic gets no related slugs exactly when it has no candidates. */
  lemma RelatedEmptyIff(ts: seq<Topic>, t: Topic)
    requires forall u | u in ts :: u.slug != ""
    ensures RelatedFor(ts, t) == [] <==> Candidates(ts, t) == []
  {
    var cands := Candidates(ts, t);
    if cands != [] {
      CandidateMembers(ts, t);
      assert cands[0] in cands;
      assert Picks(cands)[0] == cands[0].slug;
      assert cands[0].slug in Dedupe(Picks(cands));
      assert cands[0].slug in RelatedFor(ts, t);
    }
  }

  lemma {:induction false} DedupeDistinct(s: seq<string>)
    requires forall i, j | 0 <= i < j < |s| :: s[i] != s[j]
    ensures Dedupe(s) == s
  {
    if s != [] {
      DedupeDistinct(s[..|s| - 1]);
      assert s[|s| - 1] !in s[..|s| - 1];
    }
  }

  lemma {:induction false} DropEmptyNone(s: seq<string>)
    requires "" !in s
    ensures DropEmpty(s) == s
  {
    if s != [] {
      DropEmptyNone(s[..|s| - 1]);
      assert s == s[..|s| - 1] + [s[|s| - 1]];
    }
  }

  /**
   * When slugs are distinct and non-empty, the picks at 0, step and 2·step are
   * three different candidates, so a topic gets exactly min(3, |candidates|)
   * related slugs.
   */
  lemma RelatedCount(ts: seq<Topic>, t: Topic)
    requires DistinctSlugs(ts)
    requires forall u | u in ts :: u.slug != ""
    ensures |RelatedFor(ts, t)| == PickCount(|Candidates(ts, t)|)
  {
    var cands := Candidates(ts, t);
    WhereDistinct(ts, InGroup(GroupKey(t)));
    WhereDistinct(Pool(ts, GroupKey(t)), IsSiblingOf(t));
    CandidateMembers(ts, t);
    PicksDistinctNonEmpty(cands);
    DedupeDistinct(Picks(cands));
    DropEmptyNone(Picks(cands));
  }

  /** Distinct non-empty candidate slugs give distinct non-empty picks. */
  lemma PicksDistinctNonEmpty(cands: seq<Topic>)
    requires DistinctSlugs(cands)
    requires forall u | u in cands :: u.slug != ""
    ensures forall i, j | 0 <= i < j < |Picks(cands)| :: Picks(cands)[i] != Picks(cands)[j]
    ensures "" !in Picks(cands)
  {
    var n := |cands|;
    var step := Step(n);
    var picks := Picks(cands);
    forall i | 0 <= i < |picks|
      ensures picks[i] == cands[i * step].slug && picks[i] != ""
    {
      PickIndexInRange(n, i);
      assert cands[i * step] in cands;
    }
    forall i, j | 0 <= i < j < |picks|
      ensures picks[i] != picks[j]
    {
      PickIndexInRange(n, i);
      PickIndexInRange(n, j);
      assert i * step < j * step by {
        assert step >= 1;
        assert j * step == i * step + (j - i) * step;
      }
    }
  }


  /**
   * A topic none of whose same-group, same-intent peers has a different
   * `_dim2` gets no related slugs.
   */
  lemma NoOtherDimNoRelated(ts: seq<Topic>, t: Topic)
    requires forall u | u in ts && GroupKey(u) == GroupKey(t) && u.intent == t.intent :: u.dim2 == t.dim2
    ensures RelatedFor(ts, t) == []
  {
    var pool := Pool(ts, GroupKey(t));
    WhereMembers(ts, InGroup(GroupKey(t)));
    WhereEmpty(pool, IsSiblingOf(t));
  }

  /**
   * When every call with t's intent passes a second argument with the same
   * key d, every topic of that intent has `_dim2 == d`, so t has no candidate
   * and the resolved list gives it nothing.
   */
  lemma SharedDimGetsNoRelated(intents: map<string, Intent>, calls: seq<AddCall>, t: Topic, d: string)
    requires Callable(intents, calls)
    requires t in Generated(intents, calls)
    requires forall c | c in calls && c.intentKey == t.intent :: KeyOf(c.arg2) == d
    ensures t.dim2 == d
    ensures RelatedFor(Generated(intents, calls), t) == []
  {
    var ts := Generated(intents, calls);
    GeneratedFirstWins(intents, calls);
    forall u | u in ts && u.intent == t.intent
      ensures u.dim2 == d
    {
      var i :| 0 <= i < |ts| && ts[i] == u;
      SharedDimTopic(intents, calls, u, d);
    }
    NoOtherDimNoRelated(ts, t);
  }

  /** A topic built by a call whose second argument has key d has `_dim2 == d`. */
  lemma SharedDimTopic(intents: map<string, Intent>, calls: seq<AddCall>, u: Topic, d: string)
    requires BuiltByFirstCall(intents, calls, u)
    requires forall c | c in calls && c.intentKey == u.intent :: KeyOf(c.arg2) == d
    ensures u.dim2 == d
  {
    var k :| IsFirstCall(calls, k, u.slug) && calls[k].intentKey in intents && u == MakeTopic(intents, calls[k]);
    assert calls[k] in calls;
  }

  /**
   * The overview blocks pass the same `dummy` second argument to every call,
   * so every overview topic has `_dim2 == '_'` and none of them gets a related
   * slug: when every call with t's intent uses `OVERVIEW_ARG`, the resolved
   * list gives t nothing.
   */
  lemma OverviewTopicsGetNoRelated(intents: map<string, Intent>, calls: seq<AddCall>, t: Topic)
    requires Callable(intents, calls)
    requires t in Generated(intents, calls)
    requires forall c | c in calls && c.intentKey == t.intent :: c.arg2 == OVERVIEW_ARG
    ensures t.dim2 == "_"
    ensures RelatedFor(Generated(intents, calls), t) == []
  {
    SharedDimGetsNoRelated(intents, calls, t, "_");
  }

  /**
   * The model x platform x use-case block passes `{ p, u, ctx }` as the second
   * argument, which has neither `id` nor `slug`: all its topics get
   * `_dim2 == ''` and none of them gets a related slug.
   */
  lemma KeylessSecondArgGetsNoRelated(intents: map<string, Intent>, calls: seq<AddCall>, t: Topic)
    requires Callable(intents, calls)
    requires t in Generated(intents, calls)
    requires forall c | c in calls && c.intentKey == t.intent :: c.arg2.id == "" && c.arg2.slug == ""
    ensures t.dim2 == ""
    ensures RelatedFor(Generated(intents, calls), t) == []
  {
    SharedDimGetsNoRelated(intents, calls, t, "");
  }
}
