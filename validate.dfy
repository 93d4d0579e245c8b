/**
 * Build-time validation of the topic list (src/seo/validate.js), taking the
 * topic list and the set of category keys as parameters. Messages are kept
 * as structured `Issue` values; the thrown exception becomes the `Failed`
 * outcome, which still carries the warnings gathered on the way.
 */
module Validate {
  import opened Wrappers
  import opened SeoModel

  const MAX_TITLE_LEN: nat := 80
  const MAX_DESC_LEN: nat := 170
  const MAX_WARNINGS: nat := 20

  datatype Field = SlugField | CategoryField | TitleField | HeadingField | DescriptionField | ContentField | FaqsField

  /** `REQUIRED_FIELDS`, in order (src/seo/validate.js:13). */
  const REQUIRED_FIELDS: seq<Field> := [SlugField, CategoryField, TitleField, HeadingField, DescriptionField, ContentField, FaqsField]

  datatype Issue =
    | MissingField(id: string, field: Field)
    | UnknownCategory(id: string, category: string)
    | DuplicateSlug(id: string)
    | DuplicateCanonical(id: string, canonical: string)
    | MissingRelated(id: string, slug: string)
    | IncompleteFaq(id: string, index: nat)
    | LongTitle(id: string, length: nat)
    | LongDescription(id: string, length: nat)

  /** The result of `validateTopics`: it returns normally, or it throws after gathering errors. */
  datatype Outcome = Passed(warnings: seq<Issue>) | Failed(errors: seq<Issue>, warnings: seq<Issue>)

  /** `[${topic.category}/${topic.slug}]`. */
  function Id(t: Topic): string
  {
    "[" + t.category + "/" + t.slug + "]"
  }

  /** `topic[field]` is truthy. An array is truthy even when empty. */
  predicate Present(t: Topic, f: Field)
  {
    match f
    case SlugField => t.slug != ""
    case CategoryField => t.category != ""
    case TitleField => t.title != ""
    case HeadingField => t.heading != ""
    case DescriptionField => t.description != ""
    case ContentField => t.content != ""
    case FaqsField => t.faqs.Some?
  }

  /** One `missing required field` error per absent field of `fields`, in order. */
  function FieldErrors(t: Topic, fields: seq<Field>): seq<Issue>
  {
    if fields == [] then []
    else
      var f := fields[|fields| - 1];
      FieldErrors(t, fields[..|fields| - 1]) + (if !Present(t, f) then [MissingField(Id(t), f)] else [])
  }

  /** The errors name exactly the absent fields among `fields`. */
  lemma {:induction false} FieldErrorsMembers(t: Topic, fields: seq<Field>)
    ensures forall e | e in FieldErrors(t, fields) :: e.MissingField? && e.id == Id(t)
    ensures forall f :: MissingField(Id(t), f) in FieldErrors(t, fields) <==> f in fields && !Present(t, f)
  {
    if fields != [] {
      FieldErrorsMembers(t, fields[..|fields| - 1]);
      assert fields == fields[..|fields| - 1] + [fields[|fields| - 1]];
    }
  }

  /** The errors of the required-field loop (src/seo/validate.js:30-34). */
  function RequiredErrors(t: Topic): seq<Issue>
  {
    FieldErrors(t, REQUIRED_FIELDS)
  }

  /** The error of the category check (src/seo/validate.js:37-39). */
  function CategoryErrors(t: Topic, categories: set<string>): seq<Issue>
  {
    if t.category != "" && t.category !in categories then [UnknownCategory(Id(t), t.category)] else []
  }

  /** One `relatedSlugs references missing slug` error per unknown slug, in order. */
  function SlugErrors(id: string, slugs: seq<string>, allSlugs: set<string>): seq<Issue>
  {
    if slugs == [] then []
    else
      var s := slugs[|slugs| - 1];
      SlugErrors(id, slugs[..|slugs| - 1], allSlugs) + (if s !in allSlugs then [MissingRelated(id, s)] else [])
  }

  /** The errors name exactly the related slugs that are not slugs of any topic. */
  lemma {:induction false} SlugErrorsMembers(id: string, slugs: seq<string>, allSlugs: set<string>)
    ensures forall e | e in SlugErrors(id, slugs, allSlugs) :: e.MissingRelated? && e.id == id
    ensures forall s :: MissingRelated(id, s) in SlugErrors(id, slugs, allSlugs) <==> s in slugs && s !in allSlugs
  {
    if slugs != [] {
      SlugErrorsMembers(id, slugs[..|slugs| - 1], allSlugs);
      assert slugs == slugs[..|slugs| - 1] + [slugs[|slugs| - 1]];
    }
  }

  /** The errors of the related-slug check (src/seo/validate.js:65-71). */
  function RelatedErrors(t: Topic, allSlugs: set<string>): seq<Issue>
  {
    if t.relatedSlugs.Some? then SlugErrors(Id(t), t.relatedSlugs.value, allSlugs) else []
  }

  /** `!faq.q || !faq.a`. */
  predicate Incomplete(faq: Faq)
  {
    faq.q == "" || faq.a == ""
  }

  /** One `FAQ[i] missing q or a` error per incomplete FAQ, in order. */
  function FaqListErrors(id: string, faqs: seq<Faq>): seq<Issue>
  {
    if faqs == [] then []
    else
      var n := |faqs| - 1;
      FaqListErrors(id, faqs[..n]) + (if Incomplete(faqs[n]) then [IncompleteFaq(id, n)] else [])
  }

  /** The errors name exactly the positions of the incomplete FAQs. */
  lemma {:induction false} FaqListErrorsMembers(id: string, faqs: seq<Faq>)
    ensures forall e | e in FaqListErrors(id, faqs) :: e.IncompleteFaq? && e.id == id
    ensures forall i: nat :: IncompleteFaq(id, i) in FaqListErrors(id, faqs) <==> i < |faqs| && Incomplete(faqs[i])
  {
    if faqs != [] {
      FaqListErrorsMembers(id, faqs[..|faqs| - 1]);
    }
  }

  /** The errors of the FAQ check (src/seo/validate.js:74-80). */
  function FaqErrors(t: Topic): seq<Issue>
  {
    if t.faqs.Some? then FaqListErrors(Id(t), t.faqs.value) else []
  }

  /** The title and description warnings of one topic (src/seo/validate.js:56-61). */
  function LengthWarnings(t: Topic): (r: seq<Issue>)
    ensures |r| <= 2
  {
    (if t.title != "" && |t.title| > MAX_TITLE_LEN then [LongTitle(Id(t), |t.title|)] else [])
    + (if t.description != "" && |t.description| > MAX_DESC_LEN then [LongDescription(Id(t), |t.description|)] else [])
  }

  /** The canonical paths of a topic list, as a set. */
  function CanonicalSet(ts: seq<Topic>): set<string>
  {
    if ts == [] then {} else CanonicalSet(ts[..|ts| - 1]) + {Canonical(ts[|ts| - 1])}
  }

  lemma {:induction false} CanonicalSetMembers(ts: seq<Topic>)
    ensures forall i | 0 <= i < |ts| :: Canonical(ts[i]) in CanonicalSet(ts)
    ensures forall c | c in CanonicalSet(ts) :: exists i :: 0 <= i < |ts| && Canonical(ts[i]) == c
  {
    if ts != [] {
      var init := ts[..|ts| - 1];
      CanonicalSetMembers(init);
      forall i | 0 <= i < |ts| - 1
        ensures ts[i] == init[i]
      {
      }
    }
  }

  /**
   * The errors list after one more topic, pushed in the order of the loop body
   * (src/seo/validate.js:30-80); `seenSlugs` and `seenCanonicals` are the sets
   * of the earlier topics.
   */
  function PushTopicErrors(errors: seq<Issue>, t: Topic, seenSlugs: set<string>, seenCanonicals: set<string>,
                           categories: set<string>, allSlugs: set<string>): seq<Issue>
  {
    errors
    + RequiredErrors(t)
    + CategoryErrors(t, categories)
    + (if t.slug in seenSlugs then [DuplicateSlug(Id(t))] else [])
    + (if Canonical(t) in seenCanonicals then [DuplicateCanonical(Id(t), Canonical(t))] else [])
    + RelatedErrors(t, allSlugs)
    + FaqErrors(t)
  }

  /** The errors list after the loop has visited the topics of ts. */
  function Errors(ts: seq<Topic>, categories: set<string>, allSlugs: set<string>): seq<Issue>
  {
    if ts == [] then []
    else
      var init := ts[..|ts| - 1];
      PushTopicErrors(Errors(init, categories, allSlugs), ts[|ts| - 1], SlugSet(init), CanonicalSet(init), categories, allSlugs)
  }

  /** The warnings list after the loop has visited the topics of ts: a topic adds warnings only while fewer than 20 exist. */
  function Warnings(ts: seq<Topic>): seq<Issue>
  {
    if ts == [] then []
    else
      var w := Warnings(ts[..|ts| - 1]);
      w + (if |w| < MAX_WARNINGS then LengthWarnings(ts[|ts| - 1]) else [])
  }

  /** What `validateTopics` does with the topic list and the category keys. */
  function ValidationOutcome(ts: seq<Topic>, categories: set<string>): Outcome
  {
    var errors := Errors(ts, categories, SlugSet(ts));
    if |errors| > 0 then Failed(errors, Warnings(ts)) else Passed(Warnings(ts))
  }

  /** The required-field loop (src/seo/validate.js:30-34). */
  method CheckRequired(topic: Topic) returns (errors: seq<Issue>)
    ensures errors == RequiredErrors(topic)
  {
    errors := [];
    for k := 0 to |REQUIRED_FIELDS|
      invariant errors == FieldErrors(topic, REQUIRED_FIELDS[..k])
    {
      var field := REQUIRED_FIELDS[k];
      assert REQUIRED_FIELDS[..k + 1][..k] == REQUIRED_FIELDS[..k];
      if !Present(topic, field) {
        errors := errors + [MissingField(Id(topic), field)];
      }
    }
    assert REQUIRED_FIELDS[..|REQUIRED_FIELDS|] == REQUIRED_FIELDS;
  }

  /** The related-slug loop (src/seo/validate.js:65-71). */
  method CheckRelated(topic: Topic, allSlugs: set<string>) returns (errors: seq<Issue>)
    ensures errors == RelatedErrors(topic, allSlugs)
  {
    errors := [];
    if topic.relatedSlugs.Some? {
      var slugs := topic.relatedSlugs.value;
      for k := 0 to |slugs|
        invariant errors == SlugErrors(Id(topic), slugs[..k], allSlugs)
      {
        assert slugs[..k + 1][..k] == slugs[..k];
        if slugs[k] !in allSlugs {
          errors := errors + [MissingRelated(Id(topic), slugs[k])];
        }
      }
      assert slugs[..|slugs|] == slugs;
    }
  }

  /** The FAQ loop (src/seo/validate.js:74-80). */
  method CheckFaqs(topic: Topic) returns (errors: seq<Issue>)
    ensures errors == FaqErrors(topic)
  {
    errors := [];
    if topic.faqs.Some? {
      var faqs := topic.faqs.value;
      for k := 0 to |faqs|
        invariant errors == FaqListErrors(Id(topic), faqs[..k])
      {
        assert faqs[..k + 1][..k] == faqs[..k];
        if faqs[k].q == "" || faqs[k].a == "" {
          errors := errors + [IncompleteFaq(Id(topic), k)];
        }
      }
      assert faqs[..|faqs|] == faqs;
    }
  }

  /** The loop body's pushes, grouped as `PushTopicErrors` groups them. */
  lemma PushTopicErrorsSteps(before: seq<Issue>, t: Topic, seenSlugs: set<string>, seenCanonicals: set<string>,
                             categories: set<string>, allSlugs: set<string>, afterSlug: seq<Issue>, errors: seq<Issue>)
    requires afterSlug == before + RequiredErrors(t) + CategoryErrors(t, categories)
      + (if t.slug in seenSlugs then [DuplicateSlug(Id(t))] else [])
    requires errors == afterSlug
      + (if Canonical(t) in seenCanonicals then [DuplicateCanonical(Id(t), Canonical(t))] else [])
      + RelatedErrors(t, allSlugs) + FaqErrors(t)
    ensures errors == PushTopicErrors(before, t, seenSlugs, seenCanonicals, categories, allSlugs)
  {
  }

  /** Visiting one more topic extends each of the loop's four variables as its body does. */
  lemma ScanSnoc(topics: seq<Topic>, i: nat, categories: set<string>, allSlugs: set<string>)
    requires i < |topics|
    ensures var init, t := topics[..i], topics[i];
      Errors(topics[..i + 1], categories, allSlugs)
        == PushTopicErrors(Errors(init, categories, allSlugs), t, SlugSet(init), CanonicalSet(init), categories, allSlugs)
      && Warnings(topics[..i + 1])
        == Warnings(init) + (if |Warnings(init)| < MAX_WARNINGS then LengthWarnings(t) else [])
      && SlugSet(topics[..i + 1]) == SlugSet(init) + {t.slug}
      && CanonicalSet(topics[..i + 1]) == CanonicalSet(init) + {Canonical(t)}
  {
    assert topics[..i + 1][..i] == topics[..i];
  }

  /** `validateTopics` (src/seo/validate.js:18-98). */
  method ValidateTopics(topics: seq<Topic>, categories: set<string>) returns (outcome: Outcome)
    ensures outcome == ValidationOutcome(topics, categories)
  {
    var errors: seq<Issue> := [];
    var warnings: seq<Issue> := [];
    var slugs: set<string> := {};
    var canonicals: set<string> := {};
    var allSlugs := SlugSet(topics);
    for i := 0 to |topics|
      invariant errors == Errors(topics[..i], categories, allSlugs)
      invariant warnings == Warnings(topics[..i])
      invariant slugs == SlugSet(topics[..i]) && canonicals == CanonicalSet(topics[..i])
    {
      ScanSnoc(topics, i, categories, allSlugs);
      errors, slugs, canonicals := CheckTopic(errors, slugs, canonicals, topics[i], categories, allSlugs);
      warnings := CheckLengths(warnings, topics[i]);
    }
    assert topics[..|topics|] == topics;
    if |errors| > 0 {
      outcome := Failed(errors, warnings);
    } else {
      outcome := Passed(warnings);
    }
  }

  /**
   * The error checks of one pass of the loop (src/seo/validate.js:27-52 and
   * 64-80), given the slugs and canonical paths of the earlier topics.
   */
  method CheckTopic(errors: seq<Issue>, slugs: set<string>, canonicals: set<string>,
                    topic: Topic, categories: set<string>, allSlugs: set<string>)
    returns (errors': seq<Issue>, slugs': set<string>, canonicals': set<string>)
    ensures errors' == PushTopicErrors(errors, topic, slugs, canonicals, categories, allSlugs)
    ensures slugs' == slugs + {topic.slug} && canonicals' == canonicals + {Canonical(topic)}
  {
    var id := Id(topic);
    var missing := CheckRequired(topic);
    errors' := errors + missing;
    if topic.category != "" && topic.category !in categories {
      errors' := errors' + [UnknownCategory(id, topic.category)];
    }
    assert errors' == errors + RequiredErrors(topic) + CategoryErrors(topic, categories);
    if topic.slug in slugs {
      errors' := errors' + [DuplicateSlug(id)];
    }
    slugs' := slugs + {topic.slug};
    ghost var afterSlug := errors';
    var canonical := "/" + topic.category + "/" + topic.slug + "/";
    if canonical in canonicals {
      errors' := errors' + [DuplicateCanonical(id, canonical)];
    }
    canonicals' := canonicals + {canonical};
    assert errors' == afterSlug + (if Canonical(topic) in canonicals then [DuplicateCanonical(id, Canonical(topic))] else []);
    var broken := CheckRelated(topic, allSlugs);
    errors' := errors' + broken;
    var badFaqs := CheckFaqs(topic);
    errors' := errors' + badFaqs;
    PushTopicErrorsSteps(errors, topic, slugs, canonicals, categories, allSlugs, afterSlug, errors');
  }

  /** The length warnings of one pass (src/seo/validate.js:55-62): added only while fewer than 20 exist. */
  method CheckLengths(warnings: seq<Issue>, topic: Topic) returns (warnings': seq<Issue>)
    ensures warnings' == warnings + (if |warnings| < MAX_WARNINGS then LengthWarnings(topic) else [])
  {
    warnings' := warnings;
    if |warnings| < MAX_WARNINGS {
      if topic.title != "" && |topic.title| > MAX_TITLE_LEN {
        warnings' := warnings' + [LongTitle(Id(topic), |topic.title|)];
      }
      if topic.description != "" && |topic.description| > MAX_DESC_LEN {
        warnings' := warnings' + [LongDescription(Id(topic), |topic.description|)];
      }
      assert warnings' == warnings + LengthWarnings(topic);
    }
  }


  /** Warnings are only added while fewer than 20 exist, at most two at a time, so there are never more than 21. */
  lemma {:induction false} WarningsBounded(ts: seq<Topic>)
    ensures |Warnings(ts)| <= MAX_WARNINGS + 1
  {
    if ts != [] {
      WarningsBounded(ts[..|ts| - 1]);
    }
  }

  /** A single topic passes its own checks: fields present, category known, related slugs known, FAQs complete. */
  predicate TopicClean(t: Topic, categories: set<string>, allSlugs: set<string>)
  {
    (forall f | f in REQUIRED_FIELDS :: Present(t, f))
    && (t.category == "" || t.category in categories)
    && (t.relatedSlugs.Some? ==> forall s | s in t.relatedSlugs.value :: s in allSlugs)
    && (t.faqs.Some? ==> forall faq | faq in t.faqs.value :: !Incomplete(faq))
  }

  /** A topic's own checks record nothing exactly when it is clean. */
  lemma TopicCleanIff(t: Topic, categories: set<string>, allSlugs: set<string>)
    ensures TopicClean(t, categories, allSlugs) <==>
      RequiredErrors(t) == [] && CategoryErrors(t, categories) == []
      && RelatedErrors(t, allSlugs) == [] && FaqErrors(t) == []
  {
    FieldErrorsMembers(t, REQUIRED_FIELDS);
    if RequiredErrors(t) != [] {
      assert RequiredErrors(t)[0] in RequiredErrors(t);
    }
    if t.relatedSlugs.Some? {
      SlugErrorsMembers(Id(t), t.relatedSlugs.value, allSlugs);
      if RelatedErrors(t, allSlugs) != [] {
        assert RelatedErrors(t, allSlugs)[0] in RelatedErrors(t, allSlugs);
      }
    }
    if t.faqs.Some? {
      var faqs := t.faqs.value;
      FaqListErrorsMembers(Id(t), faqs);
      if FaqErrors(t) != [] {
        assert FaqErrors(t)[0] in FaqErrors(t);
      } else {
        forall faq | faq in faqs
          ensures !Incomplete(faq)
        {
          var i :| 0 <= i < |faqs| && faqs[i] == faq;
          assert IncompleteFaq(Id(t), i) !in FaqErrors(t);
        }
      }
    }
  }

  /** No two topics share a canonical path. */
  predicate DistinctCanonicals(ts: seq<Topic>)
  {
    forall i, j | 0 <= i < j < |ts| :: Canonical(ts[i]) != Canonical(ts[j])
  }

  predicate AllClean(ts: seq<Topic>, categories: set<string>, allSlugs: set<string>)
  {
    forall i | 0 <= i < |ts| :: TopicClean(ts[i], categories, allSlugs)
  }

  /** Every topic is clean and no two topics share a slug or a canonical path. */
  predicate AllValid(ts: seq<Topic>, categories: set<string>, allSlugs: set<string>)
  {
    AllClean(ts, categories, allSlugs) && DistinctSlugs(ts) && DistinctCanonicals(ts)
  }

  lemma DistinctSlugsSnoc(ts: seq<Topic>)
    requires ts != []
    ensures DistinctSlugs(ts) <==> DistinctSlugs(ts[..|ts| - 1]) && ts[|ts| - 1].slug !in SlugSet(ts[..|ts| - 1])
  {
    var init := ts[..|ts| - 1];
    SlugSetMembers(init);
    assert forall i | 0 <= i < |init| :: ts[i] == init[i];
  }

  lemma DistinctCanonicalsSnoc(ts: seq<Topic>)
    requires ts != []
    ensures DistinctCanonicals(ts) <==> DistinctCanonicals(ts[..|ts| - 1]) && Canonical(ts[|ts| - 1]) !in CanonicalSet(ts[..|ts| - 1])
  {
    var init := ts[..|ts| - 1];
    CanonicalSetMembers(init);
    assert forall i | 0 <= i < |init| :: ts[i] == init[i];
  }

  lemma AllCleanSnoc(ts: seq<Topic>, categories: set<string>, allSlugs: set<string>)
    requires ts != []
    ensures AllClean(ts, categories, allSlugs) <==>
      AllClean(ts[..|ts| - 1], categories, allSlugs) && TopicClean(ts[|ts| - 1], categories, allSlugs)
  {
    assert forall i | 0 <= i < |ts| - 1 :: ts[i] == ts[..|ts| - 1][i];
  }

  /** The loop records no error exactly when the topics it visited are all valid. */
  lemma {:induction false} ErrorsEmptyIff(ts: seq<Topic>, categories: set<string>, allSlugs: set<string>)
    ensures Errors(ts, categories, allSlugs) == [] <==> AllValid(ts, categories, allSlugs)
  {
    if ts != [] {
      var init, last := ts[..|ts| - 1], ts[|ts| - 1];
      ErrorsEmptyIff(init, categories, allSlugs);
      DistinctSlugsSnoc(ts);
      DistinctCanonicalsSnoc(ts);
      AllCleanSnoc(ts, categories, allSlugs);
      TopicCleanIff(last, categories, allSlugs);
    }
  }

  /**
   * `validateTopics` throws exactly when some topic lacks a required field,
   * names an unknown category, repeats a slug or canonical path, links an
   * unknown related slug, or has an incomplete FAQ; warnings never make it throw.
   */
  lemma PassesIffValid(ts: seq<Topic>, categories: set<string>)
    ensures ValidationOutcome(ts, categories).Passed? <==> AllValid(ts, categories, SlugSet(ts))
    ensures ValidationOutcome(ts, categories).warnings == Warnings(ts)
  {
    ErrorsEmptyIff(ts, categories, SlugSet(ts));
  }

  /** The character of the canonical path right after the first m characters of the category. */
  lemma CanonicalCharAt(t: Topic, m: nat)
    requires m <= |t.category|
    ensures Canonical(t)[1 + m] == if m == |t.category| then '/' else t.category[m]
  {
  }

  /** With no `/` in categories and slugs, the canonical path determines the category and the slug. */
  lemma CanonicalInjective(a: Topic, b: Topic)
    requires '/' !in a.category && '/' !in b.category && '/' !in a.slug && '/' !in b.slug
    requires Canonical(a) == Canonical(b)
    ensures a.category == b.category && a.slug == b.slug
  {
    var ca, cb := Canonical(a), Canonical(b);
    var m := if |a.category| <= |b.category| then |a.category| else |b.category|;
    CanonicalCharAt(a, m);
    CanonicalCharAt(b, m);
    assert |a.category| == |b.category|;
    assert a.category == ca[1..1 + |a.category|];
    assert b.category == cb[1..1 + |b.category|];
    var k := 2 + |a.category|;
    assert a.slug == ca[k..|ca| - 1];
    assert b.slug == cb[k..|cb| - 1];
  }

  /** Every duplicate-canonical error of the list names a topic that also has a duplicate-slug error. */
  predicate CanonicalDuplicatesAreSlugDuplicates(errors: seq<Issue>)
  {
    forall e | e in errors && e.DuplicateCanonical? :: DuplicateSlug(e.id) in errors
  }

  /** Appending issues none of which is a duplicate-canonical error keeps the pairing. */
  lemma PairsAppend(a: seq<Issue>, b: seq<Issue>)
    requires CanonicalDuplicatesAreSlugDuplicates(a)
    requires forall e | e in b :: !e.DuplicateCanonical?
    ensures CanonicalDuplicatesAreSlugDuplicates(a + b)
  {
    forall e | e in a + b && e.DuplicateCanonical?
      ensures DuplicateSlug(e.id) in a + b
    {
      assert e in a;
    }
  }

  /** One topic keeps that pairing when a repeated canonical path implies a repeated slug for it. */
  lemma PushTopicErrorsPairs(before: seq<Issue>, t: Topic, seenSlugs: set<string>, seenCanonicals: set<string>,
                             categories: set<string>, allSlugs: set<string>)
    requires CanonicalDuplicatesAreSlugDuplicates(before)
    requires Canonical(t) in seenCanonicals ==> t.slug in seenSlugs
    ensures CanonicalDuplicatesAreSlugDuplicates(PushTopicErrors(before, t, seenSlugs, seenCanonicals, categories, allSlugs))
  {
    FieldErrorsMembers(t, REQUIRED_FIELDS);
    var e1 := before + RequiredErrors(t);
    PairsAppend(before, RequiredErrors(t));
    var e2 := e1 + CategoryErrors(t, categories);
    PairsAppend(e1, CategoryErrors(t, categories));
    var slugPart := if t.slug in seenSlugs then [DuplicateSlug(Id(t))] else [];
    var e3 := e2 + slugPart;
    PairsAppend(e2, slugPart);
    var canonicalPart := if Canonical(t) in seenCanonicals then [DuplicateCanonical(Id(t), Canonical(t))] else [];
    var e4 := e3 + canonicalPart;
    if Canonical(t) in seenCanonicals {
      assert DuplicateSlug(Id(t)) == e3[|e3| - 1];
      forall e | e in e4 && e.DuplicateCanonical?
        ensures DuplicateSlug(e.id) in e4
      {
        if e !in e3 {
          assert e.id == Id(t);
          assert e4[|e3| - 1] == e3[|e3| - 1];
        }
      }
    } else {
      PairsAppend(e3, canonicalPart);
    }
    if t.relatedSlugs.Some? {
      SlugErrorsMembers(Id(t), t.relatedSlugs.value, allSlugs);
    }
    var e5 := e4 + RelatedErrors(t, allSlugs);
    PairsAppend(e4, RelatedErrors(t, allSlugs));
    if t.faqs.Some? {
      FaqListErrorsMembers(Id(t), t.faqs.value);
    }
    PairsAppend(e5, FaqErrors(t));
  }

  /** Among topics without `/` in category and slug, a canonical path seen before means the slug was seen before. */
  lemma RepeatedCanonicalRepeatsSlug(init: seq<Topic>, t: Topic)
    requires forall u | u in init :: '/' !in u.category && '/' !in u.slug
    requires '/' !in t.category && '/' !in t.slug
    requires Canonical(t) in CanonicalSet(init)
    ensures t.slug in SlugSet(init)
  {
    CanonicalSetMembers(init);
    SlugSetMembers(init);
    var i :| 0 <= i < |init| && Canonical(init[i]) == Canonical(t);
    assert init[i] in init;
    CanonicalInjective(init[i], t);
  }

  /**
   * With no `/` in categories and slugs, every duplicate-canonical error comes
   * with a duplicate-slug error for the same topic.
   */
  lemma {:induction false} DuplicateCanonicalHasDuplicateSlug(ts: seq<Topic>, categories: set<string>, allSlugs: set<string>)
    requires forall t | t in ts :: '/' !in t.category && '/' !in t.slug
    ensures CanonicalDuplicatesAreSlugDuplicates(Errors(ts, categories, allSlugs))
  {
    if ts != [] {
      var init, last := ts[..|ts| - 1], ts[|ts| - 1];
      assert forall t | t in init :: t in ts;
      DuplicateCanonicalHasDuplicateSlug(init, categories, allSlugs);
      if Canonical(last) in CanonicalSet(init) {
        RepeatedCanonicalRepeatsSlug(init, last);
      }
      PushTopicErrorsPairs(Errors(init, categories, allSlugs), last, SlugSet(init), CanonicalSet(init), categories, allSlugs);
    }
  }

  /** The topic with category `a/b` and slug `c`. */
  const COLLIDING_A: Topic := Topic("c", "a/b", "", "T", "H", "D", "C", Some([]), "Article", "", "", "", None)

  /** The topic with category `a` and slug `b/c`. */
  const COLLIDING_B: Topic := Topic("b/c", "a", "", "T", "H", "D", "C", Some([]), "Article", "", "", "", None)

  /**
   * Without that restriction the two checks come apart: `/a/b/c/` is the
   * canonical path of both topics, so the second one gets a duplicate-canonical
   * error and no duplicate-slug error.
   */
  lemma CanonicalWithoutSlugDuplicate()
    ensures Canonical(COLLIDING_A) == Canonical(COLLIDING_B)
    ensures Errors([COLLIDING_A, COLLIDING_B], {"a", "a/b"}, {"c", "b/c"})
      == [DuplicateCanonical(Id(COLLIDING_B), "/a/b/c/")]
  {
    var ts := [COLLIDING_A, COLLIDING_B];
    var cats: set<string> := {"a", "a/b"};
    var all: set<string> := {"c", "b/c"};
    assert ts[..1] == [COLLIDING_A];
    assert [COLLIDING_A][..0] == [];
    TopicCleanIff(COLLIDING_A, cats, all);
    TopicCleanIff(COLLIDING_B, cats, all);
    assert TopicClean(COLLIDING_A, cats, all) && TopicClean(COLLIDING_B, cats, all);
    assert Errors([COLLIDING_A], cats, all) == [];
    assert SlugSet([COLLIDING_A]) == {"c"};
    assert Canonical(COLLIDING_A) == "/a/b/c/";
    assert CanonicalSet([COLLIDING_A]) == {"/a/b/c/"};
    assert Canonical(COLLIDING_B) == "/a/b/c/";
    assert "b/c" != "c";
  }
}
