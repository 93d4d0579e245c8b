# Clearmark: watermark engine and SEO data layer, in Dafny

Clearmark removes the semi-transparent logo that Gemini composites in the
bottom-right corner of generated images. This project models two parts of the
repository and proves properties about them.

- **The watermark engine** (`src/core`):
  - It picks a size class (48 or 96 pixels) from the image dimensions.
  - It computes the logo's nominal anchor.
  - It searches a clamped window around that anchor with normalized
    cross-correlation (NCC) on BT.601 luma. The search is coarse (step 2,
    threshold 0.7), then refined at step 1.
  - If neither size is found, it falls back to the fixed anchor.
  - It caches one alpha map per size and removes the logo at each detected
    position.
  - It reports the last detection.
- **The programmatic SEO layer** (`src/seo`):
  - a topic factory that de-duplicates by slug;
  - related-slug resolution;
  - the merge of seed and generated topics, and the lookup helpers;
  - build-time validation;
  - escaping of page metadata;
  - JSON-LD structured data;
  - the URL list and sitemap chunking;
  - the list-shaping rules of the topic, hub and subcategory page templates;
  - the translator's `t(key)` lookup (`src/i18n.js`).

Modules, leaf first:

- `Wrappers`: `Option` and `Result`.
- `Text`: decimal rendering, `join`, `slice`, `indexOf` and a first-occurrence
  `replace`.
- `Correlation` (`correlation.dfy`): the `ncc` score and its two-pass method.
- `TemplateMatch` (`template_match.dfy`): `findWatermark` and `refineMatch` as
  methods with nested loops. Each is proved equal to a recursive scan.
- `Engine` (`watermark_engine.dfy`): the configuration and position functions.
  The `WatermarkEngine` class has an alpha-map cache field and a last-detection
  field, updated by its methods.
- `SeoModel`: the topic, FAQ, category and subcategory records, the canonical
  path and slug sets.
- `Factory`: a `TopicFactory` class whose `Add` updates the topic list and the
  slug set in place. It also holds `resolveRelatedSlugs` over an `array`.
- `Topics`: `BuildTopics` and the lookup helpers.
- `Validate`: `validateTopics` as a loop, proved equal to left folds.
- `Metadata`: `esc` and `generateMetaTags`.
- `StructuredData`: the schema.org objects and `renderSchemaScripts`.
- `Generate`: the URL list, sitemap chunking and the write plan of
  `generateSEOPages`.
- `TopicPageTemplate`, `HubPageTemplate` and `SubcategoryPageTemplate`.
- `I18n`: the translator object and `t`.

Stateful code is modelled imperatively: classes with `modifies` clauses, and
methods whose loops carry invariants. Each method is proved against a
specification function. The properties are proved about those functions.

Notes on what the code does:

- The engine keeps the last detection in a field that `getWatermarkInfo` reads
  in a later call. The model keeps that field.
- No call rejects an image smaller than the logo. The anchor is then negative,
  the search window is empty, and detection falls back to the fixed anchor.
  `CalculateWatermarkPosition` states that nothing clamps the anchor.
- A template scored against a patch with the same lumas gives 1 only when the
  template is not flat. A flat template gives 0 (`Correlation.NccSelf`).
- The model x platform x use-case block (src/seo/data/factory.js:539-547)
  passes `{ p, u, ctx }` as the second argument. It has neither `id` nor
  `slug`, so every topic of that block gets `_dim2 == ''` and no related
  slug (`Factory.KeylessSecondArgGetsNoRelated`).
- The refiner starts from the coarse position with score -1. It returns that
  start unchanged when no offset scores above -1.

## Model

| member | source | states |
|---|---|---|
| `Correlation.NccScore` | src/core/templateMatch.js:20-60 | Defines the score `ncc` returns for a patch and a template. `Correlation.NccScoreInRange`, `NccScoreSelf`, `NccScoreUniformPatch`, `NccScoreUniformTemplate` and `NccIgnoresAlpha` state its properties. |
| `Correlation.Ncc` | src/core/templateMatch.js:20-60 | The two passes compute exactly the NCC of the patch's and the template's luma sequences, with 0 for a denominator below 1e-6. |
| `Correlation.SumPass` | src/core/templateMatch.js:21-38 | The first pass yields the pixel count and the luma sums of the patch and of the template. |
| `Correlation.SumRow` | src/core/templateMatch.js:24-35 | One row of the first pass extends the sums of the earlier rows to include that row. |
| `Correlation.CrossPass` | src/core/templateMatch.js:41-55 | The second pass yields the centred cross product and the two centred energies. |
| `Correlation.CrossRow` | src/core/templateMatch.js:42-55 | One row of the second pass extends the three accumulators by that row's products. |
| `Correlation.LumaOfPatch` | src/core/templateMatch.js:26-30 | The inline index arithmetic reads the luma of cell (r, c) of the patch and of the template. |
| `Correlation.CenteredOnMean` | src/core/templateMatch.js:37-50 | Subtracting the computed mean gives the deviations from the mean. |
| `Correlation.CauchySchwarz` | src/core/templateMatch.js:51-57 | The squared cross term never exceeds the product of the two energies. |
| `Correlation.ScoreOfInRange` | src/core/templateMatch.js:57-59 | With a true square root, the final division lies in [-1, 1]. |
| `Correlation.NccInRange` | src/core/templateMatch.js:20-60 | Every NCC of two luma sequences lies in [-1, 1]. |
| `Correlation.NccParts` | src/core/templateMatch.js:37-59 | The score is the final division of a cross term by two energies that are non-negative, and whose product bounds the cross term squared. |
| `Correlation.NccSelf` | src/core/templateMatch.js:20-60 | A sequence scored against itself gives 1, or 0 when its energy is below 1e-6. |
| `Correlation.NccFlatPatch` | src/core/templateMatch.js:57-58 | A patch with a constant luma scores 0 against any template. |
| `Correlation.NccFlatTemplate` | src/core/templateMatch.js:57-58 | A template with a constant luma scores 0 against any patch. |
| `Correlation.NccScoreInRange` | src/core/templateMatch.js:7-20 | Every score `ncc` returns lies in [-1, 1], as its header promises. |
| `Correlation.NccScoreSelf` | src/core/templateMatch.js:20-60 | A patch with the template's lumas scores 1, unless the template is flat. |
| `Correlation.NccScoreUniformPatch` | src/core/templateMatch.js:57-58 | An image patch of uniform luma scores exactly 0. |
| `Correlation.NccScoreUniformTemplate` | src/core/templateMatch.js:57-58 | A template of uniform luma scores exactly 0 everywhere. |
| `Correlation.LumaIgnoresAlpha` | src/core/templateMatch.js:29-30 | A pixel's luma does not depend on its alpha byte. |
| `Correlation.NccIgnoresAlpha` | src/core/templateMatch.js:29-30 | Changing alpha bytes of the image or the template never changes the score. |
| `TemplateMatch.SearchWindow` | src/core/templateMatch.js:92-95 | Defines the clamped search box of `findWatermark`. `TemplateMatch.PatchFits` and `FindWatermarkPicksFirstBest` state what it bounds. |
| `TemplateMatch.PatchFits` | src/core/templateMatch.js:92-95 | Every corner in the clamped window addresses only bytes inside both buffers. |
| `TemplateMatch.FindWatermark` | src/core/templateMatch.js:77-109 | The nested loops return the result of the coarse scan over the clamped window. |
| `TemplateMatch.ScanRow` | src/core/templateMatch.js:100-105 | The inner loop returns the row scan from the incoming best. |
| `TemplateMatch.ScoreCorner` | src/core/templateMatch.js:101 | Scoring a corner inside the window gives that corner's score under the search's scorer. |
| `TemplateMatch.RowScanPicks` | src/core/templateMatch.js:100-105 | A row scan keeps its input, or picks a candidate that reaches the threshold, beats the input and beats every earlier candidate of the row. |
| `TemplateMatch.GridScanPicks` | src/core/templateMatch.js:99-106 | The whole scan keeps its input, or picks a candidate above the threshold that no candidate beats and every earlier candidate in scan order scores below. |
| `TemplateMatch.FindWatermarkEmptyIff` | src/core/templateMatch.js:97-108 | At most one match is returned, and none exactly when every candidate scores below the threshold. |
| `TemplateMatch.FindWatermarkPicksFirstBest` | src/core/templateMatch.js:92-108 | The match lies inside the image and within the radius. It reaches the threshold, is a maximum, and is the first maximum in row-major order. |
| `TemplateMatch.RefineMatch` | src/core/templateMatch.js:122-147 | The nested loops return the refinement scan started at the coarse position with score -1. |
| `TemplateMatch.RefineRow` | src/core/templateMatch.js:136-143 | The inner loop returns the refinement row scan from the incoming best. |
| `TemplateMatch.RefineRowScanPicks` | src/core/templateMatch.js:136-143 | A refinement row scan keeps its input or picks the first strictly better position of the row, and no position of the row beats the result. |
| `TemplateMatch.RefineGridScanPicks` | src/core/templateMatch.js:135-144 | The refinement scan returns the first position, in scan order, with the highest score, or its input when none beats it. |
| `TemplateMatch.RefineMatchPicksFirstBest` | src/core/templateMatch.js:128-146 | The result is the first best position of the window, with no threshold. Otherwise it is the coarse position with score -1. |
| `TemplateMatch.RefineKeepsCoarse` | src/core/templateMatch.js:128-146 | When the coarse position fits the image, refinement never scores below it. |
| `TemplateMatch.RefineScoreInRange` | src/core/templateMatch.js:128-146 | The refined score lies in [-1, 1]. |
| `Engine.TrySize` | src/core/watermarkEngine.js:143-163 | Defines one pass of the size loop: search, then refine, kept only above the threshold. `Engine.TrySizeFindsStrongMatch` and `NoMatchOnUniformImage` state its properties. |
| `Engine.DetectResult` | src/core/watermarkEngine.js:134-173 | Defines what `detectWatermarkPositions` returns. `Engine.TemplateDetection`, `FixedDetectionIff`, `DetectionHasOnePosition` and `UniformImageFallsBack` state its properties. |
| `Engine.DetectWatermarkConfig` | src/core/watermarkEngine.js:18-35 | The size is 96 exactly when both dimensions exceed 1024, otherwise 48. Both margins are 64 or 32 to match. |
| `Engine.CalculateWatermarkPosition` | src/core/watermarkEngine.js:44-53 | The logo square ends exactly its margins from the right and bottom edges, unclamped. |
| `Engine.WatermarkEngine.constructor` | src/core/watermarkEngine.js:60-64 | A new engine holds its references and templates, with an empty alpha-map cache and no detection. |
| `Engine.WatermarkEngine.GetAlphaMap` | src/core/watermarkEngine.js:102-127 | The map returned is the one computed from the size's background. The cache gains that entry, and it is computed only on the first request for a size. |
| `Engine.WatermarkEngine.DetectWatermarkPositions` | src/core/watermarkEngine.js:134-173 | The detection is the primary search, then the secondary search, then the fixed fallback. |
| `Engine.WatermarkEngine.SearchSize` | src/core/watermarkEngine.js:140-163 | One pass of the size loop searches around the size's anchor with radius = size and refines a match. |
| `Engine.WatermarkEngine.RemoveWatermarkFromImage` | src/core/watermarkEngine.js:180-204 | The output applies the removal at each detected position in turn, using the cached map of the detected size. The detection is recorded. |
| `Engine.WatermarkEngine.GetWatermarkInfo` | src/core/watermarkEngine.js:215-241 | The config always follows the dimensions passed in. After a detection, the size, method and match count are the detection's, and the position and score are those of its first position. Before one, the report is the fixed method at the computed anchor, with one match and score 0. |
| `Engine.DetectionHasOnePosition` | src/core/watermarkEngine.js:155-172 | Every detection carries exactly one position. |
| `Engine.TrySizeFindsStrongMatch` | src/core/watermarkEngine.js:143-163 | A template detection of one size lies inside the image, has that size, and scores in [0.7, 1]. |
| `Engine.TemplateDetection` | src/core/watermarkEngine.js:134-163 | The secondary size is used only when the primary finds nothing. A template detection fits the image and scores at least 0.7. |
| `Engine.FixedDetectionIff` | src/core/watermarkEngine.js:140-172 | The fixed method is used exactly when both sizes fail. It then reports the primary anchor with score 0. |
| `Engine.UniformImageFallsBack` | src/core/watermarkEngine.js:134-172 | An image of uniform luma always gets the fixed detection. |
| `Engine.NoMatchOnUniformImage` | src/core/watermarkEngine.js:149-155 | On an image of uniform luma the search of any size finds nothing. |
| `Engine.InfoAfterDetectionIgnoresDimensions` | src/core/watermarkEngine.js:217-228 | After a detection, the dimensions passed in change only the reported `config`. |
| `Engine.InfoBeforeDetectionIsFallback` | src/core/watermarkEngine.js:230-240 | Before any detection, the report equals the fixed detection for those dimensions. |
| `Factory.TopicFactory.constructor` | src/seo/data/factory.js:472-474 | A new factory has no topics, no slugs and no recorded calls. |
| `Factory.TopicFactory.Add` | src/seo/data/factory.js:476-495 | A repeated slug changes nothing. A new slug appends the record built from the intent, and the slug joins the set. |
| `Factory.TopicFactory.AddComparisons` | src/seo/data/factory.js:526-530 | The comparison block makes exactly the calls of `ComparisonCalls`, in loop order. |
| `Factory.TopicFactory.AddComparisonRow` | src/seo/data/factory.js:527-529 | Outer iteration i compares models[i] with each later model, in order. |
| `Factory.GenerateAllTopics` | src/seo/data/factory.js:472-653 | The topics produced are those the call sequence generates. |
| `Factory.Generated` | src/seo/data/factory.js:476-479 | The generated slugs are exactly the slugs of the calls. |
| `Factory.GeneratedDistinct` | src/seo/data/factory.js:477-478 | No two generated topics share a slug. |
| `Factory.GeneratedFirstWins` | src/seo/data/factory.js:477-495 | Each generated topic is built from the first call with its slug. |
| `Factory.GeneratedInCallOrder` | src/seo/data/factory.js:476-495 | Generated topics keep the order of the first calls of their slugs. |
| `Factory.ComparisonPairs` | src/seo/data/factory.js:526-530 | Only pairs i < j are compared, every such pair is, and there are n(n-1)/2 calls. |
| `Factory.ResolveRelatedSlugs` | src/seo/data/factory.js:661-685 | In place, every topic receives its resolved related slugs and nothing else changes. |
| `Factory.IndexByGroup` | src/seo/data/factory.js:663-668 | The index maps each group key to the topics of that group in list order. A key missing from it has no topics. |
| `Factory.RelatedSlugsOf` | src/seo/data/factory.js:671-683 | Looking up the pool in the index and picking from its candidates gives the topic's resolved related slugs. |
| `Factory.PickRelated` | src/seo/data/factory.js:678-682 | The pick loop takes the spread-out picks of `Picks`, in order. |
| `Factory.Picks` | src/seo/data/factory.js:678-682 | min(3, n) slugs are picked before de-duplication. |
| `Factory.Dedupe` | src/seo/data/factory.js:683 | De-duplication keeps every value once and drops no value. |
| `Factory.DropEmpty` | src/seo/data/factory.js:683 | The filter keeps exactly the non-empty slugs. |
| `Factory.PickIndexInRange` | src/seo/data/factory.js:678-682 | The pick index i * step always lies in the candidate list, so the `?.` fallback is never taken. |
| `Factory.CandidateMembers` | src/seo/data/factory.js:663-676 | A candidate shares the topic's group and intent, and differs in slug and second dimension. |
| `Factory.RelatedShape` | src/seo/data/factory.js:678-683 | A topic gets at most three related slugs, distinct and non-empty. |
| `Factory.RelatedAreCandidates` | src/seo/data/factory.js:670-683 | Every related slug is the slug of a genuine candidate. |
| `Factory.ResolvedRelatedAreSlugs` | src/seo/data/factory.js:661-685 | Every assigned related slug names a topic of the list. |
| `Factory.RelatedEmptyIff` | src/seo/data/factory.js:672-683 | With non-empty slugs, a topic gets no related slugs exactly when it has no candidate. |
| `Factory.RelatedCount` | src/seo/data/factory.js:674-683 | With distinct non-empty slugs, a topic gets exactly min(3, candidates) related slugs. |
| `Factory.PicksDistinctNonEmpty` | src/seo/data/factory.js:678-683 | Picks from candidates with distinct non-empty slugs are distinct and non-empty, so the set and the filter drop nothing. |
| `Factory.NoOtherDimNoRelated` | src/seo/data/factory.js:672-675 | Without a peer of another second dimension, a topic gets no related slug. |
| `Factory.SharedDimGetsNoRelated` | src/seo/data/factory.js:670-683 | When every call of a topic's intent passes a second argument with the same key, the topic's `_dim2` is that key and it gets no related slug. |
| `Factory.OverviewTopicsGetNoRelated` | src/seo/data/factory.js:636-650 | Overview topics, whose second argument is the placeholder, never get related slugs. |
| `Factory.KeylessSecondArgGetsNoRelated` | src/seo/data/factory.js:539-547 | A second argument without `id` or `slug`, as the model x platform x use-case block passes, gives `_dim2 == ''` and no related slug to any topic of that intent. |
| `Topics.MergeTopics` | src/seo/data/topics.js:215-219 | Defines `TOPICS`: the seeds, then the generated topics no seed shadows. `Topics.MergeShape` and `MergeDistinct` state its properties. |
| `Topics.TopicBySlug` | src/seo/data/topics.js:223-227 | Defines `getTopicBySlug` over the slug index. `Topics.TopicBySlugFinds` states its properties. |
| `Topics.TopicsByCategory` | src/seo/data/topics.js:229-231 | Defines `getTopicsByCategory`. `Topics.TopicsByCategoryExact` states its properties. |
| `Topics.TopicsBySubcategory` | src/seo/data/topics.js:233-235 | Defines `getTopicsBySubcategory`. `Topics.TopicsBySubcategoryExact` states its properties. |
| `Topics.RelatedTopics` | src/seo/data/topics.js:237-241 | Defines `getRelatedTopics`. `Topics.RelatedTopicsSound` and `LookUpAllKnown` state its properties. |
| `Topics.BuildTopics` | src/seo/data/topics.js:212-219 | The list is generated, resolved in place, then merged after the seeds. |
| `Topics.MergeShape` | src/seo/data/topics.js:215-219 | The seeds come first in order. After them come exactly the generated topics whose slug no seed uses, in generated order: merging a concatenation appends the second part's kept topics, and one generated topic is kept exactly when no seed has its slug. |
| `Topics.MergeDistinct` | src/seo/data/topics.js:215-219 | Seeds and generated topics with distinct slugs merge into a list with distinct slugs. |
| `Topics.GeneratedRelatedSlugsResolve` | src/seo/data/topics.js:212-219 | Although resolution precedes the seed filter, every related slug of a kept generated topic names a topic of the merged list. |
| `Topics.SlugIndexLastWins` | src/seo/data/topics.js:223 | The index has exactly the list's slugs as keys, each mapped to the last topic with that slug. |
| `Topics.TopicBySlugFinds` | src/seo/data/topics.js:225-227 | The lookup returns null exactly for unknown slugs. With distinct slugs it returns the topic carrying the slug. |
| `Topics.TopicsByCategoryExact` | src/seo/data/topics.js:229-231 | Exactly the topics of the category are returned, in list order. |
| `Topics.TopicsBySubcategoryExact` | src/seo/data/topics.js:233-235 | Exactly the topics of the subcategory are returned, in list order. |
| `Topics.LookUpAllKnown` | src/seo/data/topics.js:237-241 | Looking up a concatenation concatenates the lookups. A known slug gives its indexed topic and an unknown one nothing, so order is kept and exactly the unknown slugs are dropped. When every slug is known, there is one topic per slug. |
| `Topics.RelatedTopicsSound` | src/seo/data/topics.js:237-241 | A topic without related slugs has no related topics. Otherwise each related topic is the lookup of one of its slugs. |
| `Validate.ValidationOutcome` | src/seo/validate.js:18-95 | Defines the outcome of `validateTopics`: the error and warning lists, and whether it throws. `Validate.ValidateTopics`, `PassesIffValid` and `WarningsBounded` state its properties. |
| `Validate.CheckRequired` | src/seo/validate.js:30-34 | The required-field loop records the errors of `RequiredErrors`. |
| `Validate.CheckRelated` | src/seo/validate.js:65-71 | The related-slug loop records the errors of `RelatedErrors`. |
| `Validate.CheckFaqs` | src/seo/validate.js:74-80 | The FAQ loop records the errors of `FaqErrors`. |
| `Validate.CheckTopic` | src/seo/validate.js:29-80 | One topic's checks push exactly its errors, in order. Its slug and canonical path join the seen sets. |
| `Validate.CheckLengths` | src/seo/validate.js:55-62 | A topic adds its length warnings only while fewer than 20 warnings exist. |
| `Validate.ValidateTopics` | src/seo/validate.js:18-98 | The loop's outcome is the fold over the topics, failing when any error was recorded. |
| `Validate.FieldErrorsMembers` | src/seo/validate.js:30-34 | The missing-field errors name exactly the absent required fields. |
| `Validate.SlugErrorsMembers` | src/seo/validate.js:65-71 | The missing-slug errors name exactly the related slugs that no topic has. |
| `Validate.FaqListErrorsMembers` | src/seo/validate.js:74-80 | The FAQ errors name exactly the positions of the incomplete FAQs. |
| `Validate.LengthWarnings` | src/seo/validate.js:56-61 | A topic adds at most two length warnings. |
| `Validate.WarningsBounded` | src/seo/validate.js:55-62 | Since the cap is checked before adding up to two, there are never more than 21 warnings. |
| `Validate.TopicCleanIff` | src/seo/validate.js:29-80 | A topic's own checks record nothing exactly when it is clean. |
| `Validate.ErrorsEmptyIff` | src/seo/validate.js:26-81 | The loop records no error exactly when the topics it visited are valid. |
| `Validate.PassesIffValid` | src/seo/validate.js:83-95 | Validation throws exactly when a topic is invalid, or when a slug or a canonical path repeats. Warnings never make it throw. |
| `Validate.CanonicalInjective` | src/seo/validate.js:48 | Without `/` in categories and slugs, the canonical path determines category and slug. |
| `Validate.DuplicateCanonicalHasDuplicateSlug` | src/seo/validate.js:41-52 | Without `/` in categories and slugs, every duplicate-canonical error comes with a duplicate-slug error for the same topic. |
| `Validate.CanonicalWithoutSlugDuplicate` | src/seo/validate.js:41-52 | With a `/` inside a category or a slug, two topics share a canonical path with distinct slugs, so only the canonical check fires. |
| `Metadata.Esc` | src/seo/metadata.js:42-44 | Defines `esc` as the four chained global replacements. `Metadata.EscIsPerCharacter`, `EscHasNoQuotesOrBrackets`, `EscAmpersandsBeginEntities`, `UnescapeEsc`, `EscInjective` and `EscPlainText` state its properties. |
| `Metadata.MetaTags` | src/seo/metadata.js:17-40 | Defines the tags `generateMetaTags` emits, in order. `Metadata.MetaTagsAddress`, `MetaTagsType` and `MetaTagsEscapeText` state its properties. |
| `Metadata.EscIsPerCharacter` | src/seo/metadata.js:42-44 | The four chained global replacements escape each character on its own. |
| `Metadata.ChainSingle` | src/seo/metadata.js:42-44 | On one character, the chain gives that character's entity or the character itself, as no entity holds a character that a later step replaces. |
| `Metadata.EscHasNoQuotesOrBrackets` | src/seo/metadata.js:43 | Escaped text holds no `"`, `<` or `>`. |
| `Metadata.EscAmpersandsBeginEntities` | src/seo/metadata.js:43 | Every `&` of escaped text begins one of the four entities. |
| `Metadata.UnescapeEsc` | src/seo/metadata.js:42-44 | Decoding the entities gives back the original text. |
| `Metadata.EscInjective` | src/seo/metadata.js:42-44 | Distinct texts stay distinct once escaped. |
| `Metadata.EscPlainText` | src/seo/metadata.js:42-44 | Text without `&"<>` is emitted as it is. |
| `Metadata.MetaTagsAddress` | src/seo/metadata.js:18-30 | The canonical link and `og:url` are the site origin followed by the canonical path. |
| `Metadata.MetaTagsType` | src/seo/metadata.js:17-27 | `og:type` is the given type, or `article` when none is given. |
| `Metadata.MetaTagsEscapeText` | src/seo/metadata.js:21-38 | Every tag that shows the title or the description carries it escaped, with no raw `"`, `<` or `>`. |
| `Metadata.TagsOfAddress` | src/seo/metadata.js:18-30 | The canonical link and `og:url` both carry the full URL. |
| `Metadata.TagsOfType` | src/seo/metadata.js:27 | An `og:type` tag carries the given kind, and no `og:type` tag carries anything else. |
| `Metadata.TagsOfText` | src/seo/metadata.js:21-38 | Every tag that shows page text carries the given title or the given description. |
| `StructuredData.ArticleSchema` | src/seo/schema.js:13-29 | Defines `articleSchema`. `StructuredData.ArticleSchemaPage` states its properties. |
| `StructuredData.Present` | src/seo/schema.js:84 | Defines `schemas.filter(Boolean)`. `StructuredData.PresentMembers` and `PresentConcat` state its properties. |
| `StructuredData.RenderSchemaScripts` | src/seo/schema.js:82-87 | Defines `renderSchemaScripts`. `StructuredData.RenderSchemaScriptsEmpty`, `RenderSchemaScriptsSingle` and `RenderSchemaScriptsConcat` state its properties. |
| `StructuredData.ArticleSchemaPage` | src/seo/schema.js:13-29 | With the topic's own category, the article's page is the topic's canonical URL. It is published on 2025-01-01 and modified on the build date. |
| `StructuredData.FaqSchema` | src/seo/schema.js:34-45 | There is no FAQ object exactly when the FAQs are missing or empty. Otherwise there is one question per FAQ. |
| `StructuredData.FaqSchemaQuestions` | src/seo/schema.js:39-43 | Question i is named by q and answered by a of FAQ i. |
| `StructuredData.BreadcrumbSchema` | src/seo/schema.js:50-61 | There is one list item per crumb. |
| `StructuredData.BreadcrumbItems` | src/seo/schema.js:54-59 | Positions run 1..n and names are the crumbs'. An item is an absolute URL exactly when the crumb has a url. |
| `StructuredData.PresentMembers` | src/seo/schema.js:83-84 | The filter keeps exactly the present objects. It gives nothing exactly when every argument is absent, and never more objects than arguments. |
| `StructuredData.PresentConcat` | src/seo/schema.js:83-84 | The filter distributes over concatenation. A present argument gives exactly its object and an absent one gives nothing, so the objects keep the arguments' order and each appears once per argument. |
| `StructuredData.ScriptTag` | src/seo/schema.js:85 | A script tag is never empty. |
| `StructuredData.RenderSchemaScriptsEmpty` | src/seo/schema.js:82-87 | The rendering is empty exactly when every object is absent. |
| `StructuredData.RenderSchemaScriptsSingle` | src/seo/schema.js:82-87 | A single present object renders as its script tag alone, without a separator. |
| `StructuredData.RenderSchemaScriptsConcat` | src/seo/schema.js:82-87 | Rendering two argument lists together gives the scripts of the first, then the separator `"\n    "`, then the scripts of the second. A list without present objects adds nothing. With `RenderSchemaScriptsSingle`, this gives one tag per present object, in argument order. |
| `Text.JoinConcat` | src/seo/schema.js:86 | Joining two non-empty lists puts exactly one separator between the two joined halves. |
| `Generate.SitemapWrites` | src/seo/generate.js:108-138 | Defines the files `generateSitemaps` writes, in order. `Generate.SitemapPlan` and `SitemapFilesDistinct` state its properties. |
| `Generate.BuildUrlList` | src/seo/generate.js:86-103 | The list has one entry for home, one per category and one per topic. |
| `Generate.UrlListOrder` | src/seo/generate.js:86-103 | Home comes first, then the hubs, then the topics at their canonical paths, with priorities 1.0, 0.8 and 0.6, all dated today. |
| `Generate.UrlListDistinct` | src/seo/generate.js:86-103 | With slash-free, non-empty, distinct category slugs and distinct canonicals, no location is listed twice. |
| `Generate.HubIsNotTopic` | src/seo/generate.js:91-97 | A hub path is never a topic path when the hub slug has no `/`. |
| `Generate.ChunkUrls` | src/seo/generate.js:116-119 | The chunking loop yields the chunks of `ChunksOf`. |
| `Generate.ChunksFlatten` | src/seo/generate.js:116-119 | The chunks laid end to end are the URL list: nothing is lost, repeated or reordered. |
| `Generate.ChunkSizes` | src/seo/generate.js:116-119 | Each chunk holds 1 to 50000 URLs, and all but the last hold exactly 50000. |
| `Generate.ChunkCount` | src/seo/generate.js:116-119 | There are ceil(n / 50000) chunks. |
| `Generate.GenerateSitemaps` | src/seo/generate.js:108-138 | The files written are those of `SitemapWrites`. |
| `Generate.SitemapNameInjective` | src/seo/generate.js:122 | Distinct chunk numbers give distinct file names. |
| `Generate.SitemapPlan` | src/seo/generate.js:108-138 | Up to 50000 URLs go to a single sitemap. Beyond that, numbered files hold the chunks in order, and the index lists them last. |
| `Generate.SitemapFilesDistinct` | src/seo/generate.js:121-124 | No chunk file overwrites another. |
| `Generate.GenerateSeoPages` | src/seo/generate.js:43-81 | A failed validation writes nothing and reports the errors. Otherwise every hub and topic page is written and counted, followed by the sitemaps, robots.txt and the 404 page. |
| `Generate.PassedBuildHasDistinctTopicPages` | src/seo/generate.js:60-67 | After a passed validation, no two topic pages share a directory. |
| `TopicPageTemplate.RenderTopicPage` | src/seo/templates/topicPage.js:15-94 | Defines the parts of `renderTopicPage`. `TopicPageTemplate.TopicPageFacts`, `TopicCrumbsShape`, `FaqSectionShown` and `RelatedSectionShown` state its properties. |
| `TopicPageTemplate.TopicCrumbsShape` | src/seo/templates/topicPage.js:26-29 | There are 3 crumbs, or 4 with a subcategory. They run from Home to the heading, and only the last has no url. |
| `TopicPageTemplate.TopicBreadcrumbLinks` | src/seo/templates/topicPage.js:37-44 | Every crumb but the last links its absolute URL, and the last is the heading in a span. |
| `TopicPageTemplate.FaqSectionShown` | src/seo/templates/topicPage.js:61-71 | The FAQ section is empty exactly when there are no FAQs, which is exactly when there is no FAQ schema. |
| `TopicPageTemplate.RelatedSectionShown` | src/seo/templates/topicPage.js:46-59 | The related section is empty exactly when no related topic is found. When all slugs resolve, that means no related slugs. |
| `TopicPageTemplate.TopicPageFacts` | src/seo/templates/topicPage.js:15-35 | A page exists exactly when the category is known. Its canonical, metadata, article page and breadcrumb list agree with the topic. |
| `HubPageTemplate.RenderHubPage` | src/seo/templates/hubPage.js:14-95 | Defines the parts of `renderHubPage`. `HubPageTemplate.HubPageFacts`, `SiblingSectionShown` and `ArticleCountPlural` state its properties. |
| `HubPageTemplate.TopicItemsNumbered` | src/seo/templates/hubPage.js:34-39 | The collection items are numbered 1..n, and item i links topic i. |
| `HubPageTemplate.OtherCategoriesMembers` | src/seo/templates/hubPage.js:58 | The sibling hubs are exactly the categories with another slug. |
| `HubPageTemplate.SiblingSectionShown` | src/seo/templates/hubPage.js:58-70 | The sibling section is empty exactly when no other category exists. |
| `HubPageTemplate.ArticleCountPlural` | src/seo/templates/hubPage.js:75 | The count reads "article" for exactly one topic and "articles" otherwise. |
| `HubPageTemplate.HubPageFacts` | src/seo/templates/hubPage.js:14-58 | The hub lists exactly its category's topics, numbered. Its canonical is `/slug/`, it is typed website, its breadcrumb is Home then the category, and its siblings are the other categories. |
| `SubcategoryPageTemplate.RenderSubcategoryPage` | src/seo/templates/subcategoryPage.js:16-103 | Defines the parts of `renderSubcategoryPage`. `SubcategoryPageTemplate.SubcategoryPageFacts`, `DisplayCap`, `ItemListCap` and `SiblingSectionShown` state its properties. |
| `SubcategoryPageTemplate.Take` | src/seo/templates/subcategoryPage.js:76 | A slice holds the first min(n, k) topics of the list. |
| `SubcategoryPageTemplate.SiblingsMembers` | src/seo/templates/subcategoryPage.js:62 | The siblings are exactly the other subcategories of the same parent. |
| `SubcategoryPageTemplate.SiblingSectionShown` | src/seo/templates/subcategoryPage.js:62-74 | The sibling section is empty exactly when the parent has no other subcategory. |
| `SubcategoryPageTemplate.DisplayCap` | src/seo/templates/subcategoryPage.js:76-91 | The grid shows the first min(n, 100) topics. The rest are counted, and the note appears exactly when n > 100. |
| `SubcategoryPageTemplate.ItemListCap` | src/seo/templates/subcategoryPage.js:33-42 | The schema counts every topic but lists at most 50, numbered from 1. |
| `SubcategoryPageTemplate.SubcategoryPageFacts` | src/seo/templates/subcategoryPage.js:16-62 | A page exists exactly when the parent is known. Its canonical is `/parent/slug/` and its breadcrumb is Home, parent, subcategory. |
| `Text.ReplaceFirst` | src/i18n.js:19 | Defines `String.prototype.replace` with a string pattern. `Text.ReplaceFirstSplits` and `ReplaceFirstAbsent` state its properties. |
| `Text.ReplaceFirstSplits` | src/i18n.js:19 | A string-pattern replace rewrites only the first occurrence. |
| `Text.ReplaceFirstAbsent` | src/i18n.js:19 | Text without the pattern is returned as it is. |
| `I18n.Translator.T` | src/i18n.js:16-22 | Defines `t(key)`: the truthy translation, else the key, with the first `{{year}}` replaced when the result is a string. `I18n.FallbackToKey`, `NonStringUnchanged`, `FirstYearOnly` and `PlainTranslation` state its properties. |
| `I18n.Translator.constructor` | src/i18n.js:1-3 | The translator starts in en-US with no translations. |
| `I18n.Translator.LoadTranslations` | src/i18n.js:11-14 | The table becomes the fetched JSON object. |
| `I18n.Translator.ApplyTranslations` | src/i18n.js:24-35 | The title and every keyed element get the lookup of their key, as placeholder or as text. |
| `I18n.FallbackToKey` | src/i18n.js:16-22 | A missing or falsy translation falls back to the key, which also has its year filled in. |
| `I18n.NonStringUnchanged` | src/i18n.js:17-21 | A truthy value that is not a string is returned as it is. |
| `I18n.FirstYearOnly` | src/i18n.js:19 | Only the first `{{year}}` is replaced by the year. |
| `I18n.PlainTranslation` | src/i18n.js:16-22 | A non-empty translation without a placeholder is returned unchanged. |

## Left out

- Numbers:
  - Floating point is modelled as exact reals. `Math.sqrt` is a parameter, and the range and self-match lemmas require it to be a true square root. Rounding in the luma sums is not modelled.
  - Integers are unbounded. Pixel offsets never approach 2^53.
- Injected and external code:
  - `calculateAlphaMap` (alphaMap.js) and `removeWatermark` (blendModes.js) are not part of this model. The engine receives them as function values, so the blend inverse and its clamping are not stated.
  - Canvas creation, image decoding and `WatermarkEngine.create` (asset loading) are left out. Images are given as their `ImageData`.
- Engine details:
  - `sizeConfig` (src/core/watermarkEngine.js:142) is computed and never used, so the model omits it.
  - The asynchronous `getAlphaMap`, and concurrent calls racing on the cache, are modelled as sequential method calls.
- `TemplateMatch.FindWatermark`: requires `step > 0`. With a step of 0 the loop of src/core/templateMatch.js:99 never ends. Every caller passes 2.
- Build inputs as parameters:
  - `console` output, the file system (`fs`, `path.join` normalisation), `Date.now` timing and `process.argv` are left out.
  - The build date and the current year are parameters.
- Serialisation as parameters:
  - `JSON.stringify` is a parameter of `RenderSchemaScripts`.
  - `toLocaleString` is the `formatCount` parameter of the subcategory page.
- Factory topic content: the `INTENTS` prose templates (titles, descriptions, content, FAQs) are abstracted as an `Intent` of functions from the two arguments.
- Factory call blocks:
  - The blocks of `generateAllTopics` are abstracted as the sequence of `add` calls they make.
  - Only the comparison block (src/seo/data/factory.js:526-530) is modelled loop for loop.
- Missing fields:
  - A missing string field is the empty string.
  - Missing FAQs or related slugs are `None`.
  - Keys inherited from `Object.prototype` (a slug named `toString`) are not modelled in `bySub`, `CATEGORIES` or the translation table.
- String lengths: title and description lengths count characters, not UTF-16 code units.
- Page markup:
  - The HTML of the pages is modelled section by section, without whitespace and inline style attributes.
  - `baseTemplate` (base.js) and the 404 page are not part of this model.
  - The CTA block and the category and topic prose in the body are not modelled.
- Sitemap and robots output: the XML text of the sitemaps and the text of robots.txt are left out. The model states which URLs go in which file, and in which order.
- Translator:
  - The DOM is reduced to the list of keyed elements.
  - `document.documentElement.lang`, the `loading` class and `init`'s sequencing are left out.
  - JSON numbers are reals, so NaN does not arise.
- `Validate.DuplicateCanonicalHasDuplicateSlug`: holds only when no category or slug contains `/`. `Validate.CanonicalWithoutSlugDuplicate` shows two topics whose canonical paths collide while their slugs differ.
