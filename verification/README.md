# AI project explorer: cache assembly and tag filtering, in Dafny

This project models the data logic of a small web application that lists
the projects applying to Gitcoin funding rounds. The application tags each
project with features extracted by an AI classifier and lets visitors
filter projects by tag. Two parts are modelled.

**The server side** is src/applications.ts.

- A background refresh stores each round's list of applications in a
  key-value cache. For every application whose features are not cached
  yet, it asks the classifier and stores the answer, `null` included
  (`refreshApplications`, `extractFeaturesFromApplication`).
- The read path (`getApplications`) does the following:
  - gathers the cached lists;
  - joins each application with its cached features;
  - drops applications whose features are `null`;
  - stamps a flattened tag list and a composite `refId`;
  - sorts the result by project title.
- The classifier's prompt lists the plain (non-encrypted) answers of the
  application form.

**The client side** is src/components/Homepage.tsx.

- The page lower-cases every application's tags.
- It counts tags case-insensitively into a dictionary that keeps the first
  spelling seen (`addTag`), and offers the entries as suggestions by
  descending count.
- It shows the applications that carry every selected tag.
- It edits the selection by appending (`onAdd`) and by deleting at an
  index (`onDelete`).

## Files and modules

| file | module | contents |
|---|---|---|
| wrappers.dfy | `Wrappers` | `Option`, `Result` |
| records.dfy | `Records` | round references, rounds, features, answers, applications, cached values |
| keys.dfy | `Keys` | decimal rendering, the two cache keys, the composite `refId` |
| cache.dfy | `KeyValue` | the cache: a class holding a `map` that `Set` updates in place |
| sorting.dfy | `Sorting` | in-place insertion sort by a key, the model of `Array.prototype.sort`; multiset facts |
| assembler.dfy | `Assembler` | the read path, `getApplications` |
| orchestrator.dfy | `Orchestrator` | `extractFeaturesFromApplication` and one refresh cycle, as methods on the cache, with specification functions |
| cycle_properties.dfy | `CycleProperties` | what a refresh cycle guarantees, and that a resolved cycle lets the read path succeed |
| prompt.dfy | `Prompt` | the "Project Answers" part of the prompt |
| homepage.dfy | `Homepage` | lower-casing, the tag dictionary, suggestions, filtering, selection editing |

## Modelling decisions

- **Cache.** The cache is a `KeyValue.Cache` object whose `store` field is a
  `map<string, Value>`.
  - A value is a round's list, a features record, or `null`.
  - The cache's invariant is that list-shaped keys (`applications…`) hold
    lists and no other key does. This is the typing that the source's casts
    assume.
- **External services as inputs.**
  - The indexer's answer for each round is an input: a list, or nothing
    when the fetch failed.
  - The classifier's answer for each application is an input
    `Application -> AiOutcome`. A failed request gives `null`, and so do
    missing tool-call arguments. Arguments that do not parse make the
    extraction reject. Otherwise the outcome is the parsed record or `null`.
- **Concurrency.** `Promise.all` is modelled in list order. When several
  reads fail, the model reports the first one in list order.
- **Collation.** `localeCompare` is a parameter `collate: string -> real`.
  Every total preorder on strings is the order of some real-valued key.
- **Lower-casing.** `toLowerCase` is modelled on ASCII letters.
- **Absent features key.** The code tests `features === null`
  (src/applications.ts:116) and then reads `features.tags`. For an absent
  key the cache returns `undefined`, so the read path throws instead of
  dropping the application.
  - `Assembler.Assemble` and `Assembler.GetApplications` follow the code:
    an absent features key is the error `FeaturesUnreadable`. Only
    applications whose stored value is `null` are dropped.
  - `CycleProperties.RefreshThenReadSucceeds` shows that this never
    happens after a refresh cycle that resolves.
  - It does happen after a cycle in which an extraction rejected (see
    "## Findings"). `Assembler.AssembleExcluding` is the evidently intended
    read path, which leaves applications without features out silently.
- **Unparsable classifier output.** `JSON.parse`
  (src/applications.ts:482) is outside the `.catch`. So a payload that
  does not parse makes the extraction reject, the refresh rejects, and
  nothing is stored for that application. The model follows the code
  (`AiOutcome.Malformed`).

## Model

| member | source | states |
|---|---|---|
| Keys.Decimal | src/applications.ts:99 | the rendering of a chain or round id is non-empty, all digits, and one character long exactly for ids below 10 |
| Keys.DecimalInjective | src/applications.ts:99 | different ids render differently |
| Keys.ListKey | src/applications.ts:99 | a round's list key has the `applications` prefix that marks list entries |
| Keys.ListKeyInjective | src/applications.ts:99 | two rounds share a list key only if they are the same round |
| Keys.FeatureKey | src/applications.ts:113 | a features key never has the list-key prefix, so features and lists never share an entry |
| Keys.FeatureKeyFramesRefId | src/applications.ts:217 | the features key is `application:` + the composite refId + `:features` |
| Records.Stored | src/applications.ts:223 | a classification result is stored as `null` exactly when there is no record, and as the record otherwise; the stored value is falsy exactly when there is no record, so a stored `null` does not short-circuit an extraction at line 251 |
| KeyValue.Cache.constructor | src/applications.ts:6-9 | a new cache is empty and well typed |
| KeyValue.Cache.Get | src/applications.ts:249 | a lookup finds exactly the stored value, and nothing for an absent key; in a well-typed cache it finds a list exactly under a list key |
| KeyValue.Cache.Has | src/applications.ts:218 | `has` holds exactly when a lookup finds a value, `null` included |
| KeyValue.Cache.Set | src/applications.ts:223 | a write stores the value under its key, changes no other key, and keeps the cache well typed |
| Assembler.MissMessage | src/applications.ts:104 | the error text is `Cache miss for ` followed by the missing key |
| Assembler.MissMessageNamesKey | src/applications.ts:104 | two misses with the same message are for the same key |
| Assembler.Gather | src/applications.ts:96-108 | reading the round lists succeeds exactly when every round's list is cached; otherwise it fails with the key of the first missing round |
| Assembler.GatherAppend | src/applications.ts:96-108 | the gathered list for a concatenation of rounds is the concatenation of the parts, in order |
| Assembler.GatherOne | src/applications.ts:98-105 | one cached round gathers to exactly its cached list |
| Assembler.GatherMembers | src/applications.ts:96-108 | every gathered application comes from the cached list of a requested round |
| Assembler.FilterTruthy | src/applications.ts:129 | every part `filter(Boolean)` keeps is truthy |
| Assembler.FlatAppend | src/applications.ts:130 | `flat()` distributes over concatenation |
| Assembler.FilterTruthyAppend | src/applications.ts:129 | `filter(Boolean)` distributes over concatenation |
| Assembler.PartContribution | src/applications.ts:120-130 | an array part contributes all its items, a string part itself unless empty, `undefined` nothing |
| Assembler.FlattenTagsShape | src/applications.ts:120-130 | the tag list is tags ++ regions ++ team size ++ technology stack ++ project age ++ users count ++ "DAO governed" if a DAO, with empty scalar fields dropped |
| Assembler.EmptyTagOnlyFromArrays | src/applications.ts:120-130 | an empty tag appears exactly when one of the array fields holds one |
| Assembler.FlattenTagsLength | src/applications.ts:120-130 | the number of tags is the array lengths plus one for each non-empty scalar field and one for a DAO |
| Assembler.EnrichStampsOnly | src/applications.ts:132-139 | enrichment changes only `tags`, `features` and `refId`, and overrides any incoming `refId` |
| Assembler.EnrichOne | src/applications.ts:113-139 | one application's join succeeds exactly when its features key holds a record or `null`, and otherwise rejects for that key; `null` gives no record, a record gives exactly its enrichment |
| Assembler.EnrichAll | src/applications.ts:110-142 | the join succeeds exactly when every application's features entry is readable |
| Assembler.EnrichAllFirstFailure | src/applications.ts:110-142 | a failing join fails for the first unreadable application |
| Assembler.EnrichAllFromInputs | src/applications.ts:132-142 | every enriched record is an input application stamped with its own cached features, and there are no more records than inputs |
| Assembler.EnrichAllAppend | src/applications.ts:110-142 | joining a concatenation joins the parts in order, the first failure winning |
| Assembler.ThenAssociative | src/applications.ts:110-142 | sequencing joins is associative |
| Assembler.EnrichAllUnfold | src/applications.ts:110-142 | the join of a list is the join of its head followed by the join of its tail |
| Assembler.EnrichAllOne | src/applications.ts:113-139 | the join of one application is its own join |
| Assembler.NullFeaturesExcluded | src/applications.ts:116-118 | an application whose features are `null` is dropped without error: the result equals the result without it |
| Assembler.FeaturedIncluded | src/applications.ts:132-142 | an application with a cached record yields exactly one enriched record, in its place |
| Assembler.EnrichAllDistinct | src/applications.ts:137 | distinct composite ids in the input give distinct `refId`s in the output |
| Assembler.StampsOfMembers | src/applications.ts:137 | in a list with distinct `refId`s, two different members have different `refId`s |
| Assembler.PermutationKeepsDistinct | src/applications.ts:144-148 | reordering keeps distinct `refId`s distinct |
| Assembler.Present | src/applications.ts:113-118 | keeps, in order, exactly the applications whose features key is present |
| Assembler.PresentAll | src/applications.ts:113-118 | when every features key is present, no application is left out |
| Assembler.ExcludingNeverUnreadable | src/applications.ts:110-142 | on a well-typed cache the corrected read path rejects only when a round's list is missing |
| Assembler.ExcludingAgrees | src/applications.ts:110-142 | wherever the read path as written succeeds, the corrected one gives the same records |
| Assembler.GetApplications | src/applications.ts:93-151 | succeeds exactly when gathering and joining succeed, with the same error otherwise; the result is sorted by title and is a permutation of the joined list; distinct input ids give distinct `refId`s |
| Sorting.SwapDown | src/applications.ts:144 | exchanging two neighbours changes nothing else and keeps the multiset |
| Sorting.InsertAt | src/applications.ts:144-148 | inserting the next element extends the sorted prefix and keeps the multiset |
| Sorting.SortBy | src/applications.ts:144-148 | the array ends sorted by the key and is a permutation of the input |
| Sorting.TwiceCounted | src/applications.ts:144-148 | an element at two positions is counted twice in the multiset |
| Sorting.CountedTwice | src/applications.ts:144-148 | an element counted twice sits at two positions |
| Sorting.TwoPositions | src/applications.ts:144-148 | two different members sit at two different positions |
| Orchestrator.FromOutcome | src/applications.ts:466-482 | the extraction rejects exactly for unparsable arguments; a failed call and missing arguments give `null`; parsed arguments are returned |
| Orchestrator.ExtractFeatures | src/applications.ts:244-488 | a truthy cached value is returned without a call and without a write; otherwise the call is made, failures give `null`, and only parsed arguments are written to the cache |
| Orchestrator.ExtractTwice | src/applications.ts:248-253 | after an extraction that produced a record, asking again makes no call and returns the same record |
| Orchestrator.StoreFetched | src/applications.ts:156-209 | the fetch stage leaves the cache that writing each fetched list under its round key gives, reports whether every fetch succeeded, and returns the lists concatenated in order |
| Orchestrator.ClassifyPending | src/applications.ts:215-236 | the classification stage leaves the cache and the list of classifier calls given by the stage's specification |
| Orchestrator.RefreshApplications | src/applications.ts:153-237 | a refresh leaves the cache, the failure flag and the list of classifier calls that one specified cycle gives |
| CycleProperties.StoreListsWellTyped | src/applications.ts:196-203 | writing the fetched lists keeps the cache well typed |
| CycleProperties.StoreListsChangesOnlyLists | src/applications.ts:196-203 | the fetch stage changes only the list keys of fetched rounds, to lists fetched for them, and removes nothing |
| CycleProperties.StoreListsWritten | src/applications.ts:196-203 | every fetched round's key holds a list fetched for it; with no duplicate round, exactly its own list |
| CycleProperties.ConcatContains | src/applications.ts:208-209 | every fetched application is in the flattened list |
| CycleProperties.ClassifyKeepsPresent | src/applications.ts:217-223 | a present key, `null` included, is never rewritten by classification |
| CycleProperties.ClassifyCallsOnlyUncached | src/applications.ts:217-222 | the classifier is asked only about listed applications whose key was not cached |
| CycleProperties.ClassifyAsksOnce | src/applications.ts:217-223 | a key is asked about again only after an earlier extraction for it rejected, and every call that did not reject left its result cached |
| CycleProperties.ClassifyAddsResults | src/applications.ts:217-223 | every added entry is the stored result, `null` for a failed call, of asking about an application with that key |
| CycleProperties.ClassifyCovers | src/applications.ts:215-236 | the stage fails exactly when an extraction it asked for rejected; if it does not fail, every listed application's key is cached |
| CycleProperties.ClassifyWellTyped | src/applications.ts:223 | classification keeps the cache well typed |
| CycleProperties.CycleListsCached | src/applications.ts:196-203 | after a resolved cycle every requested round's list is cached |
| CycleProperties.CycleListedKeysCached | src/applications.ts:215-236 | after a resolved cycle every application in a cached round list has a readable features entry |
| CycleProperties.RefreshThenReadSucceeds | src/applications.ts:153-237 | after a resolved cycle, the read path over the same rounds succeeds |
| CycleProperties.StepLeavesReadable | src/applications.ts:217-223 | classifying an uncached application leaves its features entry readable exactly when the extraction did not reject |
| CycleProperties.RejectedExtractionBlocksRead | src/applications.ts:113-121 | after a cycle whose only extraction rejects, the cycle has failed and the read path as written rejects for that application; the corrected one returns no records |
| Prompt.FormatAnswer | src/applications.ts:457 | an answer renders as `Q: `, the question, a newline, `A: `, then the answer |
| Prompt.PlainPairs | src/applications.ts:454-459 | the pairs are exactly the plain answers of the form: every pair is a plain answer, and every plain answer gives a pair |
| Prompt.FormatAnswerSplit | src/applications.ts:457 | a single-line question and answer read back as exactly their `Q:` and `A:` lines |
| Prompt.AnswerLines | src/applications.ts:454-459 | one line per plain answer, in order, each the rendering of that answer |
| Prompt.Join | src/applications.ts:460 | joining no lines gives the empty string, and one line gives that line |
| Prompt.AnswerLinesAppend | src/applications.ts:454-459 | rendering distributes over concatenation of forms |
| Prompt.EncryptedOmitted | src/applications.ts:456-458 | an encrypted answer contributes nothing, wherever it sits |
| Prompt.NoPlainAnswersEmpty | src/applications.ts:454-460 | a form with only encrypted answers renders as the empty block |
| Prompt.SplitJoin | src/applications.ts:460 | splitting at the separator undoes the join when no line holds it |
| Prompt.JoinRendered | src/applications.ts:457-460 | the joined answers equal the joined `Q:` and `A:` lines |
| Prompt.ProjectAnswersReadBack | src/applications.ts:454-460 | read line by line, the block is one `Q:` and one `A:` line per plain answer, in form order, when questions and answers are single lines |
| Homepage.LowerChar | src/components/Homepage.tsx:14 | lower-casing leaves no capital letter, shifts capitals by 32 and leaves other characters alone |
| Homepage.Lower | src/components/Homepage.tsx:14 | a lower-cased tag has the same length, and each character is lower-cased |
| Homepage.LowerIdempotent | src/components/Homepage.tsx:25 | lower-casing twice is lower-casing once |
| Homepage.LowerFixed | src/components/Homepage.tsx:25 | a tag without capitals is its own lower-case form |
| Homepage.LowerCaseTags | src/components/Homepage.tsx:11-16 | `lowerCaseTags` has the same length and order as `tags`, each tag lower-cased |
| Homepage.TagEach | src/components/Homepage.tsx:12-15 | every application is kept in place with its lower-cased tags |
| Homepage.WithTags | src/components/Homepage.tsx:11-16 | there are tagged applications exactly when the applications have loaded |
| Homepage.AddTag | src/components/Homepage.tsx:24-31 | the intended `addTag` leaves entries for the previous keys plus the new tag's lower-case form |
| Homepage.IndexKeys | src/components/Homepage.tsx:22-39 | the dictionary has an entry for exactly the lower-cased tags |
| Homepage.IndexCount | src/components/Homepage.tsx:24-30 | each entry's count is the number of case-insensitive occurrences of its tag |
| Homepage.IndexLabel | src/components/Homepage.tsx:24-30 | each entry keeps the spelling of the first occurrence |
| Homepage.AddEach | src/components/Homepage.tsx:35-37 | adding one application's tags in place extends the intended dictionary by those tags |
| Homepage.CountTags | src/components/Homepage.tsx:33-39 | the dictionary built in place is the intended dictionary of all tags of the applications that have tags, and is empty before the applications load |
| Homepage.Entries | src/components/Homepage.tsx:41 | `Object.entries` lists every entry exactly once, with its own record |
| Homepage.Options | src/components/Homepage.tsx:43-46 | each entry becomes an option with the key as value and the first spelling as label |
| Homepage.ReorderedEntries | src/components/Homepage.tsx:41-42 | sorting the entries keeps each entry exactly once |
| Homepage.SortedEntriesSuggest | src/components/Homepage.tsx:41-46 | entries sorted by descending count give one option per key, labelled with the first spelling, by non-increasing count |
| Homepage.AvailableTags | src/components/Homepage.tsx:21-47 | the suggestions have exactly one option per distinct lower-cased tag, valued by it, labelled with its first spelling, by non-increasing count |
| Homepage.Filter | src/components/Homepage.tsx:54-56 | an application is kept exactly when every selected value is among its lower-cased tags |
| Homepage.FilteredApplications | src/components/Homepage.tsx:49-57 | nothing is shown before the applications load; afterwards exactly the matching applications |
| Homepage.FilterAppend | src/components/Homepage.tsx:54-56 | filtering keeps relative order |
| Homepage.FilterNothingSelected | src/components/Homepage.tsx:55 | with nothing selected every application is shown |
| Homepage.FilterNarrows | src/components/Homepage.tsx:55 | selecting one more tag filters the current result further |
| Homepage.FilterShrinks | src/components/Homepage.tsx:49-65 | selecting one more tag never shows an application more |
| Homepage.Add | src/components/Homepage.tsx:59-65 | `onAdd` keeps the selection and puts the new tag last |
| Homepage.Delete | src/components/Homepage.tsx:67-72 | `onDelete` never lengthens the selection |
| Homepage.DeleteRemovesOne | src/components/Homepage.tsx:69 | `onDelete(i)` removes exactly position `i` and keeps the rest in order; an index outside the list changes nothing |
| Homepage.AddThenDelete | src/components/Homepage.tsx:59-72 | deleting the tag just added restores the selection |
| Homepage.DeleteWidens | src/components/Homepage.tsx:49-72 | deleting a selected tag never hides an application |
| Homepage.IndexAsWrittenDropsInherited | src/components/Homepage.tsx:22-30 | the dictionary as written is the intended one without the entries `constructor` and `__proto__` |
| Homepage.ConstructorTagDropped | src/components/Homepage.tsx:26-29 | a tag spelled "Constructor" is counted by the intended dictionary and missing from the one as written |

## Left out

- Network I/O is not modelled. The indexer's GraphQL request and the
  chat-completion request (src/applications.ts:163-203, 259-469) become
  inputs. So do the prompt text around the answers and the tool schema.
- `JSON.parse` is not modelled as a parser. Its result is any features
  record or `null`, or a rejection. It is not checked against the shape of
  `Features`.
- The Keyv/SQLite store is not modelled, nor are time-to-live expiry and
  namespaces. The features TTL at src/applications.ts:486 is `60*60*24`
  milliseconds (86.4 seconds), not the 24 hours used at lines 200 and 223.
  This cannot show in a model without time.
- Orchestrator.RefreshApplications: does not model concurrency. Fetches and
  classifications run one after the other, in list order. In the code every
  `cache.has` check (src/applications.ts:218) settles before the first
  throttled extraction writes. So an application key listed twice in one
  cycle is always classified twice, where the model classifies it once.
- CycleProperties.ClassifyAsksOnce: holds of the sequential model only. In
  the code a key listed twice in one cycle is asked about twice.
- The rate limiter (src/applications.ts:239-242) and the `progress` counter
  with its log lines are left out. They do not affect the cache.
- The re-arming refresh loop in src/instrumentation.ts is left out. It is
  timing only.
- Assembler.GetApplications: `localeCompare` is an abstract collation key.
  When several reads fail, the reported error is the first in list order,
  whereas `Promise.all` rejects with whichever settles first. The sort is
  not claimed to be stable.
- Assembler.GetApplications: `refId` uniqueness is a hypothesis, not a
  result. Nothing in the source enforces it.
- Homepage.Lower: models `toLowerCase` on ASCII letters only. Unicode case
  mapping is not modelled.
- Homepage.Entries: the enumeration order of `Object.entries` is left
  unspecified. Homepage.AvailableTags therefore leaves the order of tags
  with equal counts unspecified.
- Homepage.WithTags: requires every loaded application to carry a tag list,
  as its type says. The code would throw otherwise.
- Homepage.AddTag: models the intended `addTag`. The code's plain `{}`
  also finds inherited members, so it never adds `constructor` or
  `__proto__` (see "## Findings").
- Homepage.AddEach: builds the intended dictionary. The code never adds
  the keys `constructor` and `__proto__`.
- Homepage.CountTags: equals the intended dictionary
  (`Homepage.Index`). The code's dictionary lacks `constructor` and
  `__proto__`, as `Homepage.IndexAsWrittenDropsInherited` states.
- Homepage.AvailableTags: promises a suggestion for every distinct
  lower-cased tag. On the tags `["Constructor"]` the code offers none.
- Keys.Decimal: chain and round ids are non-negative integers. Other
  JavaScript numbers are not modelled.
- A cache entry of the wrong shape counts as a miss. The class invariant
  rules such entries out, and `Assembler.GetApplications` requires it.
- React rendering, image fallbacks and the "+N more" label are left out, as
  are src/app/page.tsx, next.config.mjs and src/actions.ts. The last only
  forwards to `getApplications`.
- `applicationMetadata` and the project's other untyped metadata are left
  out. Field names follow Dafny style (`teamSize` for `team_size`).

## Findings

| source | as written | input that shows it | evidently intended | confidence | as-written member | corrected member |
|---|---|---|---|---|---|---|
| src/components/Homepage.tsx:22-30 | the dictionary is a plain object `{}`, so `tags[lowerCaseTag]` also finds the members every object inherits; for `constructor` and `__proto__` the inherited member is truthy, its `count` is bumped, and no entry is ever added | tags `["Constructor"]`: no suggestion is offered | every distinct lower-cased tag gets an entry (a `Map` or `Object.create(null)`) | not executed | Homepage.IndexAsWritten, Homepage.ConstructorTagDropped | Homepage.Index, Homepage.IndexKeys, Homepage.AddTag, Homepage.AddEach, Homepage.CountTags, Homepage.AvailableTags |
| src/applications.ts:113-121 | an absent features key gives `undefined`, which passes the `=== null` test, and reading `.tags` of it throws; a rejected extraction (src/applications.ts:482) stores nothing, so every later `getApplications` over that round throws until a later cycle writes the key | a round listing one new application whose tool-call arguments do not parse | applications without features are left out silently, as those with `null` are | not executed | Assembler.Assemble, CycleProperties.RejectedExtractionBlocksRead | Assembler.AssembleExcluding, Assembler.ExcludingNeverUnreadable, Assembler.ExcludingAgrees |
