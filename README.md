# recipe-store in Dafny

A model of the recipe collector and the recipe shells of `recipe-store`, with proofs of
their properties.

The collector gathers recipes from sites annotated with schema.org/Recipe markup. It comes
in three forms:

- JSON-LD blocks;
- microdata, per section 5.2 "Encoding microdata" of the HTML Living Standard;
- RDFa, per section 5 of RDFa 1.1 Core.

It crawls a site to a given link depth and stores the records that carry every required
field. It can also update stored records later.

Around it sit:

- a query builder for the MongoDB collection;
- a profile builder that guesses a site's settings from one sample page;
- the site settings of the Gourmet archive;
- two generations of the command-line shell, which search, page through results, show
  one recipe and re-sort field listings.

## Modules

| module | models |
|---|---|
| `Wrappers` | `Option` and `Result` |
| `Text` | Python 2 string operations: the two whitespace classes, `strip`, `split(sep)`, `split()`, `join`, `int()` and `"%d"` |
| `Values`, `Page` | JSON values and records; the parsed page tree and the XPath shapes the code evaluates |
| `Extract` | the pure half of `Collector`: `concat_text`, the property lookups, and the record builders of both extractors |
| `Fetch`, `Services` | the `get_url` retry loop as a function of network outcomes; the network, sleeps, clock and MongoDB collection as small classes |
| `Collector` | the `Collector` class: configuration, validation, extraction, `get_links`, the crawl and the update pass |
| `Manager` | filter building in `search`, `make_clause`, `convert_duration`, `serialize_recipe`, and the index helpers |
| `ProfileBuilder`, `Gourmet` | scheme detection and link-prefix inference; the Gourmet profile and its listing pages |
| `Paging`, `Wrap`, `Sorting` | the page arithmetic shared by the pagers; `line_breaks`; the order `do_sort` produces |
| `CmdBase`, `CmdRecipes`, `CmdFields`, `CmdMain` | the `cmdlineutils` shell: option parser, pager, recipe list, field list, main menu |
| `SearchPager`, `SearchRecipeList`, `SearchFieldList`, `RecipeSearch` | the older `search_util` shell |
| `SearchParams` | the search constraints both main menus keep, and what `do_set` makes of its argument |

## Behaviour the code has and the model keeps

Several behaviours look unintended but follow from the code as written. The model keeps
each one and states it in a lemma.

- **`get_url` on the last attempt.** `get_url` raises whenever its counter ends above
  `max_retries`. This includes a success on the last allowed attempt
  (`Fetch.FinalSuccessRaises`, `Fetch.ExceededIffLastAttemptReached`).
- **`get_url` after a 404.** A 404 returns the error page's body as the page
  (`Fetch.NotFoundReturnsBody`).
- **`get_url` after a stale response.** A failure that follows an earlier HTTP error
  returns the stale earlier body (`Fetch.FailureReturnsStaleResponse`).
- **Absolute scope in lookups.** The recipe scope expression is absolute (`//…`). So the
  "scoped" lookup of `get_property` searches every recipe scope of the page. All the
  records of one HTML page are therefore identical apart from `collect_time`, which is
  read once per scope (`Extract.HtmlRecordsAlike`).
- **The floor pager.** The `search_util` pager computes `int(ceil(total) / float(lines))`.
  That rounds the page count down, so:
  - a trailing partial page can never be shown, and fewer items than lines give no page
    at all (`Paging.TrailingPageUnreachable`, `Paging.FloorPagesMissTail`);
  - the `cmdlineutils` pager rounds up instead (`Paging.CeilPagesCover`).
- **`current` in the recipe lists.** The recipe lists' `display_page` never updates
  `current`. So `do_next` always targets the second page and `do_previous` the page
  before the first.
- **`do_page` in the older shell.** In search_util/pager.py, `do_page` reports a bad
  number through `sys`, which that module does not import. The model treats that branch
  as raising.
- **`self.params`.** `do_reset` in both main menus, and `do_params` in the older one, read
  `self.params`, which no class sets. Any non-empty argument therefore raises before
  anything changes.
- **Shared mutable defaults.** `search` adds the text score to the projection dictionary
  it uses, and without a caller projection that is the module-level `DEFAULT_PROJECTION`.
  `create_text_index` fills in its default `weights = {}` argument, which is one object
  for the whole program too. Both leak into later calls, on every manager
  (`Manager.ScoreLeaks`, `Manager.WeightsLeak`).

## Model

| member | source | states |
|---|---|---|
| Text.Strip | cmdlineutils/main.py:125 | `s.strip()` has no whitespace of the class at either end, is empty exactly when `s` is blank, and leaves an already trimmed string as it is |
| Text.Split | cmdlineutils/main.py:125 | `s.split(sep)` has at least one piece and no piece contains the separator |
| Text.Join | collection/collector.py:319 | `sep.join` of a single piece is that piece |
| Text.JoinSplit | cmdlineutils/main.py:124-125 | joining the pieces of a split with the separator gives back the original string |
| Text.SplitJoin | cmdlineutils/main.py:125 | splitting a join of separator-free pieces gives the pieces back |
| Text.JoinInjective | cmdlineutils/main.py:125 | two lists of separator-free pieces with the same join are equal |
| Text.Words | application/cmdlineutils/fields.py:35 | `s.split()` yields non-empty words without whitespace, and the first word starts at a leading non-space character |
| Text.WordsOfWord | application/cmdlineutils/fields.py:35 | a string without whitespace splits into itself alone |
| Text.WordsOfPair | application/cmdlineutils/fields.py:35 | two words with one space between them split back into those two words |
| Text.IntToString | profiles/gourmet.py:15 | `"%d" % i` is non-empty with no surrounding whitespace |
| Text.ParseIntToString | cmdlineutils/base.py:104 | `int()` of what `"%d"` prints is the number printed |
| Text.ParseInt | cmdlineutils/base.py:104 | `int(s)` on a byte string: surrounding ASCII whitespace, an optional sign, optional whitespace after the sign and at least one digit, otherwise `None`; `ParseIntToString` and `ParseIntSpacedSign` state its meaning |
| Text.ParseIntSpacedSign | cmdlineutils/base.py:104 | a sign, any ASCII whitespace, then digits parse to the signed value of the digits (`int("- 5") == -5`) |
| Values.StripEmpty | collection/collector.py:255-257 | exactly the keys with an empty value (`None`, `""`, `[]`, `{}`) are removed; every other key keeps its value |
| Values.Missing | collection/collector.py:260 | a field is missing exactly when it is required and absent |
| Values.Restrict | collection/collector.py:204 | the allow-list filter keeps exactly the allowed keys, with their values |
| Values.StripEmptyNoEmpty | collection/collector.py:255-257 | after stripping, no value is empty |
| Values.StripEmptyIdempotent | collection/collector.py:255-257 | stripping twice is stripping once, so a second `validate` gives the same record and verdict |
| Values.MissingEmptyIffHasAll | collection/collector.py:260-265 | nothing is missing exactly when every required field is present |
| Page.Select | collection/collector.py:135 | `//q` yields only matching elements, the root first when it matches |
| Page.SelectUnder | collection/collector.py:311 | `//scope//q` yields only elements matching `q` |
| Page.SelectUnderWithin | collection/collector.py:311-313 | every element found under a scope is found by the page-wide search too |
| Page.Fragments | collection/collector.py:319 | `itertext()` starts with the element's own text |
| Extract.Tighten | collection/collector.py:320 | the `re.sub` never lengthens the text, deletes only spaces, keeps a first or last character that is not a space, and changes nothing without spaces |
| Extract.PiecesTrimmed | collection/collector.py:319 | when Unicode whitespace is used for both the test and the strip, kept pieces are non-empty with no surrounding whitespace, and none is kept exactly when every fragment is blank |
| Extract.JoinSpaceEnds | collection/collector.py:319 | joining such pieces with spaces neither starts nor ends with whitespace |
| Extract.ConcatText | collection/collector.py:316-320 | the text of an element has no leading or trailing whitespace, and is empty exactly when every fragment is blank |
| Extract.ConcatTextAsWritten | collection/collector.py:316-320 | the text as written: fragments kept by the ASCII `\S` test, stripped of Unicode whitespace, joined with spaces |
| Extract.PiecesAgree | collection/collector.py:319 | the ASCII and the Unicode keep tests keep the same fragments when no fragment is all Unicode whitespace with some of it outside ASCII whitespace |
| Extract.AsWrittenAgrees | collection/collector.py:316-320 | on such elements the text as written is the corrected text |
| Extract.NbspLeavesLeadingSpace | collection/collector.py:319 | as written, `<li>&nbsp;<b>salt</b></li>` gives " salt" |
| Extract.NbspItemText | collection/collector.py:319 | the corrected text of the same element is "salt" |
| Extract.GetProperty | collection/collector.py:304-314 | the tagged elements below any recipe scope when there are some, else every tagged element of the page; empty exactly when nothing on the page is tagged |
| Extract.ExtractText | collection/collector.py:279-286 | `None` exactly when nothing matches, otherwise the text (`ConcatText`, the corrected text) of the first match |
| Extract.FirstAttr | collection/collector.py:272-276 | the value of the first listed attribute the element carries, none when it carries none of them |
| Extract.ExtractAttribute | collection/collector.py:267-277 | `None` exactly when nothing matches; otherwise the first listed attribute of the first match, else its text (`ConcatText`) |
| Extract.Texts | collection/collector.py:302 | one text entry (`ConcatText`) per element, in order |
| Extract.ExtractList | collection/collector.py:288-302 | a single match gives its children's texts, otherwise one text per match; no match gives `[]` |
| Extract.Stamp | collection/collector.py:208-209 | the record gains `url` and `collect_time` and keeps every other field |
| Extract.JsonLdCandidates | collection/collector.py:194-209 | at most one candidate per block |
| Extract.HtmlCandidate | collection/collector.py:223-242 | the keys are the allowed extracted fields plus `url` and `collect_time`, each with its looked-up value |
| Extract.Accepted | collection/collector.py:211-212 | validation never adds records |
| Extract.JsonLdCandidateKeys | collection/collector.py:204-209 | a JSON-LD record holds the allowed keys of the block, plus `recipeIngredient` from the legacy key only when the allow-list did not supply it, plus `url` and `collect_time`; allowed keys keep the block's values |
| Extract.JsonLdCandidatesAppend | collection/collector.py:194 | the candidates of consecutive runs of blocks are concatenated |
| Extract.JsonLdSkipsMalformed | collection/collector.py:196-202 | a block that does not parse, or is not an object, is skipped and later blocks are still read |
| Extract.AcceptedAppend | collection/collector.py:211-214 | validation keeps page order across runs of candidates |
| Extract.AcceptedSound | collection/collector.py:211-214 | every returned record is a stripped candidate holding every required field, and every candidate that passes is returned |
| Extract.HtmlRecordsIdentical | collection/collector.py:221-245 | with one clock reading for the whole page, a page with `n` recipe scopes yields `n` identical records or none |
| Extract.StampedAlike | collection/collector.py:241-245 | validation keeps one record per clock reading, or none, each the stripped record stamped with its own reading |
| Extract.HtmlRecordsAlike | collection/collector.py:221-245 | with the clock read once per recipe scope, a page with `n` scopes yields `n` records or none, identical apart from `collect_time`, the k-th carrying the k-th reading |
| Extract.HtmlIngredientsFallback | collection/collector.py:237-240 | the legacy `ingredients` lookup is used when nothing is tagged `recipeIngredient`, and its result is kept only when `recipeIngredient` is allowed |
| Fetch.RetryLoop | collection/collector.py:96-116 | the counter never decreases and ends at most one above the bound |
| Fetch.RetryLoopBackoff | collection/collector.py:103-113 | the pause after the n-th attempt, counting from 1, is `retry_interval * n`, and only a retryable attempt is followed by a pause |
| Fetch.AttemptsBounded | collection/collector.py:96-98 | at most `max_retries + 1` requests, none when the bound is negative |
| Fetch.RetriedAttempts | collection/collector.py:103-116 | every attempt before the last one made was a timeout or a non-404 HTTP error |
| Fetch.ExceededIffLastAttemptReached | collection/collector.py:118-119 | the call raises "max retries exceeded" exactly when every attempt before the last allowed one was retryable |
| Fetch.FinalSuccessRaises | collection/collector.py:97-119 | two timeouts followed by a good page still raise |
| Fetch.NotFoundReturnsBody | collection/collector.py:103-126 | a 404 ends the loop at once, with no pause, and its body is returned |
| Fetch.FailureWithoutResponse | collection/collector.py:114-116 | an unexpected error with no earlier response makes the call fail |
| Fetch.FailureReturnsStaleResponse | collection/collector.py:114-126 | an unexpected error after a 503 returns the body of the 503 |
| Fetch.GetUrlSpec | collection/collector.py:92-126 | the result of `get_url`, the number of requests it makes and the pauses it asks for, from the retry loop starting at no tries |
| Services.Env.Request | collection/collector.py:101 | each request consumes the next scripted outcome and pauses nothing |
| Services.Env.Sleep | collection/collector.py:84 | a sleep is recorded and consumes no outcome |
| Services.FirstWithUrl | collection/collector.py:69 | `find_one` finds nothing exactly when no document has the url, otherwise the first that has it |
| Services.SetFields | collection/collector.py:169 | `$set` changes only the first document with the url, which gains every update field; no document loses a key |
| Services.Store.FindOne | collection/collector.py:150 | the first stored document with the url, none when no document has it |
| Services.Store.InsertMany | collection/collector.py:183 | the records are appended to the collection |
| Services.Store.UpdateOne | collection/collector.py:169 | the collection after `$set` on the first document with the url |
| Collector.MethodNamed | collection/collector.py:46-58 | exactly the names "json-ld", "microdata" and "RDFa" select an extractor, each its own |
| Collector.Configure | collection/collector.py:41-58 | no base url raises; otherwise construction succeeds exactly for a known method, with the link prefix defaulting to "" |
| Collector.StripQuery | collection/collector.py:136 | the cleaned link contains no `?` and is not longer |
| Collector.StripQueryOneLine | collection/collector.py:136 | on a one-line link everything from the first `?` on is removed |
| Collector.EnqueueFacts | collection/collector.py:135-143 | the queue only grows, each added link is a candidate in neither the queue nor `links`, every candidate ends up in one of them, and the queue stays duplicate-free |
| Collector.EnqueueGrew | collection/collector.py:138-140 | the queue after `get_links` extends the old one with new links only |
| Collector.Updates | collection/collector.py:164-168 | the `$set` document holds the whole record (overwrite) or only the fields the stored document lacks (additive), plus `update_time` |
| Collector.AdditiveKeepsStoredFields | collection/collector.py:164-169 | in additive mode no stored field changes but `update_time`, and every extracted field is present afterwards |
| Collector.OverwriteTakesExtracted | collection/collector.py:164-169 | in overwrite mode every extracted field takes the extracted value, and other stored fields stay |
| Collector.SetFieldsTouched | collection/collector.py:169 | an update changes only documents with the url, and they lose no field |
| Collector.Collector.constructor | collection/collector.py:13-58 | the settings are stored, the queue is empty and the retry interval is 60 |
| Collector.Collector.Validate | collection/collector.py:249-265 | the record is stripped of its empty values, and the verdict is true exactly when every required field remains |
| Collector.Collector.Blocks | collection/collector.py:191-197 | one parse result per script element, in page order |
| Collector.Collector.ExtractFromJsonLd | collection/collector.py:188-214 | the validated records of the page's JSON-LD blocks, in page order |
| Collector.Collector.Admit | collection/collector.py:211-212 | a candidate is kept, stripped, exactly when it validates |
| Collector.Collector.ExtractFromHtml | collection/collector.py:216-247 | the validated records of the page's recipe scopes, their texts being `ConcatText` |
| Collector.Collector.Extract | collection/collector.py:46-56 | the extractor the profile selected |
| Collector.Collector.GetRecipe | collection/collector.py:177-186 | the extracted records are appended to storage and counted |
| Collector.Collector.GetUrl | collection/collector.py:92-126 | the result, the requests consumed and the pauses are those of the retry loop |
| Collector.Collector.Cleaned | collection/collector.py:135-137 | one cleaned, resolved link per element with an `href` |
| Collector.Collector.Matching | collection/collector.py:138 | exactly the candidates that match the link prefix |
| Collector.Collector.GetLinks | collection/collector.py:128-143 | the queue is the old queue offered the page's matching links, and the count is its growth |
| Collector.Collector.Harvest | collection/collector.py:76-81 | the page's records are stored unless the url already was, and its links are queued only when levels remain, new links only |
| Collector.Collector.Visit | collection/collector.py:67-84 | one turn of the loop as a value: a stored url at depth 0 is skipped with no request and no pause; otherwise the page is requested, its records are stored unless the url already was, its links are queued while levels remain, and the pause follows even when the request failed |
| Collector.Collector.VisitAll | collection/collector.py:67-84 | the loop over a level visits every url in order, whatever happened at the ones before; the level keeps its links and its depth |
| Collector.Collector.Crawl | collection/collector.py:60-90 | a level's visits, then, while the depth is positive, the crawl of the queue they filled with the queue emptied and the depth one less |
| Collector.Collector.CrawlLevels | collection/collector.py:60-90 | `link_depth + 1` levels are crawled (one when the depth is not positive); each later level starts from the previous level's queue, one level shallower with an empty queue; the last is at depth 0 and the crawl ends with its visits |
| Collector.Collector.VisitFacts | collection/collector.py:67-84 | a visit only appends documents, queues only links new to the queue and to `links`, queues nothing at depth 0, stores nothing for a stored url, and leaves a stored url at depth 0 untouched |
| Collector.Collector.FailedVisit | collection/collector.py:74-84 | a failed request stores and queues nothing, consumes the retry loop's requests, pauses, and the level goes on with the next url |
| Collector.Collector.VisitAllCons | collection/collector.py:67 | a level is its first visit followed by the rest of the level |
| Collector.Collector.VisitAllFacts | collection/collector.py:67-84 | over a level, storage only grows, the queue only gains new links, and nothing is queued at depth 0 |
| Collector.Collector.CrawlFacts | collection/collector.py:60-90 | the crawl only appends documents, ends at depth 0 (or at a non-positive starting depth) and leaves the queue empty once it descended |
| Collector.Collector.VisitUrl | collection/collector.py:67-84 | the collector's queue, storage, remaining responses and pauses afterwards are those `Visit` gives for the url |
| Collector.Collector.ProcessLevel | collection/collector.py:67-84 | the state after the loop is `VisitAll` over the level's links |
| Collector.Collector.ProcessLinks | collection/collector.py:60-90 | the state after `process_links` is `Crawl` of the state before: levels are processed with `links := queue`, `queue := []`, depth one less, until depth 0 |
| Collector.UpdatesFor | collection/collector.py:162-168 | the `$set` document of each extracted record, in order, each built against the document found before the loop |
| Collector.SetEach | collection/collector.py:162-169 | the documents after each `$set` is applied, in turn, to the first document with the url |
| Collector.SetEachStep | collection/collector.py:162-169 | one more `$set` applies to the documents the earlier ones left |
| Collector.SetEachMerges | collection/collector.py:169 | `$set`s that keep the url change only the first document with the url, which becomes that document with each `$set` merged in turn; with no such document nothing changes |
| Collector.MergeKeeps | collection/collector.py:167-169 | when the `$set`s name no stored field but `update_time`, every other stored field keeps its value and every `$set` field is present |
| Collector.MergeLastWins | collection/collector.py:169 | a field no `$set` names keeps its value, and the last `$set`'s fields take its values |
| Collector.AdditiveUpdates | collection/collector.py:166-168 | the additive `$set`s keep the url, name no stored field but `update_time`, and with the stored document cover every extracted field |
| Collector.OverwriteUpdates | collection/collector.py:164-168 | the overwriting `$set`s of records that keep the url keep it, and each holds its record's fields plus `update_time` |
| Collector.JsonLdStamped | collection/collector.py:194-209 | every JSON-LD candidate carries the page's url, when it has a url |
| Collector.CopiesStamped | collection/collector.py:221-242 | the copies of an HTML candidate carrying the page's url carry it too |
| Collector.AcceptedKeepsUrl | collection/collector.py:211-212 | validation keeps the url of every accepted candidate |
| Collector.AdditiveSetEach | collection/collector.py:162-169 | with `update_existing=False` only the first document with the url changes; its fields keep their values but `update_time`, and every field of every record is present |
| Collector.OverwriteSetEach | collection/collector.py:162-169 | with `update_existing=True` only the first document with the url changes: the last record's fields take its values, and a stored field no record holds keeps its value |
| Collector.SetEachTouched | collection/collector.py:169 | the `$set`s of a url change only documents with that url, and they lose no field |
| Collector.RevisedStep | collection/collector.py:148-175 | a pass that revised only its listed urls' documents, followed by one url's changes, revised only the longer list's |
| Collector.Collector.Update | collection/collector.py:148-175 | one url of the update pass: an unstored url is skipped with no request; a failed request skips the url and its pause; otherwise each record's `$set` is applied in turn to the first document with the url, then the pause |
| Collector.Collector.UpdateAll | collection/collector.py:148-175 | every url of the list is updated in turn |
| Collector.Collector.UpdateAllStep | collection/collector.py:148 | one more url's update extends the pass |
| Collector.Collector.UpdateTouched | collection/collector.py:148-175 | one url's update changes only documents with that url, and they lose no field |
| Collector.Collector.UpdateAllRevised | collection/collector.py:145-175 | no document is added or removed; a document changes only when its url is listed, and it loses no field |
| Collector.Collector.AdditiveUpdate | collection/collector.py:148-175 | with `update_existing=False` one url changes only the first stored document with it, keeps its fields but `update_time`, and adds every extracted field |
| Collector.Collector.AdditivePassKeepsStoredFields | collection/collector.py:145-175 | with `update_existing=False` the whole pass keeps every stored field of every document but `update_time` |
| Collector.Collector.OverwriteUpdate | collection/collector.py:148-175 | with `update_existing=True` one url changes only the first stored document with it: the last extracted record's fields take its values, other stored fields stay |
| Collector.Collector.ExtractedKeepsUrl | collection/collector.py:188-247 | every extracted record carries the page's url, when it has a url |
| Collector.Collector.SetAll | collection/collector.py:162-173 | the stored documents afterwards are `SetEach` of the documents before with the records' `$set`s |
| Collector.Collector.UpdateUrl | collection/collector.py:148-175 | the storage, remaining responses and pauses afterwards are those `Update` gives for the url |
| Collector.Collector.UpdateRecipes | collection/collector.py:145-175 | the state afterwards is `UpdateAll` over `links` |
| Collector.Enqueue | collection/collector.py:135-143 | the queue after offering it the candidates in order, each appended when in neither the grown queue nor `links`; its properties are `EnqueueFacts` |
| Manager.MakeClause | collection/manager.py:152-159 | `{}` for no conditions, the sole condition itself, or the conditions under `op` |
| Manager.MakeClauseMeaning | collection/manager.py:152-159 | under `$and` the clause selects what every condition selects, under `$or` what some condition selects, and with none it selects every document |
| Manager.Conditions | collection/manager.py:111-117 | one condition each for text, name and url when given, in that order |
| Manager.Each | collection/manager.py:121-124 | one equality clause per value, in order |
| Manager.QueryMeaning | collection/manager.py:127-134 | in each of the four cases the filter selects the documents meeting every condition and the combined constraints |
| Manager.ConditionsMeaning | collection/manager.py:111-117 | the conditions hold exactly when the document answers the text search and has the given name and url |
| Manager.EachMeaning | collection/manager.py:121-124 | each constraint clause is the equality it names |
| Manager.ConstraintsMeaning | collection/manager.py:119-125 | under `$and` every category and cuisine must match, under `$or` one suffices, and with none every document passes |
| Manager.MatchAt | collection/manager.py:231 | a match has six groups |
| Manager.MatchNeedsDesignator | collection/manager.py:231 | text without a `T` does not match |
| Manager.SearchFrom | collection/manager.py:231 | the search yields six groups when it finds the pattern |
| Manager.MatchIso | collection/manager.py:231 | on an ISO 8601 duration the groups are its components |
| Manager.ConvertIso | collection/manager.py:227-232 | an ISO 8601 duration converts to its present components, largest unit first, joined by ", " |
| Manager.NoDesignatorFails | collection/manager.py:231-232 | without a `T` the conversion raises |
| Manager.NoPrefixNotFound | collection/manager.py:231 | text without a `P` contains no duration |
| Manager.Serialized | collection/manager.py:220-225 | serialization fails exactly when a non-empty timing field does not convert, and otherwise keeps the keys |
| Manager.SerializeRecipe | collection/manager.py:220-225 | the loop over the timing fields fails exactly when some non-empty timing field does not convert, and otherwise gives `Serialized`'s record |
| Manager.SerializeTwice | collection/manager.py:220-225 | a second pass raises once any timing field was rewritten, and otherwise changes nothing |
| Manager.ReadableHasNoP | collection/manager.py:232 | readable text contains no `P`, so it is never taken for a duration again |
| Manager.SearchMeaning | collection/manager.py:111-134 | the filter selects documents answering the text, with the given name and url, matching the categories and cuisines under `op` |
| Manager.SearchQueryCases | collection/manager.py:127-134 | the filter is `{}` with nothing given, the constraint clause with no condition, and the sole condition with no constraint |
| Manager.Collect | collection/manager.py:145-150 | every document found, serialized, and their count; the call fails exactly when some document fails to serialize |
| Manager.Order | collection/manager.py:167-172 | "asc"/"ascending" map to ascending, "desc"/"descending" to descending, and nothing else maps |
| Manager.IndexKeys | collection/manager.py:167-177 | each field with its direction, in order; an unknown order raises |
| Manager.WithDefaults | collection/manager.py:189 | every field without a weight gets 1, and existing weights are kept |
| Manager.WithDefaultsIdempotent | collection/manager.py:189 | filling in defaults again changes nothing |
| Manager.TextKeys | collection/manager.py:192 | every field, in order, as a text key |
| Manager.BuildConditions | collection/manager.py:111-117 | the conditions appended in order |
| Manager.BuildConstraints | collection/manager.py:119-124 | one constraint per category, then one per cuisine |
| Manager.Defaults.constructor | collection/manager.py:5 | the default projection of name and url without `_id`, and an empty weights dictionary |
| Manager.Manager.constructor | collection/manager.py:5 | the manager uses the one defaults object it is given, shared with every other manager |
| Manager.Manager.Search | collection/manager.py:91-143 | the filter, projection and sort of `find`; a text search adds the score to the projection, and to the shared default when none is given |
| Manager.Manager.CreateTextIndex | collection/manager.py:186-196 | the index keys and weights; without `weights` the shared default is filled in and kept |
| Manager.ScoreLeaks | collection/manager.py:136-139 | after a text search without projection, a later plain search projects the score too, even on another manager |
| Manager.WeightsLeak | collection/manager.py:186-189 | a second text index without weights carries the fields of the first, even on another manager |
| Manager.Query | collection/manager.py:127-134 | the filter from the conditions and the combined constraints: `{}` with neither, either one alone, else their `$and`; its meaning is `QueryMeaning` |
| Manager.SearchQuery | collection/manager.py:111-134 | the filter `search` builds from its keyword arguments; its meaning is `SearchMeaning` |
| Manager.ConvertDuration | collection/manager.py:227-232 | `None` where the duration pattern is not found (`m.groups()` raises), otherwise the present components as "n label", joined by ", " |
| ProfileBuilder.BaseUrl | collection/profile_builder.py:20 | `scheme://netloc` of the sample url |
| ProfileBuilder.DetectScheme | collection/profile_builder.py:22-29 | the first of json-ld, microdata and RDFa whose marker is on the page, none otherwise |
| ProfileBuilder.Common | collection/profile_builder.py:36 | at most as many segments as either path |
| ProfileBuilder.CommonInBoth | collection/profile_builder.py:36 | each common segment is found in both paths |
| ProfileBuilder.CommonSelf | collection/profile_builder.py:36 | a path has all its segments in common with itself |
| ProfileBuilder.CommonOfExtension | collection/profile_builder.py:36 | a link below the sample's directory has all of the directory's segments in common |
| ProfileBuilder.GapsAreSkipped | collection/profile_builder.py:36 | common segments need not be adjacent: "/a/x/c" and "/a/y/c/d" give "/a/c" |
| ProfileBuilder.PrefixesOfEligible | collection/profile_builder.py:31-37 | the prefixes are exactly those of relative links and links on the sample's host |
| ProfileBuilder.LongestExists | collection/profile_builder.py:40 | a non-empty set of prefixes has a longest one |
| ProfileBuilder.ProfileMap | collection/profile_builder.py:46-50 | the profile has exactly the three settings |
| ProfileBuilder.Present | collection/collector.py:41-46 | a key is kept exactly when its value is not `None`, with that value, as `.get` with a `None` default reads `base_url` and `extract_method` |
| ProfileBuilder.PresentProfileMap | collection/collector.py:41-46 | of a built profile `base_url` and `link_prefix` are always kept, and `extract_method` exactly when a scheme was detected |
| ProfileBuilder.BuiltProfileConfigures | collection/profile_builder.py:44-50 | a built profile configures a collector exactly when a scheme was detected, and then reads by that scheme |
| ProfileBuilder.CollectPrefixes | collection/profile_builder.py:31-37 | the loop collects the prefixes of the eligible links |
| ProfileBuilder.ChoosePrefix | collection/profile_builder.py:39-42 | the base url joined with a longest prefix, or the base url when there is none |
| ProfileBuilder.Builder.constructor | collection/profile_builder.py:7-42 | the base url, the detected scheme and the chosen link prefix of the sample page |
| ProfileBuilder.Builder.GetProfile | collection/profile_builder.py:44-50 | exactly the three settings |
| ProfileBuilder.Prefixes | collection/profile_builder.py:31-37 | the prefixes the same-site links suggest; `PrefixesOfEligible` states their meaning |
| Gourmet.SiteProfileConfigures | profiles/gourmet.py:3-7 | the profile configures a microdata collector following recipe links |
| Gourmet.ViewAccepted | profiles/gourmet.py:5 | a recipe view whose id does not start with 0 matches the link prefix |
| Gourmet.ZeroRejected | profiles/gourmet.py:5 | a view id starting with 0 does not match |
| Gourmet.CaseIgnored | profiles/gourmet.py:5 | the match ignores ASCII case |
| Gourmet.OffsetField | profiles/gourmet.py:13-15 | the offset field starts with `&` |
| Gourmet.Listing | profiles/gourmet.py:14-16 | one url per page from first to last, in order, none when last < first |
| Gourmet.GenerateLinks | profiles/gourmet.py:9-17 | a bound that is not an integer raises; otherwise the listing of the pages |
| Gourmet.PageUrlInjective | profiles/gourmet.py:15 | different pages have different urls |
| Gourmet.ListingDistinct | profiles/gourmet.py:14-16 | a listing never names a page twice |
| Gourmet.ListingNotRecipe | profiles/gourmet.py:13-15 | listing pages do not match the recipe link prefix |
| Gourmet.OffsetsTile | profiles/gourmet.py:13-15 | page `i + 1` starts ten results after page `i`, and page 1 at result 1 |
| Gourmet.RecipeLink | profiles/gourmet.py:5 | `re.match` of the link prefix: the stem, ignoring ASCII case, then anything but a `0` |
| Paging.CeilAdmitsNonEmpty | cmdlineutils/base.py:141-146 | with the rounded-up count, a page is shown exactly when it holds an item |
| Paging.FloorAdmitsFull | search_util/pager.py:54-59 | with the rounded-down count, a page is shown exactly when it is full |
| Paging.TrailingPageUnreachable | search_util/pager.py:11 | the partial last page holds items but is refused, and fewer items than lines give no page |
| Paging.Window | cmdlineutils/recipes.py:77 | the objects from `page * lines`, at most `lines` of them |
| Paging.Numbered | cmdlineutils/recipes.py:77-82 | each object of the window with its number, counted from `page * lines + 1` |
| Paging.PagesPrefix | cmdlineutils/recipes.py:77 | the first `count` full pages list the first `count * lines` objects in order |
| Paging.CeilPagesValue | cmdlineutils/base.py:92 | the rounded-up count is the number of full pages, plus one for a partial page |
| Paging.CeilPagesCover | cmdlineutils/base.py:92 | the pages of the rounded-up count show every object once, in order |
| Paging.FloorPagesMissTail | search_util/pager.py:11 | the pages of the rounded-down count miss the last `total % lines` objects |
| Paging.PageTarget | cmdlineutils/base.py:100-107 | an empty argument targets the current page, a number `n` page `n - 1`, anything else raises |
| Paging.PageTargetOfNumber | cmdlineutils/base.py:104 | the page a user types, counted from 1, is the page shown |
| Paging.CeilPages | cmdlineutils/base.py:92 | the page count rounded up; `CeilPagesValue` and `CeilPagesCover` state its meaning |
| Paging.FloorPages | search_util/pager.py:11 | the page count as written there, rounded down; `FloorPagesMissTail` states what it misses |
| Wrap.LineBreaks | cmdlineutils/recipes.py:53-67 | the loop computes the rendered lines of the wrap as written |
| Wrap.FoldKept | cmdlineutils/recipes.py:58-65 | the loop's invariant: the lines fit, the kept words are the input's in order, and each finished line stands for one dropped word |
| Wrap.LineBreaksAsWritten | cmdlineutils/recipes.py:53-67 | each output line is shorter than the line length, the words shown keep input order, and there is one line more than words dropped |
| Wrap.OverflowingWordDropped | cmdlineutils/recipes.py:62-65 | with width 5, "abc def" gives "abc" and an empty line |
| Wrap.CarryFoldCarried | cmdlineutils/recipes.py:58-66 | the corrected loop keeps every word in order, and every line of two or more words fits |
| Wrap.CarryBreaksKeepWords | cmdlineutils/recipes.py:53-67 | the corrected wrap shows every word in order, and a line is too wide only when it is one overlong word |
| Wrap.OverflowingWordCarried | cmdlineutils/recipes.py:62-65 | with width 5, the corrected wrap puts "def" on the second line |
| Wrap.Breaks | cmdlineutils/recipes.py:53-67 | the lines `line_breaks` as written joins: the finished lines and the last |
| Wrap.CarryBreaks | cmdlineutils/recipes.py:53-67 | the lines of the corrected wrap, which starts the next line with the overflowing word; `CarryBreaksKeepWords` states that every word is shown in order |
| CmdBase.PairOf | cmdlineutils/base.py:63-71 | three tokens are read before the separator is checked; fewer ends parsing, and a separator other than ":" raises |
| CmdBase.Lexer.constructor | cmdlineutils/base.py:19 | the token stream starts with every token pending |
| CmdBase.Lexer.Next | cmdlineutils/base.py:23 | the first pending token is taken; none is left at the end |
| CmdBase.Lexer.PushToken | cmdlineutils/base.py:58 | the token is put back in front |
| CmdBase.Check | cmdlineutils/base.py:54-61 | the next token is consumed only when it is the expected one |
| CmdBase.GetPair | cmdlineutils/base.py:63-71 | item, separator and value are read, and the lexer is left after them |
| CmdBase.ParseArgs | cmdlineutils/base.py:17-52 | the loop computes the options the token sequence spells |
| CmdBase.ListLoop | cmdlineutils/base.py:36-39 | the items of a list option are collected while a "," follows |
| CmdBase.PairsLoop | cmdlineutils/base.py:41-44 | the pairs of a pairs option are collected while a "," follows |
| CmdBase.SpellParses | cmdlineutils/base.py:27-44 | a well-typed option followed by anything else is recorded, and parsing goes on after it |
| CmdBase.ItemsParse | cmdlineutils/base.py:36-39 | a list option is recorded with its items in order |
| CmdBase.PairsParse | cmdlineutils/base.py:41-44 | a pairs option is recorded with its pairs in order |
| CmdBase.CommandParses | cmdlineutils/base.py:21-52 | a command line records its options in order, a repeated option keeping its last value |
| CmdBase.RoundTrip | cmdlineutils/base.py:17-52 | parsing a spelled command line gives back its options |
| CmdBase.UnknownTokenRaises | cmdlineutils/base.py:24-25 | after valid options, a token with no type raises |
| CmdBase.FlagTakesNoValue | cmdlineutils/base.py:27-29 | a `store_true` option is set without reading an `=` |
| CmdBase.CutOffNotRecorded | cmdlineutils/base.py:30-47 | a value cut off by the end of input is not recorded, nor a pair cut off before its value |
| CmdBase.Pager.constructor | cmdlineutils/base.py:87-93 | the rounded-up page count, starting on page 0 |
| CmdBase.Pager.DisplayPage | cmdlineutils/base.py:141-146 | a page is accepted exactly when it holds at least one item |
| CmdBase.Pager.DoPage | cmdlineutils/base.py:95-109 | an unparsable number is refused, otherwise the target page is tried |
| CmdBase.Pager.DoNext | cmdlineutils/base.py:111-115 | the page after the current one is tried |
| CmdBase.Pager.DoPrevious | cmdlineutils/base.py:117-121 | the page before the current one is tried |
| CmdBase.Parse | cmdlineutils/base.py:21-52 | the `while True` loop of `parse_args` over the remaining tokens, ending with what is recorded when the tokens run out; its behaviour is stated by `SpellParses`, `CommandParses` and `RoundTrip` |
| CmdRecipes.ByName | cmdlineutils/recipes.py:31-32 | the search by name with the recipe projection and nothing else |
| CmdRecipes.RecipeIndex | cmdlineutils/recipes.py:20-28 | a number `n` is accepted exactly when `1 <= n <= len(objects)`, and names object `n - 1` |
| CmdRecipes.EveryRecipeReachable | cmdlineutils/recipes.py:20-28 | every listed recipe can be asked for by its number |
| CmdRecipes.RecipeList.constructor | cmdlineutils/recipes.py:7-13 | the prompt names page 1 of the rounded-up count |
| CmdRecipes.RecipeList.DisplayPage | cmdlineutils/recipes.py:69-84 | a page holding a match lists its objects numbered from `page * lines + 1` and updates the prompt; any other page changes nothing |
| CmdRecipes.RecipeList.DoPage | cmdlineutils/base.py:95-109 | an unparsable number changes nothing; otherwise the target page is displayed |
| CmdRecipes.RecipeList.DoNext | cmdlineutils/base.py:111-115 | always the second page, shown only when more than one page of matches exists |
| CmdRecipes.RecipeList.DoPrevious | cmdlineutils/base.py:117-121 | always refused, with the prompt unchanged |
| CmdRecipes.RecipeList.DoRecipe | cmdlineutils/recipes.py:15-37 | a number outside the list is refused; otherwise the recipe is looked up by that object's name |
| CmdRecipes.RecipeList.LineBreaks | cmdlineutils/recipes.py:53-67 | an instruction wrapped as the loop is written |
| Sorting.SortBy | application/cmdlineutils/fields.py:48 | `sorted` keeps the number of entries |
| Sorting.Reverse | application/cmdlineutils/fields.py:50 | `reversed` puts entry `i` at position `n - 1 - i` |
| Sorting.SortPermutes | application/cmdlineutils/fields.py:48 | sorting neither loses nor adds entries |
| Sorting.SortAscending | application/cmdlineutils/fields.py:48 | after sorting the keys do not decrease |
| Sorting.SortSortedUnchanged | application/cmdlineutils/fields.py:48 | a listing already in order is left as it is |
| Sorting.ReverseDescending | application/cmdlineutils/fields.py:49-50 | reversing a non-decreasing listing gives a non-increasing one with the same entries |
| Sorting.ReversePermutes | application/cmdlineutils/fields.py:50 | reversing neither loses nor adds entries |
| Sorting.Insert | application/cmdlineutils/fields.py:48 | one more entry placed before the first entry whose key is not below its own: one entry longer, and headed by the new entry or the old head |
| CmdFields.ReadSortOptions | application/cmdlineutils/fields.py:34-46 | exactly two words are required, then a known field, then a known order |
| CmdFields.ReadSpelled | application/cmdlineutils/fields.py:34-46 | every choice of key and direction can be written, and is read back as written |
| CmdFields.OneWordUnparsed | application/cmdlineutils/fields.py:34-38 | a single word is refused before it is looked at |
| CmdFields.ArrangedOrdered | application/cmdlineutils/fields.py:48-50 | the new order has exactly the same entries, non-decreasing by key when ascending and non-increasing when descending |
| CmdFields.FieldList.constructor | application/cmdlineutils/fields.py:5-11 | starts on page 0 with the prompt naming page 1 of the rounded-up count |
| CmdFields.FieldList.DisplayPage | application/cmdlineutils/fields.py:13-27 | a page holding a value becomes current, lists its window and updates the prompt; any other page changes nothing |
| CmdFields.FieldList.DoPage | cmdlineutils/base.py:95-109 | an unparsable number changes nothing; otherwise the target page is displayed |
| CmdFields.FieldList.DoNext | cmdlineutils/base.py:111-115 | the page after the current one becomes current when it holds a value |
| CmdFields.FieldList.DoPrevious | cmdlineutils/base.py:117-121 | the page before the current one becomes current when it holds a value |
| CmdFields.FieldList.DoSort | application/cmdlineutils/fields.py:29-52 | refused options change nothing; accepted ones re-sort the objects and show page 0 when there is one |
| CmdFields.Arranged | application/cmdlineutils/fields.py:48-50 | the objects sorted on the field, reversed for a descending order; `ArrangedOrdered` states the order |
| SearchParams.DefaultsWellFormed | cmdlineutils/main.py:24-28 | the defaults are two empty lists and the operator `all` |
| SearchParams.Assignment | cmdlineutils/main.py:118 | a match gives a non-empty word for the parameter and a value without a newline |
| SearchParams.AssignmentOf | cmdlineutils/main.py:118-123 | `param = value`, with any spaces around `=`, reads back as that parameter and value |
| SearchParams.Converted | cmdlineutils/main.py:124-127 | a value with commas becomes its stripped pieces; a single category or cuisine becomes a one-element list; anything else stays a string |
| SearchParams.StripEach | cmdlineutils/main.py:125 | each piece stripped, in order |
| SearchParams.OperatorValue | cmdlineutils/main.py:133 | the operator's value is `any` or `all` exactly when it was written so |
| SearchParams.ReadSet | cmdlineutils/main.py:118-135 | unparsable input, an unknown parameter and an operator other than `any`/`all` are refused; otherwise the parameter and its converted value |
| SearchParams.Assign | cmdlineutils/main.py:111-137 | only an accepted assignment changes the constraints, and only the one it names |
| SearchParams.AssignWellFormed | cmdlineutils/main.py:124-137 | categories and cuisines stay lists, and the operator stays `any` or `all` |
| SearchParams.ListStored | cmdlineutils/main.py:124-125 | a comma-separated list of stripped values is stored as exactly those values |
| SearchParams.SetCategories | cmdlineutils/main.py:118-137 | `recipeCategory = a,b,...` stores that list |
| SearchParams.SetOperator | cmdlineutils/main.py:133-135 | the operator accepts exactly `any` and `all` |
| SearchParams.OpFor | cmdlineutils/main.py:57 | `all` maps to `$and`, anything else to `$or` |
| SearchParams.SearchFor | cmdlineutils/main.py:53-58 | the text, the categories, the cuisines and the operator passed to `search` |
| SearchParams.SearchForMeaning | cmdlineutils/main.py:53-58 | a search finds documents answering the text that have every category and cuisine under `all`, or one of them under `any` |
| CmdMain.RecipeUtil.constructor | cmdlineutils/main.py:15-28 | the lines and width are the terminal size less four, and the constraints are the defaults |
| CmdMain.RecipeUtil.DoSet | cmdlineutils/main.py:111-137 | a refused assignment changes nothing; an accepted one changes only the parameter it names |
| CmdMain.RecipeUtil.DoReset | cmdlineutils/main.py:139-156 | with no argument all defaults return; any argument raises before changing anything |
| CmdMain.RecipeUtil.DoSearch | cmdlineutils/main.py:48-58 | the search arguments of the current constraints, `$and` for `all` and `$or` otherwise |
| CmdMain.RecipeUtil.DoWidth | cmdlineutils/main.py:158-169 | the width becomes the number given; anything else changes nothing |
| RecipeSearch.RecipeSearch.constructor | search_util/recipe_search.py:13-26 | the lines and width are the terminal size less four, and the constraints are the defaults |
| RecipeSearch.RecipeSearch.DoParams | search_util/recipe_search.py:46-58 | with no argument every constraint; any argument raises |
| RecipeSearch.RecipeSearch.DoSet | search_util/recipe_search.py:60-86 | a refused assignment changes nothing; an accepted one changes only the parameter it names |
| RecipeSearch.RecipeSearch.DoReset | search_util/recipe_search.py:88-105 | with no argument all defaults return; any argument raises before changing anything |
| RecipeSearch.RecipeSearch.DoSearch | search_util/recipe_search.py:107-117 | the search arguments of the current constraints, `$and` for `all` and `$or` otherwise |
| RecipeSearch.RecipeSearch.DoWidth | search_util/recipe_search.py:132-143 | the width becomes the number given; anything else changes nothing |
| SearchPager.Pager.constructor | search_util/pager.py:6-12 | the rounded-down page count, starting on page 0 |
| SearchPager.Pager.DisplayPage | search_util/pager.py:54-59 | a page is accepted exactly when it is full |
| SearchPager.Pager.DoPage | search_util/pager.py:14-28 | an argument that is not a number raises; otherwise the target page is tried |
| SearchPager.Pager.DoNext | search_util/pager.py:30-34 | the page after the current one is accepted when it is full |
| SearchPager.Pager.DoPrevious | search_util/pager.py:36-40 | the page before the current one is accepted when it is full |
| SearchRecipeList.RecipeList.constructor | search_util/recipe_list.py:9-16 | the prompt names page 1 of the rounded-down count |
| SearchRecipeList.RecipeList.DisplayPage | search_util/recipe_list.py:73-88 | a full page lists its objects numbered from `page * lines + 1` and updates the prompt; any other page changes nothing |
| SearchRecipeList.RecipeList.DoPage | search_util/pager.py:14-28 | an argument that is not a number changes nothing; otherwise the target page is displayed |
| SearchRecipeList.RecipeList.DoNext | search_util/pager.py:30-34 | always the second page, shown only when two full pages exist |
| SearchRecipeList.RecipeList.DoPrevious | search_util/pager.py:36-40 | always refused, with the prompt unchanged |
| SearchRecipeList.RecipeList.DoRecipe | search_util/recipe_list.py:18-39 | a number outside the list is refused; otherwise the recipe is looked up by that object's name |
| SearchRecipeList.RecipeList.LineBreaks | search_util/recipe_list.py:57-71 | an instruction wrapped as the loop is written |
| SearchFieldList.FieldList.constructor | search_util/field_list.py:6-12 | starts on page 0 with the prompt naming page 1 of the rounded-down count |
| SearchFieldList.FieldList.DisplayPage | search_util/field_list.py:14-28 | a full page becomes current, lists its window and updates the prompt; any other page changes nothing |
| SearchFieldList.FieldList.DoPage | search_util/pager.py:14-28 | an argument that is not a number changes nothing; otherwise the target page is displayed |
| SearchFieldList.FieldList.DoNext | search_util/pager.py:30-34 | the page after the current one becomes current when it is full |
| SearchFieldList.FieldList.DoPrevious | search_util/pager.py:36-40 | the page before the current one becomes current when it is full |

## Left out

**External libraries and services**
- Network I/O: `requests.get` in `get_url` is a script of outcomes. The fetch in
  `ProfileBuilder.__init__` is not modelled; the builder receives the parsed page.
- The timeout parameter of `requests.get` is left out; a timeout is one of the scripted
  outcomes.
- lxml parsing is not modelled: pages are given as trees.
- XPath is not modelled in general. Only the three shapes the code uses are: `//q`,
  `//scope//q`, and attribute tests.
- `json.loads` is not modelled. It is a given function, and a parse failure is `None`.
- `urlparse` and `urljoin` are given total functions. In the source `urljoin` can raise
  `ValueError` (for example on an href holding an invalid IPv6 host) partway through
  `get_links` (collection/collector.py:135-142); `process_links` then catches it
  (collection/collector.py:82-83), the links queued before it stay queued and the page's
  remaining links are not read. `Collector.Collector.Cleaned` resolves every href, so
  that case is not modelled.
- The `re.match` of the link prefix is a given predicate in `Collector`. The Gourmet
  pattern itself is modelled in `Gourmet.RecipeLink`.
- `shlex` tokenisation is not modelled: the parser reads a given token sequence, with
  shlex's one-token push-back.
- MongoDB is a sequence of documents in insertion order. `find_one` takes the first
  document with the url, and `update_one` changes that document.
  - A map keyed by url would lose documents, because one page may store several records
    with the same url.
  - `find`, `count`, `aggregate`, `create_index`, `index_information` and `drop_index`
    are not modelled. `Manager.Manager.Search` and `Manager.Manager.CreateTextIndex`
    return the arguments of the database call.
  - The text index is not modelled: which documents answer a `$text` search is a
    parameter.
- `time.sleep` is recorded as a list of requested pauses.
- Services.Store.InsertMany: always succeeds. The `except` branch of `get_recipe`
  (collection/collector.py:184-185) is not modelled; there a failed insert stores nothing
  while `get_recipe` still returns the number of records.
- Services.Store.UpdateOne: always succeeds. The `except` branch of `update_recipes`
  (collection/collector.py:170-172) is not modelled; there a failed `$set` is skipped and the
  loop goes on with the next record.
- `datetime.utcnow` is an uninterpreted number fixed for each environment.
- Extract.HtmlRecordsIdentical: holds only for one clock reading per page, as the
  environment gives. `extract_from_html` reads `utcnow()` once per recipe scope
  (collection/collector.py:242), so its records differ in `collect_time`;
  `Extract.HtmlRecordsAlike` states the result for a reading per scope. The collector's
  `HtmlRecords` stamps every record with the environment's one reading.
- Logging is not modelled.

**Outside the modelled core**
- The Cmd loop mechanics are not modelled. `cmdloop` and the `do_back`, `do_quit` and
  `do_exit` commands are left out.
- All stdout and stderr text is left out, including the recipe lines a page prints.
- Running a nested shell from `do_search` and `do_field` is not modelled. This also
  covers the "No results!" check on the total in `do_search`.
- The display half of `do_recipe` is left out: the printed fields, the `len(rcp) == 0`
  check on the result dictionary, and the `IndexError` when the search finds nothing.
  `DoRecipe` stops at the search it runs.
- `do_field`, `do_count`, `do_sample`, `do_admin` and the display-only `do_params` of
  cmdlineutils/main.py are left out, and so are `do_field` and `do_count` of the older
  shell. They are display or database plumbing.
- `Manager.count`, `get_enumerated_values`, `field_info`, `sample`, `list_indexes`,
  `drop_index` and `create_default_text_index` are left out, because they reshape
  database results.
- `RECIPE_INFO_PROJECTION` is left out; nothing in the modelled core reads it.
- Sibling modules are left out:
  - application/cmdlineutils/admin.py;
  - the Bon Appétit, Saveur and New York Times profiles, which build links through
    HTTP or database calls;
  - crawler.py and search.py, which are process set-up.
- The base class of application/cmdlineutils/fields.py, application/cmdlineutils/base.py,
  is not part of this model. It is taken to be the `RecipeUtilPager` of
  cmdlineutils/base.py.

**Simplifications in the model**
- Exceptions are outcomes (`None`, `Err`, or a `raised` flag). An exception that escapes
  a shell command ends `cmdloop`, and that is not modelled.
- `lines == 0` divides by zero in the pagers. A negative count, which a terminal under four
  rows gives, does not raise and yields a non-positive page count; that case is not modelled
  either, so every pager requires `lines > 0`.
- The pagers divide with floats; the model uses integer division to the same effect.
- JSON numbers are integers.
- Unicode normalisation is not modelled.
- Python 2 byte strings and unicode strings are both `string`. They differ only in their
  whitespace classes, which `Text.Spaces` keeps apart.
- The `ceil` of the `search_util` pager is applied to an integer, so it changes nothing
  and is left out.

**Contracts stated weaker than the source**
- Sorting.SortBy: equal keys keep their relative order, as `sorted` does, because `Insert`
  places an entry before the first entry not below it. No lemma states this stability.
- CmdRecipes.RecipeList.DoRecipe: stops at the `search` call it makes; the recipe shown
  is not modelled.
- SearchRecipeList.RecipeList.DoRecipe: stops at the `search` call it makes; the recipe
  shown is not modelled.
- Extract.ExtractText: the text is the corrected `ConcatText`, not the text as written at
  collection/collector.py:316-320. The two differ only on an element with a fragment made of
  Unicode whitespace with some of it outside ASCII whitespace (`AsWrittenAgrees`); there the code as
  written keeps a stray space (see Findings).
- Extract.ConcatTextAsWritten: strips every kept fragment with the Unicode class. Under
  Python 2 lxml returns a pure-ASCII fragment as a byte string, whose `strip()` removes only
  ASCII whitespace. The two strips differ only on U+001C to U+001F, which libxml2's HTML
  parser drops as invalid characters.
- Extract.ExtractAttribute: its text fallback is the corrected `ConcatText`, as for
  `ExtractText`.
- Extract.Texts: each entry is the corrected `ConcatText`, as for `ExtractText`.
- Extract.ExtractList: each entry is the corrected `ConcatText`, as for `ExtractText`.
- Extract.HtmlCandidate: its looked-up texts are the corrected `ConcatText`, as for
  `ExtractText`.
- Collector.Collector.HtmlRecords: the records' texts are the corrected `ConcatText`, as for
  `ExtractText`.
- Collector.Collector.Extracted: on an HTML profile the records' texts are the corrected
  `ConcatText`, as for `ExtractText`.
- Collector.Collector.ExtractFromHtml: the records' texts are the corrected `ConcatText`, as
  for `ExtractText`.
- ProfileBuilder.Present: drops a `None` value for every key, while `.get("link_prefix", "")`
  at collection/collector.py:44 would return a stored `None`, which `re.match` would then
  reject. The profiles the builder makes never hold a `None` prefix (`PresentProfileMap`).
- Manager.Manager.Search: the documents `find` returns and their order are not modelled.
  `Manager.Collect` takes them as given. A projection the caller passes also receives the
  score in place in the source (collection/manager.py:136-139); the model leaves the
  caller's value as it was and changes only the shared default.
- Manager.Manager.constructor: `sample` (collection/manager.py:75), which reads the same
  `DEFAULT_PROJECTION` object, is not modelled.

## Findings

| source | as written | input that shows it | evidently intended | confidence | as-written member | corrected member |
|---|---|---|---|---|---|---|
| collection/collector.py:319 | a fragment is kept when `re.search("\S", frag)` finds a character outside ASCII whitespace, but `frag.strip()` on a unicode fragment removes all Unicode whitespace, so a fragment of only no-break spaces is kept as "" and joined with a space | `<li>&nbsp;<b>salt</b></li>` gives " salt" | the text "salt", without surrounding whitespace | medium, not executed | Extract.NbspLeavesLeadingSpace | Extract.NbspItemText |
| cmdlineutils/recipes.py:62-65 | a word that does not fit closes the current line and is itself discarded | width 5 and "abc def" give "abc" followed by an empty line | "def" starts the next line | high, not executed | Wrap.OverflowingWordDropped | Wrap.OverflowingWordCarried |
| search_util/recipe_list.py:66-69 | the same loop, copied: the overflowing word is discarded | width 5 and "abc def" give "abc" followed by an empty line | "def" starts the next line | high, not executed | Wrap.OverflowingWordDropped | Wrap.CarryBreaksKeepWords |

The as-written text is `Extract.ConcatTextAsWritten`. The corrected `Extract.ConcatText`
is the one every lookup uses; `Extract.ConcatText` states its property in its contract.
`Extract.AsWrittenAgrees` shows the two agree on every element without a fragment made only
of Unicode whitespace, some of it outside ASCII whitespace.

The wrap as written is `Wrap.Breaks` and `Wrap.LineBreaksAsWritten`. The shells'
`LineBreaks` methods follow the code as written. The corrected wrap is `Wrap.CarryBreaks`,
and `Wrap.CarryBreaksKeepWords` proves that it shows every word in order.
