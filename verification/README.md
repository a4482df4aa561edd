# NotWrapper detector, modelled in Dafny

This project models the core of the NotWrapper analyzer, `WrapperDetector`
in `apps/analyzer/analyzer/wrapper_detector.py`. The analyzer takes a URL,
fetches the page and collects evidence from it in four passes:

- **HTML pass:** a case-insensitive regular-expression search for every
  catalog pattern, plus literal custom-code indicator tokens.
- **Script pass:** literal pattern tests on script URLs, bundler and
  framework tokens, an exposed-OpenAI-key check on inline scripts, and a
  scan of inline scripts for AI endpoints.
- **Stylesheet pass:** literal pattern tests on stylesheet links.
- **Meta pass:** the `generator` meta tag.

The evidence is then scored into a verdict ("Wrapper Confirmed",
"Wrapper Sus" or "NotWrapper") with a confidence. A stack profile ("stack
DNA") is built from the same evidence. Any failure gives a fixed degraded
result.

Modules, in dependency order:

| file | module | contents |
|---|---|---|
| options.dfy | `Options` | `Option` |
| strings.dfy | `Strings` | ASCII case mapping (`str.lower`), substring test (`in`) with its index characterisation |
| seqs.dfy | `Seqs` | `Filter`, `FlatMap`, `Dedup` (the model of `list(set(...))`) |
| regex.dfy | `Regex` | the fragment of Python `re` the patterns use: a compiler, a backtracking matcher proved against a declarative span semantics, `re.search`, `re.findall` |
| catalog.dfy | `Catalog` | the pattern catalog, indicator and bundler tokens, endpoint patterns, and what each pattern compiles to |
| evidence.dfy | `Evidence` | signals and the five-list receipts |
| extractors.dfy | `Extractors` | the four passes over an abstract parsed page |
| extractor_facts.dfy | `ExtractorFacts` | the passes stated without the regex machinery (what the key check and the endpoint scan find) |
| scorer.dfy | `Scorer` | `_calculate_verdict` |
| stack_profiler.dfy | `StackProfiler` | `_build_stack_dna` |
| urls.dfy | `Urls` | the `urlparse` scheme test and the `https://` prefixing |
| detector.dfy | `Detector` | `_error_result` and `analyze_url`, with the fetch as a parameter |

Modelling choices:

- **Page.** A parsed page is a `Page` record with these fields:
  - the serialised markup;
  - the `src` of each script that has one;
  - the `.string` of each script without one (`None` when BeautifulSoup gives none);
  - the `href` of each stylesheet link (`None` when absent);
  - the first `generator` meta tag.
- **Fixed Python behaviour modelled.**
  - `str.lower` maps the ASCII capitals to small letters and leaves every
    other character alone. Python also folds non-ASCII capitals; see
    "Left out".
  - `pattern in s.lower()` is a literal substring test. A catalog pattern
    with an upper-case letter (the key shape and the header shape) can
    therefore never match a script or stylesheet URL.
  - `re.search(pattern, html, re.IGNORECASE)` treats `.` as a wildcard.
  - `list(set(xs))` becomes first-occurrence deduplication. Python
    yields the set in hash order, which can change from one run to the
    next, so the order of the profile's `frameworks` and
    `wrapper_platforms` lists is the model's choice. What the lemmas state
    about those two lists (which elements, each once) holds in any order,
    and the frontend guess, the backend guess and the scores do not depend
    on the order at all.
  - The scorer's float fractions are compared exactly:
    `10 * wrapper > 7 * total` stands for `wrapper / total > 0.7`.

What the code does, as the model states it:

- Every entry a pass appends is kept, repeats included, and the scorer
  counts each one. `re.findall` returns one text per non-overlapping
  occurrence of an endpoint, so an inline script that names
  `api.openai.com` four times earns the scorer's extra ten points on its
  own (`ExtractorFacts.EndpointsCount`, `Scorer.CustomScore`).
- A script or stylesheet URL gets one signal per catalog pattern it
  contains. `https://cdn.webflow.com/wf-page.js` contains the Webflow
  patterns `webflow.com` and `wf-page`, so it gets two Webflow signals
  (`Extractors.ScriptSignals`).
- A framework is recorded once per script URL that names it, so three
  React bundles count three times in the custom score
  (`Extractors.FrameworksCount`).
- The custom-code indicators are distinct, so the HTML pass notes each at
  most once (`Catalog.CustomCodeIndicatorsDistinct`, `Extractors.HtmlPass`).
- A scored confidence always lies in [50, 95]. Only the degraded result
  has 30.

## Model

All source paths are relative to the repository root; every row cites `apps/analyzer/analyzer/wrapper_detector.py`.

| member | source | states |
|---|---|---|
| Catalog.Entries | apps/analyzer/analyzer/wrapper_detector.py:149-150 | the nested loops over the catalog visit only (platform, pattern) pairs of the catalog, and every such pair |
| Catalog.EntriesLength | apps/analyzer/analyzer/wrapper_detector.py:149-150 | the loops visit one pair per pattern: as many as the rows hold patterns in total |
| Catalog.EntriesAt | apps/analyzer/analyzer/wrapper_detector.py:149-150 | the loops visit row `i`'s `j`-th pattern at position `j` after all patterns of the earlier rows, so in dict order and each exactly once |
| Catalog.CustomCodeIndicatorsDistinct | apps/analyzer/analyzer/wrapper_detector.py:70-78 | the seven custom-code indicators are pairwise distinct |
| Catalog.CatalogKinds | apps/analyzer/analyzer/wrapper_detector.py:20-68 | no catalog pattern is tagged `exposed_api_key`; that tag comes only from the inline key check |
| Catalog.CatalogPatternShapes | apps/analyzer/analyzer/wrapper_detector.py:20-68 | every catalog pattern is the key shape, the header shape, or a URL-like word of letters, digits, `.`, `-` and `/` |
| Catalog.CatalogCompiles | apps/analyzer/analyzer/wrapper_detector.py:149-151 | every catalog pattern is a valid regular expression, so the HTML pass never raises `re.error` |
| Catalog.ApiKeyPatternCompiles | apps/analyzer/analyzer/wrapper_detector.py:55 | `sk-[A-Za-z0-9]{48}` compiles to the literal `sk-` followed by 48 copies of the class of ASCII letters and digits |
| Catalog.AuthHeaderPatternCompiles | apps/analyzer/analyzer/wrapper_detector.py:56 | `Authorization.*Bearer.*sk-` compiles to the literal `Authorization`, a wildcard star, the literal `Bearer`, a wildcard star and the literal `sk-` |
| Catalog.ApiEndpointsCompile | apps/analyzer/analyzer/wrapper_detector.py:208-215 | each of the six endpoint patterns compiles to its literal text (`api\.openai\.com` to `api.openai.com`, and so on): the escaped dots match only a dot |
| Catalog.SpecialPatternsHaveUpper | apps/analyzer/analyzer/wrapper_detector.py:55-56 | the key and header patterns hold upper-case letters |
| Strings.Lower | apps/analyzer/analyzer/wrapper_detector.py:160 | lower-casing keeps the length and maps exactly the ASCII capitals to their small letters, every other character to itself |
| Strings.ContainsIffOccurs | apps/analyzer/analyzer/wrapper_detector.py:160 | the substring test `x in s` holds exactly when `x` occurs at some index of `s` |
| Strings.OccurrencesIffContains | apps/analyzer/analyzer/wrapper_detector.py:218-219 | a non-empty text has a positive count of non-overlapping occurrences in `s` exactly when `s` contains it |
| Regex.SearchIff | apps/analyzer/analyzer/wrapper_detector.py:151 | the backtracking search succeeds exactly when some span of the text matches the pattern |
| Regex.FindAll | apps/analyzer/analyzer/wrapper_detector.py:218 | every text `re.findall` returns is the text of a match, and the list is empty exactly when the search fails |
| Regex.LiteralFindAllCount | apps/analyzer/analyzer/wrapper_detector.py:218 | `re.findall` of a non-empty literal with `re.IGNORECASE` returns one text per non-overlapping occurrence of the lower-cased literal in the lower-cased text, scanning left to right |
| Regex.LiteralSearchIff | apps/analyzer/analyzer/wrapper_detector.py:217-219 | a case-insensitive search for a literal succeeds exactly when the lower-cased text contains the lower-cased literal |
| Extractors.HtmlSignals | apps/analyzer/analyzer/wrapper_detector.py:149-156 | one signal per catalog pair whose pattern the case-insensitive search finds in the markup (the count is the number of such pairs), each tagged with that platform, the pattern itself and severity high; distinct pairs give distinct signals |
| Extractors.FoundIndicators | apps/analyzer/analyzer/wrapper_detector.py:158-161 | an indicator is noted exactly when the lower-cased markup contains it, and a distinct indicator list gives distinct notes |
| Extractors.HtmlPass | apps/analyzer/analyzer/wrapper_detector.py:144-161 | the HTML pass only appends: it adds the HTML signals and the found indicators, none of them twice, and leaves the other lists alone |
| Extractors.LiteralSignals | apps/analyzer/analyzer/wrapper_detector.py:171-178 | a URL gets, for each platform, one signal per pattern of that platform that occurs literally in the lower-cased URL, each with the URL's caption and the pass's severity |
| Extractors.ScriptSignals | apps/analyzer/analyzer/wrapper_detector.py:167-178 | every script signal is high and captioned `Script: <src>`; the signal for platform `q` and URL `src` appears as many times as `src` is listed, times the number of `q`'s patterns the lower-cased `src` contains |
| Extractors.LabelledScanCount | apps/analyzer/analyzer/wrapper_detector.py:167-178 | the per-URL scan, over any list of URLs, gives each (platform, caption) signal the number of times its URL is listed times the number of matching patterns of that platform |
| Extractors.BundleNote | apps/analyzer/analyzer/wrapper_detector.py:181-182 | a script URL gets a `Custom bundle: <src>` note exactly when it names one of the four bundler tokens, at most one per URL |
| Extractors.SrcFrameworks | apps/analyzer/analyzer/wrapper_detector.py:185-192 | a framework is noted for a script URL exactly when its token occurs in the lower-cased URL; at most four |
| Extractors.SrcFrameworksOnce | apps/analyzer/analyzer/wrapper_detector.py:185-192 | the four checks note a framework at most once per script URL |
| Extractors.Frameworks | apps/analyzer/analyzer/wrapper_detector.py:167-192 | a framework is recorded exactly when some script URL names it, at most four per URL |
| Extractors.FrameworksCount | apps/analyzer/analyzer/wrapper_detector.py:167-192 | each framework is recorded exactly as many times as there are script URLs whose lower-cased text contains its token |
| Extractors.KeySignals | apps/analyzer/analyzer/wrapper_detector.py:196-205 | one critical `exposed_api_key` signal per inline script that matches the key shape, and no other signal |
| Extractors.EndpointMatches | apps/analyzer/analyzer/wrapper_detector.py:217-220 | every recorded endpoint is the text of a match of one of the patterns, and nothing is recorded exactly when no pattern matches |
| Extractors.MatchesIn | apps/analyzer/analyzer/wrapper_detector.py:196-220 | a text is recorded exactly when it is among the matches of the patterns in one particular text |
| Extractors.Endpoints | apps/analyzer/analyzer/wrapper_detector.py:196-220 | an endpoint is recorded exactly when it was matched in one particular inline script |
| Extractors.ScriptsPass | apps/analyzer/analyzer/wrapper_detector.py:163-220 | the script pass only appends: URL signals then key signals, bundle notes, frameworks, endpoints, and never a suspicious pattern |
| Extractors.StylesheetSignals | apps/analyzer/analyzer/wrapper_detector.py:224-237 | every stylesheet signal is medium, captioned `Stylesheet: <href>` with an absent href read as empty, and every literal match is reported |
| Extractors.StylesheetsPass | apps/analyzer/analyzer/wrapper_detector.py:222-237 | the stylesheet pass appends wrapper signals and changes nothing else |
| Extractors.GeneratorPlatform | apps/analyzer/analyzer/wrapper_detector.py:243-262 | the generator names webflow, wix or squarespace only when its lower-cased content contains that tag; webflow wins over wix, and wix over squarespace; none when none is contained |
| Extractors.MetaSignals | apps/analyzer/analyzer/wrapper_detector.py:239-262 | no generator tag gives no signal; otherwise at most one high `Meta generator tag` signal, present exactly when a platform is named |
| Extractors.MetaPass | apps/analyzer/analyzer/wrapper_detector.py:239-262 | the meta pass appends at most that one signal and changes nothing else |
| Extractors.PassSignalsWellGraded | apps/analyzer/analyzer/wrapper_detector.py:152-156 | every signal of every pass is high, medium or critical; critical exactly for the exposed-key signal; medium only for a stylesheet caption |
| Extractors.ExtractWith | apps/analyzer/analyzer/wrapper_detector.py:104-117 | running the passes in order never adds a suspicious pattern, adds at most four frameworks per script URL, and adds only indicator tokens or bundle notes as custom code |
| Extractors.ExtractWithSignals | apps/analyzer/analyzer/wrapper_detector.py:107-117 | the wrapper signals are the HTML, script-URL, key, stylesheet and meta signals, in pass order |
| Extractors.OnlyKeyCheckTagsKeys | apps/analyzer/analyzer/wrapper_detector.py:200-205 | the exposed-key signal appears in the receipts exactly when the inline key check fired |
| Extractors.Extract | apps/analyzer/analyzer/wrapper_detector.py:104-117 | over the detector's catalog: frameworks are exactly those some script URL names, every endpoint comes from an inline script, every signal is well graded, and the key signal appears exactly when the key check fires |
| Extractors.ExtractIsScans | apps/analyzer/analyzer/wrapper_detector.py:104-117 | the receipts of a page are exactly the scans in pass order: frameworks per script URL, endpoints per inline script, and the HTML, script-URL, key, stylesheet and meta signals concatenated |
| ExtractorFacts.KeyFoundIff | apps/analyzer/analyzer/wrapper_detector.py:200 | the case-sensitive key search succeeds exactly when some position holds `sk-` followed by 48 ASCII letters or digits |
| ExtractorFacts.InlineKeyIff | apps/analyzer/analyzer/wrapper_detector.py:196-205 | a list of inline scripts is flagged exactly when one of them holds such a key |
| ExtractorFacts.ExposedKeyIff | apps/analyzer/analyzer/wrapper_detector.py:195-205 | a page's receipts report an exposed key exactly when one of its inline scripts holds such a key |
| ExtractorFacts.EndpointsAreKnown | apps/analyzer/analyzer/wrapper_detector.py:208-220 | every endpoint the scan records is one of the six endpoints in some letter case, non-empty, and occurs verbatim in the script |
| ExtractorFacts.EndpointsFoundIff | apps/analyzer/analyzer/wrapper_detector.py:217-220 | a script yields endpoints exactly when its lower-cased text contains one of the six endpoints |
| ExtractorFacts.LiteralMatchesCount | apps/analyzer/analyzer/wrapper_detector.py:217-220 | over patterns that compile to non-empty literals, the scan of one text records one match per non-overlapping occurrence of each literal, summed over the patterns |
| ExtractorFacts.EndpointMatchesCount | apps/analyzer/analyzer/wrapper_detector.py:217-220 | the endpoint scan of one inline script records as many matches as the six endpoints have non-overlapping case-insensitive occurrences in it |
| ExtractorFacts.MatchesInCount | apps/analyzer/analyzer/wrapper_detector.py:196-220 | over patterns that compile to non-empty literals, the scans of all texts record every occurrence once; nothing is deduplicated |
| ExtractorFacts.EndpointsCount | apps/analyzer/analyzer/wrapper_detector.py:196-220 | the recorded endpoints of a page number exactly the non-overlapping case-insensitive occurrences of the six endpoints over all its inline scripts |
| ExtractorFacts.InlineEndpointKnown | apps/analyzer/analyzer/wrapper_detector.py:194-220 | every endpoint matched in an inline script is one of the six in some letter case and occurs verbatim in a script that has text |
| ExtractorFacts.ExtractEndpointsKnown | apps/analyzer/analyzer/wrapper_detector.py:194-220 | every endpoint in a page's receipts is a known endpoint that occurs verbatim in an inline script that has text |
| ExtractorFacts.LiteralHitIsRegexHit | apps/analyzer/analyzer/wrapper_detector.py:149-151 | any catalog pattern found literally in a lower-cased URL is also found by the HTML pass's search in that text |
| ExtractorFacts.SpecialPatternsNeverLiteral | apps/analyzer/analyzer/wrapper_detector.py:171-173 | the key and header shapes never produce a script or stylesheet signal, whatever the URL |
| Scorer.WrapperScore | apps/analyzer/analyzer/wrapper_detector.py:269-276 | the wrapper score is at most 30 points per signal and at least 10 per signal when none is low |
| Scorer.WrapperScoreByCounts | apps/analyzer/analyzer/wrapper_detector.py:269-276 | the wrapper score is 30 per critical, 20 per high and 10 per medium signal, whatever their order |
| Scorer.WrapperScoreAppend | apps/analyzer/analyzer/wrapper_detector.py:270-276 | the score of concatenated signal lists is the sum of their scores |
| Scorer.TallyWrapperScore | apps/analyzer/analyzer/wrapper_detector.py:266-276 | the loop over the signals computes the wrapper score |
| Scorer.CustomScore | apps/analyzer/analyzer/wrapper_detector.py:278-286 | 10 per custom note plus 15 per framework, plus 10 more exactly when more than three endpoints were matched |
| Scorer.CustomScoreSteps | apps/analyzer/analyzer/wrapper_detector.py:278-286 | one more framework adds 15, one more custom note adds 10, the fourth endpoint adds 10 and any other endpoint nothing, and wrapper signals do not count |
| Scorer.Decide | apps/analyzer/analyzer/wrapper_detector.py:288-308 | no evidence gives Sus at 50; Confirmed exactly above a 70% wrapper share or above 50 wrapper points; NotWrapper exactly at a share of at most 40%, at most 50 points, and no wrapper points or at least 20 custom points; confidence stays in [50, 95], with Sus never above 85 and the other verdicts never below 60 |
| Scorer.CalculateVerdict | apps/analyzer/analyzer/wrapper_detector.py:264-308 | confidence in [50, 95]; more than 50 wrapper points confirm; custom evidence without wrapper signals gives NotWrapper; empty receipts give Sus at 50 |
| Scorer.WrapperMonotone | apps/analyzer/analyzer/wrapper_detector.py:298-306 | more wrapper points never weaken the verdict |
| Scorer.CustomMonotone | apps/analyzer/analyzer/wrapper_detector.py:298-306 | more custom points never strengthen the verdict |
| Scorer.CriticalWeighsThirty | apps/analyzer/analyzer/wrapper_detector.py:271-272 | a critical signal alone puts the wrapper score at 30 or more |
| Scorer.MoreSignalsNeverWeaken | apps/analyzer/analyzer/wrapper_detector.py:264-308 | recording one more wrapper signal never weakens the verdict |
| Scorer.MoreCustomCodeNeverStrengthens | apps/analyzer/analyzer/wrapper_detector.py:278-308 | recording one more custom-code note never strengthens the verdict |
| StackProfiler.Backend | apps/analyzer/analyzer/wrapper_detector.py:314-319 | Node.js exactly when some custom note mentions `node`; Python exactly when none does and one mentions `python`; unknown otherwise |
| StackProfiler.Frontend | apps/analyzer/analyzer/wrapper_detector.py:321-328 | unknown exactly for no frameworks; React exactly when React or Next.js is present; never Next.js; Angular only without Vue |
| StackProfiler.WrapperPlatforms | apps/analyzer/analyzer/wrapper_detector.py:338 | each signal type exactly once |
| StackProfiler.BuildStackDna | apps/analyzer/analyzer/wrapper_detector.py:310-339 | the profile lists each detected framework once, guesses frontend and backend as above, and flags custom ML exactly when there is no wrapper signal and more than three custom notes |
| StackProfiler.FrontendIgnoresOrder | apps/analyzer/analyzer/wrapper_detector.py:312 | the frontend guess does not depend on the order `list(set(...))` produces |
| StackProfiler.ProfileFrontend | apps/analyzer/analyzer/wrapper_detector.py:312-328 | the profile's frontend is the one of the raw framework list |
| StackProfiler.DistinctFrameworksKept | apps/analyzer/analyzer/wrapper_detector.py:312 | a distinct framework list comes back with the same frameworks, each once: a permutation of it, whatever order the set yields |
| StackProfiler.CustomMlMeansNotWrapper | apps/analyzer/analyzer/wrapper_detector.py:330-331 | whenever the profile flags custom ML, the scorer has decided NotWrapper at 95 |
| Urls.SchemeOf | apps/analyzer/analyzer/wrapper_detector.py:84-85 | a reported scheme starts with an ASCII letter and consists of lower-case scheme characters |
| Urls.NormalizeUrlAsWritten | apps/analyzer/analyzer/wrapper_detector.py:84-86 | a URL with a scheme is kept, any other gets `https://`, and the result always has a scheme |
| Urls.NormalizeUrl | apps/analyzer/analyzer/wrapper_detector.py:84-86 | the corrected normalisation: a URL with a scheme and `//` is kept, any other gets `https://`, and the result always has both |
| Urls.PrefixedHasHttps | apps/analyzer/analyzer/wrapper_detector.py:86 | whatever follows it, `https://` is read as the scheme `https` followed by an authority |
| Urls.NoColonGetsPrefix | apps/analyzer/analyzer/wrapper_detector.py:84-86 | a URL without a colon is always prefixed |
| Urls.NormalizationsAgree | apps/analyzer/analyzer/wrapper_detector.py:84-86 | the corrected and the written normalisation differ only on URLs with a scheme but no `//` |
| Urls.NormalizeIdempotent | apps/analyzer/analyzer/wrapper_detector.py:84-86 | normalising twice is normalising once |
| Urls.HostPortIsScheme | apps/analyzer/analyzer/wrapper_detector.py:84-86 | `host:port`, for a host of scheme characters after a leading letter (`localhost`, `example.com`) and a digit port, is read as the scheme `host` with no authority, so `urlparse` accepts it and the written normalisation leaves it unprefixed |
| Urls.HostPortGetsPrefix | apps/analyzer/analyzer/wrapper_detector.py:84-86 | the corrected normalisation prefixes `host:port` |
| Urls.NetlocIffAuthority | apps/analyzer/analyzer/wrapper_detector.py:84 | after a scheme, `urlparse` splits off an authority exactly when the scheme is followed by `//`, so a URL with a scheme and no `//` never raises |
| Urls.OpenBracketFails | apps/analyzer/analyzer/wrapper_detector.py:84 | an authority with an opening square bracket and no closing one, as in `https://[::1`, makes `urlparse` raise |
| Detector.ErrorResult | apps/analyzer/analyzer/wrapper_detector.py:341-363 | the degraded result: Wrapper Sus at 30, empty lists, the error kind and message, an unknown three-field stack profile |
| Detector.AnalyzeTarget | apps/analyzer/analyzer/wrapper_detector.py:88-142 | for the URL to fetch: confidence in [30, 95], 30 exactly for a failure, which is the degraded result; a timeout, a request failure or HTTP error status, and any other exception map to the three error kinds with their messages; a fetched page is scanned into receipts, scored and profiled from them, and the target, status and whole milliseconds are echoed |
| Detector.AnalyzeUrl | apps/analyzer/analyzer/wrapper_detector.py:80-142 | `analyze_url` as written: a URL `urlparse` rejects gives the degraded analysis error `Invalid IPv6 URL` without a fetch; any other gets everything `AnalyzeTarget` states, for the URL the written normalisation gives |
| Detector.AnalyzeUrlIntended | apps/analyzer/analyzer/wrapper_detector.py:80-142 | the corrected analysis: the same parse error; otherwise everything `AnalyzeTarget` states, for the URL the corrected normalisation gives |
| Detector.BadUrlNeverFetched | apps/analyzer/analyzer/wrapper_detector.py:80-142 | for `https://` followed by an authority with `[` and no `]`, the result is the analysis error `Invalid IPv6 URL` at confidence 30, whatever the fetch would answer |
| Detector.WrittenFetchesScheme | apps/analyzer/analyzer/wrapper_detector.py:84-86 | a successful analysis as written parsed the URL, echoes the URL itself when it has a scheme and `https://` + the URL otherwise, and the echoed URL always has a scheme |
| Detector.IntendedFetchesHost | apps/analyzer/analyzer/wrapper_detector.py:84-86 | a successful corrected analysis parsed the URL and always fetched a URL with a host |
| Detector.AnalyzeUrlAgrees | apps/analyzer/analyzer/wrapper_detector.py:84-142 | the written and the corrected analysis give the same result on every URL without a scheme and on every URL with a scheme and a host |
| Detector.HostPortFetchTargets | apps/analyzer/analyzer/wrapper_detector.py:84-142 | for a bare `host:port` the written analysis fetches `host:port` itself, and the corrected one fetches `https://host:port` |
| Detector.AnalyzeEchoStable | apps/analyzer/analyzer/wrapper_detector.py:80-142 | analysing the URL a successful analysis echoes gives the same result again, unless `urlparse` rejects the echo (only possible after `https://` was put in front); a URL with a scheme always gives the same result |

## Left out

- Fetching is a parameter of `AnalyzeUrl` and `AnalyzeTarget`: the request with its headers, 10-second timeout, unverified TLS and redirects (line 101). The parameter returns a parsed page or one of the three failures.
- `raise_for_status` is modelled by its status range (400 to 599). Its message text comes from the HTTP library and is part of the fetched response.
- Parsing HTML with BeautifulSoup, and `str(soup)` re-serialising the markup, are outside the model. The page arrives already split into the five parts the passes read.
- `response_time_ms` is elapsed microseconds divided by 1000. The float rounding of `total_seconds() * 1000` is not modelled.
- The regular-expression model covers only the constructs the detector's patterns use. `re.IGNORECASE` is modelled for ASCII letters only, so Unicode case folding (the Kelvin sign matching `k`, say) is not modelled. The case-sensitive key check is unaffected.
- `re.findall` after an empty match steps one character on. The detector's patterns never match the empty text, so this does not arise.
- `Urls.SchemeOf` follows current CPython `urlsplit`. Older versions treated a colon followed only by digits as a port, not a scheme. The finding below depends on that version difference.
- The `Summary` stack profile and the error fields of the receipts stand in for the dictionaries of the degraded result. The model does not carry JSON key names.
- Extractors.Extract: its own ensures state which frameworks, endpoints and signals appear and how signals are graded, not how often. The exact lists, and with them every multiplicity, are stated by `Extractors.ExtractIsScans` together with the count lemmas of the scans.
- Strings.Lower: maps ASCII capitals only. Python's `str.lower` also folds other capitals: the Kelvin sign U+212A becomes `k`, and `İ` becomes two characters. So a script URL `https://x/WEBPAC\u212A.js` gets a `Custom bundle` note from the detector but none in the model, and the same holds for every literal test of lines 160, 173, 181-191, 232 and 245-259.
- Regex.FindAll: for a general pattern the contract says only that each returned text is a match and that the list is empty exactly when the search fails. The count of non-overlapping matches is proved for literal patterns only (`Regex.LiteralFindAllCount`), and those are the only patterns the detector passes to `re.findall`.
- Catalog.Entries: its own ensures give membership in both directions. The order and the once-each are stated by `Catalog.EntriesAt` and `Catalog.EntriesLength`.
- Extractors.Frameworks: its own ensures give membership and a bound. The count per framework is stated by `Extractors.FrameworksCount`.
- Extractors.EndpointMatches: its own ensures give soundness and emptiness. That every occurrence is recorded, as a count, is stated by `ExtractorFacts.EndpointMatchesCount`.
- Extractors.Endpoints: its own ensures give membership in both directions. The count is stated by `ExtractorFacts.EndpointsCount`.
- Detector.AnalyzeUrl: of the errors `urlparse` can raise at line 84, only the unbalanced square bracket in the authority is modelled. The validations newer Python versions add are not modelled: the validation of a bracketed host as an IPv6 or IPvFuture address, and the rejection of a non-ASCII authority whose NFKC form gains `/`, `?`, `#`, `@` or `:`. A URL those reject gets the analysis error from Python and a fetch in the model. `Detector.AnalyzeUrlIntended` shares the gap.
- StackProfiler.BuildStackDna: the order of the `frameworks` and `wrapper_platforms` lists follows first occurrence. Python's set order is not modelled.
- The web app that calls the detector, the backend, and the UI are not part of this model.

## Findings

| source | as written | input that shows it | evidently intended | confidence | as-written member | corrected member |
|---|---|---|---|---|---|---|
| apps/analyzer/analyzer/wrapper_detector.py:84-86 | the URL is prefixed with `https://` only when `urlparse` finds no scheme, but `urlparse` reads the host of a bare `host:port` as a scheme | `localhost:8080` or `example.com:8080`: the scheme is `localhost` (or `example.com`), the URL stays unprefixed, and the fetch of a URL without `//` then fails as a "Connection Error" | a URL typed without `scheme://` is fetched over `https://`; `Detector.AnalyzeUrlIntended` analyses that URL | medium: depends on the Python version (current `urlsplit`); not executed | Urls.HostPortIsScheme | Urls.NormalizeUrl |
