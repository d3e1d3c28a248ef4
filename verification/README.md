# AutoTest, modelled in Dafny

AutoTest discovers a web application and then tests it. It crawls the site
breadth first, captures the JSON APIs the pages call, detects forms and login
pages, and stores pages, APIs and forms after de-duplicating them. From that
inventory it generates Playwright test files: page-load and broken-link tests,
API smoke tests, security tests, form-validation tests, load tests, and tests
translated from an AI-written JSON plan. A runner executes them, parses
Playwright's output line by line to report progress live, collects the JSON
report into result rows with a summary, and renders an HTML report.

This project models the data logic of that pipeline as pure Dafny functions
over immutable datatypes, and proves what the code promises about it. The
browser, the AI service, the file system, the database and Playwright itself
are not modelled; they become oracles or parameters.

- `Urls`, `Crawler`: `normalizeUrl` and the breadth-first crawl, with a page
  cap, a depth cap, no URL recorded twice and only same-origin links queued.
- `Classifier`, `ApiInterceptor`, `AuthDetector`, `FormDetector`: first-wins
  de-duplication and tagging, the capture and probe filters, the weighted
  login-page score, and form-field extraction with its defaults.
- `DiscoveryAuth`, `Orchestrator`: `getNestedValue`, the four authentication
  strategies, the scan's progress events and stats, and the error path.
- `PageScout`: the UI snapshot rules (visibility, label precedence, caps,
  de-duplication), click-target collection, recording conditions, and the slug.
- `JsEscape`, `AiTests`: the `esc` string escaper and the plan-to-Playwright
  translator.
- `Templates`, `TestGenerator`: the five template generators, as the lists of
  tests they emit, and the selection logic of `generateTests`.
- `TestRunner`, `Matcher`: ANSI stripping, the streaming line buffer, the
  progress-line patterns, category extraction, and the fallback counts.
- `ResultCollector`, `ReportGenerator`, `HtmlEscape`: the suite-tree walks,
  status mapping, summaries, and HTML escaping.
- `Server`: the registry of server-sent-event clients, the per-file test
  counts, the live progress counters, the empty-generation shortcut, and the
  target update merge.
- `Wrappers`, `Text`, `Seqs`, `Json`, `Records` are shared helpers:
  `Option`/`Result`, string operations, first-wins de-duplication and
  subsequences, a JSON value with JavaScript truthiness and coercion, and the
  stored records.

Where the project's written description and the code disagree, the model
follows the code:

- `normalizeUrl` clears every fragment, hash routes included
  (engine/crawler.js:69).
- `requires_auth` reflects only the status of the first occurrence of an API
  key, not any response observed for it (engine/classifier.js:13-24).
- The context summary sent to the AI service has no form section
  (generator/ai-tests.js:11-24).

## Model

| member | source | states |
|---|---|---|
| Urls.Normalize | engine/crawler.js:66-74 | the fragment is cleared; origin, host and query are kept; a path other than "/" ending in '/' loses exactly one '/', and any other path is kept |
| Urls.NormalizeUrl | engine/crawler.js:66-78 | a parseable URL gives the href of its normalised parts; input that does not parse is returned unchanged |
| Urls.NormalizeKeepsOrigin | engine/crawler.js:66-74 | a normalised URL still starts with the origin of the URL it came from |
| Urls.NormalizeIdempotentIff | engine/crawler.js:69-73 | normalising twice equals normalising once exactly when the path does not end in "//" after some other character |
| Urls.NormalizeNotIdempotentWitness | engine/crawler.js:71-73 | "/a//" normalises to "/a/" and then to "/a", so normalisation is not idempotent |
| Crawler.PageFor | engine/crawler.js:14-60 | a failed navigation records status 0, response time 0, no forms and the error text; a loaded page records its status (0 without a response), elapsed time, title and whether it has any forms |
| Crawler.Targets | engine/crawler.js:36-46 | every link target starts with the base origin, and every anchor whose resolved href and whose normalised href both start with the origin contributes its normalised href |
| Crawler.TargetsFromAnchors | engine/crawler.js:36-46 | the link targets are, in anchor order, exactly the normalised hrefs of the anchors that resolve on the origin and stay on it once normalised, and each target comes from such an anchor |
| Crawler.NewEntries | engine/crawler.js:44-49 | an entry is enqueued at depth + 1 for every link target not yet visited, and for no other target |
| Crawler.CrawlPages | engine/crawler.js:3-64 | at most maxPages records, with pairwise distinct URLs, depths within [0, maxDepth] and non-decreasing, all on the base origin; when maxPages > 0 the first record is the normalised base URL at depth 0; each record is what the site yields for its URL; each later record was linked from an earlier one a level up; and if the page limit was not hit, every same-origin link of a recorded page above maxDepth was itself recorded |
| Classifier.ClassifyPages | engine/classifier.js:3-10 | the output is a subsequence of the input with pairwise distinct URLs, covers every input URL, and each kept record is the first record with its URL |
| Classifier.ClassifyPagesIdempotent | engine/classifier.js:3-10 | classifying pages twice gives the same list as classifying once |
| Classifier.TagAuth | engine/classifier.js:19-22 | an endpoint requires auth afterwards iff it already did or its status is 401 or 403; no other field changes |
| Classifier.ClassifyApis | engine/classifier.js:12-26 | one record per distinct "method:url" key, every input key is kept, and each kept record is the tagged first occurrence of its key, so later duplicates' statuses are ignored |
| Classifier.TagLogin | engine/classifier.js:35-45 | the login tag is set iff the fields decode and hold a password field and a username-like field; unparseable fields give 0; no other field changes |
| Classifier.LoginTagIff | engine/classifier.js:36-42 | a form is tagged login exactly when some field has type password and some field has type email or a name containing user, email or login in any case |
| Classifier.ClassifyForms | engine/classifier.js:28-49 | one record per distinct "page_url:action:method" key, every input key is kept, and each kept record is the login-tagged first occurrence of its key |
| Classifier.FormKeyAmbiguous | engine/classifier.js:31 | two forms on different pages with different actions can share a key, and the second is then dropped |
| ApiInterceptor.ResponseType | engine/api-interceptor.js:17-22 | the response type is a slice of the content-type header with no ';' and no surrounding white space, and '' when the header is absent |
| ApiInterceptor.Intercept | engine/api-interceptor.js:3-6 | a new interceptor listens on the base origin with nothing captured |
| ApiInterceptor.OnResponse | engine/api-interceptor.js:8-24 | while listening, an XHR or fetch response from the base origin appends exactly its record; any other response, or any response after stopping, changes nothing |
| ApiInterceptor.ListeningCaptures | engine/api-interceptor.js:8-24 | a listening interceptor appends, in order, the records of exactly the qualifying responses |
| ApiInterceptor.CapturedQualify | engine/api-interceptor.js:13-15 | every captured record comes from an XHR or fetch response whose URL starts with the base origin |
| ApiInterceptor.Stop | engine/api-interceptor.js:28 | stopping detaches the listener and keeps what was captured |
| ApiInterceptor.StoppedIgnores | engine/api-interceptor.js:28 | after stopping, no response changes the interceptor |
| ApiInterceptor.DeduplicateApis | engine/api-interceptor.js:65-73 | the output is a subsequence of the input with distinct "method:url" keys, covers every input key, and keeps the first record of each key |
| ApiInterceptor.ProbeOne | engine/api-interceptor.js:43-59 | a probed path yields a GET record for origin + path iff the probe answers with a status below 500; a thrown probe yields nothing |
| ApiInterceptor.ProbePaths | engine/api-interceptor.js:43-62 | the records are the probe results of the paths in path order, skipping the paths that threw or answered 500 or more |
| ApiInterceptor.ProbeComplete | engine/api-interceptor.js:49-56 | every path that answers below 500 has its record in the output |
| ApiInterceptor.ProbeCommonApis | engine/api-interceptor.js:32-63 | the records are, in the order of the eight fixed paths, exactly the probes that answered below 500, each a GET on origin + path carrying the answered status and the content type's media type; every fixed path answering below 500 is recorded |
| ApiInterceptor.CommonProbeUrlsDistinct | engine/api-interceptor.js:34-45 | the probe records have pairwise distinct URLs |
| AuthDetector.Score | engine/auth-detector.js:27-32 | the score is at most 8, and at least 3 whenever there is a password field |
| AuthDetector.DetectAuthPage | engine/auth-detector.js:3-37 | a failed evaluation gives false; otherwise the page is an auth page iff its score is at least 4 |
| AuthDetector.ScoreThresholdIff | engine/auth-detector.js:26-34 | a page qualifies iff it has a password field plus any other signal, or a username field plus at least two of the three text signals |
| AuthDetector.AuthWithoutPassword | engine/auth-detector.js:26-34 | a page with no password field can qualify: a username field, login text and a login URL score 4 |
| AuthDetector.LoginTextCaseInsensitive | engine/auth-detector.js:7-12 | the login-text signal does not depend on ASCII letter case |
| AuthDetector.LogInWithSpace | engine/auth-detector.js:12 | "Log In", with one space, counts as login text |
| FormDetector.FieldOf | engine/form-detector.js:11-18 | a field keeps the control's name, id, placeholder and required flag, lower-cases the tag, and defaults a missing type to "text" |
| FormDetector.FieldsOf | engine/form-detector.js:8-19 | one field per kept control (all but nameless hidden ones), each describing a kept control |
| FormDetector.FieldsInOrder | engine/form-detector.js:8-19 | field i describes the i-th kept control, so the fields follow document order |
| FormDetector.FieldsComplete | engine/form-detector.js:9-19 | every kept control is described among the fields |
| FormDetector.FieldsWellFormed | engine/form-detector.js:10-13 | no field is a nameless hidden control and every field has a non-empty type |
| FormDetector.RecordOf | engine/form-detector.js:21-26 | the record is on the given page, its action defaults to the page URL, its method defaults to GET and is upper-cased, and its fields are the kept controls |
| FormDetector.MethodUpperCase | engine/form-detector.js:24 | a recorded method never holds a lower-case ASCII letter |
| FormDetector.DetectForms | engine/form-detector.js:3-34 | one record per form in document order; a failing DOM query gives no records |
| DiscoveryAuth.Prop | engine/discovery-orchestrator.js:132-187 | reading a configuration property fails exactly when the configuration is null, and otherwise yields the property |
| DiscoveryAuth.Resolve | engine/discovery-orchestrator.js:137-163 | a configured URL starting with "http" is used as is, any other string is appended to the base URL, and a non-string cannot be resolved |
| DiscoveryAuth.FormLoginUrl | engine/discovery-orchestrator.js:136-138 | the login page is the resolved login_url when it is set, and base URL + "/login" otherwise |
| DiscoveryAuth.FormSteps | engine/discovery-orchestrator.js:140-151 | each credential is filled iff both its selector and its value are set, the username before the password and nothing else before the submit step; the second-to-last step clicks the submit selector when it is set and presses Enter otherwise; the last step waits for the load; the plan has exactly two steps plus one per filled credential |
| DiscoveryAuth.Props | engine/discovery-orchestrator.js:132-187 | looking up several properties fails iff the configuration is null, and otherwise yields each property in order |
| DiscoveryAuth.FormAuth | engine/discovery-orchestrator.js:135-152 | form login succeeds iff the configuration is not null and the login URL resolves; it navigates to that URL first and then performs exactly the form steps of the configured selectors and credentials |
| DiscoveryAuth.WalkAppend | engine/discovery-orchestrator.js:190-192 | following a concatenated key list follows the first list and then the second |
| DiscoveryAuth.WalkNull | engine/discovery-orchestrator.js:191 | once the value is null it stays null for any further keys |
| DiscoveryAuth.WalkDefined | engine/discovery-orchestrator.js:191 | a walk that ends in a non-null value started from a truthy value that has the first key |
| DiscoveryAuth.SplitDotConcat | engine/discovery-orchestrator.js:191 | splitting "a.b" on '.' gives the pieces of a followed by the pieces of b |
| DiscoveryAuth.NestedValueCompose | engine/discovery-orchestrator.js:190-192 | the value at "a.b" is the value at "b" inside the value at "a" |
| DiscoveryAuth.NestedValueSingleKey | engine/discovery-orchestrator.js:190-192 | a key without a dot yields the property of a truthy object that has it, and null otherwise |
| DiscoveryAuth.BearerAuth | engine/discovery-orchestrator.js:159-175 | a null configuration fails; a set static token gives exactly its Bearer header; with no token and not all of login_api, username and password set, nothing is done; at most a login request and a header are produced; the login API is called only when there is no token and login_api, username and password are all set |
| DiscoveryAuth.BearerAuthLogin | engine/discovery-orchestrator.js:161-174 | without a static token but with login_api, username and password, the login request comes first and a Bearer header with the token read at token_path follows exactly when that token is truthy; a failing step fails the whole |
| DiscoveryAuth.TokenPath | engine/discovery-orchestrator.js:170 | the token path defaults to "token", and a set path works only when it is a string |
| DiscoveryAuth.CookieAuth | engine/discovery-orchestrator.js:177-187 | at most one cookie, added only when both cookie_name and cookie_value are set, and always added then for a parseable base URL |
| DiscoveryAuth.BasicAuth | engine/discovery-orchestrator.js:154-157 | basic auth fails iff the configuration is null and otherwise sets one header built from the text "username:password" |
| DiscoveryAuth.Authenticate | engine/discovery-orchestrator.js:132-188 | "none" and unknown auth types do nothing; each of form, basic, bearer and cookie runs its own step |
| Orchestrator.AuthTypeOf | engine/discovery-orchestrator.js:13 | the auth type is never empty: a configured type is kept and a missing one becomes "none" |
| Orchestrator.StatsOf | engine/discovery-orchestrator.js:111-116 | pages, apis and forms equal the stored list lengths, and auth_pages counts the pages tagged as auth pages, so it never exceeds pages |
| Orchestrator.RoundedShareMonotone | engine/discovery-orchestrator.js:61-62 | a later page never reports a smaller share of the analysis progress |
| Orchestrator.RoundedShareBound | engine/discovery-orchestrator.js:62 | before the last page the rounded share is at most 20 |
| Orchestrator.AnalysisEventsOrdered | engine/discovery-orchestrator.js:44-65 | the analysis loop's progress from page i on never decreases and lies between page i's percentage and 70 |
| Orchestrator.AnalysisProgress | engine/discovery-orchestrator.js:44-65 | every progress event of the analysis loop lies in [50, 70], in non-decreasing order |
| Orchestrator.AnalysisOnlyProgress | engine/discovery-orchestrator.js:61-64 | the analysis loop emits only progress events |
| Orchestrator.AnalyzePage | engine/discovery-orchestrator.js:45-59 | a page that cannot be revisited is unchanged and yields no forms; otherwise it has forms if it had them or forms were found, its auth flag is the detector's verdict, every found form is on that page, and no other field changes |
| Orchestrator.AnalyzeAll | engine/discovery-orchestrator.js:43-65 | each crawled page is analysed once, in order, and every collected form comes from one of the pages |
| Orchestrator.Fail | engine/discovery-orchestrator.js:123-129 | a failure appends an error event, sets the scan status to error with the message, and rethrows it, keeping the trace well ordered |
| Orchestrator.ErrorKeepsOrder | engine/discovery-orchestrator.js:127 | appending an error event keeps the trace starting at 5 with non-decreasing progress in [5, 85] |
| Orchestrator.MiddleOrdered | engine/discovery-orchestrator.js:40-75 | the progress from "Found N pages" to "Classifying" lies in [50, 85] and never decreases |
| Orchestrator.CompletedOrdered | engine/discovery-orchestrator.js:18-120 | a completed run's trace starts at 5, never decreases and stays within [5, 85] |
| Orchestrator.EventCounts | engine/discovery-orchestrator.js:83-108 | a completed run sends exactly one page, api and form event per stored page, endpoint and form |
| Orchestrator.BeforeCrawl | engine/discovery-orchestrator.js:17-35 | a launch failure stops after the first progress event with an error; a stop is always a well-ordered trace ending in the error that is rethrown, with nothing stored; continuing means the base URL parsed and the auth plan succeeded |
| Orchestrator.Report | engine/discovery-orchestrator.js:83-122 | without a close error the run ends with done and the stats of the stored rows, with one row event per stored row; a close error after done becomes an error event and the error status |
| Orchestrator.StoredPages | engine/discovery-orchestrator.js:78-90 | the stored pages are at most 100, with distinct URLs, all on the crawled origin |
| Orchestrator.RunDiscovery | engine/discovery-orchestrator.js:10-130 | an unparseable auth configuration throws before any event; otherwise the trace is well ordered, a thrown error ends it with an error event and the error status, and success ends with done, the stats of what was stored and one event per stored row; a successful run used the auth plan that authentication of the target produced, stored the classified intercepted APIs of the target's origin, and stored the classification of the analysis of some crawl; at most 100 stored pages with distinct URLs on the target's origin |
| Orchestrator.CrawlStage | engine/discovery-orchestrator.js:36-90 | the run after authentication crawls from the base URL to depth 3 and at most 100 pages, all on the base origin, and reports the analysis and classification of exactly those pages |
| PageScout.OrElse | generator/page-scout.js:167 | `a || b` on strings is empty only when both are, and is the first one when that is non-empty |
| PageScout.Unique | generator/page-scout.js:162 | the result is duplicate-free, holds only non-empty strings of the input, and holds every non-empty string of the input |
| PageScout.UniqueIsDedupThenFilter | generator/page-scout.js:162 | deduplicating and then dropping empty strings, the source's order, is the same as `Unique` |
| PageScout.UniqueCapped | generator/page-scout.js:164-168 | at most `cap` distinct non-empty input strings, and all of them when fewer than `cap` are kept |
| PageScout.Txt | generator/page-scout.js:161 | an element's text is its trimmed text content cut to 80 characters |
| PageScout.ButtonLabel | generator/page-scout.js:167 | a button's label is its text, else its value, else its aria-label, cut to 60 characters |
| PageScout.VisibleButtonLabelsIff | generator/page-scout.js:164-167 | a label is among the visible labels iff some rendered button has it |
| PageScout.Buttons | generator/page-scout.js:164-168 | at most 25 distinct non-empty labels of at most 60 characters, each the label of a rendered button, and every such label when fewer than 25 are kept |
| PageScout.FieldLabel | generator/page-scout.js:175 | an input's label is its aria-label, else its placeholder, else its `label[for]` text, else its name, cut to 60 characters |
| PageScout.Describe | generator/page-scout.js:172-177 | an input is described by its type, placeholder, label and name |
| PageScout.Inputs | generator/page-scout.js:170-177 | the first 25 rendered text-like inputs and textareas, each described in order, not deduplicated |
| PageScout.VisibleAnchorTextsIff | generator/page-scout.js:179-182 | a text is among the visible link texts iff some rendered anchor has it |
| PageScout.Links | generator/page-scout.js:179-183 | at most 25 distinct texts of rendered anchors with length strictly between 1 and 60, and every such text when fewer than 25 are kept |
| PageScout.Texts | generator/page-scout.js:187 | the text of each element, in order |
| PageScout.Headings | generator/page-scout.js:185-188 | at most 15 distinct heading texts longer than one character, rendered or not, and all of them when fewer than 15 are kept |
| PageScout.Snippets | generator/page-scout.js:196-199 | at most 5 distinct paragraph texts of 11 to 199 characters, and all of them when fewer than 5 are kept |
| PageScout.DescribeSelect | generator/page-scout.js:191-193 | a select's label is the first 60 characters of its aria-label, else of the text of the label pointing at its id, else of its name; it keeps its first 10 options, trimmed |
| PageScout.Selects | generator/page-scout.js:190-194 | the first 10 rendered selects, each described in order |
| PageScout.SnapshotBounded | generator/page-scout.js:164-202 | every snapshot list respects its cap: 25 buttons, inputs and links, 15 headings, 10 selects of at most 10 options, 5 snippets |
| PageScout.LinkCandidates | generator/page-scout.js:48-55 | every link candidate has an href other than "" and "#" and a text of at most 60 characters |
| PageScout.LinkCandidatesInOrder | generator/page-scout.js:48-55 | the i-th link candidate is the trimmed, 60-character text and the href of the i-th anchor whose href is neither "" nor "#"; there is one per such anchor |
| PageScout.LinkCandidatesMembers | generator/page-scout.js:48-55 | a candidate is among the link candidates exactly when it is the candidate of an anchor whose href is neither "" nor "#" |
| PageScout.ButtonCandidates | generator/page-scout.js:57-63 | one candidate per button, in order: its `textContent || value`, trimmed and cut to 60 characters, with no href |
| PageScout.SubsequenceLinksFirst | generator/page-scout.js:44-66 | dropping candidates keeps every link ahead of every button |
| PageScout.Candidates | generator/page-scout.js:44-66 | the candidate list is the link candidates followed by the button candidates, and it is well formed |
| PageScout.DedupTargets | generator/page-scout.js:46-62 | deduplicating by text with "" counted as seen leaves a well-formed list of distinct non-empty texts |
| PageScout.ClickTargets | generator/page-scout.js:44-66 | the click targets keep the candidates in order; their texts are exactly the non-empty candidate texts, each once, carried by the first candidate with that text, so a link wins over a later button; all links come before all buttons |
| PageScout.ClickTargetsComplete | generator/page-scout.js:44-66 | every anchor with a usable href and every button whose candidate text is non-empty has that text among the click targets |
| PageScout.ClickTargetsFromPage | generator/page-scout.js:44-66 | each link target is the candidate of an anchor with a usable href, and each button target the candidate of a button of the page |
| PageScout.Slug | generator/page-scout.js:98 | a slug is at most 30 characters of lower-case letters, digits and single dashes; it is the first min(30, n) characters of the collapsed lower-cased text of length n, and when n is at most 30 it keeps every letter and digit of the lower-cased text, in order |
| PageScout.CollapseRuns | generator/page-scout.js:98 | the collapsed text holds only letters, digits and dashes, never two dashes in a row, is no longer than its input, and starts with a dash only when no run was open |
| PageScout.CollapseRunsKeepsSlugChars | generator/page-scout.js:98 | collapsing keeps exactly the letters and digits of the input, in order |
| PageScout.CollapseRunsIsRunReplacement | generator/page-scout.js:98 | collapsing equals cutting the text into maximal runs and replacing every run of characters other than [a-z0-9] by one '-', as the global regular expression does |
| PageScout.SlugIsRunReplacement | generator/page-scout.js:98 | a slug is the run replacement of the lower-cased text cut to 30 characters |
| PageScout.Pad2 | generator/page-scout.js:147 | the padded screenshot index has at least two characters |
| PageScout.AppendConsistent | generator/page-scout.js:96-101 | recording an unvisited URL keeps the visited set equal to the recorded URLs, which stay distinct |
| PageScout.ClickStep | generator/page-scout.js:72-107 | a click adds at most one page and changes none of the earlier ones; it adds a page exactly when it landed on a new URL of the origin |
| PageScout.Explore | generator/page-scout.js:72-107 | the click loop adds at most one page per target, all on the origin, and keeps the state consistent |
| PageScout.DropTrailingSlash | generator/page-scout.js:113 | exactly one trailing '/' is removed when present |
| PageScout.PathStep | generator/page-scout.js:111-133 | a common path adds at most one page, only when its URL is new, the answer is below 400, the final URL is new and on the origin, and the page shows an input or more than two buttons |
| PageScout.PathLabel | generator/page-scout.js:123 | the screenshot label drops the first '/' only |
| PageScout.VisitPaths | generator/page-scout.js:110-133 | the path loop adds at most one page per path, all on the origin and each worth keeping |
| PageScout.ScoutTarget | generator/page-scout.js:9-143 | an unparseable base URL, a failed homepage or a failing browser close gives no pages; otherwise the homepage comes first, at most 12 clicked pages and the six common paths follow, all with distinct URLs and all after the homepage on the base origin |
| JsEscape.EscValue | generator/ai-tests.js:278-280 | a missing or falsy value gives the empty text; a string is escaped with the three passes |
| JsEscape.EscIsCharwise | generator/ai-tests.js:279 | the three global passes, backslash first, escape each character independently of its neighbours |
| JsEscape.EscRoundTrip | generator/ai-tests.js:278-280 | decoding the escaped text as the body of a single-quoted JavaScript literal gives back the input, for text without carriage returns |
| JsEscape.EscNoLineFeed | generator/ai-tests.js:279 | the escaped text holds no raw line feed |
| JsEscape.EscCarriageReturn | generator/ai-tests.js:279 | a carriage return passes through unescaped, and the literal then does not decode |
| JsEscape.EscapeTestBreaksQuote | generator/page-tests.js:50-52 | the as-written escapeTest turns "'" into backslash, backslash, quote, and that literal body does not decode |
| JsEscape.EscapeTestFixedRoundTrip | generator/page-tests.js:50-52 | with backslashes escaped first, escapeTest equals esc on text without line breaks, and its literal decodes to the input |
| AiTests.DecodeStep | generator/ai-tests.js:123-257 | a readable step is an object whose action is a string, and keeps all of that object's properties |
| AiTests.DecodeSteps | generator/ai-tests.js:123 | the steps decode iff every one of them does, and then one step per element, in order |
| AiTests.DecodeTest | generator/ai-tests.js:113-123 | a planned test decodes iff it is an object whose steps are an array of readable steps |
| AiTests.DecodeTests | generator/ai-tests.js:113 | the plan decodes iff every test does, and then one test per element |
| AiTests.ActionLinesOf | generator/ai-tests.js:127-258 | the previousUrl update appears in an action's lines exactly when the action records the URL, and every other line is plain code |
| AiTests.Spaces | generator/ai-tests.js:117-274 | an indentation of n is exactly n spaces |
| AiTests.TypeGuess | generator/ai-tests.js:155-161 | the type guess follows the precedence email, password, phone or tel, search, url or website, giving "email", "password", "tel", "search" or "url" for the first keyword in that order, and is "text" iff none of the keywords occurs |
| AiTests.WaitMillis | generator/ai-tests.js:197-198 | a wait is 2000 ms when the seconds are absent or falsy, and otherwise `Number(seconds) * 1000` as printed |
| AiTests.Millis | generator/ai-tests.js:198 | an integer number of seconds prints as its value times 1000, an infinity as "Infinity" or "-Infinity", NaN as "NaN" |
| AiTests.WaitMillisDecimal | generator/ai-tests.js:198 | a non-zero number of seconds waits the same whether given as a number or as its decimal string |
| AiTests.WaitMillisSingleton | generator/ai-tests.js:198 | a one-element array of a truthy number or string waits as long as its element |
| Json.StringToNumber | generator/ai-tests.js:198 | `Number(s)` on integer syntax: blank text is 0, optionally signed digits surrounded by white space are their value |
| Json.InfinityNumber | generator/ai-tests.js:198 | exactly "Infinity", "+Infinity" and "-Infinity", after trimming, read as an infinity, negative only for "-Infinity" |
| Json.NumberRoundTrip | generator/ai-tests.js:198 | the printed form of any integer reads back as that integer |
| Json.DecimalText | generator/ai-tests.js:198 | the decimal text of a non-zero integer is truthy and coerces to the integer |
| Json.ToNumber | generator/ai-tests.js:198 | `Number(v)`: a number is itself, a string is read as text, arrays and objects go through their string form |
| AiTests.MinCount | generator/ai-tests.js:237-239 | the minimum element count defaults to 1, and a set value is printed as JavaScript would print it |
| AiTests.ParseAction | generator/ai-tests.js:127 | a recognised action is the one whose name equals the step's action |
| AiTests.ParseActionName | generator/ai-tests.js:127-257 | every known action is recognised by its own name |
| AiTests.UnknownActionComment | generator/ai-tests.js:256-257 | an action the translator does not know emits only the comment "// Unknown action: " + its name |
| AiTests.StepBlock | generator/ai-tests.js:124-267 | a step's block rethrows exactly when its action starts with "assert_", records the URL exactly when its code does, and opens no test |
| AiTests.StepFor | generator/ai-tests.js:123-267 | a step records the current URL exactly when it is goto or click_button (so never for click_link) and fails its test exactly when it is an assertion |
| AiTests.StepBlocks | generator/ai-tests.js:123-268 | the step blocks never open a test or declare previousUrl |
| AiTests.Fixture | generator/ai-tests.js:114-115 | the fixture is "request" iff every step's action starts with "api_", so also for a test without steps, and "page" otherwise |
| AiTests.TestLines | generator/ai-tests.js:113-271 | a planned test starts with its header, declares previousUrl exactly when its fixture is page, and holds no other test header |
| AiTests.Headers | generator/ai-tests.js:117 | one header per planned test, in order |
| AiTests.TestHeadersInOrder | generator/ai-tests.js:105-276 | the test headers of the output are exactly one per planned test, in plan order |
| AiTests.HeadersOfTests | generator/ai-tests.js:113-272 | the tests' lines hold exactly their own headers, in order |
| AiTests.OneHeaderPerTest | generator/ai-tests.js:113-271 | one planned test holds its own header and no other |
| AiTests.FirstVisible | generator/ai-tests.js:165-175 | the first visible strategy from i on is found, and none before it is visible |
| AiTests.RunStrategiesFirst | generator/ai-tests.js:164-177 | running the strategies guarded by `!filled` fills with the first visible one |
| AiTests.FillFirstSuccess | generator/ai-tests.js:163-179 | strategy k of 1 to 5 fills exactly when it is visible and no earlier one is; strategy 6 fills exactly when none of 1 to 5 is visible and an input appears; otherwise the step times out |
| AiTests.PageEntry | generator/ai-tests.js:13-21 | a page's context entry starts with "PAGE: " and its URL |
| AiTests.PageEntries | generator/ai-tests.js:12-22 | the context describes the first 15 pages, one entry each, in order |
| AiTests.ApiLines | generator/ai-tests.js:24 | the context lists the first 20 endpoints as "METHOD url (status)", in order |
| AiTests.StripFences | generator/ai-tests.js:94 | a reply that neither starts nor ends with a fence is kept unchanged |
| AiTests.FencedBody | generator/ai-tests.js:94 | a reply fenced as ```json block yields exactly its body |
| AiTests.GenerateAiTests | generator/ai-tests.js:4-103 | a missing API key fails with "OPENAI_API_KEY not set"; a plan that is not a non-empty array fails with "OpenAI returned empty test plan"; success means the reply parsed to a non-empty array of readable tests, translated in order |
| TestGenerator.AuthConfig | generator/test-generator.js:29 | a missing or empty configuration reads as the empty object; any other text is read iff it parses |
| TestGenerator.AuthHeader | generator/test-generator.js:30-36 | the Basic header is set only for auth type basic with a username, the Bearer header only for auth type bearer with a token, and none otherwise; a null configuration throws only for those two types |
| TestGenerator.GeneratedFrom | generator/test-generator.js:45-99 | the kinds written from position n on, in the source's order, each at most once |
| TestGenerator.Generated | generator/test-generator.js:38-112 | `generated` lists exactly the kinds whose file was written, strictly in the order pages, apis, security, forms, load, custom, so it has no duplicates |
| TestGenerator.GeneratedNames | generator/test-generator.js:49-98 | the returned names are the names of the written kinds, in order |
| TestGenerator.TemplateOutputs | generator/test-generator.js:45-83 | the page and API templates produce a file iff they have data; security always does; load does iff there is a page or a GET endpoint |
| TestGenerator.TemplateFiles | generator/test-generator.js:40-83 | in AI-only mode no template runs; pages, apis and forms are written only when selected with a non-empty list and the template produces code, security and load when selected and they produce code; only a throwing form template stops the run |
| TestGenerator.WithAiFile | generator/test-generator.js:86-108 | AI code is written when non-empty; a failure throws "AI test generation failed: " + its message in AI-only mode and is dropped otherwise |
| TestGenerator.RunAuth | generator/test-generator.js:29-36 | the run's header step fails iff the configuration does not parse, or it is null and the auth type is basic or bearer |
| TestGenerator.AiOutcome | generator/test-generator.js:86 | the AI generator is called iff the prompt is set and not blank |
| TestGenerator.RunFiles | generator/test-generator.js:45-108 | the run writes the template files plus a custom file exactly when the AI generator produced non-empty code; an AI failure stops the run only in AI-only mode |
| TestGenerator.WrittenFiles | generator/test-generator.js:27-112 | a completed `generateTests` run writes pages iff selected with pages, apis iff selected with endpoints, security iff selected, forms iff selected and some form yields a test, load iff selected with a page or GET endpoint, custom iff the AI step produced code |
| TestGenerator.RunFilesWritten | generator/test-generator.js:45-108 | for any template outputs of the generators' shape, the run writes each kind under the same conditions as WrittenFiles |
| TestGenerator.AiOnlyWritesCustomOnly | generator/test-generator.js:40-83 | in AI-only mode the only file a run can write is the custom one |
| TestGenerator.RunErrors | generator/test-generator.js:27-112 | `generateTests` stops with an AI failure's cause exactly in AI-only mode; otherwise only a throwing form template can stop it |
| Templates.PageLoadTests | generator/page-tests.js:6-16 | one page-load test per page, for that page's URL, in order |
| Templates.LinkCheckTests | generator/page-tests.js:19-38 | one broken-link test per given page, in order |
| Templates.GeneratePageTests | generator/page-tests.js:3-48 | no pages give no file; otherwise the "Page Tests" suite with a 60 s timeout and the page tests |
| Templates.PageTestList | generator/page-tests.js:6-45 | n pages give n + min(n, 10) tests |
| Templates.PageTestCounts | generator/page-tests.js:6-38 | exactly one load test per page, and link checks for exactly the first min(n, 10) pages, in order |
| Templates.LoadTestsKinds | generator/page-tests.js:6-16 | the page-load block holds only load tests, one per page |
| Templates.LinkTestsKinds | generator/page-tests.js:19-38 | the link block holds only link checks |
| Templates.LinkTargets | generator/page-tests.js:25-28 | a link check tests at most 20 distinct links, each an "http" link of the page |
| Templates.LinkTargetsFirst | generator/page-tests.js:25-28 | the links checked keep the order in which they first appear among the "http" links, and an "http" link left out first appears after the 20th one checked, so they are the first min(20, distinct) of them |
| Templates.BrokenLinks | generator/page-tests.js:29-35 | a link is reported broken iff it answered with status 400 or more; unreachable links are skipped |
| Templates.GenerateApiTests | generator/api-tests.js:3-40 | no endpoints give no file; otherwise the "API Tests" suite with a 30 s timeout and exactly one test per endpoint, calling the lower-cased method with the auth headers |
| Templates.ApiTests | generator/api-tests.js:6-31 | one test per endpoint, in order, for its method, lower-cased call, URL and headers |
| Templates.InjectionUrl | generator/security-tests.js:21 | the injected URL is the URL, then '&' if it already has a '?' and '?' otherwise, then the payload |
| Templates.UnauthTests | generator/security-tests.js:7-16 | one unauthenticated-access test per given endpoint, in order |
| Templates.InjectionTests | generator/security-tests.js:19-32 | one injection test per given endpoint, with its injected URL |
| Templates.XssTests | generator/security-tests.js:35-51 | one XSS test per given page, in order |
| Templates.GenerateSecurityTests | generator/security-tests.js:3-79 | a file is always produced under "Security Tests" with a 30 s timeout; it holds one test per auth-requiring endpoint, min(10, GET endpoints) injection tests, min(5, pages with forms) XSS tests and the header test last |
| Templates.SecurityTestLayout | generator/security-tests.js:7-51 | test i is the unauthenticated test of the i-th auth-requiring endpoint; after them, the injection tests of the first ten GET endpoints in order; then the XSS tests of the first five pages with forms in order |
| Templates.SecurityUnauthBlock | generator/security-tests.js:7-16 | the first tests are the unauthenticated tests of the auth-requiring endpoints, in order, with the lower-cased method |
| Templates.SecurityInjectionBlock | generator/security-tests.js:19-32 | after the unauthenticated tests come the injection tests of the first ten GET endpoints, in order, each with its injected URL |
| Templates.SecurityXssBlock | generator/security-tests.js:35-51 | after the injection tests come the XSS tests of the first five pages with forms, in order |
| Templates.SecurityUnauthTargets | generator/security-tests.js:7-16 | every auth-requiring endpoint gets an unauthenticated test, and every unauthenticated test belongs to an auth-requiring endpoint |
| Templates.SecurityProbeTargets | generator/security-tests.js:19-51 | every injection test probes a GET endpoint with its injected URL, and every XSS test targets a page with forms |
| Templates.HeaderIssues | generator/security-tests.js:59-67 | the header check records at most two issues, so its `<= 2` assertion never fails, and none exactly when framing protection and X-Content-Type-Options are both present |
| Templates.InjectionChecksReduce | generator/security-tests.js:26-30 | the four body checks reduce to two, since "mysql" and "sqlite" contain "sql" |
| Templates.FindEmailField | generator/form-tests.js:38 | the first field whose type is email or whose name contains "email" in any case, and none only when no field does |
| Templates.EmailSelector | generator/form-tests.js:40 | the email selector is '#id' when the field has an id, and `input[name="…"]` otherwise |
| Templates.FormSubtests | generator/form-tests.js:6-57 | at most two subtests per form, all named after the form's index and page URL; the empty-required test comes first iff some field is required and then carries the page's path; the invalid-email test comes last iff some field looks like email; unparseable fields give none; only an unparseable page URL with a required field throws, with "TypeError: Invalid URL" |
| Templates.FormNameInjective | generator/form-tests.js:12 | distinct form indices or page URLs give distinct form names |
| Templates.FormTestsFrom | generator/form-tests.js:6-57 | the remaining forms succeed iff each form's subtests do, give no tests iff each gives none, and give at most two subtests per form |
| Templates.FormTestsSplit | generator/form-tests.js:6-57 | the tests of forms from..n are those of forms from..k followed by those of forms k..n |
| Templates.FormTestsGrouped | generator/form-tests.js:6-57 | form k's subtests sit between the tests of the forms before it and those of the forms after it |
| Templates.GenerateFormTests | generator/form-tests.js:3-68 | generation fails iff some form's subtests throw; no file iff every form gives no subtest; a file holds between 1 and 2 × forms tests under "Form Tests" with a 30 s timeout, the forms' subtests in form order |
| Templates.FormWithoutFieldsSilent | generator/form-tests.js:8-9 | a form with unparseable or empty fields contributes nothing |
| Templates.PageEndpoints | generator/load-tests.js:7-9 | one page endpoint per page, in order |
| Templates.ApiEndpoints | generator/load-tests.js:12-14 | one API endpoint per endpoint, in order |
| Templates.LoadEndpoints | generator/load-tests.js:4-14 | the endpoints are the page endpoints of the first 10 pages in order, then the API endpoints of the first 10 GET endpoints in order, so at most 20 |
| Templates.EndpointUrlsAppend | generator/load-tests.js:29-69 | selecting the page or API URLs of two endpoint lists one after the other is selecting them from the joined list |
| Templates.PageEndpointUrls | generator/load-tests.js:29 | page endpoints contribute exactly their pages' URLs, in order, to the page list and nothing to the API list |
| Templates.ApiEndpointUrls | generator/load-tests.js:69 | API endpoints contribute exactly their URLs, in order, to the API list and nothing to the page list |
| Templates.GenerateLoadTests | generator/load-tests.js:3-100 | no pages and no GET endpoint give no file; otherwise exactly two tests, page loads then API requests, under "Load Tests" with a 120 s timeout, both at the given concurrency |
| Templates.LoadTestUrls | generator/load-tests.js:4-69 | the page-load test goes over the URLs of the first min(n, 10) pages and the API test over those of the first min(GET endpoints, 10) GET endpoints, in order |
| Templates.LoadTestNeedsResults | generator/load-tests.js:64-95 | a load test that made no requests fails, because no error count is below 0 × 0.2 |
| TestRunner.AnsiLength | runner/test-runner.js:12 | a recognised escape sequence starts with ESC and spans at least three characters of the text |
| TestRunner.StripAnsi | runner/test-runner.js:11-13 | the cleaned text keeps characters of the original in order, and text without ESC is unchanged |
| TestRunner.StripAnsiDropsCode | runner/test-runner.js:12 | an ESC '[' digits-and-semicolons letter sequence disappears entirely |
| TestRunner.LinesOf | runner/test-runner.js:53-56 | splitting on line feeds gives the complete lines plus the unfinished remainder, none holding a line feed, and joining them gives the text back |
| TestRunner.Feed | runner/test-runner.js:47-60 | a chunk only appends complete lines, which with the new remainder spell the old remainder followed by the chunk |
| TestRunner.SplitAfterLine | runner/test-runner.js:54 | a line without the separator followed by the separator splits off as the first piece |
| TestRunner.SplitJoined | runner/test-runner.js:53-56 | resplitting joined lines plus more text keeps those lines and splits only the remainder plus the new text |
| TestRunner.BufferHoldsLinesOf | runner/test-runner.js:47-60 | after any sequence of chunks, the buffer holds exactly the lines of the concatenated output: chunk boundaries do not matter |
| TestRunner.FailMatchHasMark | runner/test-runner.js:115 | a line the failure pattern matches contains a failure mark |
| TestRunner.TestName | runner/test-runner.js:107-109 | the test name is the last " › " segment of the full title, or the whole title when that segment is empty |
| TestRunner.TestNameOfTitle | runner/test-runner.js:107-109 | a title joined from suites and a non-empty name, none containing '›', gives back the name |
| TestRunner.JoinEndsWithLast | runner/test-runner.js:107-109 | the last part of a split title ends the title |
| TestRunner.ParseLine | runner/test-runner.js:93-134 | no event for an empty line; a total event iff the "Running" pattern matches; no event iff none of the four patterns matches; an unmarked-pattern result is a failure iff the line holds a failure mark |
| TestRunner.ParseTestLine | runner/test-runner.js:91-100 | the line is cleaned of escape codes and trimmed first; a blank line gives nothing and a "Running" line gives the total |
| TestRunner.BlankLineIgnored | runner/test-runner.js:68-69 | a whitespace-only line yields no event, so the guard before the final flush changes nothing |
| TestRunner.FirstContained | runner/test-runner.js:145-147 | the chosen category is the first listed one contained in the suite name, and none is chosen only when no category is contained |
| TestRunner.ExtractCategory | runner/test-runner.js:137-150 | a known file base wins; otherwise the first known category contained in the lower-cased first title segment when the title has a second segment; otherwise the file base, or "other" when it is empty |
| TestRunner.FileBaseOfSpecFile | runner/test-runner.js:139 | a file named "name.spec.js…" without dots or slashes in the name has base "name" |
| TestRunner.SpecSuffixFound | runner/test-runner.js:139 | the suffix pattern first matches where ".spec.js" starts and runs to the end of the line |
| TestRunner.NoSuffixInName | runner/test-runner.js:139 | the suffix pattern cannot start at a character other than a dot |
| TestRunner.SuffixAfterName | runner/test-runner.js:139 | the suffix pattern matches from ".spec.js" to the end of the line |
| TestRunner.NoDirectory | runner/test-runner.js:139 | without a slash the directory pattern matches nowhere |
| TestRunner.ParsedLines | runner/test-runner.js:57-59 | at most one event per line |
| TestRunner.StreamEventsAreLineEvents | runner/test-runner.js:47-70 | the events `StreamEvents` reports while streaming are exactly those of parsing the whole output line by line, however it was cut into chunks |
| TestRunner.CountRoundTrip | runner/test-runner.js:153-162 | a count printed before the word, after text without digits, is the count read back |
| TestRunner.NoCountsWithoutDigits | runner/test-runner.js:152-165 | output without digits gives zero passed, failed and skipped |
| TestRunner.FallbackCounts | runner/test-runner.js:152-165 | `parseFallbackOutput` reads each of the passed, failed and skipped counts as the number printed before its word when no digit comes earlier |
| TestRunner.ExecuteTests | runner/test-runner.js:15-89 | fails iff no spec file exists or Playwright cannot start; otherwise the events are the parsed output lines, and the results file is the reporter's when it exists and the summary counted from stdout and stderr otherwise |
| TestRunner.ExitCodeIgnored | runner/test-runner.js:66-83 | the outcome does not depend on Playwright's exit code |
| ResultCollector.StatusOf | runner/result-collector.js:72-75 | a row passes iff the result's status is "passed" and is skipped iff it is "skipped"; every other status counts as failed |
| ResultCollector.Truncate | runner/result-collector.js:79-80 | an error message keeps its first 500 characters; a longer one is cut to exactly 500 characters plus "..." and a shorter one is kept whole |
| ResultCollector.MapCategory | runner/result-collector.js:100-108 | the category is a known one or the title itself; the first keyword the lower-cased title contains decides ("page" before "api", and so on), and the title is kept only when it contains none |
| ResultCollector.KnownCategoryFixed | runner/result-collector.js:100-108 | each known category maps to itself |
| ResultCollector.MapCategoryIdempotent | runner/result-collector.js:100-108 | mapping a mapped category changes nothing |
| ResultCollector.CategoryOf | runner/result-collector.js:86-101 | a category can be mapped iff the title is a string |
| ResultCollector.SpecRow | runner/result-collector.js:62-89 | a null spec or a non-string category throws; a row is named by the spec title or "unnamed" and carries the mapped category; without a first result it is skipped with duration 0 and no error; otherwise its status comes from the result, its duration is the result's or 0, and its error is the result's message, cut to 500 characters plus "...", when there is one |
| ResultCollector.FirstResult | runner/result-collector.js:69-71 | a spec without tests has no first result; a first result found is truthy; only a truthy `tests` can throw |
| ResultCollector.WalkSpecItems | runner/result-collector.js:62-90 | a walk over specs stores at most one row per spec, every row under the mapped suite category |
| ResultCollector.WalkSpecItemsRows | runner/result-collector.js:62-90 | the i-th stored row is the row of the i-th spec; the walk stops without error exactly when every spec gives a row, and otherwise at the first spec that throws, with its error |
| ResultCollector.WalkSpecs | runner/result-collector.js:62-90 | a suite's spec rows all carry the mapped category, and there are rows only under a string category; something that is neither an array nor a string is not iterable |
| ResultCollector.WalkSpecsRows | runner/result-collector.js:62-90 | an array of specs gives the row of each spec in order; a string under a string category gives one "unnamed" skipped row of duration 0 per character |
| ResultCollector.WalkSuiteCategories | runner/result-collector.js:56-98 | a suite stores its own spec rows first, under its title, else the parent title, else "general", mapped; then its nested suites' rows, walked with its title or else the parent title |
| ResultCollector.WellFormedSpecRow | runner/result-collector.js:62-89 | a spec of the reporter's shape under a string category never throws |
| ResultCollector.WellFormedSpecItems | runner/result-collector.js:62-90 | specs of the reporter's shape never throw |
| ResultCollector.WellFormedSuitesRows | runner/result-collector.js:56-98 | a suite tree of the reporter's shape never throws and stores exactly one row per spec in the tree |
| ResultCollector.WellFormedSuiteItemsRows | runner/result-collector.js:57-97 | the remaining suites of a well-formed list store one row per spec |
| ResultCollector.WellFormedSuiteRows | runner/result-collector.js:58-96 | a well-formed suite stores one row per spec, its own and its nested suites' |
| ResultCollector.PassedRows | runner/result-collector.js:30-33 | n passed rows numbered "Test 1" … "Test n", in category "general" with duration 0 |
| ResultCollector.FailedRows | runner/result-collector.js:34-37 | n failed rows numbered "Failed Test 1" … "Failed Test n", in category "general" with duration 0 |
| ResultCollector.Summarize | runner/result-collector.js:42-48 | the total is the number of rows and equals passed + failed + skipped |
| ResultCollector.SummaryPartition | runner/result-collector.js:44-47 | every row is exactly one of passed, failed and skipped |
| ResultCollector.CollectData | runner/result-collector.js:19-51 | a parsed object never ends as a parse failure, and a completed run's summary is counted from its rows |
| ResultCollector.CollectResults | runner/result-collector.js:5-54 | the run ends as "Failed to parse test results: …" iff the reporter's file does not parse; otherwise its summary is counted from the stored rows |
| ResultCollector.ReportCollected | runner/result-collector.js:19-51 | a well-formed report completes the run with exactly one row per spec |
| ResultCollector.FallbackRowsOfStats | runner/result-collector.js:25-39 | the fallback summary becomes one passed row per expected test, then one failed row per unexpected test |
| ResultCollector.FallbackFileRead | runner/result-collector.js:9-11 | the fallback file yields the fallback object itself |
| ResultCollector.FallbackDataDone | runner/result-collector.js:19-51 | an object with no suites and the fallback flag stores exactly its fallback rows |
| ResultCollector.FallbackDone | runner/result-collector.js:5-54 | the fallback file completes the run with its fallback rows |
| ResultCollector.FallbackSummary | runner/result-collector.js:42-48 | passed rows then failed rows are summarised as exactly those passes and failures, with nothing skipped |
| ResultCollector.FallbackCollected | runner/result-collector.js:24-51 | after the fallback, the run is done with the passed and failed counts as rows, and the skipped tests are lost |
| ReportGenerator.Elements | helpers/report-generator.js:16-18 | a missing or falsy list iterates as nothing, an array as its items, and a value that is neither array nor string cannot be iterated |
| ReportGenerator.Then | helpers/report-generator.js:15-44 | two walks that do not throw visit the results of both |
| ReportGenerator.ResultVisits | helpers/report-generator.js:18 | one visit per result of a test, in order |
| ReportGenerator.VerdictOf | helpers/report-generator.js:21-29 | a result passes iff its status is "passed", fails iff it is "failed" or "timedOut", and is skipped otherwise |
| ReportGenerator.DurationOf | helpers/report-generator.js:20 | a result without a duration lasts 0, and one with a duration lasts that value |
| ReportGenerator.ErrorEntries | helpers/report-generator.js:27 | the i-th text is the text of the i-th error entry, and the mapping fails exactly when some entry fails |
| ReportGenerator.FailureText | helpers/report-generator.js:27 | a failure text never exceeds 300 characters and is empty without errors; it is a prefix of the error texts joined by newlines, all of them when they fit in 300 characters, and it fails exactly when the errors are not an array or an entry fails |
| ReportGenerator.Step | helpers/report-generator.js:19-33 | one result counts once, as passed iff it passed, as failed iff it failed, and as slow iff it took over 3 s; only a null result or a failed result with unreadable errors throws |
| ReportGenerator.Add | helpers/report-generator.js:19-33 | adding consistent tallies keeps the statuses partitioning the total and one failure entry per failure |
| ReportGenerator.TallyAll | helpers/report-generator.js:15-44 | the counters of all visited results are consistent and total the number of results |
| ReportGenerator.TallyAllCounts | helpers/report-generator.js:19-33 | passed, failed and slow count exactly the passed, failed and slow results |
| ReportGenerator.TallyAllOk | helpers/report-generator.js:15-44 | tallying succeeds iff every single result can be counted |
| ReportGenerator.GenerateReport | helpers/report-generator.js:4-44 | the report's counters are consistent and count every visited result; it fails iff the walk or a count throws |
| ReportGenerator.AllWellFormedAppend | helpers/report-generator.js:15-44 | well-formed visits stay well formed when joined |
| ReportGenerator.TestsVisited | helpers/report-generator.js:17-18 | tests of the reporter's shape are walked without error, one visit per result |
| ReportGenerator.SpecsVisited | helpers/report-generator.js:16-18 | specs of the reporter's shape are walked without error, one visit per result |
| ReportGenerator.SuiteVisited | helpers/report-generator.js:15-40 | a well-formed suite is walked without error, one visit per result in it and its nested suites |
| ReportGenerator.SuitesVisited | helpers/report-generator.js:37-44 | a well-formed suite list is walked without error, one visit per result |
| ReportGenerator.WellFormedStep | helpers/report-generator.js:19-33 | a well-formed result is always counted |
| ReportGenerator.EntriesOk | helpers/report-generator.js:27 | object entries always give their texts |
| ReportGenerator.ReportCountsEveryResult | helpers/report-generator.js:4-44 | a well-formed report is summarised without error and its total is the number of results it holds |
| HtmlEscape.EscapeHtml | helpers/report-generator.js:139-141 | escaped text holds no '<', '>' or '"' |
| HtmlEscape.EscapeIsCharwise | helpers/report-generator.js:140 | the four passes, ampersand first, escape each character on its own |
| HtmlEscape.EscapeOne | helpers/report-generator.js:140 | one character through the four passes becomes its entity, or itself |
| HtmlEscape.NoSpecialsEach | helpers/report-generator.js:140 | character-wise escaping leaves no '<', '>' or '"' |
| HtmlEscape.EscapeHtmlValue | helpers/report-generator.js:139-141 | a string argument is escaped as that string |
| HtmlEscape.Esc | server.js:377-380 | a falsy value gives the empty string and a string is escaped as in the report |
| HtmlEscape.UnescapeChar | helpers/report-generator.js:140 | decoding an escaped character gives the character back, followed by the decoding of the rest |
| HtmlEscape.EscapeRoundTrip | helpers/report-generator.js:139-141 | a browser decoding the escaped text shows exactly the original text |
| HtmlEscape.EachRoundTrip | helpers/report-generator.js:140 | decoding character-wise escaping gives the text back |
| Server.AddClient | server.js:16-19 | the client is appended to its key's list, created when missing, and every other key is untouched |
| Server.IndexOf | server.js:30 | the first position of the client, and none exactly when it is not listed |
| Server.CloseClient | server.js:26-34 | closing changes only the client's key, leaves unknown clients and keys alone, removes exactly one occurrence of a listed client, and never leaves an empty list |
| Server.WithoutFirst | server.js:30-31 | the list without the first occurrence of the client, or the same list when it is absent |
| Server.CloseRemovesFirst | server.js:26-34 | closing removes the first occurrence of the client from its key's list, and deletes the key when the client was its only entry |
| Server.CloseUndoesAdd | server.js:16-34 | adding a new client and closing it restores the registry |
| Server.IndexOfAfter | server.js:30 | a client appended to a list it was not in is found at the end |
| Server.Emit | server.js:37-44 | every client of the key, in order, receives the same event frame; a key without clients receives nothing |
| Server.FrameLines | server.js:42 | a frame is the "event:" line, the "data:" line and a blank line |
| Server.RemoveFirst | server.js:208 | replacing a string pattern removes its first occurrence only, and leaves a name without it unchanged |
| Server.FileCategoryOfStem | server.js:208 | a file "stem.spec.js" whose stem has no dot counts under the stem |
| Server.Record | server.js:209-210 | counting a file sets its category's count, adds its tests to the total and keeps the keys distinct |
| Server.Readable | server.js:202-214 | only the files before the first unreadable one are counted, since the exception ends the loop |
| Server.CountFiles | server.js:204-211 | counting keeps the category keys distinct and in step with the counts |
| Server.CountSpecs | server.js:198-214 | the counts are well formed, and empty when the directory cannot be listed |
| Server.CountFilesTotal | server.js:204-211 | the total is the sum of the readable files' test counts |
| Server.CountSpecsTotal | server.js:198-214 | the total counts the "test(" occurrences of every readable spec file, later duplicates included |
| Server.SumCountsUpdate | server.js:209 | overwriting one category's count changes the sum by the difference |
| Server.SumCountsSnoc | server.js:209 | a new category adds its count to the sum |
| Server.CountsAddUp | server.js:204-211 | when the files' categories are distinct, the total equals the sum of the per-category counts |
| Server.InitProgress | server.js:222-226 | progress starts with nothing completed and one entry per counted category, nothing done, holding its count |
| Server.OnTestResult | server.js:228-251 | a total event changes nothing and announces the total; a result counts as completed, ticks done and passed or failed under its category only if that category was counted, and announces the new progress |
| Server.SumDoneZero | server.js:222-226 | nothing is done at the start |
| Server.SumDoneTick | server.js:236-240 | ticking one counted category adds one to the done sum |
| Server.SumDoneOther | server.js:236 | an uncounted category does not change the done sum |
| Server.InitValid | server.js:222-226 | fresh progress meets the invariant: done is passed plus failed per category, and no more done than completed |
| Server.OnTestResultValid | server.js:228-251 | each event keeps that invariant |
| Server.Replay | server.js:228-251 | replaying events keeps the category keys and their order |
| Server.ReplayValid | server.js:228-251 | any event sequence keeps the progress invariant |
| Server.ReplayCompleted | server.js:233-234 | the completed count is the number of result events |
| Server.AfterGeneration | server.js:191-196 | the run ends at once, as done with a done event, iff nothing was generated |
| Server.EmptyGenerationSummary | server.js:193 | the stored all-zero summary is the one collecting no rows gives |
| Server.Keep | server.js:90-92 | a given value replaces the stored one, and a falsy one keeps it |
| Server.KeepJson | server.js:93-94 | a given value is stored as its JSON text; otherwise the stored text is reparsed, "{}" when it is falsy, and the update fails exactly when that parse fails |
| Server.UpdateTarget | server.js:82-99 | a missing target gives "Target not found"; name, base URL and auth type keep the stored value when the body leaves them falsy; auth_config and settings are the body's value or the stored text, re-parsed and re-serialised; the update fails iff one of those stored texts does not parse |
| Server.EmptyUpdateKeepsTarget | server.js:86-97 | an empty update leaves a target whose JSON columns are canonical unchanged |

## Left out

- The browser is an oracle. Navigation, `page.evaluate`, clicks, waits, screenshots and response events become parameters: outcomes, DOM element records and link lists.
- URL parsing and serialisation are not modelled. URLs are records of origin, path, query and fragment, and the round trip from parsing to serialisation is taken as given.
- The OpenAI call, its system prompt and the 55-second `Promise.race` timeout are not modelled: they are an external service and a timer. The model starts from the reply text.
- The scout's `Date.now` time budget, console-log capture and screenshot files are not modelled. Screenshot failures are a parameter.
- `child_process.exec` is not modelled, nor its timeouts, `maxBuffer`, or the byte-level chunking of stdout. The output arrives as a sequence of string chunks, and the spawn error, exit code and report file are parameters.
- The sql.js database and its SQL strings are not modelled. Tables are sequences of records, and the collector returns its rows and run outcome.
- Reading and parsing the results file is a parameter of the collector. The fallback file is taken to hold exactly the object the runner wrote.
- The text of JavaScript `TypeError` messages is approximated, e.g. "is not iterable".
- Express routing, HTTP responses, the keepalive timers, socket writes and the `JSON.stringify` of event payloads are not modelled. `emitSse` is modelled as the frames written to each client.
- The run route's `generation_done`, `status` and final `done` emits are not modelled, nor its error branch (server.js:216-267). Only the pieces it is built from are: counting, progress, execution and collection.
- Categories named after `Object.prototype` members (such as "constructor") are not modelled. The progress object is a map, so their truthiness quirk is absent.
- The key order of JavaScript objects is modelled only for `testCounts` and `categoryProgress`. JSON objects are maps, so the insertion order that `JSON.stringify(step)` and `JSON.stringify(step.body)` print in the generated AI code (generator/ai-tests.js:124, 251) is not modelled; `stringify` is a parameter.
- JSON numbers are integers. Fractional values such as `seconds: 1.5`, `min: 2.5`, fractional durations in the Playwright report or a fractional `expected_status` are not modelled.
- Strings are sequences of Unicode scalar values, while JavaScript counts UTF-16 code units. Length caps and cuts therefore count code points: the 500-character error truncation, the 300-character failure text, the scout's 60/80/30-character labels and slugs, and the length filters. They differ from JavaScript only for text with characters above U+FFFF.
- AiTests.WaitMillis: models `Number()` on integer syntax only. Fractions, exponents and 0x/0o/0b prefixes read as NaN, while JavaScript gives "1.5"→1500, "1e3"→1000000 and "0x10"→16000. Results of 1e21 and above, or beyond 2^53, are not rendered as JavaScript would render them.
- Base64 encoding of the Basic header is an opaque function.
- Lower-casing and upper-casing are ASCII only.
- `parseInt` is modelled on digit strings, with no precision limit.
- The HTML page that `generateReport` writes, its `toFixed` pass rate, and the dashboard's `Math.round` trends are not modelled: they are presentation and floating point.
- Generated test code is modelled as lists of tests with their kind and parameters, not as program text. The model does not check that the template text is valid JavaScript.
- The p95 and average response-time computations inside the generated load tests are floating point and are not modelled.
- utils/crypto.js is not part of this model: it wraps a cryptography library.
- Not part of this model, because they hold no core logic:
  - the dashboard under public/js;
  - the fixed suites under tests/;
  - helpers/auth-helper.js and helpers/cleanup.js;
  - run-tests.js, config.js and playwright.config.js.
- Templates.LoadTestNeedsResults: treats `results.length * 0.2` as an exact rational, not a double.
- JsEscape.EscRoundTrip: holds only for text without carriage returns. `esc` leaves '\r' raw, and a raw carriage return ends a JavaScript string literal (JsEscape.EscCarriageReturn shows it).
- PageScout.Pad2: states only that the index is at least two characters wide, not the digits.
- ApiInterceptor.ResponseType: states that the result is a trimmed slice of the header with no ';'. It does not state that the slice is exactly the part before the first ';'.
- Classifier.ClassifyApis: states the kept keys, their distinctness and each record's first-occurrence origin. It does not state the output order directly.
- Classifier.ClassifyForms: as for ClassifyApis, the output order is not stated directly.
- AuthDetector.Score: states only the bounds of the score. The exact threshold behaviour is in AuthDetector.ScoreThresholdIff.
- ReportGenerator.IsSlow: a duration that is not a JSON number is never slow. JavaScript would coerce a numeric string.
- Templates.HeaderTestPasses is a predicate without its own contract. The claim that the header check cannot fail is stated by Templates.HeaderIssues.

## Findings

| source | as written | input that shows it | evidently intended | confidence | as-written member | corrected member |
|---|---|---|---|---|---|---|
| generator/page-tests.js:50-52 | `escapeTest` replaces `'` with `\'` first, then doubles every backslash, including the one it just added; the same function is in api-tests.js:42-44, security-tests.js:81-83 and form-tests.js:70-72 | the title `'` becomes `\\'`, which reads as a backslash and then closes the single-quoted literal | double backslashes first, then escape quotes, so that the literal reads back as the title | not executed | JsEscape.EscapeTestBreaksQuote | JsEscape.EscapeTestFixedRoundTrip |
