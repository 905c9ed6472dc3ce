# analyze-repo — a Dafny model

RoleReady scores a public GitHub repository for a chosen developer role.
The browser form (`UrlInput`) checks the URL shape before it submits. The
`analyze-repo` edge function then does five things in order:

1. It extracts `owner/repo` from the URL.
2. It asks the GitHub REST API for the metadata, README, recursive file tree
   and the last 100 commits.
3. It derives a small set of repository signals.
4. It renders a fixed prompt and sends it to a chat-completion scorer.
5. It pulls the JSON out of the scorer's reply and returns it together with
   a few metadata fields.

This project models that pipeline as pure functions over immutable
datatypes. Everything outside the function is an input:

- the four GitHub replies, `Signals.GitHubReplies`;
- the configured key, the scorer's reply and `JSON.parse`, in `Handler.World`.

`Handler.Outcome` records which external calls the handler issued, so
properties such as "an invalid URL triggers no lookup" can be stated.

| module | file | models |
|---|---|---|
| `Outcomes` | outcomes.dfy | `Option`, `Result`, and JavaScript truthiness of an optional string |
| `Text` | text.dfy | occurrences, `includes`/`startsWith`/`endsWith`, maximal character runs, `join`, `split('\n')[0]`, number rendering |
| `RepoUrl` | repo_url.dfy | the server's `github.com/<owner>/<repo>` pattern and the `.git` strip |
| `ClientUrl` | client_url.dfy | the form's `isValidUrl`, submit guard and error hint |
| `Signals` | signals.dfy | `fetchGitHubData`: degradation of lookups, signal derivation, truncation |
| `Prompt` | prompt.dfy | the evaluation prompt template |
| `Roles` | roles.dfy | the role identifiers the form sends |
| `ResponseSpan` | response_span.dfy | the choice of the text handed to `JSON.parse` |
| `Handler` | handler.dfy | the `serve` callback: validation order, status codes, error messages |

The regular expressions are written as scanners. Each scanner has a
declarative description of what a match is (`RepoUrl.ServerPatternMatches`,
`ResponseSpan.FencePattern`, and the brace condition stated by
`ResponseSpan.BraceSpan`), and a contract or lemma ties the two together.

- `/github\.com\/([^\/]+)\/([^\/]+)/` matches at the leftmost position where
  the whole pattern matches, which need not be the first `github.com/`.
  - The owner is followed by a slash.
  - Both segments are maximal runs of non-slash characters.
  - A query string or fragment therefore stays inside the repository segment.
- `/```json?\s*([\s\S]*?)\s*```/` behaves as follows:
  - The leading white space is taken whole.
  - The lazy capture ends at the first position from which only white space
    separates it from a closing fence.
  - The optional `n` is tried first, and it is taken whenever it is there.
  - A match exists at an opening ```` ```jso ```` exactly when a closing
    ```` ``` ```` starts somewhere after it.
- `/\{[\s\S]*\}/` spans from the first `{` to the last `}`.

### What the handler leaves to the scorer

- The handler does not clamp the returned scores, apply caps for a missing
  README, tests or commit history, or re-derive the tier and badge from the
  score. Those rules exist only as prose in the scorer's system prompt
  (supabase/functions/analyze-repo/index.ts:68-75, 108-118). The parsed
  evaluation is returned verbatim (supabase/functions/analyze-repo/index.ts:343-346);
  see `Handler.EvaluationPassedThrough`.
- `hasPackageJson` holds when some blob path equals exactly `package.json`;
  a `package.json` in a sub-directory does not count.
- The fallback span runs from the first `{` to the last `}`, with no
  check that the braces between them balance.
- Every failure is a plain message with status 400, 402, 429 or 500.

## Model

| member | source | states |
|---|---|---|
| RepoUrl.DecomposesUnique | supabase/functions/analyze-repo/index.ts:122 | at a given start the owner segment of a match is determined: the owner run must end at the first slash |
| RepoUrl.MatchAt | supabase/functions/analyze-repo/index.ts:122-123 | the pattern matches at index i exactly when `github.com/`, a non-empty slash-free owner, `/` and a non-empty repo character follow at i; the repo run is maximal |
| RepoUrl.LocateFrom | supabase/functions/analyze-repo/index.ts:122-123 | the first match at or after `from`, with no match at any earlier start; none means no start from `from` on decomposes |
| RepoUrl.Locate | supabase/functions/analyze-repo/index.ts:122-125 | a match is found exactly when the URL contains the pattern; it is the leftmost one; the repo segment is non-empty, slash-free and ends at a slash or the end of the URL |
| RepoUrl.StripGitInverse | supabase/functions/analyze-repo/index.ts:130 | removing `.git` undoes appending it; a name without the suffix is unchanged; at most one `.git` is removed |
| RepoUrl.Parse | supabase/functions/analyze-repo/index.ts:122-130 | parsing succeeds exactly when the URL contains `github.com/<owner>/<repo>`; otherwise it fails with `Invalid GitHub URL format`; owner and repo are the leftmost match's segments, the repo with one trailing `.git` removed |
| RepoUrl.ParsedSegments | supabase/functions/analyze-repo/index.ts:122-130 | a parsed owner is non-empty and slash-free, and the parsed repo is slash-free |
| ClientUrl.SchemeEnd | src/components/UrlInput.tsx:16 | a recognised scheme is exactly `http://` or `https://` at the start of the URL |
| ClientUrl.HostEnd | src/components/UrlInput.tsx:16 | a recognised host prefix is one of the four `http(s)://(www.)github.com/` strings at the start of the URL |
| ClientUrl.HostEndComplete | src/components/UrlInput.tsx:16 | whenever the URL starts with one of the four host prefixes, the scanner finds exactly that prefix |
| ClientUrl.IsValidUrlCorrect | src/components/UrlInput.tsx:16 | the scanner accepts exactly the URLs that start with a host prefix, then one or more `[A-Za-z0-9_-]`, `/`, and one `[A-Za-z0-9_.-]`, with any suffix |
| ClientUrl.Submit | src/components/UrlInput.tsx:18-23 | `onSubmit` runs exactly when the URL is valid and the form is neither loading nor disabled, and it receives the typed string unchanged |
| ClientUrl.HintAndSubmitExclusive | src/components/UrlInput.tsx:16-68 | the hint and a submission never happen together; a valid URL is at least 21 characters and shows no hint; an empty field shows no hint and submits nothing |
| ClientUrl.HostPrefixShape | src/components/UrlInput.tsx:16 | a client host prefix ends in `github.com/`, and no earlier `github.com/` occurs in the URL |
| ClientUrl.ClientMatchDecomposes | src/components/UrlInput.tsx:16 | a client-valid URL satisfies the server's pattern at the position of its host |
| ClientUrl.LocateAtClientHost | src/components/UrlInput.tsx:16 | for a client-valid URL the server's leftmost match starts at the client's `github.com/`, and its owner ends where the client's owner run ends |
| ClientUrl.ClientValidImpliesServerParses | src/components/UrlInput.tsx:16 | every URL the form accepts parses on the server, with the same owner, and the server's repository segment begins with the client's |
| Signals.DistinctDays | supabase/functions/analyze-repo/index.ts:182-183 | a day key is counted exactly when some commit carries it; there are no more days than commits, and at least one when there is a commit |
| Signals.RecentMessages | supabase/functions/analyze-repo/index.ts:184 | exactly min(20, number of commits) entries; entry i is the first line of commit i's message, or empty |
| Signals.BlobPaths | supabase/functions/analyze-repo/index.ts:170-172 | a path is kept exactly when some tree entry of type `blob` has it; no more paths than entries |
| Signals.BlobPathsAppend | supabase/functions/analyze-repo/index.ts:170-172 | the blob paths of two concatenated entry lists are the blob paths of the first followed by those of the second: tree order and duplicates are kept |
| Signals.BlobPathsSingle | supabase/functions/analyze-repo/index.ts:170-172 | one entry contributes its path exactly when its type is `blob`, and nothing otherwise |
| Signals.CollectedFileTree | supabase/functions/analyze-repo/index.ts:166-219 | the collected file tree is the first min(200, n) of the n blob paths, in tree order |
| Signals.CollectedFlags | supabase/functions/analyze-repo/index.ts:166-206 | the collected `hasTests`, `hasLinting` and `hasPackageJson` are judged on every blob path of the tree reply, not only on the 200 kept as `fileTree` |
| Signals.CollectedReadme | supabase/functions/analyze-repo/index.ts:157-218 | a decoded README reaches the signals as its first min(8000, length) characters |
| Signals.CollectedCommits | supabase/functions/analyze-repo/index.ts:175-222 | a commit list that was read gives the commit count, the number of distinct days and the first twenty message lines of that very list |
| Signals.TestHeuristicSubsumed | supabase/functions/analyze-repo/index.ts:187-195 | the seven-clause test heuristic holds exactly when the path contains `test` or `spec` |
| Signals.HasTests | supabase/functions/analyze-repo/index.ts:187-195 | true exactly when some blob path contains `test` or `spec` |
| Signals.HasLinting | supabase/functions/analyze-repo/index.ts:198-203 | true exactly when some blob path contains `eslint`, `prettier`, `.editorconfig` or `tslint` |
| Signals.HasPackageJson | supabase/functions/analyze-repo/index.ts:206 | true exactly when some blob path equals `package.json` |
| Signals.Take | supabase/functions/analyze-repo/index.ts:218-219 | a prefix of at most n elements, the whole input when it is short enough, exactly n otherwise |
| Signals.Derive | supabase/functions/analyze-repo/index.ts:181-226 | name, stars, forks, dates and default branch are copied from the metadata; description falls back to `''` and language to `Unknown` when not truthy, and `languages` holds the language exactly when it is truthy; readme and file tree are prefixes of exactly min(8000, length) characters and min(200, count) paths; the commit count is exact; unique days are between 1 and the commit count when there are commits; the flags are judged on the full, untruncated blob list |
| Signals.ReadmeText | supabase/functions/analyze-repo/index.ts:157-164 | the README read fails exactly when its body is unreadable or its content is not base64, with that error; decoded content is kept whole; every other reply gives `''` |
| Signals.TreeBlobs | supabase/functions/analyze-repo/index.ts:166-173 | the tree read fails exactly when its body is unreadable, with that error; a present `tree` gives its blob paths; every other reply gives `[]` |
| Signals.CommitList | supabase/functions/analyze-repo/index.ts:175-179 | the commit read fails exactly when its body is unreadable, with that error; an ok reply gives its list; every other reply gives `[]` |
| Signals.Collect | supabase/functions/analyze-repo/index.ts:150-179 | a rejected or unreadable metadata reply fails with its error, a non-ok one with `Repository not found or not accessible: ` and the API message or status; with ok metadata, collection succeeds exactly when the README, tree and commit bodies are readable, and otherwise fails with the error of the first unreadable one in await order; a success keeps every metadata field |
| Signals.FetchGitHubData | supabase/functions/analyze-repo/index.ts:120-135 | lookups are issued exactly when the URL parses, keyed by the parsed owner and repository; otherwise the result is the invalid-URL failure |
| Signals.ReadmeLookupDegrades | supabase/functions/analyze-repo/index.ts:157-164 | a failed or non-ok README lookup behaves exactly as a successful one without `content`, leaving `''` and no error |
| Signals.TreeLookupDegrades | supabase/functions/analyze-repo/index.ts:166-173 | a failed or non-ok tree lookup behaves exactly as an empty tree, leaving `[]` and no error |
| Signals.CommitsLookupDegrades | supabase/functions/analyze-repo/index.ts:175-179 | a failed or non-ok commits lookup behaves exactly as an empty commit list, leaving a commit count of 0 and no error |
| Signals.MetadataAloneSuffices | supabase/functions/analyze-repo/index.ts:150-179 | with ok metadata and readable secondary replies, collection succeeds, and each failed lookup leaves `''`, `[]` or `[]` |
| Prompt.RoleLabel | supabase/functions/analyze-repo/index.ts:258 | only the first `-` of the role becomes a space; a role without `-` is unchanged; the length is kept |
| Prompt.FileSample | supabase/functions/analyze-repo/index.ts:274 | at most 50 paths, a prefix of the file tree, all of them when there are fewer than 50 |
| Prompt.RenderShape | supabase/functions/analyze-repo/index.ts:258-282 | the prompt opens with the role line and ends with the README heading, then the README, or `NO README FOUND` when it is empty, then the closing instruction |
| Prompt.RenderIgnoresUnshown | supabase/functions/analyze-repo/index.ts:258-282 | paths after the fiftieth, the language list, the default branch and the manifest flag do not affect the prompt |
| Prompt.SampleTextInPrompt | supabase/functions/analyze-repo/index.ts:273-274 | any text in the joined file sample appears in the prompt |
| Prompt.RenderMentionsSample | supabase/functions/analyze-repo/index.ts:274 | each of the first fifty paths appears in the prompt |
| Prompt.RenderStatesFacts | supabase/functions/analyze-repo/index.ts:260-271 | the prompt holds each repository fact as its own labelled line: name, description, language, stars, forks, created and updated dates, commit count, distinct days, and the test and linting flags |
| Prompt.RenderMentionsMessages | supabase/functions/analyze-repo/index.ts:276-277 | every recent commit message occurs in the prompt |
| Roles.RoleLabels | src/components/RoleSelector.tsx:4-9 | of the five role identifiers the form sends, only `data-ml` reads differently in the prompt, as `data ml` |
| ResponseSpan.CaptureEnd | supabase/functions/analyze-repo/index.ts:335 | the lazy capture stops at the first position from which white space and a closing fence follow, and fails when there is none |
| ResponseSpan.FenceBody | supabase/functions/analyze-repo/index.ts:335 | after `json?` the rest of the pattern matches exactly when a closing fence occurs later; the capture starts after the white space, ends at the least closing position, and the match ends after the closing fence |
| ResponseSpan.FenceMatchAt | supabase/functions/analyze-repo/index.ts:335 | the fence pattern matches at i exactly when ```` ```jso ```` starts at i and a closing ```` ``` ```` starts at i+6 or later; the match is the one with the `n` taken whenever present |
| ResponseSpan.FirstFenceMatch | supabase/functions/analyze-repo/index.ts:335 | the leftmost fence match: it starts with ```` ```jso ````, no earlier start matches, and none means no start from `from` on matches |
| ResponseSpan.FenceMatchExists | supabase/functions/analyze-repo/index.ts:335 | the fence pattern matches somewhere in the reply exactly when some ```` ```jso ```` has a ```` ``` ```` after it |
| ResponseSpan.NoOpenNoFence | supabase/functions/analyze-repo/index.ts:335 | without ```` ```jso ```` in the reply there is no fence match, so a bare ```` ``` ```` fence is never taken |
| ResponseSpan.LastIndexOf | supabase/functions/analyze-repo/index.ts:335 | the last occurrence of a character before a bound, or none |
| ResponseSpan.BraceSpan | supabase/functions/analyze-repo/index.ts:335 | the brace pattern matches exactly when some `{` precedes some `}`, and then spans from the first `{` to the last `}` |
| ResponseSpan.SelectSpan | supabase/functions/analyze-repo/index.ts:335-336 | the selected text always occurs in the reply; with neither a fence nor a brace match it is the whole reply |
| ResponseSpan.FenceDecides | supabase/functions/analyze-repo/index.ts:335-336 | when the first ```` ```jso ```` has a closing fence after it, the span is its capture, or the whole fenced match when the capture is empty, whatever braces occur |
| ResponseSpan.FencedSpan | supabase/functions/analyze-repo/index.ts:335-336 | a ```` ```json ```` fence around an object takes precedence over any brace span: its body is selected whatever surrounds it, given no backtick before it |
| ResponseSpan.FenceAtSpan | supabase/functions/analyze-repo/index.ts:335-336 | a ```` ```json ```` fence around a plain object, with no ```` ```jso ```` before it, makes the span exactly that object, whatever else the reply holds |
| ResponseSpan.BareSpan | supabase/functions/analyze-repo/index.ts:335-336 | a bare plain object has no fence match and is selected whole by the brace pattern |
| ResponseSpan.FencedRoundTrip | supabase/functions/analyze-repo/index.ts:335-336 | fencing an object and selecting gives the object back, as does selecting the bare object |
| ResponseSpan.BraceFallback | supabase/functions/analyze-repo/index.ts:335-336 | without a fence match, including an opening fence that is never closed, the span is first `{` to last `}` when one precedes the other, and the whole reply otherwise |
| ResponseSpan.EmptyFenceShadowsObject | supabase/functions/analyze-repo/index.ts:335-336 | an empty fenced block wins over a later object, and its empty capture falls back to the whole fence |
| Handler.Score | supabase/functions/analyze-repo/index.ts:289-363 | a scorer call that throws, or a reply whose body is not JSON, answers 500 with the thrown message; scorer 429 and 402 map to their own statuses and messages; another non-ok status maps to 500 with `AI evaluation failed`, or with the error of reading its body when that read fails; empty content and parse failures map to 500 with their messages; 200 exactly when the selected span parses, returning the parsed value verbatim with name, language and stars |
| Handler.Handle | supabase/functions/analyze-repo/index.ts:229-364 | a preflight gets an empty 200; 400 exactly when the URL or the role is missing, the URL checked first, with no call made; an unparsable body answers 500 with the parser's message and no call; every response is 200, 400, 402, 429 or 500 |
| Handler.InvalidUrlMakesNoCalls | supabase/functions/analyze-repo/index.ts:122-127 | an unparsable URL gives 500 `Invalid GitHub URL format` with no call issued |
| Handler.NotFoundSkipsScorer | supabase/functions/analyze-repo/index.ts:150-153 | a non-ok metadata reply gives 500 with the not-found message, after the lookups and without a scorer call |
| Handler.LookupFailureSurfaces | supabase/functions/analyze-repo/index.ts:254-363 | any failure while collecting the signals answers 500 with that failure's message, after the lookups and without a scorer call |
| Handler.MissingKeySkipsScorer | supabase/functions/analyze-repo/index.ts:284-287 | once the request is valid, the URL parses and collection succeeds, a missing API key gives 500 with the missing-key message after the lookups, and the scorer is never called |
| Handler.ScorerCalledIff | supabase/functions/analyze-repo/index.ts:254-302 | the scorer is called exactly when validation, URL parsing, collection and the key check all succeed, and it then receives the rendered prompt |
| Handler.HandleBeforeScorer | supabase/functions/analyze-repo/index.ts:229-287 | when some earlier stage fails, only the lookups may have been issued, the status is 200, 400 or 500, and the scorer's reply changes nothing |
| Handler.ScorerStatusesSurface | supabase/functions/analyze-repo/index.ts:304-316 | status 429 or 402 comes back exactly when the scorer was called and answered with it, with the rate-limit or credits message |
| Handler.EvaluationPassedThrough | supabase/functions/analyze-repo/index.ts:322-353 | a 200 means the scorer was reached and gave content, and the returned evaluation is exactly what `JSON.parse` produced from the selected span |
| Handler.FencedReplyLikeBare | supabase/functions/analyze-repo/index.ts:335-353 | a reply wrapping the object in a ```` ```json ```` fence yields the same response as the bare object |
| Handler.ScoreSameSpan | supabase/functions/analyze-repo/index.ts:335-353 | two non-empty replies whose selected spans agree are scored alike |

## Left out

- Network, `serve`, CORS headers, `Deno.env` and `console` logging: the HTTP
  replies, the key and the scorer's reply are inputs. The four GitHub
  lookups run concurrently through `Promise.all`. Here they are four
  independent inputs recorded as one call, and the concurrency is not
  modelled.
- `atob`, `JSON.parse` and `Date`/`toDateString` are foreign functions:
  - The README arrives already decoded, or marked undecodable.
  - `JSON.parse` is the `parse` field of `Handler.World`.
  - Each commit's date is given as the day key `toDateString` would produce.
    A commit with neither date gets `Invalid Date`, as `new Date(undefined)` does.
- Values of the wrong JSON type are not modelled. Examples are a non-string
  `repoUrl`, a commits reply that is not an array, or a metadata field of an
  unexpected type. Every input field has the type the code expects when it
  succeeds.
- Strings are sequences of characters, not UTF-16 code units. The 8000-character
  README limit therefore counts characters.
- The scorer's system prompt and the request body sent to the scorer (model
  name, message roles) are not modelled. The rubric caps and the tier and
  badge bands exist only as text in that prompt, and no code applies them.
- The React pages and components (`Index`, `AnalysisResults`, `ScoreDisplay`,
  `Roadmap`, `EvaluationSummary`, `Header`) and the client wrapper
  `src/lib/api/analyze.ts` are presentation or a thin call into the hosting
  client. `RoleSelector` contributes only its role identifiers.
- The fence pattern's leading `\s*` is modelled as taking its whole run.
  Backtracking into a shorter run never helps: a shorter run finds a
  closing fence only where the whole run finds one.
- The optional `n` after ```` ```jso ```` is modelled as taken whenever it is
  present. When `n` is present and the match with it taken fails, the match
  without it fails too: no closing fence can start at that `n`, so both need
  a closing fence that starts after it.
- Prompt.RenderShape: states how the prompt ends rather than "`NO README FOUND`
  appears exactly when the README is empty", because a non-empty README or
  any other field may itself contain that text.
- ClientUrl.ClientValidImpliesServerParses: states that the server's repository
  segment begins with the client's, not that they are equal. The server's
  segment runs to the next slash and so takes in `?`, `#` and any other
  character the client pattern stops at, before `.git` is removed.
- Handler.Handle: an unparsable request body gives 500 with the parser's
  message. The text of the fallback `Analysis failed`, used for thrown
  non-`Error` values, is not modelled, because every failure here is an
  `Error`.
