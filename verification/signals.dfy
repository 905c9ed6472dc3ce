/** Signal collection of `fetchGitHubData`: the four GitHub lookups become
    given replies, and everything derived from them is computed here.
 */
module Signals {
  import opened Outcomes
  import opened Text
  import RepoUrl

  const ReadmeLimit := 8000
  const FileTreeLimit := 200
  const MessageLimit := 20
  const NotFoundPrefix := "Repository not found or not accessible: "

  /** What `toDateString()` printed for a commit date, for example
      `"Tue Mar 05 2024"`, or `"Invalid Date"`. */
  type DayKey = string

  const InvalidDay: DayKey := "Invalid Date"

  /** The reply one HTTP lookup got.
      `Rejected`: `fetch` itself threw (network failure).
      `NotOk`: a non-2xx status; `message` is the `message` field of the
      JSON error body, `None` when the body is not JSON or has none.
      `Unreadable`: a 2xx reply whose body `.json()` failed to parse.
      `Ok`: a 2xx reply with its parsed body. */
  datatype Fetch<+T> =
    | Rejected(reason: string)
    | NotOk(status: int, message: Option<string>)
    | Unreadable(reason: string)
    | Ok(body: T)

  /** The fields of the repository metadata the function reads. */
  datatype RepoData = RepoData(
    name: string,
    description: Option<string>,
    language: Option<string>,
    stars: int,
    forks: int,
    createdAt: string,
    updatedAt: string,
    defaultBranch: string)

  /** The README lookup's body: no (or an empty) `content` field, the
      base64-decoded text, or a `content` that `atob` rejects. */
  datatype ReadmeBody = NoContent | Decoded(text: string) | Undecodable(reason: string)

  /** One entry of the recursive tree: its `type` and `path`. */
  datatype TreeEntry = TreeEntry(kind: string, path: string)

  /** The tree lookup's body: its `tree` array, if present. */
  datatype TreeBody = TreeBody(tree: Option<seq<TreeEntry>>)

  /** One element of the commit list: the day keys of `commit.author.date`
      and `commit.committer.date` (`None` when the field is absent or
      empty) and `commit.message`. */
  datatype CommitInfo = CommitInfo(authorDay: Option<DayKey>, committerDay: Option<DayKey>, message: Option<string>)

  /** The replies of the four lookups issued for one repository. */
  datatype GitHubReplies = GitHubReplies(
    meta: Fetch<RepoData>,
    readme: Fetch<ReadmeBody>,
    tree: Fetch<TreeBody>,
    commits: Fetch<seq<CommitInfo>>)

  /** The object `fetchGitHubData` returns. */
  datatype RepoSignals = RepoSignals(
    name: string,
    description: string,
    language: string,
    languages: seq<string>,
    stars: int,
    forks: int,
    createdAt: string,
    updatedAt: string,
    defaultBranch: string,
    readme: string,
    fileTree: seq<string>,
    commitCount: nat,
    uniqueCommitDays: nat,
    recentCommitMessages: seq<string>,
    hasTests: bool,
    hasLinting: bool,
    hasPackageJson: bool)

  /** The day a commit is counted on: the author date if present, else the
      committer date; with neither, `new Date(undefined)` is an invalid date. */
  function CommitDay(c: CommitInfo): DayKey {
    if c.authorDay.Some? then c.authorDay.value
    else if c.committerDay.Some? then c.committerDay.value
    else InvalidDay
  }

  /** `new Set(commitDates.map(d => d.toDateString()))`. */
  function DistinctDays(commits: seq<CommitInfo>): (days: set<DayKey>)
    ensures forall d :: d in days <==> exists i :: 0 <= i < |commits| && CommitDay(commits[i]) == d
    ensures |days| <= |commits|
    ensures |commits| > 0 ==> |days| >= 1
  {
    if |commits| == 0 then {}
    else
      var rest := DistinctDays(commits[1..]);
      forall d | d in rest ensures exists i :: 0 <= i < |commits| && CommitDay(commits[i]) == d {
        var j :| 0 <= j < |commits[1..]| && CommitDay(commits[1..][j]) == d;
        assert CommitDay(commits[j + 1]) == d;
      }
      forall i | 1 <= i < |commits| ensures CommitDay(commits[i]) in rest {
        assert commits[i] == commits[1..][i - 1];
      }
      {CommitDay(commits[0])} + rest
  }

  /** `c.commit?.message?.split('\n')[0] || ''`. */
  function MessageLine(c: CommitInfo): string {
    if c.message.Some? then FirstLine(c.message.value) else ""
  }

  /** The first `MessageLimit` commits' first lines. */
  function RecentMessages(commits: seq<CommitInfo>): (lines: seq<string>)
    ensures |lines| == if |commits| < MessageLimit then |commits| else MessageLimit
    ensures forall i :: 0 <= i < |lines| ==> lines[i] == MessageLine(commits[i])
  {
    var n := if |commits| < MessageLimit then |commits| else MessageLimit;
    seq(n, i requires 0 <= i < n => MessageLine(commits[i]))
  }

  /** `.filter(item => item.type === 'blob').map(item => item.path)`. */
  function BlobPaths(entries: seq<TreeEntry>): (paths: seq<string>)
    ensures |paths| <= |entries|
    ensures forall p :: p in paths <==> exists e :: e in entries && e.kind == "blob" && e.path == p
  {
    if |entries| == 0 then []
    else
      var rest := BlobPaths(entries[1..]);
      assert forall e :: e in entries[1..] ==> e in entries;
      assert forall e :: e in entries ==> e == entries[0] || e in entries[1..];
      if entries[0].kind == "blob" then [entries[0].path] + rest else rest
  }

  /** The blob paths of a tree split at any point are the blob paths of the
      two parts, in order: filtering keeps tree order and duplicates. */
  lemma {:induction false} BlobPathsAppend(a: seq<TreeEntry>, b: seq<TreeEntry>)
    ensures BlobPaths(a + b) == BlobPaths(a) + BlobPaths(b)
    decreases |a|
  {
    if |a| > 0 {
      assert (a + b)[1..] == a[1..] + b;
      BlobPathsAppend(a[1..], b);
    } else {
      assert a + b == b;
    }
  }

  /** One tree entry contributes its path exactly when it is a blob. */
  lemma BlobPathsSingle(e: TreeEntry)
    ensures BlobPaths([e]) == if e.kind == "blob" then [e.path] else []
  {
    assert [e][1..] == [];
  }

  /** The per-path test heuristic exactly as the source writes it. */
  predicate LooksLikeTest(f: string) {
    || Contains(f, "test")
    || Contains(f, "spec")
    || Contains(f, "__tests__")
    || EndsWith(f, ".test.js")
    || EndsWith(f, ".test.ts")
    || EndsWith(f, ".spec.js")
    || EndsWith(f, ".spec.ts")
  }

  /** The per-path lint/format configuration heuristic. */
  predicate LooksLikeLintConfig(f: string) {
    || Contains(f, "eslint")
    || Contains(f, "prettier")
    || Contains(f, ".editorconfig")
    || Contains(f, "tslint")
  }

  /** A path ending in `suffix` mentions every word that occurs in `suffix`. */
  lemma SuffixMentions(f: string, suffix: string, word: string, at: nat)
    requires EndsWith(f, suffix) && OccursAt(suffix, word, at)
    ensures Contains(f, word)
  {
    EndsWithContains(f, suffix);
    ContainsPart(f, suffix, word, at);
  }

  /** The `__tests__` and suffix clauses add nothing: the heuristic is just
      "mentions `test` or `spec`". */
  lemma TestHeuristicSubsumed(f: string)
    ensures LooksLikeTest(f) <==> Contains(f, "test") || Contains(f, "spec")
  {
    if Contains(f, "__tests__") {
      assert OccursAt("__tests__", "test", 2);
      ContainsPart(f, "__tests__", "test", 2);
    } else if EndsWith(f, ".test.js") {
      assert OccursAt(".test.js", "test", 1);
      SuffixMentions(f, ".test.js", "test", 1);
    } else if EndsWith(f, ".test.ts") {
      assert OccursAt(".test.ts", "test", 1);
      SuffixMentions(f, ".test.ts", "test", 1);
    } else if EndsWith(f, ".spec.js") {
      assert OccursAt(".spec.js", "spec", 1);
      SuffixMentions(f, ".spec.js", "spec", 1);
    } else if EndsWith(f, ".spec.ts") {
      assert OccursAt(".spec.ts", "spec", 1);
      SuffixMentions(f, ".spec.ts", "spec", 1);
    }
  }

  /** `hasTests`: some blob path passes the test heuristic. */
  function HasTests(blobs: seq<string>): (b: bool)
    ensures b <==> exists f :: f in blobs && (Contains(f, "test") || Contains(f, "spec"))
  {
    forall f | f in blobs ensures LooksLikeTest(f) <==> Contains(f, "test") || Contains(f, "spec") {
      TestHeuristicSubsumed(f);
    }
    exists f :: f in blobs && LooksLikeTest(f)
  }

  /** `hasLinting`: some blob path passes the lint-configuration heuristic. */
  function HasLinting(blobs: seq<string>): (b: bool)
    ensures b <==> exists f :: f in blobs && LooksLikeLintConfig(f)
  {
    exists i :: 0 <= i < |blobs| && LooksLikeLintConfig(blobs[i])
  }

  /** `hasPackageJson`: some blob path is exactly `package.json`. */
  function HasPackageJson(blobs: seq<string>): (b: bool)
    ensures b <==> "package.json" in blobs
  {
    exists i :: 0 <= i < |blobs| && blobs[i] == "package.json"
  }

  /** `s.substring(0, n)` and `xs.slice(0, n)`. */
  function Take<T>(xs: seq<T>, n: nat): (r: seq<T>)
    ensures |r| <= n && |r| <= |xs| && r == xs[..|r|]
    ensures |xs| <= n ==> r == xs
    ensures n <= |xs| ==> |r| == n
  {
    if |xs| <= n then xs else xs[..n]
  }

  /** The metadata fields of the returned object: name, dates, counts and
      default branch copied, `description || ''`, `language || 'Unknown'`,
      and `languages` holding the language exactly when it is truthy. */
  predicate KeepsMetadata(meta: RepoData, s: RepoSignals) {
    && s.name == meta.name
    && s.description == (if Truthy(meta.description) then meta.description.value else "")
    && s.language == (if Truthy(meta.language) then meta.language.value else "Unknown")
    && s.languages == (if Truthy(meta.language) then [s.language] else [])
    && s.stars == meta.stars
    && s.forks == meta.forks
    && s.createdAt == meta.createdAt
    && s.updatedAt == meta.updatedAt
    && s.defaultBranch == meta.defaultBranch
  }

  /** The returned object, built from the metadata and the (possibly
      defaulted) README text, blob list and commit list. */
  function Derive(meta: RepoData, readme: string, blobs: seq<string>, commits: seq<CommitInfo>): (s: RepoSignals)
    ensures KeepsMetadata(meta, s)
    ensures |s.readme| <= ReadmeLimit && |s.readme| <= |readme| && s.readme == readme[..|s.readme|]
    ensures |readme| <= ReadmeLimit ==> s.readme == readme
    ensures |readme| >= ReadmeLimit ==> |s.readme| == ReadmeLimit
    ensures |s.fileTree| <= FileTreeLimit && |s.fileTree| <= |blobs| && s.fileTree == blobs[..|s.fileTree|]
    ensures |blobs| <= FileTreeLimit ==> s.fileTree == blobs
    ensures |blobs| >= FileTreeLimit ==> |s.fileTree| == FileTreeLimit
    ensures s.commitCount == |commits|
    ensures s.uniqueCommitDays <= s.commitCount
    ensures s.commitCount > 0 ==> s.uniqueCommitDays >= 1
    ensures s.uniqueCommitDays == |DistinctDays(commits)|
    ensures |s.recentCommitMessages| == if |commits| < MessageLimit then |commits| else MessageLimit
    ensures forall i :: 0 <= i < |s.recentCommitMessages| ==> s.recentCommitMessages[i] == MessageLine(commits[i])
    ensures s.hasTests <==> exists f :: f in blobs && (Contains(f, "test") || Contains(f, "spec"))
    ensures s.hasLinting <==> exists f :: f in blobs && LooksLikeLintConfig(f)
    ensures s.hasPackageJson <==> "package.json" in blobs
  {
    RepoSignals(
      name := meta.name,
      description := OrElse(meta.description, ""),
      language := OrElse(meta.language, "Unknown"),
      languages := if Truthy(meta.language) then [meta.language.value] else [],
      stars := meta.stars,
      forks := meta.forks,
      createdAt := meta.createdAt,
      updatedAt := meta.updatedAt,
      defaultBranch := meta.defaultBranch,
      readme := Take(readme, ReadmeLimit),
      fileTree := Take(blobs, FileTreeLimit),
      commitCount := |commits|,
      uniqueCommitDays := |DistinctDays(commits)|,
      recentCommitMessages := RecentMessages(commits),
      hasTests := HasTests(blobs),
      hasLinting := HasLinting(blobs),
      hasPackageJson := HasPackageJson(blobs))
  }

  /** The error a non-ok metadata reply throws: the body's `message` if
      truthy, else the status code. */
  function NotFoundMessage(status: int, message: Option<string>): string {
    NotFoundPrefix + OrElse(message, IntToString(status))
  }

  /** The README reply raises nothing when read: its body parses and any
      `content` it has is valid base64. */
  predicate ReadmeReadable(reply: Fetch<ReadmeBody>) {
    !reply.Unreadable? && !(reply.Ok? && reply.body.Undecodable?)
  }

  /** README text: a failed or non-ok lookup, or a missing `content`,
      leaves `''`. */
  function ReadmeText(reply: Fetch<ReadmeBody>): (r: Result<string>)
    ensures r.Success? <==> ReadmeReadable(reply)
    ensures reply.Unreadable? ==> r == Failure(reply.reason)
    ensures reply.Ok? && reply.body.Undecodable? ==> r == Failure(reply.body.reason)
    ensures reply.Ok? && reply.body.Decoded? ==> r == Success(reply.body.text)
    ensures r.Success? && !(reply.Ok? && reply.body.Decoded?) ==> r.value == ""
  {
    match reply
    case Rejected(_) => Success("")
    case NotOk(_, _) => Success("")
    case Unreadable(reason) => Failure(reason)
    case Ok(NoContent) => Success("")
    case Ok(Decoded(text)) => Success(text)
    case Ok(Undecodable(reason)) => Failure(reason)
  }

  /** Blob paths: a failed or non-ok lookup, or a missing `tree`, leaves `[]`. */
  function TreeBlobs(reply: Fetch<TreeBody>): (r: Result<seq<string>>)
    ensures r.Failure? <==> reply.Unreadable?
    ensures reply.Unreadable? ==> r == Failure(reply.reason)
    ensures reply.Ok? && reply.body.tree.Some? ==> r == Success(BlobPaths(reply.body.tree.value))
    ensures r.Success? && !(reply.Ok? && reply.body.tree.Some?) ==> r.value == []
  {
    match reply
    case Rejected(_) => Success([])
    case NotOk(_, _) => Success([])
    case Unreadable(reason) => Failure(reason)
    case Ok(TreeBody(None)) => Success([])
    case Ok(TreeBody(Some(entries))) => Success(BlobPaths(entries))
  }

  /** Commit list: a failed or non-ok lookup leaves `[]`. */
  function CommitList(reply: Fetch<seq<CommitInfo>>): (r: Result<seq<CommitInfo>>)
    ensures r.Failure? <==> reply.Unreadable?
    ensures reply.Unreadable? ==> r == Failure(reply.reason)
    ensures reply.Ok? ==> r == Success(reply.body)
    ensures r.Success? && !reply.Ok? ==> r.value == []
  {
    match reply
    case Rejected(_) => Success([])
    case NotOk(_, _) => Success([])
    case Unreadable(reason) => Failure(reason)
    case Ok(commits) => Success(commits)
  }

  /** The lookups succeed or fail in the order the source awaits them:
      metadata status, metadata body, README body, tree body, commit body. */
  function Collect(replies: GitHubReplies): (r: Result<RepoSignals>)
    ensures replies.meta.Rejected? ==> r == Failure(replies.meta.reason)
    ensures replies.meta.NotOk? ==> r == Failure(NotFoundMessage(replies.meta.status, replies.meta.message))
    ensures replies.meta.Unreadable? ==> r == Failure(replies.meta.reason)
    ensures replies.meta.Ok? ==>
      (r.Success? <==> ReadmeReadable(replies.readme) && !replies.tree.Unreadable? && !replies.commits.Unreadable?)
    ensures replies.meta.Ok? && !ReadmeReadable(replies.readme) ==> r == Failure(ReadmeText(replies.readme).error)
    ensures replies.meta.Ok? && ReadmeReadable(replies.readme) && replies.tree.Unreadable? ==>
      r == Failure(replies.tree.reason)
    ensures replies.meta.Ok? && ReadmeReadable(replies.readme) && !replies.tree.Unreadable? && replies.commits.Unreadable? ==>
      r == Failure(replies.commits.reason)
    ensures r.Success? ==> replies.meta.Ok? && KeepsMetadata(replies.meta.body, r.value)
  {
    match replies.meta
    case Rejected(reason) => Failure(reason)
    case NotOk(status, message) => Failure(NotFoundMessage(status, message))
    case Unreadable(reason) => Failure(reason)
    case Ok(meta) =>
      var readme :- ReadmeText(replies.readme);
      var blobs :- TreeBlobs(replies.tree);
      var commits :- CommitList(replies.commits);
      Success(Derive(meta, readme, blobs, commits))
  }

  /** The outcome of `fetchGitHubData`, with the repository the lookups were
      keyed by (`None`: no lookup was issued). */
  datatype Fetched = Fetched(lookups: Option<RepoUrl.RepoKey>, result: Result<RepoSignals>)

  /** `fetchGitHubData(repoUrl)`: parse the URL, then collect. */
  function FetchGitHubData(url: string, replies: GitHubReplies): (r: Fetched)
    ensures r.lookups.None? <==> RepoUrl.Parse(url).Failure?
    ensures r.lookups.None? ==> r.result == Failure(RepoUrl.InvalidUrlMessage)
    ensures r.lookups.Some? ==> r.lookups == Some(RepoUrl.Parse(url).value)
  {
    match RepoUrl.Parse(url)
    case Failure(e) => Fetched(None, Failure(e))
    case Success(key) => Fetched(Some(key), Collect(replies))
  }

  /** A failed or non-ok README lookup behaves exactly like a successful one
      without `content`: the README is `''` and no error arises. */
  lemma ReadmeLookupDegrades(replies: GitHubReplies, readme: Fetch<ReadmeBody>)
    requires readme.Rejected? || readme.NotOk?
    ensures Collect(replies.(readme := readme)) == Collect(replies.(readme := Ok(NoContent)))
    ensures Collect(replies.(readme := readme)).Success? ==> Collect(replies.(readme := readme)).value.readme == ""
  {
  }

  /** A failed or non-ok tree lookup behaves exactly like an empty tree. */
  lemma TreeLookupDegrades(replies: GitHubReplies, tree: Fetch<TreeBody>)
    requires tree.Rejected? || tree.NotOk?
    ensures Collect(replies.(tree := tree)) == Collect(replies.(tree := Ok(TreeBody(Some([])))))
    ensures Collect(replies.(tree := tree)).Success? ==> Collect(replies.(tree := tree)).value.fileTree == []
  {
  }

  /** A failed or non-ok commits lookup behaves exactly like an empty commit list. */
  lemma CommitsLookupDegrades(replies: GitHubReplies, commits: Fetch<seq<CommitInfo>>)
    requires commits.Rejected? || commits.NotOk?
    ensures Collect(replies.(commits := commits)) == Collect(replies.(commits := Ok([])))
    ensures Collect(replies.(commits := commits)).Success? ==>
      Collect(replies.(commits := commits)).value.commitCount == 0
  {
  }

  /** The collected file tree is the first 200 blob paths in tree order. */
  lemma CollectedFileTree(replies: GitHubReplies, entries: seq<TreeEntry>)
    requires replies.tree == Ok(TreeBody(Some(entries)))
    ensures Collect(replies).Success? ==>
      var t := Collect(replies).value.fileTree;
      t == Take(BlobPaths(entries), FileTreeLimit)
      && |t| == (if |BlobPaths(entries)| < FileTreeLimit then |BlobPaths(entries)| else FileTreeLimit)
  {
  }

  /** The three flags of a collected tree are judged on every blob path of
      the reply, not only on the 200 kept as `fileTree`. */
  lemma CollectedFlags(replies: GitHubReplies, entries: seq<TreeEntry>)
    requires replies.tree == Ok(TreeBody(Some(entries)))
    ensures Collect(replies).Success? ==>
      var s := Collect(replies).value;
      && (s.hasTests <==> exists f :: f in BlobPaths(entries) && (Contains(f, "test") || Contains(f, "spec")))
      && (s.hasLinting <==> exists f :: f in BlobPaths(entries) && LooksLikeLintConfig(f))
      && (s.hasPackageJson <==> "package.json" in BlobPaths(entries))
  {
  }

  /** A decoded README reaches the signals cut to its first 8000 characters. */
  lemma CollectedReadme(replies: GitHubReplies, text: string)
    requires replies.readme == Ok(Decoded(text))
    ensures Collect(replies).Success? ==> Collect(replies).value.readme == Take(text, ReadmeLimit)
  {
  }

  /** A commit list that was read reaches the signals whole: its length,
      its distinct days and its first twenty messages. */
  lemma CollectedCommits(replies: GitHubReplies, cs: seq<CommitInfo>)
    requires replies.commits == Ok(cs)
    ensures Collect(replies).Success? ==>
      && Collect(replies).value.commitCount == |cs|
      && Collect(replies).value.uniqueCommitDays == |DistinctDays(cs)|
      && Collect(replies).value.recentCommitMessages == RecentMessages(cs)
  {
    assert CommitList(replies.commits) == Success(cs);
  }

  /** Only the metadata lookup is mandatory: with it ok and every secondary
      body readable, collection succeeds. */
  lemma MetadataAloneSuffices(replies: GitHubReplies)
    requires replies.meta.Ok?
    requires ReadmeReadable(replies.readme)
    requires !replies.tree.Unreadable? && !replies.commits.Unreadable?
    ensures Collect(replies).Success?
    ensures replies.readme.Rejected? || replies.readme.NotOk? ==> Collect(replies).value.readme == ""
    ensures replies.tree.Rejected? || replies.tree.NotOk? ==> Collect(replies).value.fileTree == []
    ensures replies.commits.Rejected? || replies.commits.NotOk? ==>
      Collect(replies).value.commitCount == 0 && Collect(replies).value.recentCommitMessages == []
  {
  }
}
