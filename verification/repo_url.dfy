/** The server-side repository locator of `fetchGitHubData`: the pattern
    `github\.com\/([^\/]+)\/([^\/]+)` searched anywhere in the submitted URL,
    followed by removal of one trailing `.git` from the repository segment.
 */
module RepoUrl {
  import opened Outcomes
  import opened Text

  const Host := "github.com/"
  const GitSuffix := ".git"
  const InvalidUrlMessage := "Invalid GitHub URL format"

  /** The owner and (cleaned) repository name every GitHub lookup is keyed by. */
  datatype RepoKey = RepoKey(owner: string, repo: string)

  /** Where a match of the server pattern sits: `start` is the index of
      `github.com/`, `slash` the index of the separating `/`, and the
      repository segment runs from `slash + 1` to `end`. */
  datatype Located = Located(start: nat, slash: nat, end: nat)

  predicate NotSlash(c: char) {
    c != '/'
  }

  /** Declarative reading of the pattern: `github.com/` at `i`, then a
      non-empty slash-free owner up to the `/` at `o`, then at least one
      non-slash character. */
  predicate Decomposes(url: string, i: nat, o: nat) {
    && OccursAt(url, Host, i)
    && i + |Host| < o
    && o + 1 < |url|
    && url[o] == '/'
    && url[o + 1] != '/'
    && forall k :: i + |Host| <= k < o ==> url[k] != '/'
  }

  /** The pattern matches somewhere in `url`. */
  ghost predicate ServerPatternMatches(url: string) {
    exists i: nat, o: nat :: Decomposes(url, i, o)
  }

  /** For a given start, the separating slash is the first slash after the host. */
  lemma DecomposesUnique(url: string, i: nat, o1: nat, o2: nat)
    requires Decomposes(url, i, o1) && Decomposes(url, i, o2)
    ensures o1 == o2
  {
  }

  /** The regex engine's attempt at index `i`: both `[^\/]+` are greedy, and
      the owner run can only be followed by `/` at its maximal end. */
  function MatchAt(url: string, i: nat): (r: Option<Located>)
    requires i <= |url|
    ensures r.Some? <==> exists o: nat :: Decomposes(url, i, o)
    ensures r.Some? ==> r.value.start == i && Decomposes(url, i, r.value.slash)
    ensures r.Some? ==> r.value.end == RunEnd(url, r.value.slash + 1, NotSlash)
  {
    if !OccursAt(url, Host, i) then None
    else
      var o := RunEnd(url, i + |Host|, NotSlash);
      if o == i + |Host| || o + 1 >= |url| || url[o + 1] == '/' then
        assert forall o': nat :: !Decomposes(url, i, o') by {
          forall o': nat | Decomposes(url, i, o') ensures false {
            RunEndUnique(url, i + |Host|, o', NotSlash);
          }
        }
        None
      else
        assert Decomposes(url, i, o);
        Some(Located(i, o, RunEnd(url, o + 1, NotSlash)))
  }

  /** The leftmost match at index `from` or later. */
  function LocateFrom(url: string, from: nat): (r: Option<Located>)
    requires from <= |url|
    ensures r.None? ==> forall i: nat, o: nat :: from <= i ==> !Decomposes(url, i, o)
    ensures r.Some? ==> from <= r.value.start && Decomposes(url, r.value.start, r.value.slash)
    ensures r.Some? ==> r.value.end == RunEnd(url, r.value.slash + 1, NotSlash)
    ensures r.Some? ==> forall i: nat, o: nat :: from <= i < r.value.start ==> !Decomposes(url, i, o)
    decreases |url| - from
  {
    var m := MatchAt(url, from);
    if m.Some? then m
    else if from == |url| then None
    else LocateFrom(url, from + 1)
  }

  /** `repoUrl.match(urlPattern)`. */
  function Locate(url: string): (r: Option<Located>)
    ensures r.None? <==> !ServerPatternMatches(url)
    ensures r.Some? ==> Decomposes(url, r.value.start, r.value.slash)
    ensures r.Some? ==> forall i: nat, o: nat :: i < r.value.start ==> !Decomposes(url, i, o)
    ensures r.Some? ==> r.value.slash + 1 < r.value.end <= |url|
    ensures r.Some? ==> forall k :: r.value.slash < k < r.value.end ==> url[k] != '/'
    ensures r.Some? ==> r.value.end == |url| || url[r.value.end] == '/'
  {
    LocateFrom(url, 0)
  }

  /** `repo.replace(/\.git$/, '')`. */
  function StripGit(repo: string): string {
    if EndsWith(repo, GitSuffix) then repo[..|repo| - |GitSuffix|] else repo
  }

  /** Stripping removes exactly one `.git` and keeps everything before it;
      a name without the suffix is left alone. */
  lemma StripGitInverse(name: string)
    ensures StripGit(name + GitSuffix) == name
    ensures !EndsWith(name, GitSuffix) ==> StripGit(name) == name
    ensures StripGit(name) == name || StripGit(name) + GitSuffix == name
  {
    var s := name + GitSuffix;
    assert s[|s| - |GitSuffix|..] == GitSuffix;
    assert s[..|s| - |GitSuffix|] == name;
    if EndsWith(name, GitSuffix) {
      assert name[..|name| - |GitSuffix|] + GitSuffix == name;
    }
  }

  /** Owner and repository of the first `github.com/<owner>/<repo>` in `url`. */
  function Parse(url: string): (r: Result<RepoKey>)
    ensures r.Success? <==> ServerPatternMatches(url)
    ensures r.Failure? ==> r.error == InvalidUrlMessage
    ensures r.Success? ==> var m := Locate(url).value;
      && r.value.owner == url[m.start + |Host|..m.slash]
      && r.value.repo == StripGit(url[m.slash + 1..m.end])
  {
    match Locate(url)
    case None => Failure(InvalidUrlMessage)
    case Some(m) => Success(RepoKey(url[m.start + |Host|..m.slash], StripGit(url[m.slash + 1..m.end])))
  }

  /** The owner is never empty, and never contains a slash; the repository
      segment, before `.git` is removed, is non-empty and slash-free. */
  lemma ParsedSegments(url: string)
    requires Parse(url).Success?
    ensures var key := Parse(url).value;
      && |key.owner| > 0 && '/' !in key.owner && '/' !in key.repo
  {
    var m := Locate(url).value;
    var key := Parse(url).value;
    assert key.owner == url[m.start + |Host|..m.slash];
    var raw := url[m.slash + 1..m.end];
    assert '/' !in raw;
    StripGitInverse(raw);
    if StripGit(raw) != raw {
      assert raw == StripGit(raw) + GitSuffix;
      assert forall k :: 0 <= k < |StripGit(raw)| ==> StripGit(raw)[k] == raw[k];
    }
  }
}
