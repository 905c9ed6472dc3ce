/** The browser-side URL check of the input form: the start-anchored pattern
    `^https?:\/\/(www\.)?github\.com\/[\w-]+\/[\w.-]+` and the submit guard
    built on it. The pattern has no end anchor, so anything may follow the
    first repository character.
 */
module ClientUrl {
  import opened Outcomes
  import opened Text
  import RepoUrl

  /** `\w`: ASCII letters, digits and underscore. */
  predicate IsWordChar(c: char) {
    ('a' <= c <= 'z') || ('A' <= c <= 'Z') || ('0' <= c <= '9') || c == '_'
  }

  /** `[\w-]`, the owner character class. */
  predicate IsOwnerChar(c: char) {
    IsWordChar(c) || c == '-'
  }

  /** `[\w.-]`, the repository character class. */
  predicate IsRepoChar(c: char) {
    IsWordChar(c) || c == '.' || c == '-'
  }

  const Http := "http://"
  const Https := "https://"
  const Www := "www."

  /** The four texts `^https?:\/\/(www\.)?github\.com\/` can consume. */
  const HostPrefixes: set<string> :=
    {Http + RepoUrl.Host, Https + RepoUrl.Host, Http + Www + RepoUrl.Host, Https + Www + RepoUrl.Host}

  /** The matched owner and repository segments (`[\w-]+` and `[\w.-]+`, both greedy). */
  datatype ClientMatch = ClientMatch(hostEnd: nat, owner: string, repo: string)

  /** End of `https?:\/\/`, trying the optional `s` first. */
  function SchemeEnd(url: string): (r: Option<nat>)
    ensures r.Some? ==> r.value <= |url| && url[..r.value] in {Http, Https}
  {
    if StartsWith(url, Https) then Some(|Https|)
    else if StartsWith(url, Http) then Some(|Http|)
    else None
  }

  /** End of `https?:\/\/(www\.)?github\.com\/`, trying the optional `www.` first. */
  function HostEnd(url: string): (r: Option<nat>)
    ensures r.Some? ==> r.value <= |url| && url[..r.value] in HostPrefixes
  {
    match SchemeEnd(url)
    case None => None
    case Some(k) =>
      if OccursAt(url, Www + RepoUrl.Host, k) then
        assert url[..k + |Www + RepoUrl.Host|] == url[..k] + (Www + RepoUrl.Host);
        assert url[..k] + (Www + RepoUrl.Host) == url[..k] + Www + RepoUrl.Host;
        Some(k + |Www + RepoUrl.Host|)
      else if OccursAt(url, RepoUrl.Host, k) then
        assert url[..k + |RepoUrl.Host|] == url[..k] + RepoUrl.Host;
        Some(k + |RepoUrl.Host|)
      else None
  }

  /** The pattern, scanned left to right. */
  function MatchClient(url: string): Option<ClientMatch> {
    match HostEnd(url)
    case None => None
    case Some(h) =>
      var o := RunEnd(url, h, IsOwnerChar);
      if o == h || o + 1 >= |url| || url[o] != '/' || !IsRepoChar(url[o + 1]) then None
      else Some(ClientMatch(h, url[h..o], url[o + 1..RunEnd(url, o + 1, IsRepoChar)]))
  }

  /** `isValidUrl`: the match result is truthy. */
  predicate IsValidUrl(url: string) {
    MatchClient(url).Some?
  }

  /** Declarative reading of the pattern: one of the host prefixes ends at
      `h`, a non-empty run of owner characters ends at the `/` at `o`, and a
      repository character follows. */
  predicate ClientDecomposes(url: string, h: nat, o: nat) {
    && h <= |url|
    && url[..h] in HostPrefixes
    && h < o
    && o + 1 < |url|
    && url[o] == '/'
    && IsRepoChar(url[o + 1])
    && forall k :: h <= k < o ==> IsOwnerChar(url[k])
  }

  ghost predicate ClientPattern(url: string) {
    exists h: nat, o: nat :: ClientDecomposes(url, h, o)
  }

  /** Whichever host prefix `url` starts with, the scanner finds it. */
  lemma HostEndComplete(url: string, h: nat)
    requires h <= |url| && url[..h] in HostPrefixes
    ensures HostEnd(url) == Some(h)
  {
    var p := url[..h];
    var scheme := if p == Https + RepoUrl.Host || p == Https + Www + RepoUrl.Host then Https else Http;
    var rest := p[|scheme|..];
    assert p == scheme + rest;
    assert url[..|scheme|] == scheme;
    if scheme == Http {
      assert url[4] == p[4] == ':';
    }
    assert SchemeEnd(url) == Some(|scheme|);
    assert url[|scheme|..h] == rest;
    if rest == RepoUrl.Host {
      assert url[|scheme|] == 'g';
    }
  }

  /** The scanner accepts exactly the strings the pattern describes. */
  lemma IsValidUrlCorrect(url: string)
    ensures IsValidUrl(url) <==> ClientPattern(url)
  {
    if IsValidUrl(url) {
      var h := HostEnd(url).value;
      var o := RunEnd(url, h, IsOwnerChar);
      assert ClientDecomposes(url, h, o);
    }
    if ClientPattern(url) {
      var h: nat, o: nat :| ClientDecomposes(url, h, o);
      HostEndComplete(url, h);
      assert !IsOwnerChar(url[o]);
      RunEndUnique(url, h, o, IsOwnerChar);
    }
  }

  /** `handleSubmit`: the string handed to `onSubmit`, if any. */
  function Submit(url: string, isLoading: bool, disabled: bool): (r: Option<string>)
    ensures r.Some? <==> IsValidUrl(url) && !isLoading && !disabled
    ensures r.Some? ==> r.value == url
  {
    if IsValidUrl(url) && !isLoading && !disabled then Some(url) else None
  }

  /** The error hint under the field: `url && !isValidUrl`. */
  predicate ShowsHint(url: string) {
    url != "" && !IsValidUrl(url)
  }

  /** Nothing shorter than `http://github.com/a/b` is accepted, so an empty
      field neither submits nor shows the hint; a hinted string never submits. */
  lemma HintAndSubmitExclusive(url: string, isLoading: bool, disabled: bool)
    ensures ShowsHint(url) ==> Submit(url, isLoading, disabled).None?
    ensures IsValidUrl(url) ==> |url| >= 21 && !ShowsHint(url)
    ensures url == "" ==> !ShowsHint(url) && Submit(url, isLoading, disabled).None?
  {
    if IsValidUrl(url) {
      var h := HostEnd(url).value;
      assert |url[..h]| >= 18;
    }
  }

  /** A host prefix ends in `github.com/`, and no `github.com/` starts
      earlier in it: nothing before `github.com` in it is a `g`. */
  lemma HostPrefixShape(url: string, h: nat)
    requires h <= |url| && url[..h] in HostPrefixes
    ensures h >= |RepoUrl.Host| && OccursAt(url, RepoUrl.Host, h - |RepoUrl.Host|)
    ensures forall j: nat :: j < h - |RepoUrl.Host| ==> !OccursAt(url, RepoUrl.Host, j)
  {
    var p := url[..h];
    var lead := p[..|p| - |RepoUrl.Host|];
    assert lead in {Http, Https, Http + Www, Https + Www};
    assert p == lead + RepoUrl.Host;
    assert url[h - |RepoUrl.Host|..h] == RepoUrl.Host;
    assert 'g' !in lead;
    forall j: nat | j < h - |RepoUrl.Host|
      ensures !OccursAt(url, RepoUrl.Host, j)
    {
      assert url[j] == lead[j] != 'g' == RepoUrl.Host[0];
      assert j + |RepoUrl.Host| <= |url| ==> url[j..j + |RepoUrl.Host|][0] == url[j];
    }
  }

  /** The client's match is a server match at the same `github.com/`. */
  lemma ClientMatchDecomposes(url: string)
    requires IsValidUrl(url)
    ensures var h := HostEnd(url).value;
      RepoUrl.Decomposes(url, h - |RepoUrl.Host|, RunEnd(url, h, IsOwnerChar))
  {
    HostPrefixShape(url, HostEnd(url).value);
  }

  /** The server's leftmost match is the one at the client's host. */
  lemma LocateAtClientHost(url: string)
    requires IsValidUrl(url)
    ensures RepoUrl.Locate(url).Some?
    ensures var h := HostEnd(url).value;
      && RepoUrl.Locate(url).value.start == h - |RepoUrl.Host|
      && RepoUrl.Locate(url).value.slash == RunEnd(url, h, IsOwnerChar)
  {
    var h := HostEnd(url).value;
    var o := RunEnd(url, h, IsOwnerChar);
    var start := h - |RepoUrl.Host|;
    ClientMatchDecomposes(url);
    HostPrefixShape(url, h);
    var m := RepoUrl.Locate(url).value;
    assert m.start <= start;
    assert RepoUrl.Decomposes(url, m.start, m.slash);
    assert OccursAt(url, RepoUrl.Host, m.start);
    assert m.start == start;
    RepoUrl.DecomposesUnique(url, start, o, m.slash);
  }

  /** The client's repository run is a prefix of the server's slash-free run. */
  lemma RepoExtends(url: string, m: RepoUrl.Located)
    requires IsValidUrl(url)
    requires RepoUrl.Locate(url) == Some(m)
    ensures StartsWith(url[m.slash + 1..m.end], MatchClient(url).value.repo)
  {
    LocateAtClientHost(url);
    var h := HostEnd(url).value;
    var o := RunEnd(url, h, IsOwnerChar);
    var e := RunEnd(url, o + 1, IsRepoChar);
    assert MatchClient(url).value.repo == url[o + 1..e];
    RunEndMonotone(url, o + 1, IsRepoChar, RepoUrl.NotSlash);
    SliceStartsWith(url, o + 1, e, m.end);
  }

  /** Every URL the form accepts also parses on the server, with the same
      owner; the server's repository segment extends the client's. */
  lemma ClientValidImpliesServerParses(url: string)
    requires IsValidUrl(url)
    ensures RepoUrl.Parse(url).Success? && RepoUrl.Locate(url).Some?
    ensures RepoUrl.Parse(url).value.owner == MatchClient(url).value.owner
    ensures var m := RepoUrl.Locate(url).value;
      StartsWith(url[m.slash + 1..m.end], MatchClient(url).value.repo)
  {
    LocateAtClientHost(url);
    var h := HostEnd(url).value;
    var o := RunEnd(url, h, IsOwnerChar);
    assert MatchClient(url).value.owner == url[h..o];
    RepoExtends(url, RepoUrl.Locate(url).value);
  }
}
