/** The user message sent to the scorer: a fixed template over the requested
    role and the collected signals.
 */
module Prompt {
  import opened Text
  import opened Signals

  const FileSampleLimit := 50
  const NoReadme := "NO README FOUND"
  const Footer := "\n\nProvide your evaluation as JSON only."
  const ReadmeHeading := "\n\nREADME CONTENT:\n"

  /** `role.replace('-', ' ')`: a string pattern replaces its first occurrence only. */
  function RoleLabel(role: string): (r: string)
    ensures |r| == |role|
    ensures '-' !in role ==> r == role
    ensures forall i :: 0 <= i < |role| && role[i] == '-' && '-' !in role[..i] ==>
      r == role[..i] + " " + role[i + 1..]
  {
    match IndexOfFrom(role, '-', 0)
    case None =>
      assert forall k :: 0 <= k < |role| ==> role[k] != '-';
      role
    case Some(d) =>
      forall i | 0 <= i < |role| && role[i] == '-' && '-' !in role[..i] ensures i == d {
        assert forall k :: 0 <= k < i ==> role[k] == role[..i][k];
      }
      role[..d] + " " + role[d + 1..]
  }

  /** The file paths that make it into the prompt. */
  function FileSample(paths: seq<string>): (r: seq<string>)
    ensures |r| <= FileSampleLimit && |r| <= |paths| && r == paths[..|r|]
    ensures |paths| >= FileSampleLimit ==> |r| == FileSampleLimit
    ensures |paths| < FileSampleLimit ==> r == paths
  {
    Take(paths, FileSampleLimit)
  }

  /** `readme || 'NO README FOUND'`. */
  function ReadmeSection(readme: string): string {
    if readme == "" then NoReadme else readme
  }

  /** The first line of the prompt. */
  function Intro(role: string): string {
    "Evaluate this GitHub repository for a " + RoleLabel(role) + " role.\n"
  }

  /** The lines of the repository data block, each with its line feed. */
  function FactLines(s: RepoSignals): seq<string> {
    [ "- Name: " + s.name + "\n",
      "- Description: " + s.description + "\n",
      "- Primary Language: " + s.language + "\n",
      "- Stars: " + IntToString(s.stars) + "\n",
      "- Forks: " + IntToString(s.forks) + "\n",
      "- Created: " + s.createdAt + "\n",
      "- Last Updated: " + s.updatedAt + "\n",
      "- Total Commits (last 100): " + NatToString(s.commitCount) + "\n",
      "- Unique Commit Days: " + NatToString(s.uniqueCommitDays) + "\n",
      "- Has Tests: " + BoolToString(s.hasTests) + "\n",
      "- Has Linting Config: " + BoolToString(s.hasLinting) + "\n" ]
  }

  /** The repository facts between the first line and the file list. */
  function Facts(s: RepoSignals): string {
    "\nREPOSITORY DATA:\n" + Join(FactLines(s), "") + "\nFILE STRUCTURE (sample):\n"
  }

  /** The README part that ends the prompt. */
  function Closing(readme: string): string {
    ReadmeHeading + ReadmeSection(readme) + Footer
  }

  /** The commit messages after the file list. */
  function CommitPart(s: RepoSignals): string {
    "\n\nRECENT COMMIT MESSAGES:\n" + Join(s.recentCommitMessages, "\n")
  }

  /** The rendered evaluation prompt. */
  function Render(role: string, s: RepoSignals): string {
    Intro(role) + (Facts(s) + (Join(FileSample(s.fileTree), "\n") + (CommitPart(s) + Closing(s.readme))))
  }

  /** The prompt opens with the role label and closes with the README
      section: the README itself when there is one, the placeholder
      otherwise. */
  lemma RenderShape(role: string, s: RepoSignals)
    ensures StartsWith(Render(role, s), Intro(role))
    ensures s.readme != "" ==> EndsWith(Render(role, s), ReadmeHeading + s.readme + Footer)
    ensures s.readme == "" ==> EndsWith(Render(role, s), ReadmeHeading + NoReadme + Footer)
  {
    var closing := Closing(s.readme);
    var files := Join(FileSample(s.fileTree), "\n");
    var rest := Facts(s) + (files + (CommitPart(s) + closing));
    assert (Intro(role) + rest)[0..|Intro(role)|] == Intro(role);
    assert EndsWith(closing, closing);
    EndsWithPrepend(CommitPart(s), closing, closing);
    EndsWithPrepend(files, CommitPart(s) + closing, closing);
    EndsWithPrepend(Facts(s), files + (CommitPart(s) + closing), closing);
    EndsWithPrepend(Intro(role), rest, closing);
  }

  /** Paths past the fiftieth, and the fields the template does not print,
      have no effect on the prompt. */
  lemma RenderIgnoresUnshown(role: string, s: RepoSignals, t: RepoSignals)
    requires FileSample(s.fileTree) == FileSample(t.fileTree)
    requires s.(fileTree := t.fileTree, languages := t.languages, defaultBranch := t.defaultBranch, hasPackageJson := t.hasPackageJson) == t
    ensures Render(role, s) == Render(role, t)
  {
  }

  /** Whatever occurs in the joined file sample occurs in the prompt. */
  lemma SampleTextInPrompt(role: string, s: RepoSignals, sub: string, k: nat)
    requires OccursAt(Join(FileSample(s.fileTree), "\n"), sub, k)
    ensures Contains(Render(role, s), sub)
  {
    var joined := Join(FileSample(s.fileTree), "\n");
    var after := CommitPart(s) + Closing(s.readme);
    OccursInThird(Intro(role), Facts(s), joined, after, sub, k);
    assert Render(role, s) == Intro(role) + (Facts(s) + (joined + after));
  }

  /** Each fact line occurs in the facts block. */
  lemma FactLineInFacts(s: RepoSignals, i: nat) returns (k: nat)
    requires i < |FactLines(s)|
    ensures OccursAt(Facts(s), FactLines(s)[i], k)
  {
    var line, lines := FactLines(s)[i], Join(FactLines(s), "");
    var head, tail := "\nREPOSITORY DATA:\n", "\nFILE STRUCTURE (sample):\n";
    JoinContains(FactLines(s), "", i);
    var j: nat :| OccursAt(lines, line, j);
    OccursAfterPrepend(head, lines, line, j);
    OccursBeforeAppend(head + lines, tail, line, |head| + j);
    k := |head| + j;
  }

  /** Each fact line appears in the prompt. */
  lemma FactLineInPrompt(role: string, s: RepoSignals, i: nat)
    requires i < |FactLines(s)|
    ensures Contains(Render(role, s), FactLines(s)[i])
  {
    var k := FactLineInFacts(s, i);
    var rest := Join(FileSample(s.fileTree), "\n") + (CommitPart(s) + Closing(s.readme));
    OccursInSecond(Intro(role), Facts(s), rest, FactLines(s)[i], k);
    assert Render(role, s) == Intro(role) + (Facts(s) + rest);
  }

  /** The prompt states every repository fact, each on its own line with its
      label: name, description, language, stars, forks, dates, commit count,
      distinct days and the two flags. */
  lemma RenderStatesFacts(role: string, s: RepoSignals)
    ensures var p := Render(role, s);
      && Contains(p, "- Name: " + s.name + "\n")
      && Contains(p, "- Description: " + s.description + "\n")
      && Contains(p, "- Primary Language: " + s.language + "\n")
      && Contains(p, "- Stars: " + IntToString(s.stars) + "\n")
      && Contains(p, "- Forks: " + IntToString(s.forks) + "\n")
      && Contains(p, "- Created: " + s.createdAt + "\n")
      && Contains(p, "- Last Updated: " + s.updatedAt + "\n")
      && Contains(p, "- Total Commits (last 100): " + NatToString(s.commitCount) + "\n")
      && Contains(p, "- Unique Commit Days: " + NatToString(s.uniqueCommitDays) + "\n")
      && Contains(p, "- Has Tests: " + BoolToString(s.hasTests) + "\n")
      && Contains(p, "- Has Linting Config: " + BoolToString(s.hasLinting) + "\n")
  {
    FactLineInPrompt(role, s, 0);
    FactLineInPrompt(role, s, 1);
    FactLineInPrompt(role, s, 2);
    FactLineInPrompt(role, s, 3);
    FactLineInPrompt(role, s, 4);
    FactLineInPrompt(role, s, 5);
    FactLineInPrompt(role, s, 6);
    FactLineInPrompt(role, s, 7);
    FactLineInPrompt(role, s, 8);
    FactLineInPrompt(role, s, 9);
    FactLineInPrompt(role, s, 10);
  }

  /** Each recent commit message occurs in the text after the file list. */
  lemma MessageAfterFiles(s: RepoSignals, i: nat) returns (k: nat)
    requires i < |s.recentCommitMessages|
    ensures OccursAt(CommitPart(s) + Closing(s.readme), s.recentCommitMessages[i], k)
  {
    var m, msgs := s.recentCommitMessages[i], Join(s.recentCommitMessages, "\n");
    var head := "\n\nRECENT COMMIT MESSAGES:\n";
    JoinContains(s.recentCommitMessages, "\n", i);
    var j: nat :| OccursAt(msgs, m, j);
    OccursAfterPrepend(head, msgs, m, j);
    OccursBeforeAppend(head + msgs, Closing(s.readme), m, |head| + j);
    k := |head| + j;
  }

  /** Each recent commit message appears in the prompt. */
  lemma RenderMentionsMessages(role: string, s: RepoSignals, i: nat)
    requires i < |s.recentCommitMessages|
    ensures Contains(Render(role, s), s.recentCommitMessages[i])
  {
    var k := MessageAfterFiles(s, i);
    var files, after := Join(FileSample(s.fileTree), "\n"), CommitPart(s) + Closing(s.readme);
    OccursInFourth(Intro(role), Facts(s), files, after, s.recentCommitMessages[i], k);
    assert Render(role, s) == Intro(role) + (Facts(s) + (files + after));
  }

  /** Each of the first fifty paths appears in the prompt. */
  lemma RenderMentionsSample(role: string, s: RepoSignals, i: nat)
    requires i < |s.fileTree| && i < FileSampleLimit
    ensures Contains(Render(role, s), s.fileTree[i])
  {
    var sample := FileSample(s.fileTree);
    assert sample[i] == s.fileTree[i];
    JoinContains(sample, "\n", i);
    var k: nat :| OccursAt(Join(sample, "\n"), sample[i], k);
    SampleTextInPrompt(role, s, sample[i], k);
  }
}
