/** The decision logic of the `scan`, `import` and `export` commands: argument parsing and
    checks, the flags the configuration turns on, the spam users collected from a scan, the
    arguments of the automatic block, and which action runs. */
module Commands {
  import opened Wrappers
  import opened Text
  import opened Models
  import opened Schema
  import opened Config
  import opened Scanner

  // ---------------------------------------------------------------------------------------------
  // scan: arguments

  const ErrInvalidRepo: string := "invalid repository format, expected owner/repo"
  const ErrGithubBlockFlag: string := "--github-block requires --auto-block"

  /** `parseRepo`: splits at the first slash; the owner is what precedes it and the name is all
      that follows, further slashes included. Either side may be empty. */
  function ParseRepo(repo: string): (r: Result<(string, string), string>)
    ensures r.Failure? <==> '/' !in repo
    ensures r.Failure? ==> r.error == ErrInvalidRepo
    ensures r.Success? ==> repo == r.value.0 + "/" + r.value.1 && '/' !in r.value.0
  {
    match IndexOf(repo, '/')
    case None => Failure(ErrInvalidRepo)
    case Some(i) =>
      assert repo == repo[..i] + "/" + repo[i + 1..];
      Success((repo[..i], repo[i + 1..]))
  }

  /** A split at a slash is the split `ParseRepo` makes exactly when the owner side has no slash. */
  lemma ParseRepoUnique(owner: string, name: string)
    ensures ParseRepo(owner + "/" + name) == Success((owner, name)) <==> '/' !in owner
  {
    var repo := owner + "/" + name;
    assert repo[|owner|] == '/';
    if '/' !in owner {
      assert repo[..|owner|] == owner;
      assert repo[|owner| + 1..] == name;
    }
  }

  /** Round trip: a repository whose owner has no slash parses back from its full name. */
  lemma ParseRepoFullName(repository: Repository)
    requires '/' !in repository.owner
    ensures ParseRepo(repository.FullName()) == Success((repository.owner, repository.name))
  {
    ParseRepoUnique(repository.owner, repository.name);
  }

  /** A name with further slashes keeps them: the split is at the first slash. */
  lemma ParseRepoFirstSlash()
    ensures ParseRepo("owner/repo/extra") == Success(("owner", "repo/extra"))
  {
    assert "owner/repo/extra" == "owner" + "/" + "repo/extra";
    assert '/' !in "owner";
    ParseRepoUnique("owner", "repo/extra");
  }

  /** Either side of the slash may be empty. */
  lemma ParseRepoEmptySides()
    ensures ParseRepo("/repo") == Success(("", "repo"))
    ensures ParseRepo("owner/") == Success(("owner", ""))
  {
    assert "/repo" == "" + "/" + "repo";
    ParseRepoUnique("", "repo");
    assert "owner/" == "owner" + "/" + "";
    assert '/' !in "owner";
    ParseRepoUnique("owner", "");
  }

  /** The empty string and a name without a slash are rejected. */
  lemma ParseRepoRejects()
    ensures ParseRepo("") == Failure(ErrInvalidRepo)
    ensures ParseRepo("ownerrepo") == Failure(ErrInvalidRepo)
  {
    assert forall i | 0 <= i < |"ownerrepo"| :: "ownerrepo"[i] != '/';
  }

  /** The flag check `runScan` makes before anything else. */
  function CheckScanFlags(autoBlock: bool, githubBlock: bool): (r: Outcome<string>)
    ensures r.Fail? <==> githubBlock && !autoBlock
    ensures r.Fail? ==> r.error == ErrGithubBlockFlag
  {
    if githubBlock && !autoBlock then Fail(ErrGithubBlockFlag) else Pass
  }

  /** `confirmAction`'s check of the answer read from the terminal. */
  predicate Accepts(response: string) {
    var answer := TrimSpace(ToLower(response));
    answer == "y" || answer == "yes"
  }

  /** Trimming a string that is white space, then a word without white space at its ends, then
      white space, leaves the word. */
  lemma TrimAround(s: string, k: nat, n: nat)
    requires 0 < n && k + n <= |s|
    requires !IsSpace(s[k]) && !IsSpace(s[k + n - 1])
    requires forall i | 0 <= i < k :: IsSpace(s[i])
    requires forall i | k + n <= i < |s| :: IsSpace(s[i])
    ensures TrimSpace(s) == s[k..k + n]
  {
    var r := TrimSpace(s);
    assert Trims(s, s[k..k + n], k);
    if r != [] {
      TrimsUnique(s, r, LeadingSpace(s), s[k..k + n], k);
    }
  }

  /** Lower-casing keeps white space and non-space characters apart. */
  lemma LowerKeepsSpace(s: string)
    ensures forall i | 0 <= i < |s| :: IsSpace(ToLower(s)[i]) <==> IsSpace(s[i])
  {
  }

  /** "y" or "yes", in any letter case and padded with white space, is accepted. */
  lemma AcceptsPadded(pre: string, word: string, post: string)
    requires forall i | 0 <= i < |pre| :: IsSpace(pre[i])
    requires forall i | 0 <= i < |post| :: IsSpace(post[i])
    requires ToLower(word) == "y" || ToLower(word) == "yes"
    ensures Accepts(pre + word + post)
  {
    var response := pre + word + post;
    var lower := ToLower(response);
    LowerKeepsSpace(response);
    assert lower[|pre|..|pre| + |word|] == ToLower(word);
    TrimAround(lower, |pre|, |word|);
  }

  /** A word that is not "y" or "yes" is refused, however it is padded. */
  lemma RefusesOtherWords(pre: string, word: string, post: string)
    requires forall i | 0 <= i < |pre| :: IsSpace(pre[i])
    requires forall i | 0 <= i < |post| :: IsSpace(post[i])
    requires word != [] && !IsSpace(word[0]) && !IsSpace(word[|word| - 1])
    requires ToLower(word) != "y" && ToLower(word) != "yes"
    ensures !Accepts(pre + word + post)
  {
    var response := pre + word + post;
    var lower := ToLower(response);
    LowerKeepsSpace(response);
    assert lower[|pre|..|pre| + |word|] == ToLower(word);
    assert response[|pre|] == word[0] && response[|pre| + |word| - 1] == word[|word| - 1];
    TrimAround(lower, |pre|, |word|);
  }

  /** A blank answer is refused: the prompt's default is no. */
  lemma RefusesBlank(response: string)
    requires forall i | 0 <= i < |response| :: IsSpace(response[i])
    ensures !Accepts(response)
  {
    LowerKeepsSpace(response);
  }

  /** Answers a user is expected to type that are accepted. */
  lemma AcceptsExamples()
    ensures Accepts("y\n") && Accepts("  YES \n")
  {
    assert "y\n" == "" + "y" + "\n";
    assert ToLower("y") == "y";
    AcceptsPadded("", "y", "\n");
    assert "  YES \n" == "  " + "YES" + " \n";
    assert ToLower("YES") == "yes";
    AcceptsPadded("  ", "YES", " \n");
  }

  /** A plain "n" is refused. */
  lemma RefusesNo()
    ensures !Accepts("n\n")
  {
    assert "n\n" == "" + "n" + "\n";
    assert ToLower("n") == "n";
    RefusesOtherWords("", "n", "\n");
  }

  /** A word that merely starts with "yes" is refused. */
  lemma RefusesYesPrefix()
    ensures !Accepts("yess")
  {
    var word := "yess";
    assert word == "" + word + "";
    assert |ToLower(word)| == 4;
    assert !IsSpace(word[0]) && !IsSpace(word[3]);
    RefusesOtherWords("", word, "");
  }

  // ---------------------------------------------------------------------------------------------
  // scan: actions

  /** `applyConfigDefaults`: a flag left false on the command line takes the configured value;
      a flag given as true stays true. */
  function ApplyConfigDefaults(actions: ActionsConfig, autoClose: bool, autoBlock: bool): (r: (bool, bool))
    ensures r.0 <==> autoClose || actions.closePRs
    ensures r.1 <==> autoBlock || actions.blockUsers
  {
    var close := if !autoClose && actions.closePRs then true else autoClose;
    var block := if !autoBlock && actions.blockUsers then true else autoBlock;
    (close, block)
  }

  /** The configuration can only turn actions on, and applying it twice changes nothing more. */
  lemma ApplyConfigDefaultsMonotone(actions: ActionsConfig, autoClose: bool, autoBlock: bool)
    ensures var (c, b) := ApplyConfigDefaults(actions, autoClose, autoBlock);
            && (autoClose ==> c) && (autoBlock ==> b)
            && (!actions.closePRs ==> c == autoClose) && (!actions.blockUsers ==> b == autoBlock)
            && ApplyConfigDefaults(actions, c, b) == (c, b)
  {
  }

  /** What the scan remembers about a spam author: the first of their spam pull requests. */
  datatype SpamUserInfo = SpamUserInfo(firstPR: int, evidenceUrl: string, severity: string, reasons: seq<string>)

  function InfoOf(r: ScanResult): SpamUserInfo {
    SpamUserInfo(r.pr.number, r.pr.htmlUrl, r.severity, r.reasons)
  }

  /** The spam users of the results in order: an author is added at their first result only. */
  function SpamUsers(spam: seq<ScanResult>): map<string, SpamUserInfo> {
    if |spam| == 0 then map[]
    else
      var users := SpamUsers(spam[..|spam| - 1]);
      var last := spam[|spam| - 1];
      if last.pr.author in users then users else users[last.pr.author := InfoOf(last)]
  }

  /** The authors of the results. */
  function Authors(spam: seq<ScanResult>): set<string> {
    set i | 0 <= i < |spam| :: spam[i].pr.author
  }

  /** `i` is the position of `author`'s first result. */
  predicate FirstOf(spam: seq<ScanResult>, author: string, i: int) {
    0 <= i < |spam| && spam[i].pr.author == author &&
    forall j | 0 <= j < i :: spam[j].pr.author != author
  }

  lemma AuthorsSnoc(spam: seq<ScanResult>)
    requires |spam| > 0
    ensures Authors(spam) == Authors(spam[..|spam| - 1]) + {spam[|spam| - 1].pr.author}
  {
    var init := spam[..|spam| - 1];
    forall a | a in Authors(spam) ensures a in Authors(init) + {spam[|spam| - 1].pr.author} {
      var i :| 0 <= i < |spam| && spam[i].pr.author == a;
      if i < |spam| - 1 { assert init[i] == spam[i]; }
    }
    forall a | a in Authors(init) ensures a in Authors(spam) {
      var i :| 0 <= i < |init| && init[i].pr.author == a;
      assert spam[i] == init[i];
    }
  }

  lemma NotAnAuthor(spam: seq<ScanResult>, author: string)
    requires author !in Authors(spam)
    ensures forall j | 0 <= j < |spam| :: spam[j].pr.author != author
  {
  }

  /** The keys are exactly the spam authors. */
  lemma {:induction false} SpamUsersKeys(spam: seq<ScanResult>)
    ensures SpamUsers(spam).Keys == Authors(spam)
  {
    if |spam| > 0 {
      SpamUsersKeys(spam[..|spam| - 1]);
      AuthorsSnoc(spam);
    }
  }

  /** Each value is taken from that author's first spam result. */
  lemma {:induction false} SpamUsersFirst(spam: seq<ScanResult>, author: string)
    requires author in SpamUsers(spam)
    ensures exists i | FirstOf(spam, author, i) :: SpamUsers(spam)[author] == InfoOf(spam[i])
  {
    var init := spam[..|spam| - 1];
    var last := spam[|spam| - 1];
    if author in SpamUsers(init) {
      SpamUsersFirst(init, author);
      var i :| FirstOf(init, author, i) && SpamUsers(init)[author] == InfoOf(init[i]);
      assert FirstOf(spam, author, i);
    } else {
      SpamUsersKeys(init);
      NotAnAuthor(init, author);
      assert forall j | 0 <= j < |spam| - 1 :: spam[j] == init[j];
      assert FirstOf(spam, author, |spam| - 1);
    }
  }

  /** `collectSpamUsers`: one entry per spam author, from their first spam result. */
  method CollectSpamUsers(results: ScanResults) returns (users: map<string, SpamUserInfo>)
    ensures users == SpamUsers(results.spam)
  {
    users := map[];
    if |results.spam| == 0 {
      return;
    }
    var i := 0;
    while i < |results.spam|
      invariant 0 <= i <= |results.spam|
      invariant users == SpamUsers(results.spam[..i])
    {
      var result := results.spam[i];
      assert results.spam[..i + 1][..i] == results.spam[..i];
      if result.pr.author !in users {
        users := users[result.pr.author := InfoOf(result)];
      }
      i := i + 1;
    }
    assert results.spam[..i] == results.spam;
  }

  /** No spam, no spam users. */
  lemma NoSpamNoUsers(results: ScanResults)
    requires results.spam == []
    ensures SpamUsers(results.spam) == map[]
  {
  }

  const AutoDetectedPrefix: string := "Auto-detected spam: "

  /** Who the automatic block is recorded as: the configured user, else the organisation. */
  function BlockedBy(github: GitHubConfig): (r: string)
    ensures github.user != "" ==> r == github.user
    ensures github.user == "" ==> r == github.org
  {
    var blockedBy := github.user;
    if blockedBy == "" then github.org else blockedBy
  }

  /** The reason recorded for an automatic block: the prefix, then the scan's reasons joined with
      a comma and a space. */
  function BlockReason(reasons: seq<string>): (r: string)
    ensures HasPrefix(r, AutoDetectedPrefix)
    ensures r[|AutoDetectedPrefix|..] == Join(reasons, ", ")
  {
    AutoDetectedPrefix + Join(reasons, ", ")
  }

  /** The arguments `executeBlockActions` hands to the blocklist for one spam user. */
  datatype BlockArgs = BlockArgs(username: string, reason: string, evidenceUrl: string,
                                 blockedBy: string, severity: string, source: string)

  function BlockArgsFor(github: GitHubConfig, username: string, info: SpamUserInfo): (a: BlockArgs)
    ensures a.username == username && a.evidenceUrl == info.evidenceUrl && a.severity == info.severity
    ensures a.reason == BlockReason(info.reasons) && a.blockedBy == BlockedBy(github)
    ensures a.source == SourceAutoDetected
  {
    BlockArgs(username, BlockReason(info.reasons), info.evidenceUrl, BlockedBy(github), info.severity, SourceAutoDetected)
  }

  /** Every automatic block satisfies both CHECK constraints of the table: a scan's severity is
      "low" or "high" and the source is "auto-detected", so `Block` can only fail on an id clash. */
  lemma AutoBlockRowsValid(f: FiltersConfig, prs: seq<(PullRequest, Result<User, string>)>, now: int,
                           github: GitHubConfig, username: string, id: string, ts: int)
    requires username in SpamUsers(SpamOf(ClassifyAll(f, prs, now)))
    ensures var a := BlockArgsFor(github, username, SpamUsers(SpamOf(ClassifyAll(f, prs, now)))[username]);
            RowValid(NewBlocklistEntry(id, ts, a.username, a.reason, a.evidenceUrl, a.blockedBy, a.severity, a.source))
  {
    var spam := SpamOf(ClassifyAll(f, prs, now));
    SpamUsersFirst(spam, username);
    var i :| FirstOf(spam, username, i) && SpamUsers(spam)[username] == InfoOf(spam[i]);
    BucketMembers(ClassifyAll(f, prs, now), spam[i]);
    var k :| 0 <= k < |prs| && ClassifyAll(f, prs, now)[k] == spam[i];
    assert spam[i].severity in {SeverityLow, SeverityHigh};
  }

  /** Automated actions run only when there is spam and closing or blocking was asked for. */
  predicate ShouldRunAutomatedActions(spamCount: nat, autoClose: bool, autoBlock: bool) {
    !(spamCount == 0 || (!autoClose && !autoBlock))
  }

  /** Suggestions are shown only when there is spam and neither action was asked for. */
  predicate ShowSuggestions(hasSpam: bool, autoClose: bool, autoBlock: bool) {
    !(!hasSpam || autoClose || autoBlock)
  }

  /** With spam found, exactly one of the two guards passes: the one of the automated actions or
      the one of the suggestions; without spam, neither. Passing the action guard still leaves
      the confirmation prompt, see `ActionsAfterConfirmation`. */
  lemma ActionsOrSuggestions(spamCount: nat, autoClose: bool, autoBlock: bool)
    ensures spamCount > 0 ==>
              (ShouldRunAutomatedActions(spamCount, autoClose, autoBlock) <==>
               !ShowSuggestions(spamCount > 0, autoClose, autoBlock))
    ensures spamCount == 0 ==>
              !ShouldRunAutomatedActions(spamCount, autoClose, autoBlock) && !ShowSuggestions(false, autoClose, autoBlock)
    ensures ShouldRunAutomatedActions(spamCount, autoClose, autoBlock) <==> spamCount > 0 && (autoClose || autoBlock)
  {
  }

  /** The automated actions run: their guard passed and the operator confirmed at the prompt. */
  predicate RunsActions(spamCount: nat, autoClose: bool, autoBlock: bool, response: string) {
    ShouldRunAutomatedActions(spamCount, autoClose, autoBlock) && Accepts(response)
  }

  /** The actions and the suggestions never both happen; a declined confirmation runs neither,
      since the suggestions are skipped whenever closing or blocking was asked for. */
  lemma ActionsAfterConfirmation(spamCount: nat, autoClose: bool, autoBlock: bool, response: string)
    ensures !(RunsActions(spamCount, autoClose, autoBlock, response) &&
              ShowSuggestions(spamCount > 0, autoClose, autoBlock))
    ensures ShouldRunAutomatedActions(spamCount, autoClose, autoBlock) && !Accepts(response) ==>
              !RunsActions(spamCount, autoClose, autoBlock, response) &&
              !ShowSuggestions(spamCount > 0, autoClose, autoBlock)
    ensures RunsActions(spamCount, autoClose, autoBlock, response) <==>
              spamCount > 0 && (autoClose || autoBlock) && Accepts(response)
  {
  }

  /** How `blockOnGitHub` blocks a user. */
  datatype BlockTarget = OrgBlock(org: string) | PersonalBlock | NoBlock

  /** The organisation when one is configured, else the personal account when a user is, else
      nothing. */
  function GitHubBlockTarget(github: GitHubConfig): (t: BlockTarget)
    ensures github.org != "" ==> t == OrgBlock(github.org)
    ensures github.org == "" && github.user != "" ==> t == PersonalBlock
    ensures t == NoBlock <==> github.org == "" && github.user == ""
  {
    if github.org != "" then OrgBlock(github.org)
    else if github.user != "" then PersonalBlock
    else NoBlock
  }

  /** A configuration that passes `Validate` always has a GitHub block target. */
  lemma ValidConfigHasBlockTarget(cfg: Config)
    requires cfg.Validate().Pass?
    ensures GitHubBlockTarget(cfg.github) != NoBlock
  {
  }

  const FallbackCloseComment: string := "This PR has been automatically closed due to spam indicators."

  /** The comment left on a closed pull request: the template, or the built-in text when it is
      empty. */
  function CloseComment(actions: ActionsConfig): (c: string)
    ensures actions.commentTemplate != "" ==> c == actions.commentTemplate
    ensures actions.commentTemplate == "" ==> c == FallbackCloseComment
  {
    var comment := actions.commentTemplate;
    if comment == "" then FallbackCloseComment else comment
  }

  /** After defaulting, the template is never empty, so the built-in close text is not used: the
      configured template or the default low-quality text is. */
  lemma DefaultedCommentIsTemplate(actions: ActionsConfig)
    ensures var c := CloseComment(ActionsWithDefaults(actions));
            && c == (if actions.commentTemplate == "" then DefaultCommentTemplate else actions.commentTemplate)
            && (actions.commentTemplate != FallbackCloseComment ==> c != FallbackCloseComment)
  {
    assert |DefaultCommentTemplate| != |FallbackCloseComment|;
  }

  // ---------------------------------------------------------------------------------------------
  // import

  /** `pluralize`: the singular for a count of one, else the plural. */
  function Pluralize(singular: string, plural: string, count: int): (r: string)
    ensures count == 1 ==> r == singular
    ensures count != 1 ==> r == plural
  {
    if count == 1 then singular else plural
  }

  const ErrImportNoSource: string := "either --file or --url must be specified"
  const ErrImportBothSources: string := "cannot specify both --file and --url"

  datatype ImportSource = FromFile(path: string) | FromUrl(url: string)

  /** The argument checks and dispatch of `runImport`: exactly one of the file and the URL must
      be given. */
  function ImportPlan(file: string, url: string): (r: Result<ImportSource, string>)
    ensures r.Failure? <==> (file == "" <==> url == "")
    ensures file == "" && url == "" ==> r == Failure(ErrImportNoSource)
    ensures file != "" && url != "" ==> r == Failure(ErrImportBothSources)
    ensures r.Success? && file != "" ==> r.value == FromFile(file)
    ensures r.Success? && file == "" ==> r.value == FromUrl(url)
  {
    if file == "" && url == "" then Failure(ErrImportNoSource)
    else if file != "" && url != "" then Failure(ErrImportBothSources)
    else if file != "" then Success(FromFile(file))
    else Success(FromUrl(url))
  }

  // ---------------------------------------------------------------------------------------------
  // export

  const ErrInvalidFormat: string := "invalid format, must be json or csv"

  datatype ExportFormat = Json | Csv

  /** The output path and format selection of `runExport`: only "json" and "csv" are accepted,
      an empty path becomes `blocklist.<format>`, and any other path is kept. */
  function ExportPlan(format: string, output: string): (r: Result<(ExportFormat, string), string>)
    ensures r.Success? <==> format == "json" || format == "csv"
    ensures r.Failure? ==> r.error == ErrInvalidFormat
    ensures r.Success? ==> r.value.0 == (if format == "json" then Json else Csv)
    ensures r.Success? && output != "" ==> r.value.1 == output
    ensures r.Success? && output == "" ==> r.value.1 == "blocklist." + format
  {
    var path :=
      if output == "" then
        if format == "json" then Success("blocklist.json")
        else if format == "csv" then Success("blocklist.csv")
        else Failure(ErrInvalidFormat)
      else Success(output);
    match path
    case Failure(e) => Failure(e)
    case Success(p) =>
      if format == "json" then Success((Json, p))
      else if format == "csv" then Success((Csv, p))
      else Failure(ErrInvalidFormat)
  }
}
