/** The pull-request classifier: five rules applied in a fixed order, and the partition of a
    repository's open pull requests into spam, uncertain and clean buckets. Times are whole
    seconds; the scan is given the current time `now`. */
module Scanner {
  import opened Wrappers
  import opened Text
  import opened Models
  import opened Config

  /** A pull request as the GitHub client reports it. */
  datatype PullRequest = PullRequest(
    number: int,
    title: string,
    body: string,
    author: string,
    createdAt: int,
    filesCount: int,
    additions: int,
    deletions: int,
    files: seq<string>,
    state: string,
    htmlUrl: string)

  /** A GitHub account; `createdAt` in seconds. */
  datatype User = User(login: string, createdAt: int, userType: string)

  datatype ScanResult = ScanResult(
    pr: PullRequest,
    isSpam: bool,
    isUncertain: bool,
    reasons: seq<string>,
    severity: string,
    recommendAction: string)

  const ReasonReadme: string := "Single-file README-only edit"
  const ReasonNewAccount: string := "Account created recently"
  const ReasonNewAccountUncertain: string := "Account created recently (suspicious but not definitive)"
  const ReasonMinimal: string := "Minimal changes (below threshold)"
  const ReasonSpamPhrases: string := "Contains spam phrases"

  const ActionBlock: string := "Block user and close PR"
  const ActionReview: string := "Manual review recommended"
  const ActionNone: string := "No action needed"

  const SecondsPerDay: int := 24 * 60 * 60

  // ---------------------------------------------------------------------------------------------
  // The rules

  /** The author appears in the whitelist. */
  predicate Whitelisted(f: FiltersConfig, username: string) {
    exists i | 0 <= i < |f.whitelist| :: f.whitelist[i] == username
  }

  /** The README rule is enabled, exactly one file is reported changed, and some listed file is a
      README. */
  predicate SingleFileReadmeEdit(f: FiltersConfig, pr: PullRequest) {
    f.readmeOnlyBlock && pr.filesCount == 1 &&
    exists i | 0 <= i < |pr.files| :: IsReadmeFile(pr.files[i])
  }

  /** The account is younger than the configured number of days (strictly). */
  predicate NewAccount(f: FiltersConfig, u: User, now: int) {
    now - u.createdAt < f.accountAgeDays * SecondsPerDay
  }

  /** Too few files, or too few changed lines. */
  predicate MinimalChanges(f: FiltersConfig, pr: PullRequest) {
    pr.filesCount < f.minFiles || pr.additions + pr.deletions < f.minLines
  }

  /** The title and body, joined by a space, as the phrase rule searches them. */
  function PhraseText(pr: PullRequest): string {
    ToLower(pr.title + " " + pr.body)
  }

  /** A non-empty phrase list one of whose phrases occurs, ignoring ASCII case, in the title and
      body joined by a space. */
  predicate HasSpamPhrase(f: FiltersConfig, pr: PullRequest) {
    |f.spamPhrases| > 0 &&
    exists i | 0 <= i < |f.spamPhrases| :: Contains(PhraseText(pr), ToLower(f.spamPhrases[i]))
  }

  /** An empty phrase in the list matches every pull request. */
  lemma EmptyPhraseMatchesAll(f: FiltersConfig, pr: PullRequest)
    requires "" in f.spamPhrases
    ensures HasSpamPhrase(f, pr)
  {
    var i :| 0 <= i < |f.spamPhrases| && f.spamPhrases[i] == "";
    assert OccursAt(PhraseText(pr), ToLower(f.spamPhrases[i]), 0);
  }

  /** `isWhitelisted`: a search of the whitelist that stops at the first match. */
  method IsWhitelisted(f: FiltersConfig, username: string) returns (b: bool)
    ensures b <==> Whitelisted(f, username)
  {
    var i := 0;
    while i < |f.whitelist|
      invariant 0 <= i <= |f.whitelist|
      invariant forall j | 0 <= j < i :: f.whitelist[j] != username
    {
      if f.whitelist[i] == username {
        return true;
      }
      i := i + 1;
    }
    return false;
  }

  /** `isSingleFileReadmeEdit`: the two guards, then a search of the file list. */
  method IsSingleFileReadmeEdit(f: FiltersConfig, pr: PullRequest) returns (b: bool)
    ensures b <==> SingleFileReadmeEdit(f, pr)
  {
    if !f.readmeOnlyBlock {
      return false;
    }
    if pr.filesCount != 1 {
      return false;
    }
    var i := 0;
    while i < |pr.files|
      invariant 0 <= i <= |pr.files|
      invariant forall j | 0 <= j < i :: !IsReadmeFile(pr.files[j])
    {
      if IsReadmeFile(pr.files[i]) {
        return true;
      }
      i := i + 1;
    }
    return false;
  }

  /** `containsSpamPhrases`: false on an empty list, else a search of the phrases. */
  method ContainsSpamPhrases(f: FiltersConfig, pr: PullRequest) returns (b: bool)
    ensures b <==> HasSpamPhrase(f, pr)
  {
    if |f.spamPhrases| == 0 {
      return false;
    }
    var text := ToLower(pr.title + " " + pr.body);
    var i := 0;
    while i < |f.spamPhrases|
      invariant 0 <= i <= |f.spamPhrases|
      invariant forall j | 0 <= j < i :: !Contains(text, ToLower(f.spamPhrases[j]))
    {
      if Contains(text, ToLower(f.spamPhrases[i])) {
        return true;
      }
      i := i + 1;
    }
    return false;
  }

  // ---------------------------------------------------------------------------------------------
  // The classification, stated declaratively

  /** The reasons of a non-whitelisted scan, in rule order: README, account, minimal, phrase. */
  function Reasons(readme: bool, newAccount: bool, minimal: bool, phrase: bool): seq<string> {
    (if readme then [ReasonReadme] else []) +
    (if newAccount then [if readme then ReasonNewAccount else ReasonNewAccountUncertain] else []) +
    (if minimal then [ReasonMinimal] else []) +
    (if phrase then [ReasonSpamPhrases] else [])
  }

  /** The result of scanning `pr` by `user` (None when there is no account information). */
  function Classify(f: FiltersConfig, pr: PullRequest, user: Option<User>, now: int): (r: ScanResult)
    ensures r.pr == pr
    ensures Whitelisted(f, pr.author) ==> r == ScanResult(pr, false, false, [], SeverityLow, "")
    ensures !Whitelisted(f, pr.author) ==>
              && (r.isSpam <==> SingleFileReadmeEdit(f, pr) || HasSpamPhrase(f, pr))
              && (r.isSpam ==> r.severity == SeverityHigh)
              && (!r.isSpam ==> r.severity == SeverityLow)
              && r.recommendAction == (if r.isSpam then ActionBlock
                                       else if r.isUncertain then ActionReview
                                       else ActionNone)
  {
    if Whitelisted(f, pr.author) then
      ScanResult(pr, false, false, [], SeverityLow, "")
    else
      var readme := SingleFileReadmeEdit(f, pr);
      var newAccount := user.Some? && NewAccount(f, user.value, now);
      var minimal := MinimalChanges(f, pr);
      var phrase := HasSpamPhrase(f, pr);
      var spam := readme || phrase;
      var uncertain := !readme && (newAccount || minimal);
      ScanResult(pr, spam, uncertain, Reasons(readme, newAccount, minimal, phrase),
                 if spam then SeverityHigh else SeverityLow,
                 if spam then ActionBlock else if uncertain then ActionReview else ActionNone)
  }

  /** The account and minimal-changes rules alone never make a pull request spam: they set the
      uncertain flag exactly when the README rule did not fire. */
  lemma UncertainOnlyFromWeakRules(f: FiltersConfig, pr: PullRequest, user: Option<User>, now: int)
    requires !Whitelisted(f, pr.author)
    ensures Classify(f, pr, user, now).isUncertain <==>
              !SingleFileReadmeEdit(f, pr) &&
              ((user.Some? && NewAccount(f, user.value, now)) || MinimalChanges(f, pr))
    ensures !SingleFileReadmeEdit(f, pr) && !HasSpamPhrase(f, pr) ==> !Classify(f, pr, user, now).isSpam
  {
  }

  /** The five reason texts are distinct. */
  lemma ReasonTextsDistinct()
    ensures var all := [ReasonReadme, ReasonNewAccount, ReasonNewAccountUncertain, ReasonMinimal, ReasonSpamPhrases];
            forall i, j | 0 <= i < j < |all| :: all[i] != all[j]
  {
    assert ReasonReadme[0] == 'S' && ReasonNewAccount[0] == 'A' && ReasonNewAccountUncertain[0] == 'A';
    assert ReasonMinimal[0] == 'M' && ReasonSpamPhrases[0] == 'C';
    assert |ReasonNewAccount| != |ReasonNewAccountUncertain|;
  }

  /** The reasons are distinct, at most four, README first and phrase last when they fired. */
  lemma ReasonsInRuleOrder(readme: bool, newAccount: bool, minimal: bool, phrase: bool)
    ensures var rs := Reasons(readme, newAccount, minimal, phrase);
            && |rs| <= 4
            && (forall i, j | 0 <= i < j < |rs| :: rs[i] != rs[j])
            && (readme ==> rs[0] == ReasonReadme)
            && (phrase ==> rs[|rs| - 1] == ReasonSpamPhrases)
  {
    ReasonTextsDistinct();
  }

  /** Each reason is present exactly when its rule fired; the plain account text only follows a
      README hit. */
  lemma ReasonsPresent(readme: bool, newAccount: bool, minimal: bool, phrase: bool)
    ensures var rs := Reasons(readme, newAccount, minimal, phrase);
            && (ReasonReadme in rs <==> readme)
            && (ReasonMinimal in rs <==> minimal)
            && (ReasonSpamPhrases in rs <==> phrase)
            && (ReasonNewAccount in rs <==> newAccount && readme)
            && (ReasonNewAccountUncertain in rs <==> newAccount && !readme)
  {
    ReasonTextsDistinct();
  }

  /** The reasons of a scan are the ones `Reasons` gives for the rules that fired. */
  lemma ClassifyReasons(f: FiltersConfig, pr: PullRequest, user: Option<User>, now: int)
    requires !Whitelisted(f, pr.author)
    ensures var r := Classify(f, pr, user, now);
            && |r.reasons| <= 4
            && (ReasonReadme in r.reasons <==> SingleFileReadmeEdit(f, pr))
            && (ReasonMinimal in r.reasons <==> MinimalChanges(f, pr))
            && (ReasonSpamPhrases in r.reasons <==> HasSpamPhrase(f, pr))
            && ((ReasonNewAccount in r.reasons || ReasonNewAccountUncertain in r.reasons) <==>
                  user.Some? && NewAccount(f, user.value, now))
  {
    ReasonsInRuleOrder(SingleFileReadmeEdit(f, pr), user.Some? && NewAccount(f, user.value, now),
                       MinimalChanges(f, pr), HasSpamPhrase(f, pr));
    ReasonsPresent(SingleFileReadmeEdit(f, pr), user.Some? && NewAccount(f, user.value, now),
                   MinimalChanges(f, pr), HasSpamPhrase(f, pr));
  }

  /** Without a user the account rule is skipped: the result is the one for a user whose account
      is old enough. */
  lemma MissingUserSkipsAccountRule(f: FiltersConfig, pr: PullRequest, u: User, now: int)
    requires !NewAccount(f, u, now)
    ensures Classify(f, pr, None, now) == Classify(f, pr, Some(u), now)
  {
  }

  /** A new account that uses a spam phrase, without the README rule, is both spam and uncertain;
      the spam action wins, and the account reason keeps its "not definitive" text. */
  lemma SpamAndUncertainTogether(f: FiltersConfig, pr: PullRequest, u: User, now: int)
    requires !Whitelisted(f, pr.author) && !SingleFileReadmeEdit(f, pr)
    requires NewAccount(f, u, now) && HasSpamPhrase(f, pr)
    ensures var r := Classify(f, pr, Some(u), now);
            && r.isSpam && r.isUncertain && r.severity == SeverityHigh && r.recommendAction == ActionBlock
            && r.reasons == [ReasonNewAccountUncertain] +
                            (if MinimalChanges(f, pr) then [ReasonMinimal] else []) + [ReasonSpamPhrases]
  {
  }

  /** Raising a threshold, or shrinking the change, never turns a minimal change into one that is not. */
  lemma MinimalChangesMonotone(f: FiltersConfig, g: FiltersConfig, pr: PullRequest, smaller: PullRequest)
    requires g.minFiles >= f.minFiles && g.minLines >= f.minLines
    requires smaller.filesCount <= pr.filesCount
    requires smaller.additions + smaller.deletions <= pr.additions + pr.deletions
    ensures MinimalChanges(f, pr) ==> MinimalChanges(g, pr)
    ensures MinimalChanges(f, pr) ==> MinimalChanges(f, smaller)
    ensures !MinimalChanges(f, pr) <==> pr.filesCount >= f.minFiles && pr.additions + pr.deletions >= f.minLines
  {
  }

  /** At the default thresholds, two files and ten lines are not minimal; one fewer of either is. */
  lemma MinimalChangesAtDefaults(pr: PullRequest, f: FiltersConfig)
    requires f.minFiles == DefaultMinFiles && f.minLines == DefaultMinLines
    ensures pr.filesCount == 2 && pr.additions + pr.deletions == 10 ==> !MinimalChanges(f, pr)
    ensures pr.filesCount == 1 || pr.additions + pr.deletions == 9 ==> MinimalChanges(f, pr)
  {
  }

  // ---------------------------------------------------------------------------------------------
  // Scanning one pull request, step by step

  /** `ScanPR`: starts from a clean low-severity result, returns it at once for a whitelisted
      author, and otherwise applies the README, account, minimal-changes and phrase rules in turn
      before choosing the action. */
  method ScanPR(f: FiltersConfig, pr: PullRequest, user: Option<User>, now: int) returns (r: ScanResult)
    ensures r == Classify(f, pr, user, now)
  {
    r := ScanResult(pr, false, false, [], SeverityLow, "");
    var whitelisted := IsWhitelisted(f, pr.author);
    if whitelisted {
      return;
    }
    ghost var newAccount := user.Some? && NewAccount(f, user.value, now);
    ghost var minimal := MinimalChanges(f, pr);
    var readme := IsSingleFileReadmeEdit(f, pr);
    if readme {
      r := r.(isSpam := true, reasons := r.reasons + [ReasonReadme], severity := SeverityHigh);
    }
    assert r.isSpam == readme && !r.isUncertain && r.reasons == Reasons(readme, false, false, false);
    if user.Some? && NewAccount(f, user.value, now) {
      if r.isSpam {
        r := r.(reasons := r.reasons + [ReasonNewAccount]);
      } else {
        r := r.(isUncertain := true, reasons := r.reasons + [ReasonNewAccountUncertain]);
      }
    }
    assert r.isSpam == readme && r.isUncertain == (!readme && newAccount);
    assert r.reasons == Reasons(readme, newAccount, false, false);
    if MinimalChanges(f, pr) {
      if r.isSpam {
        r := r.(reasons := r.reasons + [ReasonMinimal]);
      } else {
        r := r.(isUncertain := true, reasons := r.reasons + [ReasonMinimal]);
      }
    }
    assert r.isSpam == readme && r.isUncertain == (!readme && (newAccount || minimal));
    assert r.reasons == Reasons(readme, newAccount, minimal, false);
    var phrase := ContainsSpamPhrases(f, pr);
    if phrase {
      r := r.(isSpam := true, reasons := r.reasons + [ReasonSpamPhrases], severity := SeverityHigh);
    }
    assert r.reasons == Reasons(readme, newAccount, minimal, phrase);
    if r.isSpam {
      r := r.(recommendAction := ActionBlock);
    } else if r.isUncertain {
      r := r.(recommendAction := ActionReview);
    } else {
      r := r.(recommendAction := ActionNone);
    }
  }

  // ---------------------------------------------------------------------------------------------
  // Scanning a repository

  datatype ScanResults = ScanResults(total: nat, spam: seq<ScanResult>, uncertain: seq<ScanResult>, clean: seq<ScanResult>)

  /** The user to scan with: a failed lookup counts as no user. */
  function UserOf(lookup: Result<User, string>): (u: Option<User>)
    ensures u.Some? <==> lookup.Success?
    ensures lookup.Success? ==> u.value == lookup.value
  {
    if lookup.Success? then Some(lookup.value) else None
  }

  /** Each listed pull request, with its user lookup, classified in order. */
  function ClassifyAll(f: FiltersConfig, prs: seq<(PullRequest, Result<User, string>)>, now: int): (rs: seq<ScanResult>)
    ensures |rs| == |prs|
    ensures forall i | 0 <= i < |prs| :: rs[i] == Classify(f, prs[i].0, UserOf(prs[i].1), now)
  {
    seq(|prs|, i requires 0 <= i < |prs| => Classify(f, prs[i].0, UserOf(prs[i].1), now))
  }

  predicate InSpam(r: ScanResult) { r.isSpam }
  predicate InUncertain(r: ScanResult) { !r.isSpam && r.isUncertain }
  predicate InClean(r: ScanResult) { !r.isSpam && !r.isUncertain }

  /** The spam results, in order. */
  function SpamOf(rs: seq<ScanResult>): seq<ScanResult> {
    if |rs| == 0 then [] else SpamOf(rs[..|rs| - 1]) + (if InSpam(rs[|rs| - 1]) then [rs[|rs| - 1]] else [])
  }

  /** The uncertain results that are not spam, in order. */
  function UncertainOf(rs: seq<ScanResult>): seq<ScanResult> {
    if |rs| == 0 then [] else UncertainOf(rs[..|rs| - 1]) + (if InUncertain(rs[|rs| - 1]) then [rs[|rs| - 1]] else [])
  }

  /** The results that are neither, in order. */
  function CleanOf(rs: seq<ScanResult>): seq<ScanResult> {
    if |rs| == 0 then [] else CleanOf(rs[..|rs| - 1]) + (if InClean(rs[|rs| - 1]) then [rs[|rs| - 1]] else [])
  }

  /** Every result lands in exactly one bucket, so the bucket sizes add up to the number scanned. */
  lemma {:induction false} BucketsPartition(rs: seq<ScanResult>)
    ensures |SpamOf(rs)| + |UncertainOf(rs)| + |CleanOf(rs)| == |rs|
  {
    if |rs| > 0 {
      BucketsPartition(rs[..|rs| - 1]);
    }
  }

  /** A bucket holds exactly the results of its kind. */
  lemma {:induction false} BucketMembers(rs: seq<ScanResult>, r: ScanResult)
    ensures r in SpamOf(rs) <==> r in rs && InSpam(r)
    ensures r in UncertainOf(rs) <==> r in rs && InUncertain(r)
    ensures r in CleanOf(rs) <==> r in rs && InClean(r)
  {
    if |rs| > 0 {
      BucketMembers(rs[..|rs| - 1], r);
      assert rs == rs[..|rs| - 1] + [rs[|rs| - 1]];
    }
  }

  /** `ScanRepository`: a listing error is passed on; otherwise every pull request is scanned in
      order and appended to the spam bucket, else the uncertain bucket, else the clean one. */
  method ScanRepository(f: FiltersConfig, listing: Result<seq<(PullRequest, Result<User, string>)>, string>, now: int)
    returns (r: Result<ScanResults, string>)
    ensures listing.Failure? ==> r == Failure(listing.error)
    ensures listing.Success? ==>
              var rs := ClassifyAll(f, listing.value, now);
              r == Success(ScanResults(|listing.value|, SpamOf(rs), UncertainOf(rs), CleanOf(rs)))
  {
    if listing.Failure? {
      return Failure(listing.error);
    }
    var prs := listing.value;
    var spam: seq<ScanResult> := [];
    var uncertain: seq<ScanResult> := [];
    var clean: seq<ScanResult> := [];
    var i := 0;
    while i < |prs|
      invariant 0 <= i <= |prs|
      invariant spam == SpamOf(ClassifyAll(f, prs[..i], now))
      invariant uncertain == UncertainOf(ClassifyAll(f, prs[..i], now))
      invariant clean == CleanOf(ClassifyAll(f, prs[..i], now))
    {
      var (pr, lookup) := prs[i];
      var user := if lookup.Success? then Some(lookup.value) else None;
      var result := ScanPR(f, pr, user, now);
      ghost var next := ClassifyAll(f, prs[..i + 1], now);
      assert next[..i] == ClassifyAll(f, prs[..i], now);
      assert next[i] == result;
      if result.isSpam {
        spam := spam + [result];
      } else if result.isUncertain {
        uncertain := uncertain + [result];
      } else {
        clean := clean + [result];
      }
      i := i + 1;
    }
    assert prs[..i] == prs;
    return Success(ScanResults(|prs|, spam, uncertain, clean));
  }

  /** The total of a scan equals the sum of its bucket sizes. */
  lemma ScanTotalsAddUp(f: FiltersConfig, prs: seq<(PullRequest, Result<User, string>)>, now: int)
    ensures var rs := ClassifyAll(f, prs, now);
            |SpamOf(rs)| + |UncertainOf(rs)| + |CleanOf(rs)| == |prs|
  {
    BucketsPartition(ClassifyAll(f, prs, now));
  }
}
