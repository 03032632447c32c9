/** The application configuration: its sections, validation, defaulting, and two helpers the
    scanner and the commands use. */
module Config {
  import opened Wrappers
  import opened Text

  /** A repository to monitor. */
  datatype Repository = Repository(owner: string, name: string) {
    /** `FullName`: owner, a slash, then name. */
    function FullName(): (r: string)
      ensures |r| == |owner| + 1 + |name|
      ensures r[..|owner|] == owner && r[|owner|] == '/' && r[|owner| + 1..] == name
    {
      owner + "/" + name
    }
  }

  datatype GitHubConfig = GitHubConfig(token: string, org: string, user: string)

  /** `dbType` is the `type` key: "sqlite" or "turso". */
  datatype DatabaseConfig = DatabaseConfig(dbType: string, path: string, url: string, authToken: string)

  datatype FiltersConfig = FiltersConfig(
    minFiles: int,
    minLines: int,
    accountAgeDays: int,
    readmeOnlyBlock: bool,
    whitelist: seq<string>,
    spamPhrases: seq<string>)

  datatype BlocklistSource = BlocklistSource(name: string, url: string, trusted: bool, autoSync: bool)

  datatype BlocklistConfig = BlocklistConfig(autoExport: bool, exportPath: string, sources: seq<BlocklistSource>)

  datatype ActionsConfig = ActionsConfig(closePRs: bool, blockUsers: bool, addSpamLabel: bool, commentTemplate: string)

  /** The failures of `Validate`, one per check. */
  datatype ConfigError =
    | TokenRequired          // github.token is required
    | OrgOrUserRequired      // either github.org or github.user must be specified
    | DatabaseTypeRequired   // database.type is required
    | DatabaseTypeInvalid    // database.type must be 'sqlite' or 'turso'
    | SqlitePathRequired     // database.path is required for sqlite
    | TursoUrlRequired       // database.url is required for turso

  const DefaultMinFiles: int := 2
  const DefaultMinLines: int := 10
  const DefaultAccountAgeDays: int := 7
  const DefaultExportPath: string := "./exports"
  const DefaultCommentTemplate: string :=
    "This PR has been automatically closed due to low quality indicators.\nIf you believe this is an error, please contact the maintainers."
  /** The sqlite path used when the home directory cannot be determined. */
  const FallbackDatabasePath: string := "./prguard.db"

  /** `v`, or `d` when `v` is Go's zero value. */
  function IntOrDefault(v: int, d: int): (r: int)
    ensures v != 0 ==> r == v
    ensures v == 0 ==> r == d
  {
    if v == 0 then d else v
  }

  /** `v`, or `d` when `v` is empty. */
  function StringOrDefault(v: string, d: string): (r: string)
    ensures v != "" ==> r == v
    ensures v == "" ==> r == d
  {
    if v == "" then d else v
  }

  /** The filter thresholds after defaulting; the flags and lists are left as they are. */
  function FiltersWithDefaults(f: FiltersConfig): (r: FiltersConfig)
    ensures r.minFiles != 0 && r.minLines != 0 && r.accountAgeDays != 0
    ensures f.minFiles == 0 ==> r.minFiles == DefaultMinFiles
    ensures f.minLines == 0 ==> r.minLines == DefaultMinLines
    ensures f.accountAgeDays == 0 ==> r.accountAgeDays == DefaultAccountAgeDays
    ensures f.minFiles != 0 ==> r.minFiles == f.minFiles
    ensures f.minLines != 0 ==> r.minLines == f.minLines
    ensures f.accountAgeDays != 0 ==> r.accountAgeDays == f.accountAgeDays
    ensures r.readmeOnlyBlock == f.readmeOnlyBlock && r.whitelist == f.whitelist && r.spamPhrases == f.spamPhrases
  {
    f.(minFiles := IntOrDefault(f.minFiles, DefaultMinFiles),
       minLines := IntOrDefault(f.minLines, DefaultMinLines),
       accountAgeDays := IntOrDefault(f.accountAgeDays, DefaultAccountAgeDays))
  }

  /** The blocklist section after defaulting: an empty export path becomes "./exports". */
  function BlocklistWithDefaults(b: BlocklistConfig): (r: BlocklistConfig)
    ensures r.exportPath != ""
    ensures b.exportPath != "" ==> r == b
    ensures b.exportPath == "" ==> r == b.(exportPath := DefaultExportPath)
  {
    b.(exportPath := StringOrDefault(b.exportPath, DefaultExportPath))
  }

  /** The actions section after defaulting: an empty comment template becomes the default text. */
  function ActionsWithDefaults(a: ActionsConfig): (r: ActionsConfig)
    ensures r.commentTemplate != ""
    ensures a.commentTemplate != "" ==> r == a
    ensures a.commentTemplate == "" ==> r == a.(commentTemplate := DefaultCommentTemplate)
  {
    a.(commentTemplate := StringOrDefault(a.commentTemplate, DefaultCommentTemplate))
  }

  /** The default sqlite path: under the home directory when there is one (`home` is the result of
      the home-directory lookup), else in the working directory. */
  function DefaultDatabasePath(home: Option<string>): (p: string)
    ensures p != ""
    ensures home.None? ==> p == FallbackDatabasePath
    ensures home.Some? ==> p == home.value + "/.local/prguard/prguard.db"
  {
    match home
    case Some(h) => h + "/.local/prguard/prguard.db"
    case None => FallbackDatabasePath
  }

  /** The database section after defaulting: only an sqlite database without a path gets one. */
  function DatabaseWithDefaults(d: DatabaseConfig, home: Option<string>): (r: DatabaseConfig)
    ensures r.dbType == d.dbType && r.url == d.url && r.authToken == d.authToken
    ensures d.dbType == "sqlite" && d.path == "" ==> r.path == DefaultDatabasePath(home)
    ensures !(d.dbType == "sqlite" && d.path == "") ==> r.path == d.path
    ensures r.dbType == "sqlite" ==> r.path != ""
  {
    if d.dbType == "sqlite" && d.path == "" then d.(path := DefaultDatabasePath(home)) else d
  }

  /** `SetDefaults` changes only zero or empty fields, so applying it twice is applying it once. */
  lemma DefaultsIdempotent(f: FiltersConfig, d: DatabaseConfig, b: BlocklistConfig, a: ActionsConfig, home: Option<string>)
    ensures FiltersWithDefaults(FiltersWithDefaults(f)) == FiltersWithDefaults(f)
    ensures DatabaseWithDefaults(DatabaseWithDefaults(d, home), home) == DatabaseWithDefaults(d, home)
    ensures BlocklistWithDefaults(BlocklistWithDefaults(b)) == BlocklistWithDefaults(b)
    ensures ActionsWithDefaults(ActionsWithDefaults(a)) == ActionsWithDefaults(a)
  {
  }

  /** `IsReadmeFile`: the name starts with "readme" in any letter case. The whole name is examined,
      not its base name, so a README in a sub-directory does not count. */
  predicate IsReadmeFile(filename: string) {
    HasPrefix(ToLower(filename), "readme")
  }

  /** The README check looks at the first six characters and nothing else. */
  lemma IsReadmeFileMeaning(filename: string)
    ensures IsReadmeFile(filename) <==>
              |filename| >= 6 && forall i :: 0 <= i < 6 ==> LowerChar(filename[i]) == "readme"[i]
  {
    var lower := ToLower(filename);
    if |filename| >= 6 && forall i :: 0 <= i < 6 ==> LowerChar(filename[i]) == "readme"[i] {
      assert lower[..6] == "readme";
    }
  }

  /** README files at the top level, in any letter case, count. */
  lemma IsReadmeFileAccepts()
    ensures IsReadmeFile("README.md") && IsReadmeFile("readme.txt") && IsReadmeFile("Readme.rst")
  {
    IsReadmeFileMeaning("README.md");
    IsReadmeFileMeaning("readme.txt");
    IsReadmeFileMeaning("Readme.rst");
  }

  /** A README in a sub-directory, another file, and the empty name do not count. */
  lemma IsReadmeFileRejects()
    ensures !IsReadmeFile("docs/README.md") && !IsReadmeFile("CONTRIBUTING.md") && !IsReadmeFile("")
  {
    assert ToLower("docs/README.md")[0] == 'd';
    assert ToLower("CONTRIBUTING.md")[0] == 'c';
  }

  /** The configuration object; `SetDefaults` updates it in place. */
  class Config {
    var github: GitHubConfig
    var database: DatabaseConfig
    var repositories: seq<Repository>
    var filters: FiltersConfig
    var blocklist: BlocklistConfig
    var actions: ActionsConfig

    constructor (github: GitHubConfig, database: DatabaseConfig, repositories: seq<Repository>,
                 filters: FiltersConfig, blocklist: BlocklistConfig, actions: ActionsConfig)
      ensures this.github == github && this.database == database && this.repositories == repositories
      ensures this.filters == filters && this.blocklist == blocklist && this.actions == actions
    {
      this.github := github;
      this.database := database;
      this.repositories := repositories;
      this.filters := filters;
      this.blocklist := blocklist;
      this.actions := actions;
    }

    /** `Validate`: success exactly when a token, an org or user, and a complete sqlite or turso
        database are configured; otherwise the first check that fails, in the order below. */
    function Validate(): (r: Outcome<ConfigError>)
      reads this
      ensures r.Pass? <==> && github.token != ""
                           && (github.org != "" || github.user != "")
                           && ((database.dbType == "sqlite" && database.path != "")
                               || (database.dbType == "turso" && database.url != ""))
      // each error is returned exactly when its check fails and every earlier check passed
      ensures r == Fail(TokenRequired) <==> github.token == ""
      ensures r == Fail(OrgOrUserRequired) <==> github.token != "" && github.org == "" && github.user == ""
      ensures r == Fail(DatabaseTypeRequired) <==>
                github.token != "" && (github.org != "" || github.user != "") && database.dbType == ""
      ensures r == Fail(DatabaseTypeInvalid) <==>
                github.token != "" && (github.org != "" || github.user != "") && database.dbType != ""
                && database.dbType != "sqlite" && database.dbType != "turso"
      ensures r == Fail(SqlitePathRequired) <==>
                github.token != "" && (github.org != "" || github.user != "")
                && database.dbType == "sqlite" && database.path == ""
      ensures r == Fail(TursoUrlRequired) <==>
                github.token != "" && (github.org != "" || github.user != "")
                && database.dbType == "turso" && database.url == ""
    {
      if github.token == "" then Fail(TokenRequired)
      else if github.org == "" && github.user == "" then Fail(OrgOrUserRequired)
      else if database.dbType == "" then Fail(DatabaseTypeRequired)
      else if database.dbType != "sqlite" && database.dbType != "turso" then Fail(DatabaseTypeInvalid)
      else if database.dbType == "sqlite" && database.path == "" then Fail(SqlitePathRequired)
      else if database.dbType == "turso" && database.url == "" then Fail(TursoUrlRequired)
      else Pass
    }

    /** `SetDefaults`: fills zero thresholds, an empty export path, an empty comment template and
        a missing sqlite path; `home` is the home-directory lookup. */
    method SetDefaults(home: Option<string>)
      modifies this
      ensures github == old(github) && repositories == old(repositories)
      ensures filters == FiltersWithDefaults(old(filters))
      ensures database == DatabaseWithDefaults(old(database), home)
      ensures blocklist == BlocklistWithDefaults(old(blocklist))
      ensures actions == ActionsWithDefaults(old(actions))
    {
      filters := FiltersWithDefaults(filters);
      blocklist := BlocklistWithDefaults(blocklist);
      actions := ActionsWithDefaults(actions);
      database := DatabaseWithDefaults(database, home);
    }
  }
}
