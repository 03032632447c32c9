# prguard core, modelled in Dafny

prguard is a command-line tool that finds low-quality ("spam") pull requests in a GitHub
repository. It blocks their authors in a local blocklist and can exchange that blocklist with
other maintainers. This project models its decision core and proves properties about it:

- **Scanner** (`scanner.dfy`) — the pull-request classifier.
  - Five rules run in a fixed order: whitelist short-circuit, single-file README edit, new
    account, minimal changes, spam phrase.
  - It produces spam and uncertain flags, a severity, the ordered reasons and a recommended action.
  - A repository scan partitions the open pull requests into the spam, uncertain and clean
    buckets.
  - `ScanPR` and `ScanRepository` are imperative methods. Each is proved equal to a declarative
    specification (`Classify`, `ClassifyAll` with `SpamOf`/`UncertainOf`/`CleanOf`), and the
    properties are proved as lemmas about that specification.
- **Blocklist store** (`schema.dfy`, `database.dfy`).
  - The `blocklist` table is `class DB` holding a map from the primary key to the row.
  - Its constraints (primary key, the two CHECK enumerations, the metadata default) are
    `TableValid`.
  - Every SQL statement is a method that states exactly which rows and columns change.
- **Blocklist manager** (`blocklist.dfy`) — block and unblock, the merge of an imported batch by
  id and severity rank, and the records that JSON and CSV export write.
  - `ImportEntries` is a loop proved against the fold `ImportFrom`.
  - The fold is shown to:
    - bound the count;
    - keep the table valid;
    - never lower a severity;
    - make a re-import a no-op;
    - rebuild an exported table on import into an empty store.
- **Configuration** (`config.dfy`) — `class Config` with `Validate`, `SetDefaults` (updates the
  object in place; it takes the home-directory lookup as a parameter), `IsReadmeFile` and
  `Repository.FullName`.
- **Commands** (`commands.dfy`) — the decision logic of `scan`, `import` and `export`:
  - repository parsing and the flag check;
  - the yes/no confirmation check;
  - the configured action defaults;
  - the spam-user map (a loop);
  - the block arguments;
  - the action guards;
  - the GitHub block target and the close comment;
  - import-source and export-format selection.
- `models.dfy` holds the entry record. `text.dfy` holds the ASCII string helpers, and
  `wrappers.dfy` holds `Option`, `Result` and `Outcome`.

Times are whole seconds. The current time and the fresh UUID are parameters.

Behaviour of the code worth noting:

- A whitelisted author's result keeps an empty recommended action, because `ScanPR` returns
  before setting it. It is not "no action needed".
- `SetDefaults` gives `readmeOnlyBlock` no default. A false value stays false.
- The severity update keeps not only the id and timestamp but also the username, `blocked_by`
  and source. Only reason, evidence URL, severity and metadata are rewritten.
- The per-user listing has no `ORDER BY`, so the model promises the right rows in no
  particular order.

## Model

| member | source | states |
|---|---|---|
| Models.NewBlocklistEntry | pkg/models/blocklist.go:38-50 | the six arguments land in their own fields, the id and timestamp are the given fresh values, metadata is "{}" |
| Models.ConstantsDistinct | pkg/models/blocklist.go:53-64 | the three severities are distinct and so are the three sources |
| Schema.ConstantsMatchSchema | internal/database/schema.go:11-13 | the record's severity and source constants are exactly the CHECK sets, and the new-entry metadata is the column default |
| Schema.PrimaryKeyUnique | internal/database/schema.go:5 | in a valid table two distinct rows have distinct ids |
| Database.Insert | internal/database/database.go:57-74 | insertion succeeds iff both CHECKs pass and the id is new; on success exactly that row is added and every other row is kept; a bad severity is reported first |
| Database.Revised | internal/database/database.go:191-199 | only reason, evidence_url, severity and metadata take the new values; id, username, timestamp, blocked_by and source are kept |
| Database.Update | internal/database/database.go:191-199 | fails iff the id is present and the new severity breaks the CHECK; an absent id changes nothing; other rows are untouched |
| Database.Blocked | internal/database/database.go:102-110 | some row has the username; DB.IsBlocked computes it and WithoutUser makes it false |
| Database.UserIds | internal/database/database.go:113-114 | exactly the ids of the rows whose username is u |
| Database.WithoutUser | internal/database/database.go:184-188 | removes exactly the user's rows, keeps every other row unchanged, and the user is no longer blocked |
| Database.DB.constructor | internal/database/schema.go:3-14 | a fresh table is empty and valid |
| Database.DB.AddEntry | internal/database/database.go:57-74 | on success the table is Insert's result; on a constraint violation the error is returned and the table is unchanged; validity is preserved |
| Database.DB.GetEntry | internal/database/database.go:77-99 | None (not an error) iff no row has the id; otherwise the stored row, whose id is the key and which satisfies the CHECKs |
| Database.DB.IsBlocked | internal/database/database.go:102-110 | the row count is positive iff some row has the username |
| Database.DB.GetEntriesByUsername | internal/database/database.go:113-142 | lists every row of the user exactly once and nothing else; every listed username is u |
| Database.DB.ListEntries | internal/database/database.go:145-174 | lists every row exactly once, timestamps non-increasing |
| Database.DB.RemoveEntry | internal/database/database.go:177-181 | removes only that id (a missing id is a no-op); every other row is unchanged |
| Database.DB.RemoveByUsername | internal/database/database.go:184-188 | the table becomes WithoutUser of the old table |
| Database.DB.UpdateEntry | internal/database/database.go:191-199 | on success the table is Update's result; on failure it is unchanged and the CHECK error is returned |
| Blocklist.ShouldUpdate | internal/blocklist/blocklist.go:202-210 | the incoming rank is strictly above the stored rank; ShouldUpdateImpliesValid and ImportOne state its consequences |
| Blocklist.SeverityRank | internal/blocklist/blocklist.go:202-210 | low, medium, high rank 1, 2, 3; any other string ranks 0 |
| Blocklist.ShouldUpdateImpliesValid | internal/blocklist/blocklist.go:181-183 | an update that shouldUpdate allows over a stored row has a valid severity, so UpdateEntry cannot fail; a stored "high" is never replaced |
| Blocklist.ImportOne | internal/blocklist/blocklist.go:172-196 | an absent id is inserted with source "imported" and counted; a present id whose incoming rank is not strictly higher changes nothing and counts nothing; a strictly higher one rewrites the four updatable columns and is counted; a new entry with an invalid severity stops the import with the add error |
| Blocklist.ImportFrom | internal/blocklist/blocklist.go:172-196 | the loop of importEntries: ImportOne on each entry in order until the first error; its properties are the Import lemmas below |
| Blocklist.Import | internal/blocklist/blocklist.go:170-199 | importEntries from a zero count on a table; ImportEntries equals it |
| Blocklist.ImportFromCount | internal/blocklist/blocklist.go:170-198 | the count grows by at most one per entry and never shrinks |
| Blocklist.ImportCountBound | internal/blocklist/blocklist.go:170-198 | the returned count is at most the batch length |
| Blocklist.ImportFromValid | internal/blocklist/blocklist.go:170-198 | import keeps the table valid |
| Blocklist.ImportFromDominates | internal/blocklist/blocklist.go:179-188 | import never removes a row and never lowers a stored severity |
| Blocklist.ImportFromCovers | internal/blocklist/blocklist.go:170-198 | after an error-free import, every batch entry is stored at a rank at least its own |
| Blocklist.CoveredImportIsNoop | internal/blocklist/blocklist.go:179-188 | a batch the table already covers changes nothing and counts nothing |
| Blocklist.ReimportFrom | internal/blocklist/blocklist.go:170-198 | repeating a batch over the table an import left behind changes nothing, counts nothing and ends with the same error as the first run |
| Blocklist.ReimportIsNoop | internal/blocklist/blocklist.go:174-188 | re-importing a batch leaves the table unchanged and returns 0; it succeeds after an error-free import and repeats the error of a failed one |
| Blocklist.AsImported | internal/blocklist/blocklist.go:190-195 | the table a distinct-id batch produces: each id maps to its entry with source "imported" |
| Blocklist.ImportedCopy | internal/blocklist/blocklist.go:191 | the same rows with source set to "imported" |
| Blocklist.FreshImport | internal/blocklist/blocklist.go:190-196 | a batch of new, valid, distinct ids is inserted whole and every entry is counted |
| Blocklist.ExportImportRoundTrip | internal/blocklist/blocklist.go:170-199 | importing the export of a valid table into an empty store recreates every row (source "imported") and counts every entry |
| Blocklist.CsvRecord | internal/blocklist/blocklist.go:111-120 | a record has the header's eight fields |
| Blocklist.CsvRecords | internal/blocklist/blocklist.go:110-124 | one record per entry, in listing order |
| Blocklist.CsvOfListing | internal/blocklist/blocklist.go:105-124 | the records of a newest-first listing hold each table row exactly once, as its own fields, with non-increasing timestamps |
| Blocklist.Manager.constructor | internal/blocklist/blocklist.go:36-38 | the manager wraps the given store |
| Blocklist.Manager.Block | internal/blocklist/blocklist.go:41-47 | succeeds iff both CHECKs pass and the id is new; then exactly the new entry is added and the user is blocked; on failure nothing changes |
| Blocklist.Manager.Unblock | internal/blocklist/blocklist.go:50-52 | exactly the user's rows are removed and the user is no longer blocked |
| Blocklist.Manager.IsBlocked | internal/blocklist/blocklist.go:55-57 | true iff some row has the username |
| Blocklist.Manager.List | internal/blocklist/blocklist.go:60-62 | every row exactly once, newest first |
| Blocklist.Manager.GetByUsername | internal/blocklist/blocklist.go:65-67 | every row of the user exactly once |
| Blocklist.Manager.ImportEntries | internal/blocklist/blocklist.go:170-199 | the new table, count and error are those of the fold Import over the old table |
| Blocklist.Manager.ExportJSON | internal/blocklist/blocklist.go:70-86 | the serialised entries are every row exactly once, newest first |
| Blocklist.Manager.ExportCSV | internal/blocklist/blocklist.go:89-127 | the first record is the fixed 8-column header; the rest hold one record per row in listing order |
| Text.ToLower | internal/scanner/scanner.go:141 | same length; each character folded by ASCII LowerChar |
| Text.TrimSpace | internal/commands/scan.go:126 | the result is a slice of the input with only white space cut from either end, and it neither starts nor ends with white space |
| Text.IndexOf | internal/commands/scan.go:133-134 | None iff the character is absent; otherwise its first position |
| Config.Repository.FullName | internal/config/config.go:29-31 | owner, then '/', then name |
| Config.FiltersWithDefaults | internal/config/config.go:215-223 | a zero minFiles, minLines or accountAgeDays becomes 2, 10 or 7 respectively; non-zero values, the README flag and the lists are kept |
| Config.BlocklistWithDefaults | internal/config/config.go:224-226 | an empty export path becomes "./exports"; otherwise nothing changes |
| Config.ActionsWithDefaults | internal/config/config.go:227-229 | an empty comment template becomes the default text; otherwise nothing changes |
| Config.DefaultDatabasePath | internal/config/config.go:232-236 | home + "/.local/prguard/prguard.db" when the home directory is known, else "./prguard.db" |
| Config.DatabaseWithDefaults | internal/config/config.go:231-237 | only an sqlite database with an empty path gets the default path; type, URL and token are kept |
| Config.DefaultsIdempotent | internal/config/config.go:214-238 | for a fixed home lookup, defaulting twice equals defaulting once, in every section |
| Config.IsReadmeFile | internal/config/config.go:241-244 | the lower-cased name starts with "readme"; IsReadmeFileMeaning states it character by character |
| Config.IsReadmeFileMeaning | internal/config/config.go:241-244 | a name is a README iff it has at least six characters whose lower-case forms spell "readme" |
| Config.IsReadmeFileAccepts | internal/config/config.go:241-244 | README.md, readme.txt and Readme.rst are READMEs |
| Config.IsReadmeFileRejects | internal/config/config.go:241-244 | docs/README.md, CONTRIBUTING.md and the empty name are not |
| Config.Config.constructor | internal/config/config.go:13-20 | every section holds the given value |
| Config.Config.Validate | internal/config/config.go:187-211 | passes iff a token, an org or user, and an sqlite path or a turso URL are set; each of the six errors is returned iff its check fails and every earlier check (token, org or user, type set, type known, sqlite path, turso URL) passed |
| Config.Config.SetDefaults | internal/config/config.go:214-238 | each section becomes its defaulted form; github and repositories are unchanged |
| Scanner.Whitelisted | internal/scanner/scanner.go:92-99 | the author occurs in the whitelist; IsWhitelisted computes it |
| Scanner.SingleFileReadmeEdit | internal/scanner/scanner.go:102-120 | the flag is set, exactly one file is reported and a listed file is a README; IsSingleFileReadmeEdit computes it |
| Scanner.NewAccount | internal/scanner/scanner.go:123-127 | the account age now - createdAt is strictly below accountAgeDays days, in seconds |
| Scanner.MinimalChanges | internal/scanner/scanner.go:130-133 | fewer files than minFiles or fewer changed lines than minLines |
| Scanner.MinimalChangesMonotone | internal/scanner/scanner.go:130-133 | not minimal iff both thresholds are met; raising a threshold or shrinking the change keeps a change minimal |
| Scanner.HasSpamPhrase | internal/scanner/scanner.go:136-149 | a non-empty phrase list one of whose lower-cased phrases occurs in the lower-cased title, space and body; ContainsSpamPhrases computes it |
| Scanner.EmptyPhraseMatchesAll | internal/scanner/scanner.go:141-145 | an empty phrase in the list matches every pull request |
| Scanner.IsWhitelisted | internal/scanner/scanner.go:92-99 | true iff the author occurs in the whitelist |
| Scanner.IsSingleFileReadmeEdit | internal/scanner/scanner.go:102-120 | true iff the flag is set, exactly one file is reported, and some listed file is a README (zero files gives false) |
| Scanner.ContainsSpamPhrases | internal/scanner/scanner.go:136-149 | false on an empty list; otherwise true iff some lower-cased phrase occurs in the lower-cased title, a space and the body |
| Scanner.Reasons | internal/scanner/scanner.go:46-77 | the reasons appended by the four rules in rule order, with the account text chosen by the README rule; ReasonsInRuleOrder and ReasonsPresent state its properties |
| Scanner.Classify | internal/scanner/scanner.go:32-89 | a whitelisted author gets not spam, not uncertain, no reasons, "low" and an empty action; otherwise spam iff the README or phrase rule fired, severity "high" iff spam, and the action chosen spam first, then uncertain |
| Scanner.UncertainOnlyFromWeakRules | internal/scanner/scanner.go:52-70 | uncertain iff the README rule did not fire and the account or minimal rule did; those two rules alone never make spam |
| Scanner.ReasonTextsDistinct | internal/scanner/scanner.go:48-75 | the five reason texts differ |
| Scanner.ReasonsInRuleOrder | internal/scanner/scanner.go:46-77 | at most four distinct reasons, README first and phrase last when they fired |
| Scanner.ReasonsPresent | internal/scanner/scanner.go:46-77 | each reason is present iff its rule fired; the account text depends on whether the README rule fired |
| Scanner.ClassifyReasons | internal/scanner/scanner.go:46-77 | a scan's reasons name exactly the rules that fired, at most four |
| Scanner.MissingUserSkipsAccountRule | internal/scanner/scanner.go:53 | without a user the result is that of a user whose account is old enough |
| Scanner.SpamAndUncertainTogether | internal/scanner/scanner.go:53-86 | a new account with a spam phrase is spam and uncertain at once, severity high, action block, with the "not definitive" account reason |
| Scanner.MinimalChangesAtDefaults | internal/scanner/scanner.go:130-133 | at the default thresholds two files and ten lines are not minimal, one file or nine lines are |
| Scanner.ScanPR | internal/scanner/scanner.go:32-89 | the step-by-step result equals Classify |
| Scanner.UserOf | internal/scanner/scanner.go:175-179 | a failed user lookup scans with no user |
| Scanner.ClassifyAll | internal/scanner/scanner.go:173-181 | each pull request classified in order |
| Scanner.BucketsPartition | internal/scanner/scanner.go:183-189 | every result lands in exactly one bucket: the sizes add up |
| Scanner.BucketMembers | internal/scanner/scanner.go:183-189 | spam holds the spam results, uncertain the non-spam uncertain ones, clean the rest |
| Scanner.ScanRepository | internal/scanner/scanner.go:160-193 | a listing error is returned unchanged; otherwise the total is the number of pull requests and the buckets are the ordered partition of their classifications |
| Scanner.ScanTotalsAddUp | internal/scanner/scanner.go:166-190 | the bucket sizes sum to the total |
| Commands.ParseRepo | internal/commands/scan.go:131-139 | fails, with the fixed message, iff there is no '/'; otherwise the input is owner + "/" + name with no '/' in owner |
| Commands.ParseRepoUnique | internal/commands/scan.go:131-139 | owner/name parses to (owner, name) iff owner has no '/' |
| Commands.ParseRepoFullName | internal/commands/scan.go:131-139 | round trip: a repository whose owner has no '/' parses back from its full name |
| Commands.ParseRepoFirstSlash | internal/commands/scan.go:133-136 | "owner/repo/extra" splits into ("owner", "repo/extra") |
| Commands.ParseRepoEmptySides | internal/commands/scan.go:133-136 | "/repo" and "owner/" split with an empty side |
| Commands.ParseRepoRejects | internal/commands/scan.go:138 | "" and "ownerrepo" are rejected |
| Commands.CheckScanFlags | internal/commands/scan.go:55-57 | fails, with the fixed message, iff githubBlock is set without autoBlock |
| Commands.Accepts | internal/commands/scan.go:126-128 | the trimmed, lower-cased answer is "y" or "yes"; the lemmas below state which answers pass |
| Commands.AcceptsPadded | internal/commands/scan.go:126-128 | "y" or "yes" in any case, padded with white space, is accepted |
| Commands.RefusesOtherWords | internal/commands/scan.go:126-128 | any other word is refused, however it is padded |
| Commands.RefusesBlank | internal/commands/scan.go:126-128 | a blank answer is refused |
| Commands.AcceptsExamples | internal/commands/scan.go:125-128 | "y\n" and "  YES \n" are accepted |
| Commands.RefusesNo | internal/commands/scan.go:125-128 | "n\n" is refused |
| Commands.RefusesYesPrefix | internal/commands/scan.go:126-128 | "yess" is refused |
| Commands.ApplyConfigDefaults | internal/commands/scan_actions.go:37-48 | (autoClose or closePRs, autoBlock or blockUsers) |
| Commands.ApplyConfigDefaultsMonotone | internal/commands/scan_actions.go:37-48 | the configuration only turns flags on, and reapplying it changes nothing |
| Commands.SpamUsers | internal/commands/scan_actions.go:59-90 | the map collectSpamUsers builds, adding an author only at their first spam result; SpamUsersKeys and SpamUsersFirst state its meaning |
| Commands.SpamUsersKeys | internal/commands/scan_actions.go:59-90 | the keys are exactly the spam authors |
| Commands.SpamUsersFirst | internal/commands/scan_actions.go:79-86 | each value is taken from that author's first spam result |
| Commands.CollectSpamUsers | internal/commands/scan_actions.go:59-90 | the loop builds exactly SpamUsers of the spam bucket |
| Commands.NoSpamNoUsers | internal/commands/scan_actions.go:62-64 | no spam results give an empty map |
| Commands.BlockedBy | internal/commands/scan_actions.go:114-117 | the GitHub user when set, else the organisation |
| Commands.BlockReason | internal/commands/scan_actions.go:121 | "Auto-detected spam: " followed by the reasons joined with ", " |
| Commands.BlockArgsFor | internal/commands/scan_actions.go:119-122 | the block call gets the user, the reason, the first PR's URL and severity, blockedBy and source "auto-detected" |
| Commands.AutoBlockRowsValid | internal/commands/scan_actions.go:119-122 | every automatic block entry of a scan passes both CHECK constraints |
| Commands.ShouldRunAutomatedActions | internal/commands/scan_actions.go:187-189 | the negation of the early-return guard of executeAutomatedActions |
| Commands.ShowSuggestions | internal/commands/scan_actions.go:215-217 | the negation of the early-return guard of displayActionSuggestions |
| Commands.RunsActions | internal/commands/scan_actions.go:187-197 | the guard passes and the confirmation is accepted |
| Commands.ActionsOrSuggestions | internal/commands/scan_actions.go:187-189 | the action guard passes iff there is spam and closing or blocking is on; with spam exactly one of the action guard and the suggestion guard (lines 215-217) passes, without spam neither |
| Commands.ActionsAfterConfirmation | internal/commands/scan_actions.go:187-197 | the actions run iff there is spam, closing or blocking is on and the operator accepts; actions and suggestions never both happen, and a declined confirmation leads to neither |
| Commands.GitHubBlockTarget | internal/commands/scan_actions.go:138-150 | the org when set, else the personal account when a user is set, else nothing |
| Commands.ValidConfigHasBlockTarget | internal/commands/scan_actions.go:138-150 | a configuration that passes Validate always has a block target |
| Commands.CloseComment | internal/commands/scan_actions.go:157-160 | the template, or the built-in text when it is empty |
| Commands.DefaultedCommentIsTemplate | internal/commands/scan_actions.go:157-160 | after SetDefaults the built-in close text is never used unless configured |
| Commands.Pluralize | internal/commands/import.go:75-80 | the singular for 1, the plural for any other count |
| Commands.ImportPlan | internal/commands/import.go:43-64 | fails iff both or neither of file and URL are given, with the matching message; otherwise a file source when one is given, else the URL |
| Commands.ExportPlan | internal/commands/export.go:51-72 | succeeds iff the format is json or csv; an empty path becomes blocklist.json or blocklist.csv, any other is kept |

## Left out

- Network, printing and terminal input are not modelled:
  - the GitHub client, which is modelled only as the listing and user-lookup results handed to
    `ScanRepository`;
  - printing;
  - reading the confirmation from the terminal;
  - the close, label and block API loops of the scan command.
- Configuration loading is not modelled: YAML files, environment overrides, config-path search
  and client initialisation.
- Encoding and file access are not modelled: JSON and CSV encoding, file writes, file reads and
  the HTTP fetch of an import.
- Driver-level database failures are not modelled, nor are opening, migrating and closing the
  database. The store fails only on its constraints.
- Database.DbError: the error order (severity CHECK, source CHECK, then primary key) follows
  SQLite's declaration order. The error texts are not modelled.
- Blocklist.Manager.Block: the Go error wraps the store error in a message. The model returns the
  store's error itself.
- Blocklist.Manager.ImportEntries: a failing `GetEntry` lookup cannot happen in the model. A stored row is
  valid, so the update branch never fails. The Go code also sets `Source` on the caller's entry
  in place; the model passes entries by value.
- Blocklist.Manager.ExportCSV: the timestamp is rendered by a `formatTime` parameter that stands for
  RFC 3339 formatting. CSV quoting is not modelled.
- Database.DB.GetEntriesByUsername: the query has no ORDER BY, so no order is promised.
- Database.DB.ListEntries: rows with equal timestamps come in an unspecified order. The model sorts by an integer count of seconds. The SQL sorts the stored timestamp column, which the SQLite driver writes as text with fractional seconds and a zone offset, so rows written under different offsets sort by that text rather than by instant. Sub-second order is also lost in the model.
- Scanner.Classify: account age is computed in whole seconds against a single `now` per scan.
  Go computes `time.Since` per pull request, in nanoseconds, and the `time.Duration`
  multiplication wraps around past about 106,751 days; that overflow is not modelled.
- Text.ToLower: folds only ASCII letters. Text.TrimSpace strips only ASCII white space.
- Config.DefaultDatabasePath: joins with "/" and does not model `filepath.Join`'s path cleaning.
- Commands.ApplyConfigDefaults: it receives the actions section rather than the whole configuration.
- Commands.ExportPlan: in the source, client initialisation runs before the format checks, so a
  configuration error comes first. Only the path and format decision is modelled.
- The order in which blocks are attempted is not modelled: Go iterates the spam-user map in
  random order. Only the arguments of each block are modelled.
