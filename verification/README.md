# A verified model of the release tooling and the end-to-end harness

A Dafny model of the parts of the repository that carry state, protocol or text rewriting, with
proofs of what they promise. One module per component:

- **Release ranges** (`Text`, `VersionRanges`, `RangeAlgebra`, `SpecifierLaws`, `ContractPins`,
  `PyprojectSpecs`, `RequirementLaws`, `RewriteLaws`, `Sync`, `SyncLaws`, `DescriptorLaws`, `Query`,
  `QueryRows`, `QueryLaws`): the formula from a version to a range,
  the requirement parser and printer as explicit scanners, and `apply`, `check` and `query` over a
  workspace. A workspace is its members (parsed values plus quoted literals in file order), its
  descriptors (lines) and its release units.
- **The release train** (`ReleaseLoop`, `TrainLaws`, `TrainExample`): the loop that grows a release until the query
  names no new unit, and the check of the finished train. The end-to-end theorem is
  `TrainLaws.LoopTrainIsAccepted`, with `AcceptedIffClosed` and `LeastAcceptedRelease`: what the
  JavaScript loop computes is what the Python check accepts, and the least such release.
  `TrainExample` works one train through: the contract package
  goes from 1.2 to 1.3, the query names the connector that pins 1.2, the loop forces it in and
  stops, the check accepts that release and rejects the candidate alone. It meets the hypotheses
  of all three.
- **Bookkeeping diffs** (`DiffText`, `Bookkeeping`, `CharacterClasses`, `BookkeepingKeys`, `KeyLaws`, `BookkeepingLaws`): the
  classifier of release diffs over the text git prints, split as `str.splitlines` splits: what a key
  leaves of a line, exactly when what it accepts leaves a file's lines as they were, and when it
  accepts what the range engine writes.
- **PostgreSQL wire decoder** (`PgWire`, `PgWireReader`, `PgWireLaws`, `PgConversation`): the frontend messages of
  section 55.7 of the PostgreSQL 16 documentation, read incrementally from a byte buffer.
- **Severable relay** (`TcpRelay`, `RelayLaws`, `RelayObject`, `RelayTap`): accept threads, pumps and the owning
  thread as interleaved atomic steps with an ownership invariant, and the owner's methods in their
  own form with the other threads running on in every gap between their steps; and, on the step
  sequence alone, that the observer is shown each chunk before it is sent.
- **MCP client** (`McpSession`, `McpClient`, `McpAnswers`): recovery from retired sessions, against a
  server that retires them at any request: at most one execution, when an answer must come, why none
  does.
- **Member partitions** (`MemberPartitions`, `PartitionSwitch`): swapped process-global state as a
  refinement to one independent world per member.
- **Timeouts** (`TimeoutFailures`, `TimeoutReports`, `TimeoutHooks`): where a timeout lands when its signal comes at any
  point of a test's run.
- **Allocators and port healing** (`RedisPool`, `Harness`, `HarnessLaws`, `PortOwnership`, `PortLaws`,
  `PortHeal`).

Where the code updates state step by step the model has a class or a loop whose `ensures` ties its
whole new state to a specification function, and the lemmas are about that function. Loops and
threads of the outside world (server replies, schedules, kernel ports, exits, signals) are arbitrary
parameters, so every theorem holds for all of them.

`dafny verify dfyconfig.toml` checks the whole project.

## Where the code does less than it promises

Each has the exact condition and, where it helps, a concrete input:

- `apply` raises its own self-assert on a requirement held in both quote styles of one file, because
  only the first style found is replaced (`SyncLaws.ApplyThenCheck`); the next run settles it.
- A descriptor with two `contract:` lines can be clean to `check` and still change under `apply`
  (`ContractPins.TwoPinsDisagree`).
- The diff classifier and the range engine disagree on a requirement whose name ends in `.`, `_` or
  `-` (`BookkeepingKeys.ResyncedKeepsKey`), and on one with a form feed or another boundary of
  `str.splitlines` before the end of its comma (`BookkeepingLaws.ResyncIsBookkeeping`).
- A changed content line that starts with `++` or `--` passes the diff classifier unseen
  (`Bookkeeping.PlainKeepsEveryLine`), and so does what a line holds behind a form feed or another
  boundary (`Bookkeeping.BoundaryHidesALine`, `FormFeedHidesALine`); `AcceptedKeepsEveryLine` has the
  exact condition for both.
- Both counts of a Bind are read signed (`PgConversation.ParamCountIsSigned`): more than 32767
  parameters never read back, and with at most 32767 format codes such a Bind is recorded with none;
  more than 32767 format codes make the reader look for the parameters in the wrong place, which can
  lose a single one (`MostCodesLoseAll`) or read 256 that were not sent (`OneCodeFewerInvents`).
- A relay first started after a stop keeps its port reserved for good
  (`RelayLaws.LateStartKeepsItsPort`), and an observer factory that raises kills the accept loop with
  nothing on record (`RelayLaws.FactoryRaiseIsSilent`). A chunk in hand when a sever comes can still be
  sent after it returned (`RelayLaws.LateChunkIsSent`; `SeverIsTotal` says exactly when).
- A tool whose own error text carries the reload marker is run again under the reload retry
  (`McpSession.MarkedErrorRunsTwice`).
- An exit raised by a test can be overtaken by its timeout (`TimeoutFailures.ExitOvertaken`), and a
  timer that fires between a teardown's flag and its work leaves the teardown undone
  (`TimeoutFailures.WorkLeftUndone`).
- A cleanup that raises inside a failed allocation strands what the later cleanups would have freed
  (`Harness.FailureIsAtomic`), and a broker that raises with its vhost made leaves the vhost
  (`Harness.VhostStays`, and concretely `VhostStaysOnce`).

## Model

| member | source | states |
|---|---|---|
| `VersionRanges.ParsedShape` | scripts/_range_sync/version_ranges.py:121-139 | a parsed requirement has a name that starts and ends in a letter or digit, extras that are empty or one closed bracket, and a marker that is empty or starts at its semicolon |
| `VersionRanges.RebuiltParses` | scripts/_range_sync/version_ranges.py:113-139 | re-parsing a requirement rebuilt with any well-shaped specifier gives back its name, extras and marker, and that specifier |
| `RangeAlgebra.DerivedReadsBack` | scripts/_range_sync/version_ranges.py:113-139 | any requirement that parses, rebuilt with any derived range, parses to the same name, extras and marker with that range |
| `RangeAlgebra.DeriveOfRelease` | scripts/_range_sync/version_ranges.py:34-54 | a version whose text starts with two dotted numbers derives the range of exactly those numbers, whatever follows them |
| `RangeAlgebra.RangeDeterminesRelease` | scripts/_range_sync/version_ranges.py:34-54 | two derived ranges are equal if and only if major and minor are: the range is exactly as fine as the release's major.minor |
| `RangeAlgebra.DerivedRangeAdmits` | scripts/_range_sync/version_ranges.py:34-54 | read back as floor and cap, a derived range admits a release exactly when it has the same major and, for major 0, the same minor, otherwise a minor at least as high |
| `RangeAlgebra.MajorsOfRange` | scripts/_range_sync/version_ranges.py:57-75 | the floor and cap majors the scanner finds in a derived range are the release's major and the one above it, both 0 below 1.0 |
| `RangeAlgebra.CrossMajorOfDerived` | scripts/_range_sync/version_ranges.py:78-101 | between derived ranges a rewrite crosses a major, and is guarded, if and only if the majors differ |
| `RangeAlgebra.FloorOfRange` | scripts/_range_sync/contract_pins.py:130-140 | the descriptor range of a derived range is that range itself |
| `SpecifierLaws.BareIs` | scripts/_range_sync/version_ranges.py:44 | a version is read without the white space around it and then without the quotes around it |
| `SpecifierLaws.DerivesFromDigits` | scripts/_range_sync/version_ranges.py:44-49 | a range derives from a version if and only if it then starts with a digit |
| `SpecifierLaws.DerivesFromNumbers` | scripts/_range_sync/version_ranges.py:45-54 | the major is the number it starts with and the minor the one behind a dot right after it, or 0 where none stands there |
| `SpecifierLaws.TwoSidedMajors` | scripts/_range_sync/version_ranges.py:57-75 | a floor and a cap of dotted versions of any length give the first number of each as the two majors |
| `SpecifierLaws.OneSidedMajors` | scripts/_range_sync/version_ranges.py:57-75 | a floor alone gives no cap major, a cap alone no floor major, and a compatible or exact pin its own for both |
| `SpecifierLaws.TwoSidedCrosses` | scripts/_range_sync/version_ranges.py:78-101 | against the range of a release a pin with a floor and a cap crosses a major, and is guarded, if and only if its floor names another major than the release's or its cap another than that range's |
| `SpecifierLaws.OneSidedCrosses` | scripts/_range_sync/version_ranges.py:78-101 | a pin with one side crosses by that side alone |
| `SpecifierLaws.CrossingIsMutual` | scripts/_range_sync/version_ranges.py:78-90 | crossing a major goes both ways, and a side that either specifier leaves open is not crossed |
| `SpecifierLaws.UnreadableIsGuarded` | scripts/_range_sync/version_ranges.py:92-101 | a specifier no major can be read from is guarded against every range unless it is blank |
| `SpecifierLaws.FloorGivesTheRange` | scripts/_range_sync/contract_pins.py:130-140 | a pin by any of the three floor operators gives its descriptors the range of the release that floor names, whatever stands behind it |
| `SpecifierLaws.CapGivesNone` | scripts/_range_sync/contract_pins.py:130-140 | a pin with a cap alone gives none |
| `ContractPins.RewriteContractYaml` | scripts/_range_sync/contract_pins.py:24-46 | the loop computes the line-by-line rewrite of every stale pin, and reports a change exactly when some line was stale |
| `ContractPins.RebuiltReads` | scripts/_range_sync/contract_pins.py:24-46 | a rebuilt pin line reads back as the same indent, quote and trailing space with the new value, whatever that value holds |
| `ContractPins.RewriteSettles` | scripts/_range_sync/contract_pins.py:24-46 | a rewrite leaves no stale pin, is idempotent, keeps every line that was not stale, and keeps every line ending |
| `ContractPins.FirstPinDecides` | scripts/_range_sync/contract_pins.py:49-55 | the check sees a value exactly when some line is a pin, and a drift exactly when a stale pin has no pin above it |
| `ContractPins.CheckSeesRewrites` | scripts/_range_sync/contract_pins.py:24-55 | after a rewrite the check is clean; what the check reports the rewrite changes; the two agree when the file has at most one pin |
| `ContractPins.TwoPinsDisagree` | scripts/_range_sync/contract_pins.py:24-55 | with two pins, the first in sync, the check is clean while the rewrite still changes the file |
| `ContractPins.PinIsSpelled` | scripts/_range_sync/contract_pins.py:24-46 | a line is a pin if and only if it is indent, key, white space, quote, value, the same quote and white space, and then its value is all that stands between the quotes |
| `PyprojectSpecs.AnalyzePyproject` | scripts/_range_sync/pyproject_specs.py:77-129 | the loop over the requirements fills the three tables as the requirement-by-requirement verdicts say, raises for an unknown pinned name or an unreadable version, and lists a repeated requirement once |
| `PyprojectSpecs.RewritePyprojectText` | scripts/_range_sync/pyproject_specs.py:140-169 | replacing change after change gives the specified text, or raises for the first literal found in neither quote style |
| `RequirementLaws.SpacedParses` | scripts/_range_sync/version_ranges.py:121-139 | a requirement with white space in any of its gaps parses into its name, extras, specifier and marker |
| `RequirementLaws.WordsAreLowered` | scripts/_range_sync/members.py:46-53 | a name without separators normalizes to its lower-case letters |
| `RequirementLaws.RunsCollapse` | scripts/_range_sync/members.py:46-53 | and one with a run of separators to its two sides normalized around one dash |
| `RequirementLaws.JudgeOfRelease` | scripts/_range_sync/pyproject_specs.py:102-124 | what any first-party requirement as written calls for under a released version: nothing without a specifier or at the range, kept if pinned and guarded, otherwise the rewrite, with a warning exactly where guarded |
| `RequirementLaws.JudgeOfOthers` | scripts/_range_sync/pyproject_specs.py:102-112 | what is no first-party requirement, or names no version, is left alone; a specifier under a version no range derives from raises |
| `RequirementLaws.VerdictsAre` | scripts/_range_sync/pyproject_specs.py:99-129 | an analysis fails with the first requirement that raises, and otherwise its three tables hold exactly the rewrites, the guarded rewrites and the kept pins that its requirements call for |
| `RequirementLaws.TablesInOrder` | scripts/_range_sync/pyproject_specs.py:99-129 | each table has one entry for each distinct requirement that calls for it, in the order in which they first stand |
| `RequirementLaws.UnknownPinsAre` | scripts/_range_sync/pyproject_specs.py:91-97 | a pinned name that no scanned first-party requirement bears fails the analysis with exactly all such names |
| `RequirementLaws.RewriteStops` | scripts/_range_sync/pyproject_specs.py:140-169 | a rewrite goes on to a further change exactly if the text written so far holds its requirement in one quote style or the other, and otherwise raises with it |
| `RewriteLaws.RewrittenIsSettled` | scripts/_range_sync/pyproject_specs.py:104-124 | a rewritten requirement names the same dependency and calls for nothing more |
| `RewriteLaws.JudgeOfDerived` | scripts/_range_sync/pyproject_specs.py:104-124 | what a requirement on one release's range calls for once another release is declared: nothing if the ranges are equal, kept if pinned and across majors, otherwise rewritten with name, extras and marker kept, with a warning exactly across majors; it never raises |
| `RewriteLaws.VerdictsCollect` | scripts/_range_sync/pyproject_specs.py:101-124 | the changes are exactly the rewrites the requirements call for, each once |
| `RewriteLaws.RewriteIsPointwise` | scripts/_range_sync/pyproject_specs.py:157-169 | the sequence of replacements is one pointwise replacement of the literals the changes name, in the quote style found first |
| `RewriteLaws.OrderDoesNotMatter` | scripts/_range_sync/pyproject_specs.py:157-169 | any reordering of the changes writes the same text |
| `RewriteLaws.AnalysisApplies` | scripts/_range_sync/pyproject_specs.py:157-169 | every change of an analysis finds its literal: the rewrite of an analysed pyproject never raises |
| `RewriteLaws.SyncedIsClean` | scripts/_range_sync/pyproject_specs.py:77-169 | a synced pyproject keeps its preserved pins, and calls for no further rewrite if and only if no changed requirement is also held in the quote style the replacement passes over |
| `RewriteLaws.SyncedIsUnmixed` | scripts/_range_sync/pyproject_specs.py:140-154 | whatever a synced pyproject still calls for it holds in one quote style, so a second pass settles it |
| `Sync.CollectVersions` | scripts/_range_sync/members.py:56-65 | the loop over the members builds the map from normalized name to version, the last member of a name deciding, members without name or version skipped |
| `DescriptorLaws.LastDeclarationDecides` | scripts/_range_sync/members.py:56-65 | a normalized name has a version exactly when some member declares one under it, and it is the last such member's |
| `Sync.CollectAnalyses` | scripts/_range_sync/sync.py:78-92 | every member analysed in order, or the first refusal |
| `Sync.CollectPreservedRanges` | scripts/_range_sync/contract_pins.py:143-162 | the nested loops map each member with a preserved contract pin to the range its last such pin dictates, or to leave-alone where that pin has no floor |
| `Sync.PyprojectWrites` | scripts/_range_sync/sync.py:118-133 | the write list and the report rows of all members, or the first literal not found, with nothing written |
| `Sync.DescriptorWrites` | scripts/_range_sync/sync.py:136-169 | every governed descriptor rewritten to its target, the others left alone and listed, a row exactly for the descriptors with a stale pin |
| `Sync.MemberDrift` | scripts/_range_sync/sync.py:242-263 | the members' rows of a check: each member's changes, preserved pins and warnings under its path, in order |
| `Sync.DescriptorDrift` | scripts/_range_sync/sync.py:206-230 | the descriptors' rows of a check: a row exactly where the first pin differs from the target, the left-alone ones listed |
| `Sync.FindDrift` | scripts/_range_sync/sync.py:242-263 | the whole report for given versions, or the first refusal; nothing is written |
| `Sync.Workspace.Apply` | scripts/_range_sync/sync.py:172-203 | a refusal leaves the workspace as it was; otherwise the workspace is the specified tree and the call returns the report unless the check of that tree is dirty, when it raises with the drift |
| `DescriptorLaws.TargetIsAdvertised` | scripts/_range_sync/sync.py:95-115 | on the tree and its analyses alone: a plugin descriptor of a member whose last preserved contract pin has a floor must advertise that floor's range, one whose pin has none is left alone, and every other descriptor must advertise the range of the contract package's version |
| `DescriptorLaws.AppliedDescriptors` | scripts/_range_sync/sync.py:136-169 | after an apply every pin of a descriptor is at the range it must advertise, and a descriptor that is to be left alone is as it was |
| `DescriptorLaws.AppliedMembers` | scripts/_range_sync/sync.py:118-133 | and every member's file is the rewrite of what its analysis calls for, its name, version and pins as they were |
| `DescriptorLaws.DescriptorsReported` | scripts/_range_sync/sync.py:136-230 | a check reports exactly the descriptors whose first pin is off that range, an apply exactly those with any pin off it, both with the old value and that range, and both list exactly those left alone |
| `DescriptorLaws.MembersReported` | scripts/_range_sync/sync.py:242-263 | a check reports exactly the changes, warnings and kept pins of the members' analyses, each under its member's path |
| `DescriptorLaws.MembersInOrder` | scripts/_range_sync/sync.py:254-260 | the rows of a report stand in the order of the members, and of each member's own tables |
| `DescriptorLaws.DescriptorsInOrder` | scripts/_range_sync/sync.py:206-230 | and those of the descriptors in theirs |
| `DescriptorLaws.CheckRefuses` | scripts/_range_sync/sync.py:233-263 | a check refuses a stray pin table first, then a contract package without a version or with one no range derives from, then the first member whose analysis fails, with that error, and nothing else |
| `SyncLaws.ApplyRefusesWhatCheckRefuses` | scripts/_range_sync/sync.py:172-263 | apply refuses a tree if and only if check does, with the same error: no literal of an analysed member is ever missing |
| `SyncLaws.ApplyThenCheck` | scripts/_range_sync/sync.py:172-203 | after an apply the check keeps every preserved pin and left-alone descriptor, finds no descriptor out of sync, and is dirty if and only if the tree mixes quote styles for a changed requirement: the self-assert fires exactly then |
| `SyncLaws.ApplyTwice` | scripts/_range_sync/sync.py:172-193 | a second apply writes the same tree with an empty report when the first check was clean |
| `SyncLaws.SecondApplySettles` | scripts/_range_sync/sync.py:172-203 | even where the self-assert fires, the next apply settles the tree |
| `SyncLaws.ApplyTouchesNothingElse` | scripts/_range_sync/sync.py:118-169 | names, versions, pin lists, paths, every literal no change names and every line without a pin are as before, with the same numbers of literals and lines |
| `Query.OwningUnit` | scripts/_range_sync/query.py:45-50 | the owning unit is one of the units and its directory holds the file; there is none exactly when no unit's does |
| `Query.OwnerIsFirst` | scripts/_range_sync/query.py:45-50 | the first unit in order whose directory holds the file is the owner |
| `QueryRows.HousesIs` | scripts/_range_sync/query.py:45-50 | a unit houses exactly the files below its directory, not those of a unit whose name it begins |
| `QueryRows.UnownedRefused` | scripts/_range_sync/query.py:81-90 | a report is refused exactly for the first pin row no unit houses |
| `Query.CandidateVersions` | scripts/_range_sync/query.py:53-78 | the candidate versions laid over the declared ones, or the first malformed, unknown or unnamed unit |
| `Query.GroupByUnit` | scripts/_range_sync/query.py:81-90 | every requirement row and every pin row stands under the unit that owns its file, in order, and nothing else does; a pin row no unit owns raises |
| `Query.GroupChanges` | scripts/_range_sync/query.py:81-90 | the touched units in path order, each with its rows |
| `Query.AskMoves` | scripts/_range_sync/query.py:93-102 | query computes the moves of the drift under the candidate versions |
| `Query.FindUncovered` | scripts/_release_train_check/membership.py:34-48 | uncovered_moves computes the moved units the base lacks or has at the version on disk, or the first unit without a version |
| `QueryRows.ReleaseVersionIs` | scripts/_range_sync/query.py:20-21 | a text is a release version if and only if it is three dotted numerals of any length, with nothing or one of three marks and a run of letters, digits and marks behind, and a line feed at the very end or none |
| `QueryRows.CandidatesRefused` | scripts/_range_sync/query.py:53-78 | candidates are refused for exactly the units the tree does not have, then for exactly the values that are no release versions, then for the first candidate member without a name |
| `QueryRows.MovesAre` | scripts/_range_sync/query.py:81-90 | a unit's range changes are exactly its requirement rows, in its pyproject under the dependency's name, and the pin rows of the descriptors it owns, each from its old value to its new one |
| `QueryRows.RowsInOrder` | scripts/_range_sync/query.py:84-87 | a unit's requirement rows keep the report's order |
| `QueryRows.PinsInOrder` | scripts/_range_sync/query.py:88-89 | and so do its pin rows |
| `QueryRows.UnitsInOrder` | scripts/_range_sync/query.py:90 | the touched units stand in path order |
| `QueryRows.UncoveredIs` | scripts/_release_train_check/membership.py:34-48 | a moved unit is reported exactly when the base lacks it or has it at the version on disk, with the base's version or none and the unit's own last range changes |
| `QueryRows.UncoveredFails` | scripts/_release_train_check/membership.py:43-47 | the check fails exactly at the first moved unit the base has that declares no version now |
| `QueryRows.WorkingVersionIs` | scripts/_release_train_check/membership.py:45-46 | a unit stands at the version its member declares, or its component if it is no member, and is an error without one |
| `QueryLaws.OnePinRows` | scripts/_range_sync/sync.py:136-230 | with at most one pin each, descriptors get the same rows from check as from apply |
| `QueryLaws.MovedIsRewritten` | scripts/_range_sync/query.py:81-102 | a unit is named if and only if the apply changes one of its files |
| `QueryLaws.QueryForetellsApply` | scripts/_range_sync/query.py:53-102 | for distinct member names and at most one pin per descriptor: the query names exactly the units an apply rewrites once the versions are on disk, with exactly the rows, old and new values, that apply reports |
| `ReleaseLoop.PythonWorkspace.BuildAllPackages` | scripts/release-please/python-workspace.js:113-137 | it terminates whatever the query answers, with the settled release or the first error, and leaves the range changes of the last answer, on an error too |
| `ReleaseLoop.ForceAdded` | scripts/release-please/python-workspace.js:128-133 | every added unit at its latest release's package and at the bump of it, or the first unit that is not configured or has no release |
| `ReleaseLoop.CandidatesGathered` | scripts/release-please/python-workspace.js:113-122 | gathering succeeds exactly when every candidate's path is configured, and then the versions are exactly the candidate paths, each at its last candidate's version, and the packages the configured component, path and that version; otherwise it fails at the first path that is not |
| `ReleaseLoop.ForcingStops` | scripts/release-please/python-workspace.js:128-133 | forcing fails exactly at the first added unit that is not configured or has no release, with the one error or the other |
| `ReleaseLoop.ChangesAreTheLast` | scripts/release-please/python-workspace.js:123-134 | the loop leaves on record the range changes of the answer to the release it settled on; one that fails does so where its query did or at a named unit that cannot be forced in, with the changes of the last answer it had, or those from before where it had none |
| `ReleaseLoop.ChangesByPathIs` | scripts/release-please/python-workspace.js:125 | what the plugin holds for a unit are the range changes of its last entry in the answer, and it holds some for exactly the units of the answer |
| `ReleaseLoop.SettledIsClosedAndCalledFor` | scripts/release-please/python-workspace.js:113-150 | the settled release keeps the candidates and their versions, is closed under the query, and holds besides only units some stage of it called for, each at the bump of its latest release |
| `TrainLaws.CandidatesAreOnDisk` | scripts/_range_sync/query.py:53-78 | the versions a query derives from are those a tree declaring the candidate versions has |
| `TrainLaws.QueryIsCheck` | scripts/_range_sync/query.py:93-102 | asking under candidate versions is checking the tree that declares them |
| `TrainLaws.WorkingVersionAfter` | scripts/_release_train_check/membership.py:34-48 | on the released tree a unit stands at its release if it is in the release, and where it stood if not |
| `TrainLaws.AcceptedIffClosed` | scripts/_release_train_check/membership.py:34-48 | over the tree a release writes, the train check reports exactly the units the query moves and the release leaves out: it accepts if and only if the release is closed |
| `TrainLaws.LoopTrainIsAccepted` | scripts/release-please/python-workspace.js:113-150 | end to end, from any candidate list: the train check finds nothing on the tree of the release the loop settles on, which has each candidate at its last version, when every released unit stands at the base with another version |
| `TrainLaws.PatchBumpsMoveNothing` | scripts/release-please/python-workspace.js:5-15 | adding patch bumps to the candidate versions changes no answer of the query |
| `TrainLaws.OneRoundSettles` | scripts/release-please/python-workspace.js:123-134 | where the forced versions are patch bumps the loop stops, from any candidate list, at its second query, with the candidates and the units their own query names |
| `TrainLaws.LeastAcceptedRelease` | scripts/_release_train_check/membership.py:34-48 | and that is the least release the train check accepts: any accepted one that extends the candidates by patch bumps contains it |
| `TrainLaws.PatchBumpKeepsTheRange` | scripts/release-please/python-workspace.js:9-13 | a patch bump keeps major and minor and so the derived range |
| `Bookkeeping.ClassifyRewrites` | scripts/release_bookkeeping_diff.py:61-74 | the loop with its two counters accepts exactly the nonempty diffs whose lines all have a key and whose removed and added keys are equal as multisets |
| `DiffText.SplitAtFeed` | scripts/release_bookkeeping_diff.py:58 | splitlines falls apart at a line feed that ends a line, whatever other boundaries the text on either side holds, a carriage return before the feed included |
| `DiffText.TranslationKeepsLines` | scripts/release_bookkeeping_diff.py:144-152 | reading git's output as text, which turns a carriage return with or without its line feed into a line feed, changes no line splitlines finds |
| `Bookkeeping.ReadEntryByEntry` | scripts/release_bookkeeping_diff.py:56-58 | what the classifier hears in a printed diff is what it hears in each entry, one after the other |
| `Bookkeeping.TallyBalances` | scripts/release_bookkeeping_diff.py:56-74 | for any printed diff, boundaries of splitlines inside its lines or not, the two counters are what the edits take away and add, line by line, once the entries read wrong are set off against what was heard in them |
| `Bookkeeping.AcceptedKeepsEveryLine` | scripts/release_bookkeeping_diff.py:56-74 | an accepted diff leaves the file's multiset of lines, with versions and ranges erased, as it was, if and only if what the entries read wrong take and give is what was heard in them; with no entry read wrong it does |
| `Bookkeeping.PlainKeepsEveryLine` | scripts/release_bookkeeping_diff.py:56-74 | where no entry holds a boundary of splitlines that is so if and only if no changed line reads as a file header in the diff |
| `Bookkeeping.BoundaryHidesALine` | scripts/release_bookkeeping_diff.py:56-74 | two lines with one key, joined by any boundary but the line feed and a minus sign: added as one line they are accepted though the file gained a line, and no header hides it |
| `Bookkeeping.FormFeedHidesALine` | scripts/release_bookkeeping_diff.py:56-74 | the concrete descriptor line, with a form feed |
| `Bookkeeping.KeysPassHeaders` | scripts/release_bookkeeping_diff.py:77-88 | neither key pattern matches a line that starts like the rest of a file header |
| `CharacterClasses.PatternClasses` | scripts/release_bookkeeping_diff.py:42-46 | the characters of names, specifiers and release suffixes, of what separates the words of a name, and of quotes, code point by code point |
| `KeyLaws.KeyOfWritten` | scripts/release_bookkeeping_diff.py:77-83 | a requirement line written from indent, name, extras, white space, specifier, marker, comma and white space has the key of indent, quoted name with extras and marker, and comma |
| `KeyLaws.KeysTellPartsApart` | scripts/release_bookkeeping_diff.py:77-83 | two such lines have one key if and only if indent, name with extras, marker and comma are the same, and none has the key of a version line |
| `KeyLaws.KeyedLines` | scripts/release_bookkeeping_diff.py:77-83 | a pyproject line has the version key if and only if it is a top-level version line, and any other key if and only if it is a requirement line written so |
| `KeyLaws.DescriptorKeyed` | scripts/release_bookkeeping_diff.py:86-88 | a descriptor line has a key if and only if it begins with one of the two fields at the margin and something but white space follows |
| `KeyLaws.MeaningIsErased` | scripts/release_bookkeeping_diff.py:61-88 | two pyproject lines are erased alike exactly when both are version lines, or requirement lines of the same four parts, or the same line |
| `KeyLaws.AcceptedKeepsRequirements` | scripts/release_bookkeeping_diff.py:56-83 | an accepted pyproject diff read right keeps the multiset of those four parts, of version lines and of all other lines |
| `BookkeepingKeys.RespecifiedKeepsKey` | scripts/release_bookkeeping_diff.py:77-83 | a requirement line with a derived range put right behind its name and extras keeps its key |
| `BookkeepingKeys.ResyncedKeepsKey` | scripts/release_bookkeeping_diff.py:77-83 | the range engine's own rewrite of an accepted requirement line keeps its key if and only if the name as the classifier spells it ends in a letter or digit |
| `BookkeepingKeys.RebuiltKeepsKey` | scripts/release_bookkeeping_diff.py:86-88 | a rewritten contract pin keeps its line's key, and has one exactly when the line is not indented |
| `BookkeepingLaws.RewritesAreBookkeeping` | scripts/release_bookkeeping_diff.py:56-74 | a diff of lines that keep their keys, each entry read as what it is, is accepted if and only if some line moved |
| `BookkeepingLaws.RequirementReadRight` | scripts/release_bookkeeping_diff.py:56-83 | a changed requirement line is read as what it is if no boundary of splitlines stands before the end of its comma, and otherwise what is heard of its removal has no key, which rejects any diff it is in |
| `BookkeepingLaws.ResyncIsBookkeeping` | scripts/release_bookkeeping_diff.py:117-131 | the classifier accepts the diff of the requirement lines the range engine rewrites if and only if none of them holds a boundary before the end of its comma, given a context no line of which is heard as a change |
| `BookkeepingLaws.RepinIsBookkeeping` | scripts/release_bookkeeping_diff.py:117-131 | and it accepts the diff of the top-level contract pins it rewrites, which hold no boundary before their trailing white space because the rewriter splits at the same ones |
| `PgWireReader.PgStatementTap.Record` | e2e/src/tai42_e2e/pgwire.py:58-60 | the statement is appended and nothing else changes |
| `PgWireReader.PgStatementTap.Since` | e2e/src/tai42_e2e/pgwire.py:67-70 | exactly what was recorded after the mark, and nothing for a mark past the end |
| `PgWireReader.PgConnectionReader.Feed` | e2e/src/tai42_e2e/pgwire.py:82-86 | feeding a chunk leaves the buffer, phase, prepared table, tap and error that draining the longer buffer specifies |
| `PgWireReader.PgConnectionReader.NextMessage` | e2e/src/tai42_e2e/pgwire.py:88-102 | one turn of the framing loop: what it consumes, records and raises, and that it leaves everything alone where it needs more bytes |
| `PgWireReader.PgConnectionReader.NextStartupMessage` | e2e/src/tai42_e2e/pgwire.py:104-120 | one untyped message: too short a length raises, one that is too long or of an unknown code too, an SSL, GSS or cancel request stays in the startup phase and only protocol 3.0 starts the session |
| `PgWireReader.PgConnectionReader.Message` | e2e/src/tai42_e2e/pgwire.py:122-151 | the effect of each message kind on the tap and the prepared table |
| `PgWireReader.BindValues` | e2e/src/tai42_e2e/pgwire.py:135-148 | the in-place offset loop of a Bind reads the format codes and values the specification reads, with negative lengths as NULL and struct's negative offsets |
| `PgWireLaws.Utf8IsEncoding` | e2e/src/tai42_e2e/pgwire.py:154-157 | the bytes the reader takes for a text are exactly the UTF-8 encodings of scalar values, as section 3 of RFC 3629 has them |
| `PgWireLaws.CStringIs` | e2e/src/tai42_e2e/pgwire.py:154-157 | a string is what stands before the first terminator at or behind the offset: none raises, and so does what is no text |
| `PgWireLaws.StartupRaises` | e2e/src/tai42_e2e/pgwire.py:104-120 | a startup message raises if and only if its length is under 8 or over 10000, then before its body is there, or once whole its code is unknown, and waits exactly for a body still missing |
| `PgWireLaws.FrameRaises` | e2e/src/tai42_e2e/pgwire.py:88-102 | a typed message raises for its length if and only if that is under 4, before its body is there, and waits exactly for a body still missing |
| `PgWireLaws.ValueFromTheEnd` | e2e/src/tai42_e2e/pgwire.py:140-147 | a value read at a negative offset: its size stands that far from the end, its bytes behind it, unless they reach the end of the body |
| `PgWireLaws.CloseIs` | e2e/src/tai42_e2e/pgwire.py:149-151 | a Close of a statement forgets its name and raises where no name stands there, and any other does nothing |
| `PgWireLaws.FormatsAreSteppedOver` | e2e/src/tai42_e2e/pgwire.py:135-137 | a Bind raises where its format count is not there whole, and otherwise goes on behind the codes it counts, there or not |
| `PgWire.NextIgnoresWhatFollows` | e2e/src/tai42_e2e/pgwire.py:88-120 | a turn that consumed a message, or raised, does the same with more bytes behind it |
| `PgWire.DrainInTwo` | e2e/src/tai42_e2e/pgwire.py:82-120 | feeding two chunks is feeding their concatenation |
| `PgWire.ChunkingIndependence` | e2e/src/tai42_e2e/pgwire.py:82-120 | however a stream is cut, the reader ends as if fed whole: same records, prepared table, phase and error, the same bytes left over |
| `PgWire.AnyTwoCutsAgree` | e2e/src/tai42_e2e/pgwire.py:82-120 | two cuts of one stream raise the same error or neither, after the same records |
| `PgConversation.ParamCountIsSigned` | e2e/src/tai42_e2e/pgwire.py:135-148 | for every number of format codes and of values a Bind can carry: with at most 32767 codes the values come back if there are at most 32767 of them and none does otherwise; with more codes the values are counted and read from 65536 minus that many places, two bytes each, too early; more than 32767 values never come back, and a Bind with no code, one, or one for each value reads back if and only if it has at most 32767 values |
| `PgConversation.MostCodesLoseAll` | e2e/src/tai42_e2e/pgwire.py:135-148 | with 65535 format codes no value is recorded, however few there are: the codes' own count is read again as the values' |
| `PgConversation.OneCodeFewerInvents` | e2e/src/tai42_e2e/pgwire.py:135-148 | with 65534 codes behind a statement name that ends in byte 1, 256 values are read, whatever was sent, or the reader raises |
| `PgConversation.BodyReadsBack` | e2e/src/tai42_e2e/pgwire.py:122-151 | the reader's effect for an encoded message body is the message's own meaning |
| `PgConversation.FrameReadsBack` | e2e/src/tai42_e2e/pgwire.py:88-102 | one turn over an encoded message followed by anything is that message and leaves what followed |
| `PgConversation.HelloReadsBack` | e2e/src/tai42_e2e/pgwire.py:104-120 | an encoded startup message of any known code is consumed, whatever follows it, and starts the session exactly when it asks for protocol 3.0 |
| `PgConversation.ConversationReadsBack` | e2e/src/tai42_e2e/pgwire.py:82-157 | a whole conversation from its startup requests on: its records up to the first Bind of an unprepared name, that error, and the prepared table it stands for |
| `PgConversation.MessagesReadBack` | e2e/src/tai42_e2e/pgwire.py:88-151 | from any point of a conversation: the records of the rest up to the first Bind of a name nothing has prepared, where it raises |
| `PgConversation.DecodeInvertsEncode` | e2e/src/tai42_e2e/pgwire.py:82-157 | decoding inverts encoding however the bytes are cut: every Query and Bind in order, each Bind with the SQL of the latest unclosed Parse of its name and its exact values and NULLs; it raises if and only if some Bind names nothing prepared |
| `TcpRelay.EveryRunKeeps` | e2e/src/tai42_e2e/tcprelay.py:75-278 | under every interleaving of accept, pump and owner steps: each open socket is on the live list, in a sever's hands, held by the acting accept thread, or taken off by the pump about to close it; thread lists, listener, port and phases stay coherent |
| `RelayLaws.StopLeavesNothing` | e2e/src/tai42_e2e/tcprelay.py:117-130 | once a stop returns every thread is past its last effect, no socket or listener is open, the leak check passes, no failure is left on record, and the port is released unless the relay was first started after an earlier stop |
| `RelayLaws.LeakCheckIsExact` | e2e/src/tai42_e2e/tcprelay.py:158-168 | between the owner's calls is_leaked holds if and only if a socket or listener is open or a thread runs |
| `RelayLaws.LateStartKeepsItsPort` | e2e/src/tai42_e2e/tcprelay.py:117-130 | a relay stopped, started and stopped again keeps its port reserved: the concrete run |
| `RelayLaws.SeverIsTotal` | e2e/src/tai42_e2e/tcprelay.py:82-104 | once a sever is over nothing listens, nothing is adopted, every connection it found is closed, what is still open a pump is about to close, and a pump can still send if and only if it holds a chunk and the socket it goes to is one the other way's pump has yet to close |
| `RelayLaws.OutageLasts` | e2e/src/tai42_e2e/tcprelay.py:82-115 | no step but a start or restore ends that outage, and each pump step in it brings the pump nearer its end: a pump sends at most the chunk it held |
| `RelayLaws.LateChunkIsSent` | e2e/src/tai42_e2e/tcprelay.py:244-278 | a chunk received before a sever goes out after it returned: the concrete run, the other way's pump standing between deregistering and closing its source |
| `RelayLaws.AcceptJoinEnds` | e2e/src/tai42_e2e/tcprelay.py:94-100 | while a sever waits for an accept thread, every step of the thread brings it nearer its end and it has one to take until then |
| `RelayLaws.PumpJoinEnds` | e2e/src/tai42_e2e/tcprelay.py:124-127 | while a stop waits for the pumps the same holds of each pump |
| `RelayLaws.FailureHasACause` | e2e/src/tai42_e2e/tcprelay.py:172-174 | a failure on record comes from a refused upstream, a raising observer or an accept error on an open listener, never from a sever's own close |
| `RelayLaws.DeadListenerMeansFactory` | e2e/src/tai42_e2e/tcprelay.py:200-238 | a current listener without a live accept thread only comes from an observer factory that raised |
| `RelayLaws.FactoryRaiseIsSilent` | e2e/src/tai42_e2e/tcprelay.py:230-242 | and such a raise leaves no failure on record, the listener open and the pair on the live list: the concrete run |
| `RelayTap.ForwardIsShown` | e2e/src/tai42_e2e/tcprelay.py:255-264 | on the step sequence alone: a pump whose way is observed forwards only what its observer passed after it was received last |
| `RelayTap.NothingAfterARaise` | e2e/src/tai42_e2e/tcprelay.py:259-263 | a pump whose observer raised never forwards again |
| `RelayTap.PairStarts` | e2e/src/tai42_e2e/tcprelay.py:230-242 | a thread that takes a client, connects, pairs and asks the factory starts two pumps, each other's reverse, the client's observed exactly when the factory gave an observer and the back way never |
| `RelayTap.ChunksAreShown` | e2e/src/tai42_e2e/tcprelay.py:238-264 | of a pair started with an observer every chunk of the client's is shown after it was received last and before it is sent |
| `RelayTap.FaultsAreRaised` | e2e/src/tai42_e2e/tcprelay.py:132-140 | a raising observer or a refused upstream is on record when a stop has joined the threads, unless the owner was told of a failure since |
| `RelayTap.ToldOnce` | e2e/src/tai42_e2e/tcprelay.py:151-156 | the owner is told of each failure once: one it is told of later was put on record later |
| `RelayTap.StoppedAdoptsNothing` | e2e/src/tai42_e2e/tcprelay.py:230-237 | once a stop has begun no pair is adopted |
| `RelayTap.StartedOnce` | e2e/src/tai42_e2e/tcprelay.py:75-80 | the port of a started relay never changes, and one stopped since opens no listener again |
| `RelayTap.RestoreReopens` | e2e/src/tai42_e2e/tcprelay.py:106-115 | a severed relay that is not stopped listens again on its port with a thread of its own, and no other is restored |
| `RelayTap.ClosesItsOwn` | e2e/src/tai42_e2e/tcprelay.py:82-130 | no step closes a socket but one its accept thread holds, its pump's own source, or one a sever took over |
| `RelayTap.ChunkPasses` | e2e/src/tai42_e2e/tcprelay.py:244-267 | while its sockets are open a pump takes a chunk, shows it if observed, sends it and stands where it stood |
| `RelayTap.PumpUnwinds` | e2e/src/tai42_e2e/tcprelay.py:268-278 | a pump that ends, or whose observer raised, takes its own source off the live list and closes it, and leaves the other way's socket alone |
| `RelayTap.ErrorClosesListener` | e2e/src/tai42_e2e/tcprelay.py:190-217 | an accept that fails on the current listener closes it, and is on record |
| `RelayTap.RefusalClosesListener` | e2e/src/tai42_e2e/tcprelay.py:218-227 | an upstream that refuses closes the client it was for, and the current listener with it, and is on record |
| `RelayTap.SeveredAcceptIsSilent` | e2e/src/tai42_e2e/tcprelay.py:210-217 | an accept that a sever's close broke off ends its thread and leaves nothing behind |
| `RelayObject.SeverableRelay.Start` | e2e/src/tai42_e2e/tcprelay.py:75-80 | a second start raises and changes nothing; a first one reserves the port and, if the bind succeeds, opens the listener with a new accept thread |
| `RelayObject.SeverableRelay.Sever` | e2e/src/tai42_e2e/tcprelay.py:82-104 | with the relay threads running in every gap as an arbitrary schedule has it, the method terminates with nothing listening, every connection it found closed and no pump able to send but a chunk it holds, port and stopped flag untouched, and is a run of the step model |
| `RelayObject.SeverableRelay.SeverOnTheWay` | e2e/src/tai42_e2e/tcprelay.py:86-104 | lock region, accept join and closing of the connections in turn are the steps of the model, in either of the two callers |
| `RelayObject.SeverableRelay.Restore` | e2e/src/tai42_e2e/tcprelay.py:106-115 | never started and stopped raise, an open listener is kept, otherwise the listener opens again on the same port |
| `RelayObject.SeverableRelay.Stop` | e2e/src/tai42_e2e/tcprelay.py:117-130 | under any schedule it terminates with every thread past its last effect, nothing open, the leak check passing and the port released unless first started late; it raises exactly when a relay thread left a failure, and then some step of the run was a fault |
| `RelayObject.SeverableRelay.Leaked` | e2e/src/tai42_e2e/tcprelay.py:158-168 | the leak check's answer is exact between calls |
| `RelayObject.SeverableRelay.AdoptPair` | e2e/src/tai42_e2e/tcprelay.py:230-237 | the locked part of _start_pair: the pair is closed once stopped or severed, and adopted otherwise |
| `RelayObject.SeverableRelay.CloseFailedListener` | e2e/src/tai42_e2e/tcprelay.py:190-198 | the failure is recorded and the listener closed only while it is the current one |
| `RelayObject.SeverableRelay.DeregisterSource` | e2e/src/tai42_e2e/tcprelay.py:274-276 | a pump takes its own source off the live list and nothing else |
| `McpSession.InvokeCallsAtMostOnce` | e2e/src/tai42_e2e/mcp.py:183-241 | whatever the server retires and when, one call_tool without reload retry is handled at most once, exactly once if it returns, and returns that execution's result |
| `McpSession.CallToolOutcome` | e2e/src/tai42_e2e/mcp.py:205-256 | without the retry at most one execution; with it every execution but the last is one the client took for the reload gate, and the result is the last one's, raised when errors raise |
| `McpSession.PollCallsUntilReady` | e2e/src/tai42_e2e/mcp.py:243-256 | with the reload poll every execution but the last was taken for the gate, and what comes back is the last one's result |
| `McpSession.GateRejectionsRunNothing` | e2e/src/tai42_e2e/mcp.py:89-91 | when only the gate writes its marker into an error, every execution but the last was turned away by the gate: the tool itself runs at most once |
| `McpSession.MarkedErrorRunsTwice` | e2e/src/tai42_e2e/mcp.py:89-91 | a tool whose own error carries the marker is run again: the concrete script |
| `McpSession.UnlistedRunsTwice` | e2e/src/tai42_e2e/mcp.py:177-181 | a session that called before it listed could run a call twice: the concrete script, and why the listing comes first |
| `McpSession.ListingRecovers` | e2e/src/tai42_e2e/mcp.py:197-200 | listing calls nothing, and one that returns has listed on the session the client then holds |
| `McpAnswers.ReinitIsExact` | e2e/src/tai42_e2e/mcp.py:150-181 | on the script alone: a reopening succeeds if and only if the first handshake the gate does not turn away opens and none turned away before was late, is broken if and only if that one refuses, and expires otherwise |
| `McpAnswers.ReinitSettles` | e2e/src/tai42_e2e/mcp.py:150-181 | and it then holds a session nobody had before, not yet listed, with everything up to that handshake used up |
| `McpAnswers.InvokeAnswers` | e2e/src/tai42_e2e/mcp.py:183-241 | whatever the server retires and gates before: once three requests in a row meet no retirement and no gate the call has been answered, by the request that ran it, the one execution there was |
| `McpAnswers.ListingAnswers` | e2e/src/tai42_e2e/mcp.py:183-203 | and so has a listing |
| `McpAnswers.CallAnswers` | e2e/src/tai42_e2e/mcp.py:205-256 | with the reload retry four quiet requests, none of their calls answered by the gate, bring a result or the tool's own error |
| `McpAnswers.CallExplains` | e2e/src/tai42_e2e/mcp.py:150-256 | whatever the server does: a result is the reply to the call that ran last, and each error has its reason in the last request, a session lost past the deadline, a refused handshake, a failed listing, a lost request or reply, the tool's error |
| `McpAnswers.ListingExplains` | e2e/src/tai42_e2e/mcp.py:183-203 | a listing comes through by a request that did not fail, and its errors have their reasons likewise |
| `McpAnswers.GivesUpOnlyLate` | e2e/src/tai42_e2e/mcp.py:173-203 | a call expires only past the deadline or once the server has gone silent |
| `McpAnswers.StopsAtTheDeadline` | e2e/src/tai42_e2e/mcp.py:173-203 | once the deadline has passed at one request at most two more are sent |
| `McpClient.Client.Reinit` | e2e/src/tai42_e2e/mcp.py:150-175 | the reopening loop leaves the client, session and listing record the specification says, past gate rejections and up to the deadline |
| `McpClient.Client.ListOnSession` | e2e/src/tai42_e2e/mcp.py:177-181 | a listing marks the session listed exactly when it succeeds |
| `McpClient.Client.Invoke` | e2e/src/tai42_e2e/mcp.py:183-195 | the recovery loop: a terminated session is reopened and the operation tried again until the deadline |
| `McpClient.Client.ListTools` | e2e/src/tai42_e2e/mcp.py:197-200 | the listing with recovery, as specified |
| `McpClient.Client.CallTool` | e2e/src/tai42_e2e/mcp.py:205-256 | the call with both loops, as specified: same server, same client state, same result |
| `MemberPartitions.ReadAfterWrite` | conftest.py:130-154 | writing a snapshot and reading gives it back if and only if it names existing loggers only; every logger it does not name reads unconfigured, whoever created it; no logger is lost |
| `MemberPartitions.MemberOf` | conftest.py:176-181 | the member a path belongs to is a listed one that is or holds the path, and there is none exactly when no listed one does |
| `MemberPartitions.EachMemberRunsAlone` | conftest.py:183-208 | noninterference: over any run of switches and acts each partition's view, and everything its acts observed, is what its own acts alone give |
| `MemberPartitions.SessionsAreApart` | conftest.py:157-208 | from a session's start, for any program of enters, nested scopes and acts: each member sees what it would running alone from the initial values, the shared partition what it would from the startup state |
| `MemberPartitions.FlowEndsWhereItSays` | conftest.py:192-208 | the partition live at the end is the one control flow says, exceptional exits of scopes included |
| `MemberPartitions.SomeRaises` | conftest.py:200-208 | an exception is on its way out of a block exactly when one of its actions raises outside code that catches it |
| `MemberPartitions.OnePartAfterTheOther` | conftest.py:192-208 | of a session in two parts the second runs from where the first ended, and not at all behind a raise |
| `MemberPartitions.SingleActions` | conftest.py:192-208 | what each action comes to: an act in place, a switch to the member of a path, a block between the switch to its member and the one back, a block whose exception goes no further |
| `MemberPartitions.ScopeGoesBack` | conftest.py:200-208 | a scope goes back to the partition it came from, and finds it as it left it unless its own code ran inside |
| `PartitionSwitch.Logger.Install` | conftest.py:141-152 | a live logger takes a saved configuration in place |
| `PartitionSwitch.Manager.Read` | conftest.py:137-139 | the configurations of the loggers that are configured |
| `PartitionSwitch.Manager.Write` | conftest.py:141-152 | every existing logger takes its saved configuration or none, in place |
| `PartitionSwitch.Partitions.SwitchTo` | conftest.py:183-190 | a switch saves the live slots under the partition it leaves and installs the other's, or the initial values; a switch to the live partition does nothing |
| `PartitionSwitch.Partitions.Enter` | conftest.py:192-198 | entering a path switches to its member |
| `PartitionSwitch.Partitions.ScopeBegin` | conftest.py:200-208 | the head of a scope switches and remembers where from |
| `PartitionSwitch.Partitions.ScopeEnd` | conftest.py:200-208 | its end, raised through or not, switches back |
| `TimeoutFailures.EveryRunKeeps` | e2e/src/tai42_e2e/timeout_failures.py:33-127 | at every step of every run a fired timeout is in exactly one place, held, in flight or on a report; the flag is up where a phase's work runs; the reports so far are in order |
| `TimeoutFailures.TimeoutLandsOnce` | e2e/src/tai42_e2e/timeout_failures.py:43-54 | in a run that ends normally exactly one report carries a timeout that fired, wherever it fired, none does otherwise, and none is held any more |
| `TimeoutFailures.RaisedOnlyInAPhase` | e2e/src/tai42_e2e/timeout_failures.py:43-54 | the handler raises exactly while a phase's flag is up, into that phase, and holds at every other moment |
| `TimeoutFailures.ReportsOfATest` | e2e/src/tai42_e2e/timeout_failures.py:79-127 | setup, call exactly if the setup passed, teardown, and one more report only to carry a timeout; a phase whose work was left undone has the timeout on its own report, or is the call of a failed setup |
| `TimeoutReports.WhereItLands` | e2e/src/tai42_e2e/timeout_failures.py:33-127 | which report carries the timeout, on where the timer fired alone: fired in a phase or on the way into it, that phase's; held behind it, that of the next phase that comes to a report; and one more report of its own only behind the teardown's hook |
| `TimeoutReports.FailuresAre` | e2e/src/tai42_e2e/timeout_failures.py:33-127 | a phase's report is a failure exactly if it carries the timeout or the phase's own work failed |
| `TimeoutReports.UndisturbedTest` | e2e/src/tai42_e2e/timeout_failures.py:33-127 | without a timer each phase reports its own work, the call only behind a setup that passed, and nothing else is reported |
| `TimeoutFailures.WorkLeftUndone` | e2e/src/tai42_e2e/timeout_failures.py:79-115 | in a run that ends normally a teardown's work is left undone if and only if the timer fired with the flag up and the work not begun, so never for a timeout that was held; a setup's if and only if it fired then or right before; a call's if and only if it fired then, was held since the setup's own check, or the setup failed |
| `TimeoutFailures.TimeoutNeverEndsTheRun` | e2e/src/tai42_e2e/timeout_failures.py:104-115 | only work that raises an interrupt or an exit ends the whole run |
| `TimeoutFailures.TheRunGoesOn` | e2e/src/tai42_e2e/timeout_failures.py:79-127 | wherever the timer fires the run has a next step until its end and every step brings it nearer |
| `TimeoutFailures.ExitOvertaken` | e2e/src/tai42_e2e/timeout_failures.py:79-86 | a timer that fires after work raised an exit but before the flag is cleared overtakes the exit, and one step later it does not |
| `TimeoutHooks.Item.Handler` | e2e/src/tai42_e2e/timeout_failures.py:43-52 | the handler's whole effect: held with the flag down; raised with it up, out of the hook before the try, by way of the finally inside it, cutting the clearing short in it |
| `TimeoutHooks.Item.RaiseHeldTimeout` | e2e/src/tai42_e2e/timeout_failures.py:72-76 | a held timeout is dropped and raised, nothing else happens |
| `TimeoutHooks.Item.RunPhase` | e2e/src/tai42_e2e/timeout_failures.py:79-86 | flag, try, work and clearing, with a signal at any point between, end behind the phase and are a run of the step model; the work is left undone if and only if the signal came between the flag and the work |
| `TimeoutHooks.Item.SetupOrCall` | e2e/src/tai42_e2e/timeout_failures.py:89-100 | a setup or call with a held timeout fails without running; its work is left undone if and only if the timer skips it, held or between flag and work; either ends where pytest has what it raised, or ends the run |
| `TimeoutHooks.Item.Teardown` | e2e/src/tai42_e2e/timeout_failures.py:103-115 | a teardown with a timeout held runs its work, then raises what is held; its work is left undone if and only if the signal came between its flag and its work; what ends the run still does |
| `TimeoutHooks.Item.ReportHeldTimeout` | e2e/src/tai42_e2e/timeout_failures.py:118-127 | a timeout still held at the end gets a report of its own and is held no more |
| `TimeoutHooks.Item.RunProtocol` | e2e/src/tai42_e2e/timeout_failures.py:33-127 | one test's protocol in its own control flow, the timer due at any program point: a normal end has exactly one report for a timeout that fired, none held, the teardown's work done unless the signal came between its flag and that work; any other end is work that ends the run |
| `RedisPool.RedisAdmin.AllocateDb` | e2e/src/tai42_e2e/redisx.py:70-96 | the bounded search leaves the cursor and the held set the specification says, with the same lease or error |
| `RedisPool.RedisAdmin.ReleaseDb` | e2e/src/tai42_e2e/redisx.py:134-136 | the index is no longer held, and nothing else changes |
| `RedisPool.WindowCovers` | e2e/src/tai42_e2e/redisx.py:78-84 | any n consecutive cursor values, modulo n, look at every index |
| `RedisPool.LeaseIsSound` | e2e/src/tai42_e2e/redisx.py:70-96 | a lease is in range and was not held, exhaustion is reported if and only if every index is held, a refused index retires nothing |
| `RedisPool.LeaseLooksInOrder` | e2e/src/tai42_e2e/redisx.py:78-96 | what is leased or refused is the first free index from the cursor on, and the cursor stands right behind it, after a refusal too, or a whole round on when every index is held |
| `RedisPool.LeasedAgainAfterEveryOther` | e2e/src/tai42_e2e/redisx.py:70-96 | where nothing is refused in between, an index is leased again only after every other index was held at some moment since |
| `Harness.Infra.AllocateResources` | e2e/src/tai42_e2e/harness.py:78-183 | the steps and the exception handler, in place, leave what the specification says and return the resources or the error, whichever step raises |
| `Harness.Infra.AcquireRest` | e2e/src/tai42_e2e/harness.py:132-174 | the steps inside the guard up to the first that raises, with how far they got |
| `Harness.Infra.AllocateBroker` | e2e/src/tai42_e2e/rabbitx.py:61-81 | the vhosts after each way of making one: made, refused, made and deleted again, made and left by what raises |
| `Harness.Infra.ReleaseResources` | e2e/src/tai42_e2e/harness.py:186-210 | every release is tried; what is held afterwards and the number of errors are as specified |
| `Harness.FailureIsAtomic` | e2e/src/tai42_e2e/harness.py:128-183 | an allocation that raises at whichever step leaves exactly what was held, if and only if its stack id is new, the cleanups it comes to do not raise, and its broker did not raise with the new vhost in place |
| `Harness.VhostStays` | e2e/src/tai42_e2e/harness.py:141-183 | a vhost left by a broker that raises after making it stays held with a new stack id and every cleanup returning: the handler has no lease to release |
| `Harness.FailureLosesNothing` | e2e/src/tai42_e2e/harness.py:175-183 | a failed allocation under a new stack id frees nothing that was held before it, whatever its cleanups do |
| `Harness.SuccessTakesFree` | e2e/src/tai42_e2e/harness.py:128-174 | a successful allocation takes exactly one index that was free in each pool it asks, a database name that was new and the lease it reports, and nothing else |
| `Harness.AllocateThenRelease` | e2e/src/tai42_e2e/harness.py:186-210 | allocating under a name no lease has and releasing is the identity on what is held, with no error |
| `Harness.ReleaseGoesOn` | e2e/src/tai42_e2e/harness.py:186-210 | a release that meets errors still frees both indices and everything whose own release did not raise, and counts each error |
| `Harness.LiveStacksAreApart` | e2e/src/tai42_e2e/harness.py:78-210 | over any run of boots and teardowns, whatever their cleanups do, no two live stacks share an index, a database or a lease, and all they have is held, as long as a boot that fails has a new stack id |
| `HarnessLaws.AllocationReturns` | e2e/src/tai42_e2e/harness.py:78-183 | an allocation returns exactly if both leases do, the database is made and nothing behind it raises, and what it returns is what it was given |
| `HarnessLaws.DatabaseLeft` | e2e/src/tai42_e2e/harness.py:134-183 | a failed allocation leaves its database exactly if it was made and a cleanup up to its own raised, and every other database alone |
| `HarnessLaws.IndexLeft` | e2e/src/tai42_e2e/harness.py:128-183 | it leaves an index exactly if it took one and a cleanup raised first, and the round of the pool goes on behind it either way |
| `HarnessLaws.ReleaseLeaves` | e2e/src/tai42_e2e/harness.py:186-210 | a release leaves the lease and the database exactly where their own calls raised, no index, and everything of other stacks |
| `HarnessLaws.TornDown` | e2e/src/tai42_e2e/harness.py:186-210 | a teardown of a live stack leaves its database and lease exactly where their own calls raised |
| `HarnessLaws.LiveAre` | e2e/src/tai42_e2e/harness.py:78-210 | a stack is live from the boot that returned it to its teardown |
| `HarnessLaws.BootedAndTornDown` | e2e/src/tai42_e2e/harness.py:78-210 | booted and torn down again without an error it leaves the session as it was |
| `PortOwnership.ReallocatedKeeps` | e2e/src/tai42_e2e/port_ownership.py:140-183 | a reallocation keeps every spec's port argument, port-derived env, record and running process consistent, the target running from a spec with the new port, ports distinct and reserved |
| `PortOwnership.TriesAgain` | e2e/src/tai42_e2e/port_ownership.py:61-83 | an attempt leaves it to the next if and only if the port collided and another was to be had, and that one is then the process's |
| `PortOwnership.HealKeeps` | e2e/src/tai42_e2e/port_ownership.py:61-83 | whatever foreign processes and exits come in between, a heal that does not run out of ports leaves a consistent stack with the same names |
| `PortOwnership.HealAllKeeps` | e2e/src/tai42_e2e/port_ownership.py:29-42 | healing the fleet leaves a consistent stack unless it ran out of ports, and gives up only at a process that binds a port, spent, timed out or without a port |
| `PortOwnership.HealEndsBy` | e2e/src/tai42_e2e/port_ownership.py:61-83 | a heal ends by the first attempt that is no collision, and declares the bind failed exactly when all six collided |
| `PortOwnership.OwnExitIsLeftAlone` | e2e/src/tai42_e2e/port_ownership.py:64-69 | a child that died for a reason of its own is left as it is |
| `PortLaws.PortIsBehindTheFlag` | e2e/src/tai42_e2e/port_ownership.py:151-155 | the port of a command line is the value behind its first flag, and a new port takes its place and no other |
| `PortLaws.NoFlagNoPort` | e2e/src/tai42_e2e/port_ownership.py:151-155 | a flag at the very end has no value, and a command line without one is left as it is |
| `PortLaws.PortsOfAFleet` | e2e/src/tai42_e2e/stack.py:356-366 | a fleet's first server and an embedding host bind the first app port, every other server the second, the metrics server its own, nothing else any |
| `PortLaws.RefreshedSpecIs` | e2e/src/tai42_e2e/port_ownership.py:165-180 | a refreshed spec has every current port-derived value, the rest of its environment as it was, and the same command line |
| `PortLaws.RestartedWhereMoved` | e2e/src/tai42_e2e/port_ownership.py:176-183 | a process runs again exactly if it ran, is not the target, and a value of its environment moved |
| `PortLaws.CollisionRehomes` | e2e/src/tai42_e2e/port_ownership.py:140-162 | a collision with a port to be had leaves the process running on the first free offer, its command line with that port and every other as it was, and the lost port given up |
| `PortLaws.CollisionWithoutPort` | e2e/src/tai42_e2e/port_ownership.py:140-149 | where every offer is taken the process is down, its port given up, and nothing else has changed |
| `PortLaws.AttemptLeaves` | e2e/src/tai42_e2e/port_ownership.py:61-69 | an attempt that is no collision changes nothing but which processes exited meanwhile, and ends the heal as its fate says |
| `PortLaws.OneAfterTheOther` | e2e/src/tai42_e2e/port_ownership.py:29-42 | the fleet is healed in order: nothing behind a process that could not be healed is tried, and everything else is |
| `PortLaws.OneOfTheFleet` | e2e/src/tai42_e2e/port_ownership.py:29-42 | one process of it: nothing if it binds no port, and otherwise its heal of six attempts, which the fleet goes on from exactly where the process holds its port or died by itself |
| `PortHeal.PortRegistry.AllocatePort` | e2e/src/tai42_e2e/ports.py:16-32 | the first of the hundred offers that nothing has reserved is handed out and reserved; it fails if and only if every one was reserved |
| `PortHeal.TaiStack.SetPort` | e2e/src/tai42_e2e/stack.py:164-170 | the record of the named process takes the new port and nothing else changes |
| `PortHeal.TaiStack.RefreshPortDerivedEnv` | e2e/src/tai42_e2e/port_ownership.py:165-183 | every outdated spec takes the current port-derived env, and every running process of one but the target runs again from it |
| `PortHeal.TaiStack.ReallocateAndRespawn` | e2e/src/tai42_e2e/port_ownership.py:140-162 | the in-place steps in order are the specified reallocation; where no port is to be had the child is reaped and its port given up |
| `PortHeal.TaiStack.HealProcessPort` | e2e/src/tai42_e2e/port_ownership.py:61-83 | the bounded loop is the specified heal, and keeps a consistent stack consistent unless it ran out of ports |
| `PortHeal.TaiStack.EnsureOwnPorts` | e2e/src/tai42_e2e/port_ownership.py:29-42 | every process that binds a port is healed in turn up to the first that cannot be, exactly as specified, consistency kept |

## Left out

- TcpRelay.EveryRunKeeps: relay threads are atomic steps on a state value, not Dafny threads; a join
  always completes, so the retired accept threads and the 5-second join limits are not modelled, nor
  failures to create a thread, nor `wait_relay_ready`. A chunk is sent whole or not at all, and the
  half-close of a peer changes no socket of the model.
- RelayObject.SeverableRelay.Stop: a joined thread is given a turn between any two schedules of the
  others; without that fairness a join need not end.
- TrainLaws.CandidatesAreOnDisk: assumes distinct normalized member names; with two members of one
  name the last one declared decides on disk and the candidate's in the query.
- QueryLaws.QueryForetellsApply: assumes at most one `contract:` line per descriptor; `TwoPinsDisagree`
  shows what happens otherwise.
- TrainLaws.OneRoundSettles: takes the forced versions being patch bumps as its hypothesis, since the
  versioning strategy is release-please's; `LoopTrainIsAccepted` needs no such hypothesis.
- McpSession.InvokeCallsAtMostOnce: a retired session rejects a request on arrival; deadlines are a
  flag each request may set; tool arguments, metadata and the first connection are not modelled.
- TimeoutHooks.Item.RunProtocol: program points stand for the gaps between statements, and a phase's work
  for the hook implementations and wrappers inside `_phase`; the thread method of the timer and the
  message that names the running waits are not modelled.
- MemberPartitions.SessionsAreApart: the two slots are the app binding and the named loggers; the root
  logger, placeholder loggers and the import hooks that call `enter` and `scope` are not modelled.
- RedisPool.LeaseIsSound: the probe for live orphans and the flush are given outcomes per index; client
  connections and process lookups are not modelled.
- Harness.FailureIsAtomic: URLs, the assembled record and the storage directory are not modelled; a
  database or lease is its name.
- PortOwnership.HealKeeps: the port watch is a given fate per attempt; log tails and pid attribution are
  not modelled.
- PortOwnership.HealAllKeeps: a second `serve` process on a stack with one app port has no port here and is
  passed over; the code raises an IndexError there.
- PgConversation.DecodeInvertsEncode: text stays UTF-8 bytes; a negative mark of the tap, the tap's lock
  and `PgStatement.carries` are not modelled.
- Bookkeeping.ClassifyRewrites: of `_path_is_bookkeeping` only the pyproject and descriptor shapes; the
  manifest, lockfile, version.txt and changelog shapes are simpler members of the same kind.
- Sync.Workspace.Apply: TOML and YAML parsing, file discovery and globbing are the inputs' business: a
  pyproject's literals are its quoted strings without escapes, the replacement acts on those and not on
  other text that happens to look quoted.
- SyncLaws.ApplyTouchesNothingElse: lines are the text as read; reading and writing translate newlines, so a
  changed CRLF file has every line ending rewritten on disk.
- BookkeepingLaws.ResyncIsBookkeeping: a diff shows every kept line as context; hunk headings are `Header`
  entries of `Bookkeeping.Edit` alone.
- Query.AskMoves: JSON in and out and the command line are not modelled.
- ReleaseLoop.PythonWorkspace.BuildAllPackages: `candidatesByPackage`, package order, notes,
  and the methods that build pull requests belong to release-please; a `bump` that raises is not modelled.
- Regular expression digits and letters, and `lower()`, are taken as ASCII.
- `format_violation`, `_format_drift` and every other error text.
- Subprocess, git, node, HTTP, PyPI and GitHub calls, recording stubs, seeding and fixture data, user
  interface tests.
