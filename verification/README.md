# Library monitor: a Dafny model of version-change detection and state reconciliation

This project models the core of a small career-learning agent that watches a fixed
list of Python packages on the package index. The model covers these parts:

- **Change classification.** A transition from an optional stored version to a newly
  seen version becomes one of five kinds: new, major, minor, patch or unknown.
- **Action table.** The change kind and the package's relevance tags give one of four
  recommended actions: deep dive, skim, bookmark or urgent.
- **Learning material.** Study topics come from a per-package table. The advisory
  prompt is chosen by change kind.
- **Reconciliation.** Checking one package decides whether to emit a change record and
  rewrites that package's stored record.
- **Check cycle.** A cycle checks a list of packages, appends the emitted changes to a
  history capped at 100 entries, and stamps the check time.
- **Catch-up.** Marking a package updated moves its current version up to its latest
  version.
- **Queries.** Three queries run on the persisted state: outdated libraries, changes
  since a time, and the active study session.
- **Configuration.** The default package list and the per-package context table are
  modelled as constants. The monitor reads them, together with the study-topic table
  and the version parser, from a `LibraryMonitor.Settings` value.
  `LibraryMonitor.DefaultSettings` holds the tables as shipped. The properties are
  proved for any settings unless they name the default tables.

Everything is pure functions over immutable datatypes:

- `optional.dfy` (`Optional`): `Option`, plus Python truthiness of optional strings.
- `seqs.dfy` (`Seqs`): an order-preserving `Filter` with its subsequence and
  multiplicity laws, plus `KeepLast`, Python's `s[-n:]` for `n > 0`.
- `dicts.dfy` (`Dicts`): an insertion-ordered string-keyed dictionary. It models the
  order in which Python's `dict.values()` returns values.
- `versions.dfy` (`Versions`): the (major, minor, micro) release triple. It also holds a
  simplified dotted-numeric parser, proved to invert its canonical formatter.
- `models.dfy` (`Models`): the persisted records, the state invariant `Consistent`, and
  the three queries.
- `config.dfy` (`Config`): the default package list and the context table.
- `monitor.dfy` (`LibraryMonitor`): classification, action, learning material,
  `CheckLibrary`, the cycle and `MarkUpdated`.
- `properties.dfy` (`MonitorProperties`): lemmas that relate the operations to each
  other, to the invariant and to the configuration.

Version parsing is the `parse: string -> Option<Release>` field of the settings. `None` stands for
every way the source's parse can fail: an exception, or a parsed object without
`major`. `Versions.ParseRelease` is one concrete parser, used for the worked examples.

Fetching is also an input. Each package's fetch result is an `Option<Metadata>`, where
`None` means the fetch failed. Timestamps are integers passed in by the caller.

A cycle is a left fold over the packages in input order, and the packages must be
distinct. `CheckAllLibraries` states two things about it:

- Its changes equal `IndependentChanges`: what each package emits when checked alone
  against the state before the cycle.
- `CheckLibraryCommutes` shows that two checks of different packages can run in either
  order. Only the dictionary position of newly tracked packages changes.

Together these justify modelling the source's concurrent gather as a sequential fold.

The state invariant `Models.Consistent` holds when:

- every key appears once;
- every entry is named after its key;
- both stored versions are non-empty;
- `isOutdated` is exactly `currentVersion != latestVersion`.

Every operation preserves it. The source breaks it in one case: a stored current
version equal to `""`, which is falsy in Python (`EmptyCurrentVersionQuirk`). The
monitor itself never produces such a state.

## Model

| member | source | states |
|---|---|---|
| LibraryMonitor.DetectChangeType | src/career_agent/core/library_monitor.py:43-64 | New exactly when there is no old version. Otherwise Unknown exactly when a side fails to parse or no release component went up. Major implies the major component went up. Minor implies major did not go up and minor did. Patch implies neither major nor minor went up and micro did. |
| MonitorProperties.UpgradeIsClassified | src/career_agent/core/library_monitor.py:54-64 | An upgrade in semantic-version order is always Major, Minor or Patch, never Unknown. |
| MonitorProperties.ClassifyCanonical | src/career_agent/core/library_monitor.py:54-64 | On canonical "a.b.c" strings, each kind holds iff its component test holds. The tests form an elif chain, not a lexicographic comparison. |
| MonitorProperties.ClassificationExamples | src/career_agent/core/library_monitor.py:43-64 | Worked examples: None→1.2.3 is New. From 1.2.3: 2.0.0 is Major, 1.3.0 is Minor, 1.2.4 is Patch, 1.2.3-beta is Unknown because this parser rejects it. The downgrade 2.0.0→1.5.0 is Minor. |
| MonitorProperties.SameReleaseIsUnknown | src/career_agent/core/library_monitor.py:50-64 | For any parser, a new version that reads as the same release as the old one is Unknown: it reaches the final `else`. |
| MonitorProperties.PreReleaseIsUnknown | src/career_agent/core/library_monitor.py:50-64 | For any parser that reads both 1.2.3 and 1.2.3-beta as release (1, 2, 3), the transition 1.2.3→1.2.3-beta is Unknown. |
| LibraryMonitor.DetermineAction | src/career_agent/core/library_monitor.py:66-79 | Urgent iff Major with "production". Major without "production" gives DeepDive. Minor gives DeepDive iff "portfolio" or "interview" is present, otherwise Skim. New gives DeepDive. Bookmark iff Patch or Unknown. |
| MonitorProperties.ActionDependsOnTagSet | src/career_agent/core/library_monitor.py:66-79 | The action depends only on which tags are present, not on their order or repetition. |
| LibraryMonitor.GenerateLearningConcepts | src/career_agent/core/library_monitor.py:81-128 | A package in the table gets its table entry. Any other package gets three empty lists. |
| MonitorProperties.ConceptsIgnoreKind | src/career_agent/core/library_monitor.py:81-128 | The topics do not depend on the change kind. Every default package has non-empty beginner topics. |
| LibraryMonitor.GenerateLearningPrompt | src/career_agent/core/library_monitor.py:130-144 | The first letter identifies the template: B iff Major, N iff Minor, S iff New, U iff Patch or Unknown. The prompt is the kind's lead words, then the display name and version, then the kind's advice. |
| MonitorProperties.PromptTemplateByKind | src/career_agent/core/library_monitor.py:137-144 | Two kinds give the same prompt iff they select the same template (Patch and Unknown share one). |
| Config.DisplayName | src/career_agent/core/library_monitor.py:158-159 | The configured display name, or the package id when the package is not configured. |
| Config.Relevance | src/career_agent/core/library_monitor.py:158-160 | The configured relevance tags, or none when the package is not configured. |
| LibraryMonitor.LatestVersion | src/career_agent/core/library_monitor.py:148-156 | A usable latest version exists iff the fetch succeeded and its version is present and non-empty. |
| LibraryMonitor.PreviousVersion | src/career_agent/core/library_monitor.py:162-164 | Absent iff the package is untracked. Otherwise it is the stored current version. |
| LibraryMonitor.CheckLibrary | src/career_agent/core/library_monitor.py:146-201 | Without a usable latest version, the state is unchanged and there is no change. History, sessions and last check time are never touched. The key order changes only by appending a newly tracked package. |
| LibraryMonitor.ChangelogLink | src/career_agent/core/library_monitor.py:181 | Present exactly when the project links include the label "Changelog", and then it is that link. |
| LibraryMonitor.CheckLibraryOutcome | src/career_agent/core/library_monitor.py:163-199 | A change is emitted iff the stored current version differs from the latest. It carries the package, its display name, the previous and new versions, the detection time, the package's relevance tags and the project link labelled "Changelog" (none when absent). Its kind, action, concepts and prompt are the helpers applied to that transition and those tags. The package's stored record becomes the reconciled one. |
| LibraryMonitor.CheckLibraryFrame | src/career_agent/core/library_monitor.py:188-199 | A check leaves every other package's stored record unchanged. |
| LibraryMonitor.ReconciledMeaning | src/career_agent/core/library_monitor.py:188-199 | The rebuilt record has the package's display name, the latest version and the check time. Its homepage is the truthy home page, else the project URL. Its summary and required Python version come from the metadata. A first sighting starts on the latest version and is not outdated. A truthy previous version is kept, and the record is outdated iff it differs from the latest. |
| LibraryMonitor.CheckLibraryLocal | src/career_agent/core/library_monitor.py:163-186 | The emitted change depends only on the package's own stored record. |
| MonitorProperties.CheckLibraryEntryLocal | src/career_agent/core/library_monitor.py:188-199 | The record a check writes depends only on the package's own previous record. |
| MonitorProperties.FirstSighting | src/career_agent/core/library_monitor.py:163-199 | For an untracked package: one New change with DeepDive and no previous version. The stored current version is the latest, and the record is not outdated. |
| MonitorProperties.VersionBump | src/career_agent/core/library_monitor.py:163-199 | For a tracked package with a new version: one change from the stored version. The user stays on the stored version, the latest is recorded, and the record is outdated. |
| MonitorProperties.ReEmitUntilMarked | src/career_agent/core/library_monitor.py:188-199 | A check never advances a tracked current version, so checking again re-emits the same transition with the same kind and action. |
| MonitorProperties.CheckLibraryIdempotent | src/career_agent/core/library_monitor.py:146-201 | On a consistent state, repeating a check with the same fetch result and time leaves the same state. |
| MonitorProperties.EmptyCurrentVersionQuirk | src/career_agent/core/library_monitor.py:192-198 | A stored current version of "" counts as absent when the record is rebuilt, so the record jumps to the latest version yet is flagged outdated. |
| MonitorProperties.CheckLibraryConsistent | src/career_agent/core/library_monitor.py:188-199 | A check preserves the state invariant. |
| MonitorProperties.CheckLibraryCommutes | src/career_agent/core/library_monitor.py:207-209 | Checking two different packages in either order emits the same changes and stores the same record for every key. |
| LibraryMonitor.LibrariesToCheck | src/career_agent/core/library_monitor.py:207 | A non-empty list is used as given. An absent or empty list falls back to the default packages. |
| LibraryMonitor.CheckBatch | src/career_agent/core/library_monitor.py:208-211 | A fold over the packages leaves history, sessions and check time alone. It emits at most one change per package, each stamped with the cycle time. |
| LibraryMonitor.CheckBatchIndependent | src/career_agent/core/library_monitor.py:208-211 | With distinct packages, the fold emits exactly what each package emits alone against the starting state, in input order. |
| MonitorProperties.CheckBatchConsistent | src/career_agent/core/library_monitor.py:208-211 | The fold preserves the state invariant. |
| MonitorProperties.CheckBatchEntries | src/career_agent/core/library_monitor.py:208-211 | After the fold, an unchecked package keeps its record. A checked one has the record a single check against the starting state gives. |
| LibraryMonitor.CheckAllLibraries | src/career_agent/core/library_monitor.py:203-224 | The changes are the per-package results in input order, stamped now. The history is the last min(100, old+new) entries of the old history followed by the changes. The check time is set even when nothing changed. Sessions are untouched. |
| MonitorProperties.CheckAllLibrariesConsistent | src/career_agent/core/library_monitor.py:203-224 | A cycle preserves the state invariant. |
| MonitorProperties.CheckAllLibrariesEntries | src/career_agent/core/library_monitor.py:203-224 | After a cycle, unchecked packages keep their record and checked ones have their single-check record. |
| MonitorProperties.RecentWindow | src/career_agent/core/library_monitor.py:214-218 | If all older entries predate `since` and the new ones are later, the entries after `since` in the capped history are exactly the new changes. |
| MonitorProperties.ChangesSinceLastCycle | src/career_agent/core/library_monitor.py:211-219 | If the old history predates `since` and at most 100 changes were emitted, the changes since then after a cycle are exactly the cycle's changes. |
| LibraryMonitor.MarkUpdated | src/career_agent/core/library_monitor.py:234-243 | Returns false and changes nothing iff the package is untracked. Otherwise the package's current version becomes its latest and it is not outdated. Its other fields, other packages, key order, history, sessions and check time are unchanged. |
| MonitorProperties.MarkUpdatedConsistent | src/career_agent/core/library_monitor.py:234-243 | Catching up preserves the state invariant. |
| MonitorProperties.MarkThenCheckQuiet | src/career_agent/core/library_monitor.py:234-243 | After catching up, a check that sees the same latest version emits nothing and leaves the package not outdated. |
| Models.EmptyState | src/career_agent/core/models.py:80-85 | A fresh state has no libraries, no changes, no sessions and no last check, and satisfies the invariant. |
| Models.Defaults | src/career_agent/core/models.py:29-77 | Topics default to three empty lists and a stored library to not outdated. A change defaults to Skim with empty topics. A session defaults to no cards, not completed and no end time. |
| Models.GetOutdated | src/career_agent/core/models.py:87-89 | Returns exactly the stored libraries flagged outdated, each with its multiplicity. |
| MonitorProperties.GetOutdatedInOrder | src/career_agent/core/models.py:87-89 | The outdated libraries appear in dictionary order. |
| MonitorProperties.OutdatedMeansBehind | src/career_agent/core/models.py:87-89 | On a consistent state, the outdated libraries are exactly those whose current version differs from the latest. |
| Models.GetChangesSince | src/career_agent/core/models.py:91-93 | Returns exactly the recorded changes detected strictly after `since`, each with its multiplicity. |
| MonitorProperties.GetChangesSinceInOrder | src/career_agent/core/models.py:91-93 | The returned changes keep history order. |
| MonitorProperties.EmptyStateQueries | src/career_agent/core/models.py:80-93 | A fresh state reports nothing outdated and no changes. |
| Models.GetActiveSession | src/career_agent/core/models.py:95-100 | None iff every session is completed. Otherwise it returns a session that is not completed and after which every session is completed. |
| Config.LibrariesDistinct | src/career_agent/config.py:10-22 | Eight default packages, none repeated. |
| Config.LibrariesHaveContext | src/career_agent/config.py:10-66 | Every default package has a context entry, so the display-name fallback never fires for them. The context keys are exactly the defaults. |
| Config.RelevanceTagsKnown | src/career_agent/config.py:25-66 | Every configured tag is "portfolio", "interview" or "production". |
| MonitorProperties.DefaultMajorActions | src/career_agent/config.py:25-66 | For the defaults, a major change is DeepDive only for opencv-python and supervision, which lack "production". It is Urgent for the other six. |
| MonitorProperties.DefaultMinorActions | src/career_agent/config.py:25-66 | For the defaults, a minor change is Skim only for onnxruntime, whose only tag is "production". It is DeepDive for the rest. |

## Left out

- Fetching package metadata over HTTP is not modelled. Each package's fetch result is
  an input, and `None` stands for an HTTP error, the only failure the fetch catches.
  The index URL constant is not modelled either.
- An exception that escapes a package's check is not modelled. Two causes are known: a
  response body that is not JSON (`response.json()` at library_monitor.py:38 raises,
  and only HTTP errors are caught at line 39), and a JSON `null` project links field
  (line 181). Either exception propagates through `asyncio.gather` at line 209 and
  aborts the whole cycle before lines 214-222. No change is recorded, `last_full_check`
  is not set, and nothing is saved. Records of other packages already rewritten in
  memory stay rewritten. The model has no such path: every check completes.
- Concurrent fetching with `asyncio.gather` is modelled as a sequential fold in input
  order. In the source, newly tracked packages enter the dictionary in fetch-completion
  order. `CheckLibraryCommutes` shows this position is the only thing the order affects.
- Reading the clock is not modelled. Each operation takes one `now`, while the source
  reads the clock separately for the detection time, the check time of each record and
  the cycle's check time.
- The PEP 440 version parser is not modelled. It is a parameter. `Versions.ParseRelease`
  is a simplified dotted-numeric stand-in with no epochs, pre-, post- or dev-releases,
  local versions or leading "v".
- Persisting the state is not modelled: the `save` calls after a cycle and after
  catching up, loading, corrupt-file backup and clearing (`storage.py`). They are file
  I/O and JSON serialisation.
- The command-line and tool-call surfaces (`cli.py`, `mcp_server.py`) are presentation
  only. The package's `__init__.py` only re-exports.
- `get_status` just returns the state, and the monitor's `get_outdated` just delegates
  to `Models.GetOutdated`.
- The project links field is modelled as a map, which is empty when absent. The JSON
  `null` case is covered by the line above on exceptions.
- The context table's `category` is carried but never used by the monitor.
  `release_date` is never set.
- Starting and finishing study sessions are not modelled because the source has no
  such operations. Only the active-session query exists.
- CheckAllLibraries: requires the packages to check to be distinct. With a repeated
  package, the source's concurrent checks of it run in an unspecified order.
- Consistent: `isOutdated` always equals `currentVersion != latestVersion`, and every
  operation keeps this. The source keeps it only for states whose stored
  versions are non-empty, and `EmptyCurrentVersionQuirk` shows the exception. The
  relevance tags are a list in the source, not a set. Only membership is used, as
  `ActionDependsOnTagSet` shows.
