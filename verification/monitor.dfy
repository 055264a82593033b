/**
 * The library monitor: classifies version transitions, recommends an action,
 * attaches learning material, reconciles the stored state with freshly fetched
 * package metadata, and lets the user catch up on a library.
 *
 * The monitor reads its tables and its version parser from a `Settings`
 * value; `DefaultSettings` holds the tables the monitor ships with. The parser
 * returns the (major, minor, micro) release triple of a version string, or
 * `None` when the string cannot be read. Fetching is left to the caller, who
 * supplies each package's metadata (or `None` when the fetch failed); clocks
 * are supplied as integer timestamps.
 */
module LibraryMonitor {
  import opened Optional
  import opened Seqs
  import opened Dicts
  import opened Versions
  import opened Models
  import opened Config

  // ---------------------------------------------------------------------------
  // Change classification

  /** Some release component went up (not necessarily the most significant one). */
  predicate Bumped(n: Release, o: Release) {
    n.major > o.major || n.minor > o.minor || n.micro > o.micro
  }

  /** Both versions parsed, as (old, new) release triples; `None` if either fails. */
  function ParseBoth(parse: string -> Option<Release>, oldVersion: string, newVersion: string)
    : Option<(Release, Release)>
  {
    if parse(oldVersion).Some? && parse(newVersion).Some?
    then Some((parse(oldVersion).value, parse(newVersion).value))
    else None
  }

  /**
   * Classifies the transition from `oldVersion` to `newVersion`. An absent old
   * version is a new library. Otherwise the components are tested in turn,
   * each test reached only when the previous ones failed: the major component
   * went up, else the minor one, else the micro one. Anything else, including
   * a version either side that does not parse, is unknown. Never fails.
   */
  function DetectChangeType(parse: string -> Option<Release>, oldVersion: Option<string>, newVersion: string)
    : (r: ChangeType)
    ensures r == New <==> oldVersion.None?
    ensures oldVersion.Some? ==> var rs := ParseBoth(parse, oldVersion.value, newVersion);
      (r == Unknown <==> rs.None? || !Bumped(rs.value.1, rs.value.0))
    ensures oldVersion.Some? ==> var rs := ParseBoth(parse, oldVersion.value, newVersion);
      (r == Major ==> rs.Some? && rs.value.1.major > rs.value.0.major)
    ensures oldVersion.Some? ==> var rs := ParseBoth(parse, oldVersion.value, newVersion);
      (r == Minor ==> rs.Some? && rs.value.1.major <= rs.value.0.major && rs.value.1.minor > rs.value.0.minor)
    ensures oldVersion.Some? ==> var rs := ParseBoth(parse, oldVersion.value, newVersion);
      (r == Patch ==> && rs.Some? && rs.value.1.major <= rs.value.0.major
                      && rs.value.1.minor <= rs.value.0.minor && rs.value.1.micro > rs.value.0.micro)
  {
    if oldVersion.None? then New
    else
      var o := parse(oldVersion.value);
      var n := parse(newVersion);
      if o.None? || n.None? then Unknown
      else if n.value.major > o.value.major then Major
      else if n.value.minor > o.value.minor then Minor
      else if n.value.micro > o.value.micro then Patch
      else Unknown
  }

  // ---------------------------------------------------------------------------
  // Action recommendation

  /**
   * The recommended action, by a first-match table over the change kind and
   * the package's relevance tags: a major change is urgent for production use
   * and a deep dive otherwise; a minor change is a deep dive when it matters
   * for the portfolio or for interviews and a skim otherwise; a new library is
   * a deep dive; patch and unknown changes are bookmarked.
   */
  function DetermineAction(kind: ChangeType, relevance: seq<string>): (r: ActionType)
    ensures r == Urgent <==> kind == Major && "production" in relevance
    ensures kind == Major && "production" !in relevance ==> r == DeepDive
    ensures kind == Minor ==> (r == DeepDive <==> "portfolio" in relevance || "interview" in relevance)
    ensures kind == Minor ==> r == DeepDive || r == Skim
    ensures kind == New ==> r == DeepDive
    ensures r == Bookmark <==> kind == Patch || kind == Unknown
  {
    match kind
    case Major => if "production" in relevance then Urgent else DeepDive
    case Minor => if "portfolio" in relevance || "interview" in relevance then DeepDive else Skim
    case New => DeepDive
    case _ => Bookmark
  }

  // ---------------------------------------------------------------------------
  // Learning material

  /** Study topics for the default packages. */
  const ConceptsTable: map<string, LearningConcepts> := map[
    "torch" := LearningConcepts(
      ["tensor operations", "basic neural networks"],
      ["autograd", "custom datasets", "model saving"],
      ["JIT compilation", "distributed training", "custom C++ extensions"]),
    "transformers" := LearningConcepts(
      ["tokenization", "pre-trained models"],
      ["fine-tuning", "attention mechanisms"],
      ["model parallelism", "quantization", "custom architectures"]),
    "ultralytics" := LearningConcepts(
      ["object detection basics", "inference"],
      ["training custom models", "data augmentation"],
      ["model export", "optimization", "multi-task learning"]),
    "fastapi" := LearningConcepts(
      ["routes", "request/response"],
      ["dependency injection", "middleware", "async"],
      ["OpenAPI customization", "background tasks", "websockets"]),
    "opencv-python" := LearningConcepts(
      ["image loading", "basic transforms"],
      ["feature detection", "contours"],
      ["camera calibration", "stereo vision", "GPU acceleration"]),
    "ray" := LearningConcepts(
      ["remote functions", "actors"],
      ["object store", "task dependencies"],
      ["cluster deployment", "autoscaling", "placement groups"]),
    "supervision" := LearningConcepts(
      ["annotation visualization", "video processing"],
      ["tracking", "zone counting"],
      ["custom annotators", "integration patterns"]),
    "onnxruntime" := LearningConcepts(
      ["model loading", "inference"],
      ["execution providers", "optimization"],
      ["custom operators", "quantization", "graph optimization"])
  ]

  /**
   * The study topics for a package. The change kind is accepted but plays no
   * part; a package without a table entry gets three empty lists.
   */
  function GenerateLearningConcepts(concepts: map<string, LearningConcepts>, pkg: string, kind: ChangeType)
    : (c: LearningConcepts)
    ensures pkg in concepts ==> c == concepts[pkg]
    ensures pkg !in concepts ==> c.beginner == [] && c.intermediate == [] && c.advanced == []
  {
    if pkg in concepts then concepts[pkg] else LearningConcepts()
  }

  /** The opening words of the prompt template a change kind selects. */
  function Lead(kind: ChangeType): (s: string)
    ensures |s| > 0
    ensures s[0] == (match kind case Major => 'B' case Minor => 'N' case New => 'S' case _ => 'U')
  {
    match kind
    case Major => "BREAKING: "
    case Minor => "NEW FEATURES: "
    case New => "START TRACKING: "
    case _ => "UPDATE: "
  }

  /** The advice that closes the prompt template a change kind selects. */
  function Advice(kind: ChangeType): string {
    match kind
    case Major => " - Review migration guide and check compatibility"
    case Minor => " - Explore new capabilities and API additions"
    case New => " - Review current API and core features"
    case _ => " - Check release notes for bug fixes"
  }

  /**
   * The learning prompt for a change: one of four templates, chosen by the
   * change kind alone (patch and unknown share one), filled in with the
   * package's display name and the new version: the kind's lead words, the
   * subject, then the kind's advice. The first letter of the prompt tells
   * the template apart.
   */
  function GenerateLearningPrompt(context: map<string, Context>, pkg: string, kind: ChangeType,
                                  newVersion: string)
    : (r: string)
    ensures |r| > 0
    ensures r[0] == 'B' <==> kind == Major
    ensures r[0] == 'N' <==> kind == Minor
    ensures r[0] == 'S' <==> kind == New
    ensures r[0] == 'U' <==> kind == Patch || kind == Unknown
    ensures var subject := DisplayName(context, pkg) + " " + newVersion;
      |Lead(kind)| + |subject| <= |r| && r[|Lead(kind)|..|Lead(kind)| + |subject|] == subject
    ensures |Lead(kind)| <= |r| && r[..|Lead(kind)|] == Lead(kind)
    ensures var subject := DisplayName(context, pkg) + " " + newVersion;
      |Lead(kind)| + |subject| <= |r| && r[|Lead(kind)| + |subject|..] == Advice(kind)
  {
    var subject := DisplayName(context, pkg) + " " + newVersion;
    var lead := Lead(kind);
    var r := lead + subject + Advice(kind);
    assert r[0] == lead[0];
    MiddleOfConcat(lead, subject, Advice(kind));
    r
  }

  // ---------------------------------------------------------------------------
  // Settings

  /**
   * What the monitor is configured with: the packages a cycle checks by
   * default, each package's context, each package's study topics, and the
   * version parser.
   */
  datatype Settings = Settings(
    libraries: seq<string>,
    context: map<string, Context>,
    concepts: map<string, LearningConcepts>,
    parse: string -> Option<Release>)

  /** The monitor as shipped: the configured packages and tables, with the given parser. */
  function DefaultSettings(parse: string -> Option<Release>): Settings {
    Settings(Libraries, LibraryContext, ConceptsTable, parse)
  }

  // ---------------------------------------------------------------------------
  // Reconciliation of one library

  /**
   * The package metadata a fetch returns: the version string, the descriptive
   * fields, and the project's labelled links (none when the index lists none).
   */
  datatype Metadata = Metadata(
    version: Option<string>,
    homePage: Option<string> := None,
    projectUrl: Option<string> := None,
    summary: Option<string> := None,
    requiresPython: Option<string> := None,
    projectUrls: map<string, string> := map[])

  /**
   * The latest version a fetch reports, or `None` when the fetch failed or its
   * version is missing or empty, which the monitor treats the same way.
   */
  function LatestVersion(fetched: Option<Metadata>): (r: Option<string>)
    ensures r.Some? <==> fetched.Some? && Truthy(fetched.value.version)
    ensures r.Some? ==> r == fetched.value.version && r.value != ""
  {
    if fetched.Some? && Truthy(fetched.value.version) then fetched.value.version else None
  }

  /** The stored `currentVersion` of `pkg`, or `None` when it is not tracked. */
  function PreviousVersion(st: LibraryState, pkg: string): (r: Option<string>)
    ensures r.None? <==> pkg !in Keys(st.libraries)
    ensures r.Some? ==> Get(st.libraries, pkg).Some? && r.value == Get(st.libraries, pkg).value.currentVersion
  {
    match Get(st.libraries, pkg)
    case None => None
    case Some(info) => Some(info.currentVersion)
  }

  /** The project link labelled "Changelog", if the metadata lists one. */
  function ChangelogLink(md: Metadata): (r: Option<string>)
    ensures r.Some? <==> "Changelog" in md.projectUrls
    ensures r.Some? ==> r.value == md.projectUrls["Changelog"]
  {
    if "Changelog" in md.projectUrls then Some(md.projectUrls["Changelog"]) else None
  }

  /** The change record for a transition from `previous` to `latest`, detected at `now`. */
  function ChangeRecord(cfg: Settings, pkg: string, previous: Option<string>,
                        latest: string, md: Metadata, now: int): LibraryChange
  {
    var kind := DetectChangeType(cfg.parse, previous, latest);
    LibraryChange(
      library := pkg,
      displayName := DisplayName(cfg.context, pkg),
      previousVersion := previous,
      newVersion := latest,
      changeType := kind,
      detectedAt := now,
      changelogUrl := ChangelogLink(md),
      concepts := GenerateLearningConcepts(cfg.concepts, pkg, kind),
      relevance := Relevance(cfg.context, pkg),
      action := DetermineAction(kind, Relevance(cfg.context, pkg)),
      learningPrompt := Some(GenerateLearningPrompt(cfg.context, pkg, kind, latest)))
  }

  /**
   * The stored record after a successful check. The user stays on the stored
   * version when it is truthy (Python's `previous or latest`: an empty string
   * counts as absent); a first sighting starts on the latest version.
   */
  function Reconciled(cfg: Settings, pkg: string, previous: Option<string>, latest: string,
                      md: Metadata, now: int): LibraryInfo
  {
    LibraryInfo(
      name := pkg,
      displayName := DisplayName(cfg.context, pkg),
      currentVersion := if Truthy(previous) then previous.value else latest,
      latestVersion := latest,
      lastChecked := now,
      homepage := Or(md.homePage, md.projectUrl),
      summary := md.summary,
      requiresPython := md.requiresPython,
      isOutdated := previous.Some? && previous.value != latest)
  }

  /**
   * Checks one package against its fetch result. Without a usable latest
   * version nothing happens. Otherwise a change record is produced when the
   * stored current version differs from the latest one, and the package's
   * stored record is rewritten.
   */
  function CheckLibrary(cfg: Settings, st: LibraryState, pkg: string,
                        fetched: Option<Metadata>, now: int): (r: (LibraryState, Option<LibraryChange>))
    ensures LatestVersion(fetched).None? ==> r == (st, None)
    ensures r.0.recentChanges == st.recentChanges
    ensures r.0.studySessions == st.studySessions
    ensures r.0.lastFullCheck == st.lastFullCheck
    ensures Keys(r.0.libraries) == if LatestVersion(fetched).None? || pkg in Keys(st.libraries)
      then Keys(st.libraries) else Keys(st.libraries) + [pkg]
  {
    var latest := LatestVersion(fetched);
    if latest.None? then (st, None)
    else
      var previous := PreviousVersion(st, pkg);
      var change :=
        if previous != latest then Some(ChangeRecord(cfg, pkg, previous, latest.value, fetched.value, now))
        else None;
      var info := Reconciled(cfg, pkg, previous, latest.value, fetched.value, now);
      (st.(libraries := Put(st.libraries, pkg, info)), change)
  }

  /**
   * What a successful check does: a change is emitted exactly when the stored
   * current version (absent if untracked) differs from the latest version. It
   * carries the package's display name, tags and changelog link; its kind and
   * action are the classifier and the action table applied to that transition
   * and those tags. The stored record becomes the reconciled one.
   */
  lemma CheckLibraryOutcome(cfg: Settings, st: LibraryState, pkg: string,
                            fetched: Option<Metadata>, now: int)
    requires LatestVersion(fetched).Some?
    ensures var latest := LatestVersion(fetched).value;
      var previous := PreviousVersion(st, pkg);
      var (st', change) := CheckLibrary(cfg, st, pkg, fetched, now);
      && (change.Some? <==> previous != Some(latest))
      && (change.Some? ==>
            && change.value.library == pkg
            && change.value.displayName == DisplayName(cfg.context, pkg)
            && change.value.previousVersion == previous
            && change.value.newVersion == latest
            && change.value.detectedAt == now
            && change.value.changeType == DetectChangeType(cfg.parse, previous, latest)
            && change.value.changelogUrl == ChangelogLink(fetched.value)
            && change.value.relevance == Relevance(cfg.context, pkg)
            && change.value.action == DetermineAction(change.value.changeType, change.value.relevance)
            && change.value.concepts == GenerateLearningConcepts(cfg.concepts, pkg, change.value.changeType)
            && change.value.learningPrompt
               == Some(GenerateLearningPrompt(cfg.context, pkg, change.value.changeType, latest)))
      && Get(st'.libraries, pkg) == Some(Reconciled(cfg, pkg, previous, latest, fetched.value, now))
  {
    var latest := LatestVersion(fetched).value;
    PutGet(st.libraries, pkg, Reconciled(cfg, pkg, PreviousVersion(st, pkg), latest, fetched.value, now));
  }

  /** A check touches no other package's stored record. */
  lemma CheckLibraryFrame(cfg: Settings, st: LibraryState, pkg: string,
                          fetched: Option<Metadata>, now: int, other: string)
    requires other != pkg
    ensures Get(CheckLibrary(cfg, st, pkg, fetched, now).0.libraries, other) == Get(st.libraries, other)
  {
    var latest := LatestVersion(fetched);
    if latest.Some? {
      var info := Reconciled(cfg, pkg, PreviousVersion(st, pkg), latest.value, fetched.value, now);
      PutGetOther(st.libraries, pkg, info, other);
    }
  }

  /** The reconciled record's fields, in terms of the versions and metadata it was built from. */
  lemma ReconciledMeaning(cfg: Settings, pkg: string, previous: Option<string>, latest: string,
                          md: Metadata, now: int)
    ensures var info := Reconciled(cfg, pkg, previous, latest, md, now);
      && info.name == pkg
      && info.displayName == DisplayName(cfg.context, pkg)
      && info.latestVersion == latest
      && info.lastChecked == now
      && info.homepage == (if Truthy(md.homePage) then md.homePage else md.projectUrl)
      && info.summary == md.summary
      && info.requiresPython == md.requiresPython
      && (previous.None? ==> info.currentVersion == latest && !info.isOutdated)
      && (Truthy(previous) ==>
            info.currentVersion == previous.value && info.isOutdated == (previous.value != latest))
  {
  }

  // ---------------------------------------------------------------------------
  // The check cycle

  /** The packages a cycle checks: the given list, or the defaults when it is absent or empty. */
  function LibrariesToCheck(cfg: Settings, libraries: Option<seq<string>>): (r: seq<string>)
    ensures libraries.Some? && libraries.value != [] ==> r == libraries.value
    ensures libraries.None? || libraries.value == [] ==> r == cfg.libraries
  {
    if libraries.Some? && libraries.value != [] then libraries.value else cfg.libraries
  }

  /** Pairs each package with its fetch result, in input order. */
  function Gather(libs: seq<string>, fetch: string -> Option<Metadata>)
    : (batch: seq<(string, Option<Metadata>)>)
    ensures |batch| == |libs|
    ensures forall i :: 0 <= i < |libs| ==> batch[i] == (libs[i], fetch(libs[i]))
  {
    seq(|libs|, i requires 0 <= i < |libs| => (libs[i], fetch(libs[i])))
  }

  /** The package names of a batch, in order. */
  function Names(batch: seq<(string, Option<Metadata>)>): (names: seq<string>)
    ensures |names| == |batch|
    ensures forall i :: 0 <= i < |batch| ==> names[i] == batch[i].0
  {
    seq(|batch|, i requires 0 <= i < |batch| => batch[i].0)
  }

  /**
   * Checks the packages of `batch` one after another, each against the state
   * the previous ones left, collecting the emitted changes in input order.
   */
  function CheckBatch(cfg: Settings, st: LibraryState,
                      batch: seq<(string, Option<Metadata>)>, now: int)
    : (r: (LibraryState, seq<LibraryChange>))
    ensures r.0.recentChanges == st.recentChanges
    ensures r.0.studySessions == st.studySessions
    ensures r.0.lastFullCheck == st.lastFullCheck
    ensures |r.1| <= |batch|
    ensures forall i :: 0 <= i < |r.1| ==> r.1[i].detectedAt == now
    decreases |batch|
  {
    if batch == [] then (st, [])
    else
      var (st1, change) := CheckLibrary(cfg, st, batch[0].0, batch[0].1, now);
      var (st2, changes) := CheckBatch(cfg, st1, batch[1..], now);
      (st2, ToSeq(change) + changes)
  }

  /** The changes each package of `batch` would emit if checked alone against `st`, in input order. */
  function IndependentChanges(cfg: Settings, st: LibraryState,
                              batch: seq<(string, Option<Metadata>)>, now: int): seq<LibraryChange>
    decreases |batch|
  {
    if batch == [] then []
    else
      ToSeq(CheckLibrary(cfg, st, batch[0].0, batch[0].1, now).1)
      + IndependentChanges(cfg, st, batch[1..], now)
  }

  /**
   * Runs one check cycle over the packages to check, given each package's fetch
   * result. The emitted changes are, in input order, those each package emits
   * against the state before the cycle; they are appended to the history, which
   * is cut to its last 100 entries, and the check time is stamped even when
   * nothing changed.
   */
  function CheckAllLibraries(cfg: Settings, st: LibraryState, libraries: Option<seq<string>>,
                             fetch: string -> Option<Metadata>, now: int)
    : (r: (LibraryState, seq<LibraryChange>))
    requires Distinct(LibrariesToCheck(cfg, libraries))
    ensures r.1 == IndependentChanges(cfg, st, Gather(LibrariesToCheck(cfg, libraries), fetch), now)
    ensures forall i :: 0 <= i < |r.1| ==> r.1[i].detectedAt == now
    ensures |r.0.recentChanges|
         == if |st.recentChanges| + |r.1| <= HistoryLimit then |st.recentChanges| + |r.1| else HistoryLimit
    ensures r.0.recentChanges == (st.recentChanges + r.1)[|st.recentChanges| + |r.1| - |r.0.recentChanges|..]
    ensures r.0.lastFullCheck == Some(now)
    ensures r.0.studySessions == st.studySessions
  {
    var libs := LibrariesToCheck(cfg, libraries);
    var batch := Gather(libs, fetch);
    var step := CheckBatch(cfg, st, batch, now);
    assert Names(batch) == libs;
    CheckBatchIndependent(cfg, st, batch, now);
    var history := KeepLast(st.recentChanges + step.1, HistoryLimit);
    (step.0.(recentChanges := history, lastFullCheck := Some(now)), step.1)
  }

  /** How many changes the history keeps. */
  const HistoryLimit: nat := 100

  /**
   * The per-package outcome does not depend on the order packages are
   * processed in: with distinct names, checking them in sequence emits exactly
   * the changes each would emit against the starting state.
   */
  lemma {:induction false} CheckBatchIndependent(cfg: Settings, st: LibraryState,
                                                 batch: seq<(string, Option<Metadata>)>, now: int)
    requires Distinct(Names(batch))
    ensures CheckBatch(cfg, st, batch, now).1 == IndependentChanges(cfg, st, batch, now)
    decreases |batch|
  {
    if batch != [] {
      var st1 := CheckLibrary(cfg, st, batch[0].0, batch[0].1, now).0;
      var rest := batch[1..];
      assert Names(rest) == Names(batch)[1..];
      CheckBatchIndependent(cfg, st1, rest, now);
      forall j | 0 <= j < |rest|
        ensures Get(st1.libraries, rest[j].0) == Get(st.libraries, rest[j].0)
      {
        assert Names(batch)[0] != Names(batch)[j + 1];
        CheckLibraryFrame(cfg, st, batch[0].0, batch[0].1, now, rest[j].0);
      }
      IndependentChangesLocal(cfg, st1, st, rest, now);
    }
  }

  /** The changes a package emits depend only on its own stored record. */
  lemma CheckLibraryLocal(cfg: Settings, s: LibraryState, t: LibraryState,
                          pkg: string, fetched: Option<Metadata>, now: int)
    requires Get(s.libraries, pkg) == Get(t.libraries, pkg)
    ensures CheckLibrary(cfg, s, pkg, fetched, now).1 == CheckLibrary(cfg, t, pkg, fetched, now).1
  {
    assert PreviousVersion(s, pkg) == PreviousVersion(t, pkg);
  }

  lemma {:induction false} IndependentChangesLocal(cfg: Settings, s: LibraryState, t: LibraryState,
                                                   batch: seq<(string, Option<Metadata>)>, now: int)
    requires forall j :: 0 <= j < |batch| ==> Get(s.libraries, batch[j].0) == Get(t.libraries, batch[j].0)
    ensures IndependentChanges(cfg, s, batch, now) == IndependentChanges(cfg, t, batch, now)
    decreases |batch|
  {
    if batch != [] {
      CheckLibraryLocal(cfg, s, t, batch[0].0, batch[0].1, now);
      IndependentChangesLocal(cfg, s, t, batch[1..], now);
    }
  }

  // ---------------------------------------------------------------------------
  // Catching up

  /**
   * Records that the user has moved to the latest version of `pkg`. Fails, and
   * changes nothing, when the package is not tracked; otherwise the package's
   * current version becomes its latest version and it is no longer outdated,
   * with every other field, every other package and the history untouched.
   */
  function MarkUpdated(st: LibraryState, pkg: string): (r: (bool, LibraryState))
    ensures r.0 <==> pkg in Keys(st.libraries)
    ensures !r.0 ==> r.1 == st
    ensures r.0 ==> var info := Get(st.libraries, pkg).value;
      Get(r.1.libraries, pkg) == Some(info.(currentVersion := info.latestVersion, isOutdated := false))
    ensures forall k :: k != pkg ==> Get(r.1.libraries, k) == Get(st.libraries, k)
    ensures Keys(r.1.libraries) == Keys(st.libraries)
    ensures r.1.recentChanges == st.recentChanges
    ensures r.1.studySessions == st.studySessions
    ensures r.1.lastFullCheck == st.lastFullCheck
  {
    match Get(st.libraries, pkg)
    case None => (false, st)
    case Some(info) =>
      var updated := info.(currentVersion := info.latestVersion, isOutdated := false);
      PutGet(st.libraries, pkg, updated);
      assert forall k :: k != pkg ==> Get(Put(st.libraries, pkg, updated), k) == Get(st.libraries, k) by {
        forall k | k != pkg
          ensures Get(Put(st.libraries, pkg, updated), k) == Get(st.libraries, k)
        {
          PutGetOther(st.libraries, pkg, updated, k);
        }
      }
      (true, st.(libraries := Put(st.libraries, pkg, updated)))
  }
}
