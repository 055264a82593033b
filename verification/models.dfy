/**
 * The persisted monitoring state: tracked libraries, the bounded history of
 * detected changes and the study-session log, with the three queries on it.
 * Timestamps are integers supplied by the caller.
 */
module Models {
  import opened Optional
  import opened Seqs
  import opened Dicts

  /** The kind of a detected version transition. */
  datatype ChangeType =
    | New      // first time the library is tracked
    | Major    // major component went up
    | Minor    // minor component went up
    | Patch    // micro component went up
    | Unknown  // unparseable, or no component went up

  /** The follow-up recommended for a change. */
  datatype ActionType = DeepDive | Skim | Bookmark | Urgent

  /** Study topics at three skill levels; each list defaults to empty. */
  datatype LearningConcepts = LearningConcepts(
    beginner: seq<string> := [],
    intermediate: seq<string> := [],
    advanced: seq<string> := [])

  /** What is stored for one tracked library. */
  datatype LibraryInfo = LibraryInfo(
    name: string,
    displayName: string,
    currentVersion: string,   // the version the user is caught up on
    latestVersion: string,    // the version seen at the last check
    lastChecked: int,
    homepage: Option<string> := None,
    summary: Option<string> := None,
    requiresPython: Option<string> := None,
    isOutdated: bool := false)

  /** One detected version transition. */
  datatype LibraryChange = LibraryChange(
    library: string,
    displayName: string,
    previousVersion: Option<string>,
    newVersion: string,
    changeType: ChangeType,
    detectedAt: int,
    releaseDate: Option<int> := None,
    changelogUrl: Option<string> := None,
    concepts: LearningConcepts := LearningConcepts(),
    relevance: seq<string> := [],
    action: ActionType := Skim,
    learningPrompt: Option<string> := None)

  /** One deep-dive study session. */
  datatype StudySession = StudySession(
    library: string,
    displayName: string,
    version: string,
    startedAt: int,
    endedAt: Option<int> := None,
    durationMinutes: Option<int> := None,
    notes: Option<string> := None,
    cardsCreated: int := 0,
    completed: bool := false)

  /** The whole persisted state; `libraries` keeps dictionary insertion order. */
  datatype LibraryState = LibraryState(
    libraries: seq<Entry<LibraryInfo>> := [],
    recentChanges: seq<LibraryChange> := [],
    studySessions: seq<StudySession> := [],
    lastFullCheck: Option<int> := None)

  /**
   * The state invariant the monitor's own operations keep: one entry per key,
   * each entry named after its key, both versions non-empty, and `isOutdated`
   * recording exactly whether the user is behind the latest version.
   */
  ghost predicate Consistent(st: LibraryState) {
    && WellKeyed(st.libraries)
    && forall e :: e in st.libraries ==> EntryConsistent(e)
  }

  predicate EntryConsistent(e: Entry<LibraryInfo>) {
    && e.value.name == e.key
    && e.value.currentVersion != ""
    && e.value.latestVersion != ""
    && e.value.isOutdated == (e.value.currentVersion != e.value.latestVersion)
  }

  /** A freshly created state: nothing tracked, no history, no sessions, never checked. */
  function EmptyState(): (st: LibraryState)
    ensures Consistent(st)
    ensures Keys(st.libraries) == [] && st.recentChanges == [] && st.studySessions == []
    ensures st.lastFullCheck.None?
  {
    LibraryState()
  }

  /**
   * Field defaults: topics start empty, a stored library is not outdated, a
   * change recommends a skim, and a session has no cards and is not completed.
   */
  lemma Defaults(name: string, version: string, t: int, kind: ChangeType)
    ensures var c := LearningConcepts(); c.beginner == [] && c.intermediate == [] && c.advanced == []
    ensures !LibraryInfo(name, name, version, version, t).isOutdated
    ensures LibraryChange(name, name, None, version, kind, t).action == Skim
    ensures LibraryChange(name, name, None, version, kind, t).concepts == LearningConcepts()
    ensures var s := StudySession(name, name, version, t);
      s.cardsCreated == 0 && !s.completed && s.endedAt.None?
  {
  }

  /**
   * The libraries whose `isOutdated` flag is set, in dictionary order: every
   * flagged value occurs, with its multiplicity, and nothing else.
   */
  function GetOutdated(st: LibraryState): (r: seq<LibraryInfo>)
    ensures forall x :: x in r <==> x in Values(st.libraries) && x.isOutdated
    ensures forall x :: multiset(r)[x] == if x.isOutdated then multiset(Values(st.libraries))[x] else 0
  {
    Filter(Values(st.libraries), Outdated)
  }

  predicate Outdated(x: LibraryInfo) {
    x.isOutdated
  }

  /** The test `get_changes_since` applies to each recorded change. */
  function DetectedAfter(since: int): LibraryChange -> bool {
    (c: LibraryChange) => c.detectedAt > since
  }

  /** The recorded changes detected strictly after `since`, oldest first. */
  function GetChangesSince(st: LibraryState, since: int): (r: seq<LibraryChange>)
    ensures forall c :: c in r <==> c in st.recentChanges && c.detectedAt > since
    ensures forall c :: multiset(r)[c] == if c.detectedAt > since then multiset(st.recentChanges)[c] else 0
  {
    Filter(st.recentChanges, DetectedAfter(since))
  }

  /** Session `i` is not completed and every later one is. */
  predicate LastIncomplete(sessions: seq<StudySession>, i: int) {
    && 0 <= i < |sessions|
    && !sessions[i].completed
    && forall j :: i < j < |sessions| ==> sessions[j].completed
  }

  /**
   * The active study session: the last session in the log that is not
   * completed, or `None` when every session is completed.
   */
  method GetActiveSession(st: LibraryState) returns (r: Option<StudySession>)
    ensures r.None? <==> forall i :: 0 <= i < |st.studySessions| ==> st.studySessions[i].completed
    ensures r.Some? ==> exists i :: LastIncomplete(st.studySessions, i) && st.studySessions[i] == r.value
  {
    var sessions := st.studySessions;
    var i := |sessions|;
    while i > 0
      invariant 0 <= i <= |sessions|
      invariant forall j :: i <= j < |sessions| ==> sessions[j].completed
    {
      i := i - 1;
      if !sessions[i].completed {
        return Some(sessions[i]);
      }
    }
    return None;
  }
}
