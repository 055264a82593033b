/**
 * Properties relating the monitor's operations to each other, to the state
 * invariant and to the static configuration.
 */
module MonitorProperties {
  import opened Optional
  import opened Seqs
  import opened Dicts
  import opened Versions
  import opened Models
  import opened Config
  import opened LibraryMonitor

  // ---------------------------------------------------------------------------
  // Classification

  /**
   * A genuine upgrade (newer in the usual semantic-version order) is always
   * classified as major, minor or patch, never unknown.
   */
  lemma UpgradeIsClassified(parse: string -> Option<Release>, oldVersion: string, newVersion: string)
    requires parse(oldVersion).Some? && parse(newVersion).Some?
    requires Newer(parse(newVersion).value, parse(oldVersion).value)
    ensures DetectChangeType(parse, Some(oldVersion), newVersion) in {Major, Minor, Patch}
  {
  }

  /** The classifier on canonical dotted versions, compared component by component. */
  lemma ClassifyCanonical(a: Release, b: Release)
    ensures var k := DetectChangeType(ParseRelease, Some(FormatRelease(a)), FormatRelease(b));
      && (k == Major <==> b.major > a.major)
      && (k == Minor <==> b.major <= a.major && b.minor > a.minor)
      && (k == Patch <==> b.major <= a.major && b.minor <= a.minor && b.micro > a.micro)
      && (k == Unknown <==> b.major <= a.major && b.minor <= a.minor && b.micro <= a.micro)
  {
    ParseFormatRelease(a);
    ParseFormatRelease(b);
  }

  lemma CanonicalSpelling()
    ensures FormatRelease(Release(1, 2, 3)) == "1.2.3"
    ensures FormatRelease(Release(2, 0, 0)) == "2.0.0"
    ensures FormatRelease(Release(1, 3, 0)) == "1.3.0"
    ensures FormatRelease(Release(1, 2, 4)) == "1.2.4"
    ensures FormatRelease(Release(1, 5, 0)) == "1.5.0"
  {
  }

  /**
   * Worked transitions under the dotted-numeric parser. The chain tests the
   * minor component even when the major one went down, so the downgrade
   * 2.0.0 -> 1.5.0 counts as a minor change. This parser rejects "1.2.3-beta",
   * so that transition is unknown by a parse failure; `PreReleaseIsUnknown`
   * gives the same answer for parsers that accept it.
   */
  lemma ClassificationExamples()
    ensures DetectChangeType(ParseRelease, None, "1.2.3") == New
    ensures DetectChangeType(ParseRelease, Some("1.2.3"), "2.0.0") == Major
    ensures DetectChangeType(ParseRelease, Some("1.2.3"), "1.3.0") == Minor
    ensures DetectChangeType(ParseRelease, Some("1.2.3"), "1.2.4") == Patch
    ensures DetectChangeType(ParseRelease, Some("1.2.3"), "1.2.3-beta") == Unknown
    ensures DetectChangeType(ParseRelease, Some("2.0.0"), "1.5.0") == Minor
  {
    CanonicalSpelling();
    ClassifyCanonical(Release(1, 2, 3), Release(2, 0, 0));
    ClassifyCanonical(Release(1, 2, 3), Release(1, 3, 0));
    ClassifyCanonical(Release(1, 2, 3), Release(1, 2, 4));
    ClassifyCanonical(Release(2, 0, 0), Release(1, 5, 0));
    ParseRejectsSuffix();
  }

  /**
   * Whatever the parser, a new version that reads as the same release triple
   * as the old one is unknown: every test of the chain fails.
   */
  lemma SameReleaseIsUnknown(parse: string -> Option<Release>, oldVersion: string, newVersion: string)
    requires parse(oldVersion).Some?
    requires parse(newVersion) == parse(oldVersion)
    ensures DetectChangeType(parse, Some(oldVersion), newVersion) == Unknown
  {
  }

  /**
   * A pre-release of the stored release, under any parser that reads
   * "1.2.3-beta" as release (1, 2, 3) as the standard one does: unknown,
   * by the final branch of the chain rather than by a parse failure.
   */
  lemma PreReleaseIsUnknown(parse: string -> Option<Release>)
    requires parse("1.2.3") == Some(Release(1, 2, 3))
    requires parse("1.2.3-beta") == Some(Release(1, 2, 3))
    ensures DetectChangeType(parse, Some("1.2.3"), "1.2.3-beta") == Unknown
  {
    SameReleaseIsUnknown(parse, "1.2.3", "1.2.3-beta");
  }

  // ---------------------------------------------------------------------------
  // Actions and learning material

  /** Only which tags are present matters to the action table, not their order or repetition. */
  lemma ActionDependsOnTagSet(kind: ChangeType, r1: seq<string>, r2: seq<string>)
    requires forall t :: t in r1 <==> t in r2
    ensures DetermineAction(kind, r1) == DetermineAction(kind, r2)
  {
  }

  /** For the default packages a major change is a deep dive only for the two without "production". */
  lemma DefaultMajorActions()
    ensures forall p :: p in Libraries ==>
      DetermineAction(Major, Relevance(LibraryContext, p))
      == if p in {"opencv-python", "supervision"} then DeepDive else Urgent
  {
  }

  /** For the default packages a minor change is a skim only for "onnxruntime". */
  lemma DefaultMinorActions()
    ensures forall p :: p in Libraries ==>
      DetermineAction(Minor, Relevance(LibraryContext, p)) == if p == "onnxruntime" then Skim else DeepDive
  {
  }

  /** The study topics depend on the package alone; every default package has topics. */
  lemma ConceptsIgnoreKind(pkg: string, k1: ChangeType, k2: ChangeType)
    ensures GenerateLearningConcepts(ConceptsTable, pkg, k1)
         == GenerateLearningConcepts(ConceptsTable, pkg, k2)
    ensures pkg in Libraries ==> GenerateLearningConcepts(ConceptsTable, pkg, k1).beginner != []
  {
  }

  /** Two kinds give the same prompt exactly when they select the same template. */
  lemma PromptTemplateByKind(context: map<string, Context>, pkg: string,
                             k1: ChangeType, k2: ChangeType, v: string)
    ensures GenerateLearningPrompt(context, pkg, k1, v) == GenerateLearningPrompt(context, pkg, k2, v)
        <==> k1 == k2 || (k1 in {Patch, Unknown} && k2 in {Patch, Unknown})
  {
    var p1, p2 := GenerateLearningPrompt(context, pkg, k1, v), GenerateLearningPrompt(context, pkg, k2, v);
    if p1 == p2 {
      assert p1[0] == p2[0];
    }
  }

  // ---------------------------------------------------------------------------
  // Checking one library

  /**
   * First sighting of a package: one change of kind new, a deep dive, and a
   * stored record that starts on the latest version and is not outdated.
   */
  lemma FirstSighting(cfg: Settings, st: LibraryState, pkg: string,
                      fetched: Option<Metadata>, now: int)
    requires pkg !in Keys(st.libraries)
    requires LatestVersion(fetched).Some?
    ensures var (st', change) := CheckLibrary(cfg, st, pkg, fetched, now);
      && change.Some? && change.value.changeType == New && change.value.action == DeepDive
      && change.value.previousVersion.None?
      && Get(st'.libraries, pkg).Some?
      && Get(st'.libraries, pkg).value.currentVersion == LatestVersion(fetched).value
      && !Get(st'.libraries, pkg).value.isOutdated
  {
    CheckLibraryOutcome(cfg, st, pkg, fetched, now);
  }

  /**
   * A newer version of a tracked package: one change from the stored version,
   * and a stored record that keeps the user on that version, marked outdated.
   */
  lemma VersionBump(cfg: Settings, st: LibraryState, pkg: string,
                    fetched: Option<Metadata>, now: int)
    requires Truthy(PreviousVersion(st, pkg))
    requires LatestVersion(fetched).Some? && LatestVersion(fetched) != PreviousVersion(st, pkg)
    ensures var (st', change) := CheckLibrary(cfg, st, pkg, fetched, now);
      && change.Some? && change.value.previousVersion == PreviousVersion(st, pkg)
      && Get(st'.libraries, pkg).Some?
      && Get(st'.libraries, pkg).value.currentVersion == PreviousVersion(st, pkg).value
      && Get(st'.libraries, pkg).value.latestVersion == LatestVersion(fetched).value
      && Get(st'.libraries, pkg).value.isOutdated
  {
    CheckLibraryOutcome(cfg, st, pkg, fetched, now);
  }

  /**
   * A check never advances a tracked package's current version, so checking
   * again against the same fetch result re-emits the same transition and
   * leaves the same state behind.
   */
  lemma ReEmitUntilMarked(cfg: Settings, st: LibraryState, pkg: string,
                          fetched: Option<Metadata>, now: int, later: int)
    requires Truthy(PreviousVersion(st, pkg))
    requires LatestVersion(fetched).Some? && LatestVersion(fetched) != PreviousVersion(st, pkg)
    ensures var (st1, c1) := CheckLibrary(cfg, st, pkg, fetched, now);
      var (st2, c2) := CheckLibrary(cfg, st1, pkg, fetched, later);
      && c1.Some? && c2.Some?
      && c2.value.previousVersion == c1.value.previousVersion
      && c2.value.changeType == c1.value.changeType
      && c2.value.action == c1.value.action
  {
    var st1 := CheckLibrary(cfg, st, pkg, fetched, now).0;
    CheckLibraryOutcome(cfg, st, pkg, fetched, now);
    assert PreviousVersion(st1, pkg) == PreviousVersion(st, pkg);
    CheckLibraryOutcome(cfg, st1, pkg, fetched, later);
  }

  /** Checking a package is idempotent on a consistent state (up to the check time). */
  lemma CheckLibraryIdempotent(cfg: Settings, st: LibraryState, pkg: string,
                               fetched: Option<Metadata>, now: int)
    requires Consistent(st)
    ensures var st1 := CheckLibrary(cfg, st, pkg, fetched, now).0;
      CheckLibrary(cfg, st1, pkg, fetched, now).0 == st1
  {
    var st1 := CheckLibrary(cfg, st, pkg, fetched, now).0;
    var latest := LatestVersion(fetched);
    if latest.Some? {
      CheckLibraryOutcome(cfg, st, pkg, fetched, now);
      StoredVersionTruthy(st, pkg);
      var info := Reconciled(cfg, pkg, PreviousVersion(st, pkg), latest.value, fetched.value, now);
      assert PreviousVersion(st1, pkg) == Some(info.currentVersion);
      assert Reconciled(cfg, pkg, Some(info.currentVersion), latest.value, fetched.value, now) == info;
      PutIdempotent(st.libraries, pkg, info);
    }
  }

  /** In a consistent state every stored current version is a non-empty string. */
  lemma StoredVersionTruthy(st: LibraryState, pkg: string)
    requires Consistent(st)
    ensures PreviousVersion(st, pkg).Some? ==> Truthy(PreviousVersion(st, pkg))
  {
    var g := Get(st.libraries, pkg);
    if g.Some? {
      var i :| 0 <= i < |st.libraries| && st.libraries[i].key == pkg && st.libraries[i].value == g.value;
      assert EntryConsistent(st.libraries[i]);
    }
  }

  /**
   * The truthiness quirk: a tracked package whose stored current version is
   * the empty string is treated as untracked when the record is rebuilt, so
   * it jumps to the latest version, yet it is flagged outdated because a
   * previous version was present.
   */
  lemma EmptyCurrentVersionQuirk(cfg: Settings, st: LibraryState, pkg: string,
                                 fetched: Option<Metadata>, now: int)
    requires PreviousVersion(st, pkg) == Some("")
    requires LatestVersion(fetched).Some?
    ensures var (st', change) := CheckLibrary(cfg, st, pkg, fetched, now);
      && change.Some? && change.value.previousVersion == Some("")
      && Get(st'.libraries, pkg).Some?
      && Get(st'.libraries, pkg).value.currentVersion == Get(st'.libraries, pkg).value.latestVersion
      && Get(st'.libraries, pkg).value.isOutdated
  {
    CheckLibraryOutcome(cfg, st, pkg, fetched, now);
  }

  /** A check keeps the state invariant. */
  lemma CheckLibraryConsistent(cfg: Settings, st: LibraryState, pkg: string,
                               fetched: Option<Metadata>, now: int)
    requires Consistent(st)
    ensures Consistent(CheckLibrary(cfg, st, pkg, fetched, now).0)
  {
    var latest := LatestVersion(fetched);
    if latest.Some? {
      var info := Reconciled(cfg, pkg, PreviousVersion(st, pkg), latest.value, fetched.value, now);
      StoredVersionTruthy(st, pkg);
      assert EntryConsistent(Entry(pkg, info));
      PutWellKeyed(st.libraries, pkg, info);
      PutEntries(st.libraries, pkg, info);
    }
  }

  /**
   * Checking two different packages in either order leaves every package with
   * the same stored record and emits the same changes: only the position of
   * newly tracked packages in the dictionary depends on the order.
   */
  lemma CheckLibraryCommutes(cfg: Settings, st: LibraryState,
                             p: string, fp: Option<Metadata>, q: string, fq: Option<Metadata>, now: int)
    requires p != q
    ensures var (sp, cp) := CheckLibrary(cfg, st, p, fp, now);
      var (sq, cq) := CheckLibrary(cfg, st, q, fq, now);
      var (spq, cpq) := CheckLibrary(cfg, sp, q, fq, now);
      var (sqp, cqp) := CheckLibrary(cfg, sq, p, fp, now);
      && cpq == cq && cqp == cp
      && forall k :: Get(spq.libraries, k) == Get(sqp.libraries, k)
  {
    var sp := CheckLibrary(cfg, st, p, fp, now).0;
    var sq := CheckLibrary(cfg, st, q, fq, now).0;
    CheckLibraryFrame(cfg, st, p, fp, now, q);
    CheckLibraryFrame(cfg, st, q, fq, now, p);
    CheckLibraryLocal(cfg, sp, st, q, fq, now);
    CheckLibraryLocal(cfg, sq, st, p, fp, now);
    var spq := CheckLibrary(cfg, sp, q, fq, now).0;
    var sqp := CheckLibrary(cfg, sq, p, fp, now).0;
    forall k
      ensures Get(spq.libraries, k) == Get(sqp.libraries, k)
    {
      if k == p {
        CheckLibraryFrame(cfg, sp, q, fq, now, p);
        CheckLibraryEntryLocal(cfg, sq, st, p, fp, now);
      } else if k == q {
        CheckLibraryFrame(cfg, sq, p, fp, now, q);
        CheckLibraryEntryLocal(cfg, sp, st, q, fq, now);
      } else {
        CheckLibraryFrame(cfg, sp, q, fq, now, k);
        CheckLibraryFrame(cfg, sq, p, fp, now, k);
        CheckLibraryFrame(cfg, st, p, fp, now, k);
        CheckLibraryFrame(cfg, st, q, fq, now, k);
      }
    }
  }

  /** The stored record a check writes depends only on the package's own previous record. */
  lemma CheckLibraryEntryLocal(cfg: Settings, s: LibraryState, t: LibraryState,
                               pkg: string, fetched: Option<Metadata>, now: int)
    requires Get(s.libraries, pkg) == Get(t.libraries, pkg)
    ensures Get(CheckLibrary(cfg, s, pkg, fetched, now).0.libraries, pkg)
         == Get(CheckLibrary(cfg, t, pkg, fetched, now).0.libraries, pkg)
  {
    if LatestVersion(fetched).Some? {
      assert PreviousVersion(s, pkg) == PreviousVersion(t, pkg);
      CheckLibraryOutcome(cfg, s, pkg, fetched, now);
      CheckLibraryOutcome(cfg, t, pkg, fetched, now);
    }
  }

  // ---------------------------------------------------------------------------
  // The check cycle

  /** A run over a batch keeps the state invariant. */
  lemma {:induction false} CheckBatchConsistent(cfg: Settings, st: LibraryState,
                                                batch: seq<(string, Option<Metadata>)>, now: int)
    requires Consistent(st)
    ensures Consistent(CheckBatch(cfg, st, batch, now).0)
    decreases |batch|
  {
    if batch != [] {
      CheckLibraryConsistent(cfg, st, batch[0].0, batch[0].1, now);
      CheckBatchConsistent(cfg, CheckLibrary(cfg, st, batch[0].0, batch[0].1, now).0, batch[1..], now);
    }
  }

  /**
   * After a run over a batch of distinct packages, a package outside the batch
   * keeps its record, and each package in it has the record a check against
   * the starting state alone would give.
   */
  lemma {:induction false} CheckBatchEntries(cfg: Settings, st: LibraryState,
                                             batch: seq<(string, Option<Metadata>)>, now: int, k: string)
    requires Distinct(Names(batch))
    ensures k !in Names(batch) ==> Get(CheckBatch(cfg, st, batch, now).0.libraries, k) == Get(st.libraries, k)
    ensures forall i :: 0 <= i < |batch| && batch[i].0 == k ==>
      Get(CheckBatch(cfg, st, batch, now).0.libraries, k)
      == Get(CheckLibrary(cfg, st, k, batch[i].1, now).0.libraries, k)
    decreases |batch|
  {
    if batch != [] {
      var st1 := CheckLibrary(cfg, st, batch[0].0, batch[0].1, now).0;
      var rest := batch[1..];
      assert Names(rest) == Names(batch)[1..];
      CheckBatchEntries(cfg, st1, rest, now, k);
      if k == batch[0].0 {
        assert k !in Names(rest) by {
          forall j | 0 <= j < |rest|
            ensures Names(rest)[j] != k
          {
            assert Names(batch)[0] != Names(batch)[j + 1];
          }
        }
        forall i | 0 <= i < |batch| && batch[i].0 == k
          ensures i == 0
        {
        }
      } else {
        CheckLibraryFrame(cfg, st, batch[0].0, batch[0].1, now, k);
        forall i | 0 <= i < |batch| && batch[i].0 == k
          ensures Get(CheckBatch(cfg, st, batch, now).0.libraries, k)
               == Get(CheckLibrary(cfg, st, k, batch[i].1, now).0.libraries, k)
        {
          assert rest[i - 1].0 == k;
          CheckLibraryEntryLocal(cfg, st1, st, k, batch[i].1, now);
        }
      }
    }
  }

  /** A whole cycle keeps the state invariant. */
  lemma CheckAllLibrariesConsistent(cfg: Settings, st: LibraryState, libraries: Option<seq<string>>,
                                    fetch: string -> Option<Metadata>, now: int)
    requires Distinct(LibrariesToCheck(cfg, libraries))
    requires Consistent(st)
    ensures Consistent(CheckAllLibraries(cfg, st, libraries, fetch, now).0)
  {
    CheckBatchConsistent(cfg, st, Gather(LibrariesToCheck(cfg, libraries), fetch), now);
  }

  /**
   * After a cycle, a package that was not checked keeps its record, and a
   * checked package has the record one check of it against the state before
   * the cycle gives.
   */
  lemma CheckAllLibrariesEntries(cfg: Settings, st: LibraryState, libraries: Option<seq<string>>,
                                 fetch: string -> Option<Metadata>, now: int, k: string)
    requires Distinct(LibrariesToCheck(cfg, libraries))
    ensures var st' := CheckAllLibraries(cfg, st, libraries, fetch, now).0;
      && (k !in LibrariesToCheck(cfg, libraries) ==> Get(st'.libraries, k) == Get(st.libraries, k))
      && (k in LibrariesToCheck(cfg, libraries) ==>
            Get(st'.libraries, k) == Get(CheckLibrary(cfg, st, k, fetch(k), now).0.libraries, k))
  {
    var libs := LibrariesToCheck(cfg, libraries);
    var batch := Gather(libs, fetch);
    assert Names(batch) == libs;
    CheckBatchEntries(cfg, st, batch, now, k);
    if k in libs {
      var i :| 0 <= i < |libs| && libs[i] == k;
      assert batch[i] == (k, fetch(k));
    }
  }

  /**
   * When the history held only changes from up to `since` and the cycle ran
   * later, the changes reported since then are exactly the ones the cycle
   * emitted (provided they fit in the history).
   */
  lemma ChangesSinceLastCycle(cfg: Settings, st: LibraryState, libraries: Option<seq<string>>,
                              fetch: string -> Option<Metadata>, now: int, since: int)
    requires Distinct(LibrariesToCheck(cfg, libraries))
    requires forall i :: 0 <= i < |st.recentChanges| ==> st.recentChanges[i].detectedAt <= since
    requires since < now
    ensures var r := CheckAllLibraries(cfg, st, libraries, fetch, now);
      |r.1| <= HistoryLimit ==> GetChangesSince(r.0, since) == r.1
  {
    var r := CheckAllLibraries(cfg, st, libraries, fetch, now);
    if |r.1| <= HistoryLimit {
      RecentWindow(st.recentChanges, r.1, r.0.recentChanges, since, now);
    }
  }

  /** The window of the history after appending changes all detected at `now`. */
  lemma RecentWindow(older: seq<LibraryChange>, changes: seq<LibraryChange>, h: seq<LibraryChange>,
                     since: int, now: int)
    requires forall i :: 0 <= i < |older| ==> older[i].detectedAt <= since
    requires forall i :: 0 <= i < |changes| ==> changes[i].detectedAt == now
    requires since < now
    requires |changes| <= |h| <= |older| + |changes|
    requires h == (older + changes)[|older| + |changes| - |h|..]
    ensures Filter(h, DetectedAfter(since)) == changes
  {
    var start := |older| + |changes| - |h|;
    var kept := older[start..];
    SuffixOfConcat(older, changes, start);
    var p := DetectedAfter(since);
    FilterAppend(kept, changes, p);
    forall i | 0 <= i < |kept|
      ensures !p(kept[i])
    {
      assert kept[i] == older[start + i];
    }
    FilterNone(kept, p);
    FilterAll(changes, p);
  }

  // ---------------------------------------------------------------------------
  // Catching up

  /** Catching up keeps the state invariant. */
  lemma MarkUpdatedConsistent(st: LibraryState, pkg: string)
    requires Consistent(st)
    ensures Consistent(MarkUpdated(st, pkg).1)
  {
    var g := Get(st.libraries, pkg);
    if g.Some? {
      var i :| 0 <= i < |st.libraries| && st.libraries[i].key == pkg && st.libraries[i].value == g.value;
      assert EntryConsistent(st.libraries[i]);
      var updated := g.value.(currentVersion := g.value.latestVersion, isOutdated := false);
      assert EntryConsistent(Entry(pkg, updated));
      PutWellKeyed(st.libraries, pkg, updated);
      PutEntries(st.libraries, pkg, updated);
    }
  }

  /**
   * After catching up on a package, checking it again against the same latest
   * version emits nothing and leaves it not outdated.
   */
  lemma MarkThenCheckQuiet(cfg: Settings, st: LibraryState, pkg: string,
                           fetched: Option<Metadata>, now: int)
    requires pkg in Keys(st.libraries)
    requires LatestVersion(fetched) == Some(Get(st.libraries, pkg).value.latestVersion)
    ensures var marked := MarkUpdated(st, pkg).1;
      var (st', change) := CheckLibrary(cfg, marked, pkg, fetched, now);
      && change.None?
      && Get(st'.libraries, pkg).Some?
      && !Get(st'.libraries, pkg).value.isOutdated
  {
    var marked := MarkUpdated(st, pkg).1;
    CheckLibraryOutcome(cfg, marked, pkg, fetched, now);
  }

  // ---------------------------------------------------------------------------
  // Queries

  /** The outdated libraries come in dictionary order. */
  lemma GetOutdatedInOrder(st: LibraryState)
    ensures IsSubseq(GetOutdated(st), Values(st.libraries))
  {
    FilterIsSubseq(Values(st.libraries), Outdated);
  }

  /** The recent changes come in history order. */
  lemma GetChangesSinceInOrder(st: LibraryState, since: int)
    ensures IsSubseq(GetChangesSince(st, since), st.recentChanges)
  {
    FilterIsSubseq(st.recentChanges, DetectedAfter(since));
  }

  /** In a consistent state the outdated libraries are exactly those the user is behind on. */
  lemma OutdatedMeansBehind(st: LibraryState)
    requires Consistent(st)
    ensures forall x ::
              x in GetOutdated(st)
              <==> x in Values(st.libraries) && x.currentVersion != x.latestVersion
  {
    forall x | x in Values(st.libraries)
      ensures x.isOutdated == (x.currentVersion != x.latestVersion)
    {
      var i :| 0 <= i < |st.libraries| && Values(st.libraries)[i] == x;
      assert EntryConsistent(st.libraries[i]);
    }
  }

  /** A fresh state reports nothing outdated and no changes. */
  lemma EmptyStateQueries(since: int)
    ensures GetOutdated(EmptyState()) == []
    ensures GetChangesSince(EmptyState(), since) == []
  {
  }
}
