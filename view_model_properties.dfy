/**
 * What one call of the Android view model's `processBackup` achieves, stated over the pass
 * functions the class methods are proved against.
 */
module ViewModelProperties {
  import opened Wrappers
  import opened SourceIds
  import opened MangaDexDao
  import opened MigrationLoop
  import opened ViewModel
  import opened KotlinText
  import FB = FullBackup
  import G = GsonBackup
  import MR = MigrationResult

  // ---------------------------------------------------------------- the totals

  /**
   * When no record throws, the records the loop counts are the favourites from a MangaDex source,
   * which is what `totalDexItems` counts before the loop.
   */
  lemma {:induction false} ProtoCountIsTotal(list: seq<FB.BackupManga>, dao: Dao, isUuid: string -> bool, n: nat)
    requires n <= |list|
    requires forall j :: 0 <= j < n ==> ProtoVisits(list, dao, isUuid)[j].fate.Ok?
    ensures CountOf(ProtoVisits(list, dao, isUuid), n) == MR.ProtoTotalDexManga(list[..n])
    decreases n
  {
    if n > 0 {
      ProtoCountIsTotal(list, dao, isUuid, n - 1);
      assert list[..n][..n - 1] == list[..n - 1];
      assert ProtoVisits(list, dao, isUuid)[n - 1] == ProtoVisit(list[n - 1], dao, isUuid);
    }
  }

  /** The JSON loop counts every MangaDex record, which is what `totalDexItems` counts. */
  lemma {:induction false} JsonCountIsTotal(list: seq<G.Entry>, dao: Dao, isUuid: string -> bool, n: nat)
    requires n <= |list|
    requires forall j :: 0 <= j < n ==> JsonVisits(list, dao, isUuid)[j].fate.Ok?
    ensures CountOf(JsonVisits(list, dao, isUuid), n) == JsonTotalDexItems(list[..n])
    decreases n
  {
    if n > 0 {
      JsonCountIsTotal(list, dao, isUuid, n - 1);
      assert list[..n][..n - 1] == list[..n - 1];
      assert JsonVisits(list, dao, isUuid)[n - 1] == JsonVisit(list[n - 1], dao, isUuid);
    }
  }

  // ---------------------------------------------------------------- when a pass succeeds

  /**
   * A decoded proto backup is migrated without an exception exactly when the document has a
   * name and no MangaDex record throws; the only exceptions are an index out of bounds from a
   * record's URL and the null pointer of a missing name.
   */
  lemma {:induction false} ProtoPassSucceeds(s: Screen, backup: FB.Backup, dao: Dao, isUuid: string -> bool)
    ensures var p := ProtoPass(s, Some(Ok(backup)), dao, isUuid);
            var list := backup.backupManga;
            && (p.thrown.None? <==>
                  s.originalName.Some? && forall j :: 0 <= j < |list| && IsMangaDex(list[j].source) ==> ProtoFate(list[j], dao, isUuid).Ok?)
            && (p.thrown == Some(NullPointer) || p.thrown == Some(IndexOutOfBounds) || p.thrown.None?)
  {
    var list := backup.backupManga;
    var s1 := s.(status := Preparing).(totalDexItems := MR.ProtoTotalDexManga(list), status := Processing);
    var visits := ProtoVisits(list, dao, isUuid);
    var start := LoopStart(s1, list);
    RunFails(start, visits, |list|, true);
    var run := RunUpTo(start, visits, |list|, true);
    if run.failure.Some? {
      var k :| 0 <= k < |list| && visits[k].fate == Err(run.failure.value);
      ProtoFateCases(list[k], dao, isUuid);
    }
    forall j | 0 <= j < |list| && IsMangaDex(list[j].source)
      ensures visits[j].fate == ProtoFate(list[j], dao, isUuid)
    {
    }
  }

  /** The JSON counterpart: no exception exactly when there is a name and no MangaDex entry throws. */
  lemma {:induction false} JsonPassSucceeds(s: Screen, root: G.Root, dao: Dao, isUuid: string -> bool)
    requires root.version.GetOr(1) == 2 && root.mangas.Some?
    ensures var p := JsonPass(s, Some(root), dao, isUuid);
            var list := root.mangas.value;
            && (p.thrown.None? <==>
                  s.originalName.Some? && forall j :: 0 <= j < |list| && IsMangaDex(list[j].manga.source) ==> JsonFate(list[j], dao, isUuid).Ok?)
            && (p.thrown == Some(NullPointer) || p.thrown == Some(IndexOutOfBounds) || p.thrown.None?)
  {
    var list := root.mangas.value;
    var s1 := s.(status := Preparing).(totalDexItems := JsonTotalDexItems(list), status := Processing);
    var visits := JsonVisits(list, dao, isUuid);
    var start := LoopStart(s1, list);
    RunFails(start, visits, |list|, false);
    var run := RunUpTo(start, visits, |list|, false);
    if run.failure.Some? {
      var k :| 0 <= k < |list| && visits[k].fate == Err(run.failure.value);
      JsonFateCases(list[k], dao, isUuid);
    }
    forall j | 0 <= j < |list| && IsMangaDex(list[j].manga.source)
      ensures visits[j].fate == JsonFate(list[j], dao, isUuid)
    {
    }
  }

  /** The JSON pass refuses a document it cannot read, of another version, or without a manga array. */
  lemma {:induction false} JsonPassRefuses(s: Screen, input: Option<G.Root>, dao: Dao, isUuid: string -> bool)
    ensures var p := JsonPass(s, input, dao, isUuid);
            && (input.None? ==> p.thrown == Some(IllegalArgument("try again plz")))
            && (input.Some? && input.value.version.GetOr(1) != 2 ==> p.thrown == Some(IllegalArgument("Unknown backup version")))
            && (input.Some? && input.value.version.GetOr(1) == 2 && input.value.mangas.None? ==> p.thrown == Some(NullPointer))
            && (p.thrown.Some? ==> p.screen.migratedBackupFile == s.migratedBackupFile)
  {
  }

  // ---------------------------------------------------------------- what a successful pass leaves

  /**
   * A loop over all the records that throws nothing leaves the screen's counters advanced by the
   * counted records, each list extended by the entries of its fate in order, and a balanced
   * screen balanced.
   */
  lemma {:induction false} AfterRunTallies<R>(s: Screen, records: seq<R>, visits: seq<Visit<R>>, named: bool)
    requires |visits| == |records|
    requires RunUpTo(LoopStart(s, records), visits, |records|, named).failure.None?
    ensures var r := AfterLoop(s, RunUpTo(LoopStart(s, records), visits, |records|, named));
            && r.processedCount == s.processedCount + CountOf(visits, |records|)
            && r.migratedCount == s.migratedCount + |Listed(visits, |records|, MigratedList, named)|
            && r.alreadyMigrated == s.alreadyMigrated + Listed(visits, |records|, AlreadyMigratedList, named)
            && r.missingMangaId == s.missingMangaId + Listed(visits, |records|, MissingMangaList, named)
            && r.missingChapterId == s.missingChapterId + Listed(visits, |records|, MissingChapterList, named)
            && (s.processedCount == s.migratedCount + |s.alreadyMigrated| + |s.missingMangaId| + |s.missingChapterId| ==>
                  r.processedCount == r.migratedCount + |r.alreadyMigrated| + |r.missingMangaId| + |r.missingChapterId|)
  {
    var start := LoopStart(s, records);
    var run := RunUpTo(start, visits, |records|, named);
    RunCounts(start, visits, |records|, named);
    RunLists(start, visits, |records|, named, AlreadyMigratedList);
    assert run.alreadyMigrated == s.alreadyMigrated + Listed(visits, |records|, AlreadyMigratedList, named);
    RunLists(start, visits, |records|, named, MissingMangaList);
    assert run.missingMangaId == s.missingMangaId + Listed(visits, |records|, MissingMangaList, named);
    RunLists(start, visits, |records|, named, MissingChapterList);
    assert run.missingChapterId == s.missingChapterId + Listed(visits, |records|, MissingChapterList, named);
    if Balanced(start) {
      RunBalanced(start, visits, |records|, named);
    }
  }

  /**
   * After a proto pass without an exception: IDLE, every counted record counted once, each list
   * holding the entries of the favourites of its fate in order, and the counts still balanced.
   */
  lemma {:induction false} ProtoPassTallies(s: Screen, backup: FB.Backup, dao: Dao, isUuid: string -> bool)
    requires ProtoPass(s, Some(Ok(backup)), dao, isUuid).thrown.None?
    ensures var r := ProtoPass(s, Some(Ok(backup)), dao, isUuid).screen;
            var list := backup.backupManga;
            var visits := ProtoVisits(list, dao, isUuid);
            && r.status == Idle
            && r.totalDexItems == MR.ProtoTotalDexManga(list)
            && r.processedCount == s.processedCount + r.totalDexItems
            && r.migratedCount == s.migratedCount + |Listed(visits, |list|, MigratedList, true)|
            && r.alreadyMigrated == s.alreadyMigrated + Listed(visits, |list|, AlreadyMigratedList, true)
            && r.missingMangaId == s.missingMangaId + Listed(visits, |list|, MissingMangaList, true)
            && r.missingChapterId == s.missingChapterId + Listed(visits, |list|, MissingChapterList, true)
            && (s.processedCount == s.migratedCount + |s.alreadyMigrated| + |s.missingMangaId| + |s.missingChapterId| ==>
                  r.processedCount == r.migratedCount + |r.alreadyMigrated| + |r.missingMangaId| + |r.missingChapterId|)
  {
    var list := backup.backupManga;
    var s1 := s.(status := Preparing).(totalDexItems := MR.ProtoTotalDexManga(list), status := Processing);
    var visits := ProtoVisits(list, dao, isUuid);
    RunFails(LoopStart(s1, list), visits, |list|, true);
    AfterRunTallies(s1, list, visits, true);
    ProtoCountIsTotal(list, dao, isUuid, |list|);
    assert list[..|list|] == list;
  }

  /** The JSON counterpart; here every MangaDex entry is counted, favourite or not. */
  lemma {:induction false} JsonPassTallies(s: Screen, root: G.Root, dao: Dao, isUuid: string -> bool)
    requires JsonPass(s, Some(root), dao, isUuid).thrown.None?
    ensures root.mangas.Some?
    ensures var r := JsonPass(s, Some(root), dao, isUuid).screen;
            var list := root.mangas.value;
            var visits := JsonVisits(list, dao, isUuid);
            && r.status == Idle
            && r.totalDexItems == JsonTotalDexItems(list)
            && r.processedCount == s.processedCount + r.totalDexItems
            && r.migratedCount == s.migratedCount + |Listed(visits, |list|, MigratedList, false)|
            && r.alreadyMigrated == s.alreadyMigrated + Listed(visits, |list|, AlreadyMigratedList, false)
            && r.missingMangaId == s.missingMangaId + Listed(visits, |list|, MissingMangaList, false)
            && r.missingChapterId == s.missingChapterId + Listed(visits, |list|, MissingChapterList, false)
            && (s.processedCount == s.migratedCount + |s.alreadyMigrated| + |s.missingMangaId| + |s.missingChapterId| ==>
                  r.processedCount == r.migratedCount + |r.alreadyMigrated| + |r.missingMangaId| + |r.missingChapterId|)
  {
    var list := root.mangas.value;
    var s1 := s.(status := Preparing).(totalDexItems := JsonTotalDexItems(list), status := Processing);
    var visits := JsonVisits(list, dao, isUuid);
    RunFails(LoopStart(s1, list), visits, |list|, false);
    AfterRunTallies(s1, list, visits, false);
    JsonCountIsTotal(list, dao, isUuid, |list|);
    assert list[..|list|] == list;
  }

  /**
   * The file a successful proto pass writes: the modified name, the records with each migrated
   * one replaced and every other left as it was, and the broken sources appended to the sources.
   */
  lemma {:induction false} ProtoPassOutput(s: Screen, backup: FB.Backup, dao: Dao, isUuid: string -> bool)
    requires ProtoPass(s, Some(Ok(backup)), dao, isUuid).thrown.None?
    ensures var r := ProtoPass(s, Some(Ok(backup)), dao, isUuid).screen;
            var list := backup.backupManga;
            && s.originalName.Some?
            && r.migratedBackupFile.Some?
            && r.migratedBackupFile.value.name == ModifiedOutputNameAsWritten(s.originalName.value)
            && r.migratedBackupFile.value.content.ProtoContent?
            && var out := r.migratedBackupFile.value.content.backup;
            && out.backupSources == backup.backupSources + BrokenAsSources(backup.backupBrokenSources)
            && out.backupBrokenSources == backup.backupBrokenSources
            && |out.backupManga| == |list|
            && forall j :: 0 <= j < |list| ==> out.backupManga[j] == Kept(list[j], ProtoVisits(list, dao, isUuid)[j])
  {
    var list := backup.backupManga;
    var s1 := s.(status := Preparing).(totalDexItems := MR.ProtoTotalDexManga(list), status := Processing);
    RunRecords(LoopStart(s1, list), ProtoVisits(list, dao, isUuid), |list|, true);
  }

  /** The file a successful JSON pass writes: the same root with its manga array migrated. */
  lemma {:induction false} JsonPassOutput(s: Screen, root: G.Root, dao: Dao, isUuid: string -> bool)
    requires JsonPass(s, Some(root), dao, isUuid).thrown.None?
    ensures root.mangas.Some?
    ensures var r := JsonPass(s, Some(root), dao, isUuid).screen;
            var list := root.mangas.value;
            && s.originalName.Some?
            && r.migratedBackupFile.Some?
            && r.migratedBackupFile.value.name == ModifiedOutputNameAsWritten(s.originalName.value)
            && r.migratedBackupFile.value.content.JsonContent?
            && var out := r.migratedBackupFile.value.content.root;
            && out.version == root.version
            && out.mangas.Some? && |out.mangas.value| == |list|
            && forall j :: 0 <= j < |list| ==> out.mangas.value[j] == Kept(list[j], JsonVisits(list, dao, isUuid)[j])
  {
    var list := root.mangas.value;
    var s1 := s.(status := Preparing).(totalDexItems := JsonTotalDexItems(list), status := Processing);
    RunRecords(LoopStart(s1, list), JsonVisits(list, dao, isUuid), |list|, false);
  }

  // ---------------------------------------------------------------- one call of processBackup

  /**
   * Whatever the document, `processBackup` ends IDLE with the document's name recorded, and it
   * leaves an output file exactly when nothing was thrown.
   */
  lemma {:induction false} ProcessBackupSettles(s: Screen, upload: Upload, dao: Dao, isUuid: string -> bool)
    ensures var r := ProcessBackupSpec(s, Some(upload), dao, isUuid);
            var p := TryProcess(s, upload, dao, isUuid);
            && r.status == Idle
            && r.originalName == upload.displayName
            && (r.migratedBackupFile.Some? <==> p.thrown.None?)
  {
    var p := TryProcess(s, upload, dao, isUuid);
    if upload.displayName.Some? {
      var name := upload.displayName.value;
      var s1 := Reset(s.(originalName := upload.displayName));
      if EndsWith(name, ".proto.gz") {
        if upload.proto.Some? && upload.proto.value.Ok? && p.thrown.None? {
          ProtoPassOutput(s1, upload.proto.value.value, dao, isUuid);
        }
      } else if EndsWith(name, ".json") {
        if p.thrown.None? {
          JsonPassOutput(s1, upload.json.value, dao, isUuid);
        }
      }
    }
  }

  /**
   * A `.proto.gz` document migrated without an exception: the screen shows every counted record
   * processed, and the lists and the migrated count add up to that total.
   */
  lemma {:induction false} ProcessProtoBackupCounts(s: Screen, upload: Upload, dao: Dao, isUuid: string -> bool)
    requires upload.displayName.Some? && EndsWith(upload.displayName.value, ".proto.gz")
    requires upload.proto.Some? && upload.proto.value.Ok?
    requires TryProcess(s, upload, dao, isUuid).thrown.None?
    ensures var r := ProcessBackupSpec(s, Some(upload), dao, isUuid);
            var list := upload.proto.value.value.backupManga;
            && r.totalDexItems == MR.ProtoTotalDexManga(list)
            && r.processedCount == r.totalDexItems
            && r.processedCount == r.migratedCount + |r.alreadyMigrated| + |r.missingMangaId| + |r.missingChapterId|
  {
    ProtoPassTallies(Reset(s.(originalName := upload.displayName)), upload.proto.value.value, dao, isUuid);
  }

  /** The JSON counterpart. */
  lemma {:induction false} ProcessJsonBackupCounts(s: Screen, upload: Upload, dao: Dao, isUuid: string -> bool)
    requires upload.displayName.Some? && EndsWith(upload.displayName.value, ".json")
    requires !EndsWith(upload.displayName.value, ".proto.gz")
    requires TryProcess(s, upload, dao, isUuid).thrown.None?
    ensures upload.json.Some? && upload.json.value.mangas.Some?
    ensures var r := ProcessBackupSpec(s, Some(upload), dao, isUuid);
            var list := upload.json.value.mangas.value;
            && r.totalDexItems == JsonTotalDexItems(list)
            && r.processedCount == r.totalDexItems
            && r.processedCount == r.migratedCount + |r.alreadyMigrated| + |r.missingMangaId| + |r.missingChapterId|
  {
    JsonPassTallies(Reset(s.(originalName := upload.displayName)), upload.json.value, dao, isUuid);
  }

  /**
   * A document without a name, or whose name ends in neither `.proto.gz` nor `.json`, is refused
   * before anything is read: nothing is written and the screen returns to IDLE.
   */
  lemma {:induction false} ProcessBackupRefusesName(s: Screen, upload: Upload, dao: Dao, isUuid: string -> bool)
    ensures var p := TryProcess(s, upload, dao, isUuid);
            && (upload.displayName.None? ==> p.thrown == Some(IllegalState("try again plz")))
            && (upload.displayName.Some? && !EndsWith(upload.displayName.value, ".proto.gz") && !EndsWith(upload.displayName.value, ".json") ==>
                  p.thrown == Some(IllegalArgument("Invalid file selected")) && p.screen.processedCount == 0)
    ensures var r := ProcessBackupSpec(s, Some(upload), dao, isUuid);
            (upload.displayName.None? || (!EndsWith(upload.displayName.value, ".proto.gz") && !EndsWith(upload.displayName.value, ".json"))) ==>
              r.migratedBackupFile.None? && r.status == Idle
  {
  }
}
