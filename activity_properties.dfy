/**
 * What one call of the older view model's `processBackup` achieves, stated over the pass
 * functions its methods are proved against.
 */
module ActivityProperties {
  import opened Wrappers
  import opened KotlinText
  import opened SourceIds
  import opened MangaDexDao
  import opened ActivityViewModel
  import FB = FullBackup
  import G = GsonBackup

  // ---------------------------------------------------------------- the totals

  /** When no record throws, the records the loop examines are those `totalDexItems` counts. */
  lemma {:induction false} ProtoSeenIsTotal(list: seq<FB.BackupManga>, dao: Dao, isUuid: string -> bool, n: nat)
    requires n <= |list|
    ensures SeenCount(ProtoVisits(list, dao, isUuid), n) == ProtoDexItems(list[..n])
    decreases n
  {
    if n > 0 {
      ProtoSeenIsTotal(list, dao, isUuid, n - 1);
      assert list[..n][..n - 1] == list[..n - 1];
      assert ProtoVisits(list, dao, isUuid)[n - 1] == ProtoVisit(list[n - 1], dao, isUuid);
    }
  }

  lemma {:induction false} JsonSeenIsTotal(list: seq<G.Entry>, dao: Dao, isUuid: string -> bool, n: nat)
    requires n <= |list|
    ensures SeenCount(JsonVisits(list, dao, isUuid), n) == JsonDexItems(list[..n])
    decreases n
  {
    if n > 0 {
      JsonSeenIsTotal(list, dao, isUuid, n - 1);
      assert list[..n][..n - 1] == list[..n - 1];
      assert JsonVisits(list, dao, isUuid)[n - 1] == JsonVisit(list[n - 1], dao, isUuid);
    }
  }

  // ---------------------------------------------------------------- whether a pass throws

  /**
   * A proto pass over a decoded backup throws exactly when some MangaDex record's body throws, and
   * then only because a URL has fewer segments than the body reads.
   */
  lemma {:induction false} ProtoPassSucceeds(s: Screen, backup: FB.Backup, dao: Dao, isUuid: string -> bool)
    ensures var p := ProtoPass(s, Some(Ok(backup)), dao, isUuid);
            var list := backup.backupManga;
            && (p.thrown.None? <==>
                  forall j :: 0 <= j < |list| && list[j].source == MangaDexSourceId ==> ProtoOutcome(list[j], dao, isUuid).Ok?)
            && (p.thrown.Some? ==> p.thrown == Some(IndexOutOfBounds) && p.screen.status == Processing)
  {
    var list := backup.backupManga;
    var s1 := s.(status := Preparing).(totalDexItems := ProtoDexItems(list), status := Processing);
    var visits := ProtoVisits(list, dao, isUuid);
    var start := Start(s1, list);
    RunFails(start, visits, |list|);
    var run := RunUpTo(start, visits, |list|);
    if run.failure.Some? {
      var k :| 0 <= k < |list| && visits[k].outcome == Err(run.failure.value);
      ProtoOutcomeCases(list[k], dao, isUuid);
    }
    forall j | 0 <= j < |list| && list[j].source == MangaDexSourceId
      ensures visits[j].outcome == ProtoOutcome(list[j], dao, isUuid)
    {
    }
  }

  /** The JSON counterpart, for a document of the supported version with a manga array. */
  lemma {:induction false} JsonPassSucceeds(s: Screen, root: G.Root, dao: Dao, isUuid: string -> bool)
    requires root.version.GetOr(1) == 2 && root.mangas.Some?
    ensures var p := JsonPass(s, Ok(root), dao, isUuid);
            var list := root.mangas.value;
            && (p.thrown.None? <==>
                  forall j :: 0 <= j < |list| && list[j].manga.source == MangaDexSourceId ==> JsonOutcome(list[j], dao, isUuid).Ok?)
            && (p.thrown.Some? ==> p.thrown == Some(IndexOutOfBounds) && p.screen.status == Processing)
  {
    var list := root.mangas.value;
    var s1 := s.(status := Preparing).(totalDexItems := JsonDexItems(list), status := Processing);
    var visits := JsonVisits(list, dao, isUuid);
    var start := Start(s1, list);
    RunFails(start, visits, |list|);
    var run := RunUpTo(start, visits, |list|);
    if run.failure.Some? {
      var k :| 0 <= k < |list| && visits[k].outcome == Err(run.failure.value);
      JsonOutcomeCases(list[k], dao, isUuid);
    }
    forall j | 0 <= j < |list| && list[j].manga.source == MangaDexSourceId
      ensures visits[j].outcome == JsonOutcome(list[j], dao, isUuid)
    {
    }
  }

  /**
   * Before the loop: an unreadable stream sets IDLE and throws an illegal state, a backup that does
   * not decode throws its decoder's exception with the screen still PREPARING; a JSON document of
   * another version, or without a manga array, is refused likewise.
   */
  lemma {:induction false} PassRefuses(s: Screen, gzip: Option<Result<FB.Backup>>, json: Result<G.Root>, dao: Dao, isUuid: string -> bool)
    ensures var p := ProtoPass(s, gzip, dao, isUuid);
            && (gzip.None? ==> p == Pass(s.(status := Idle), Some(IllegalState("try again plz"))))
            && (gzip.Some? && gzip.value.Err? ==> p == Pass(s.(status := Preparing), Some(gzip.value.error)))
    ensures var p := JsonPass(s, json, dao, isUuid);
            && (json.Err? ==> p == Pass(s.(status := Preparing), Some(json.error)))
            && (json.Ok? && json.value.version.GetOr(1) != 2 ==>
                  p == Pass(s.(status := Preparing), Some(IllegalArgument("Unknown backup version"))))
            && (json.Ok? && json.value.version.GetOr(1) == 2 && json.value.mangas.None? ==>
                  p == Pass(s.(status := Preparing), Some(NullPointer)))
  {
  }

  // ---------------------------------------------------------------- what a successful pass leaves

  /**
   * A loop over all the records that throws nothing advances the count by the converted records
   * and the skip list by the skipped titles, and the two together account for every examined record.
   */
  lemma {:induction false} AfterRunTallies<R>(s: Screen, records: seq<R>, visits: seq<Visit<R>>)
    requires |visits| == |records|
    requires RunUpTo(Start(s, records), visits, |records|).failure.None?
    ensures var r := AfterLoop(s, RunUpTo(Start(s, records), visits, |records|));
            && r.processedItems == s.processedItems + ConvertedCount(visits, |records|)
            && r.skippedItems == s.skippedItems + SkippedTitles(visits, |records|)
            && r.processedItems + |r.skippedItems| == s.processedItems + |s.skippedItems| + SeenCount(visits, |records|)
  {
    RunTallies(Start(s, records), visits, |records|);
  }

  /**
   * After a proto pass without an exception: IDLE, every MangaDex record either converted and
   * counted or skipped and listed, and the converted backup holding each converted record in its
   * place, every other record and every source as it was.
   */
  lemma {:induction false} ProtoPassOutcome(s: Screen, backup: FB.Backup, dao: Dao, isUuid: string -> bool)
    requires ProtoPass(s, Some(Ok(backup)), dao, isUuid).thrown.None?
    ensures var r := ProtoPass(s, Some(Ok(backup)), dao, isUuid).screen;
            var list := backup.backupManga;
            var visits := ProtoVisits(list, dao, isUuid);
            && r.status == Idle
            && r.totalDexItems == ProtoDexItems(list)
            && r.processedItems == s.processedItems + ConvertedCount(visits, |list|)
            && r.skippedItems == s.skippedItems + SkippedTitles(visits, |list|)
            && r.processedItems + |r.skippedItems| == s.processedItems + |s.skippedItems| + r.totalDexItems
            && r.convertedBackup.Some? && r.convertedBackup.value.ProtoConverted?
            && var out := r.convertedBackup.value.backup;
            && out.backupSources == backup.backupSources && out.backupBrokenSources == backup.backupBrokenSources
            && |out.backupManga| == |list|
            && forall j :: 0 <= j < |list| ==> out.backupManga[j] == Kept(list[j], visits[j])
  {
    var list := backup.backupManga;
    var s1 := s.(status := Preparing).(totalDexItems := ProtoDexItems(list), status := Processing);
    var visits := ProtoVisits(list, dao, isUuid);
    AfterRunTallies(s1, list, visits);
    RunRecords(Start(s1, list), visits, |list|);
    ProtoSeenIsTotal(list, dao, isUuid, |list|);
    assert list[..|list|] == list;
  }

  /** The JSON counterpart: the same document with its manga array converted. */
  lemma {:induction false} JsonPassOutcome(s: Screen, root: G.Root, dao: Dao, isUuid: string -> bool)
    requires JsonPass(s, Ok(root), dao, isUuid).thrown.None?
    ensures root.mangas.Some?
    ensures var r := JsonPass(s, Ok(root), dao, isUuid).screen;
            var list := root.mangas.value;
            var visits := JsonVisits(list, dao, isUuid);
            && r.status == Idle
            && r.totalDexItems == JsonDexItems(list)
            && r.processedItems == s.processedItems + ConvertedCount(visits, |list|)
            && r.skippedItems == s.skippedItems + SkippedTitles(visits, |list|)
            && r.processedItems + |r.skippedItems| == s.processedItems + |s.skippedItems| + r.totalDexItems
            && r.convertedBackup.Some? && r.convertedBackup.value.JsonConverted?
            && var out := r.convertedBackup.value.root;
            && out.version == root.version
            && out.mangas.Some? && |out.mangas.value| == |list|
            && forall j :: 0 <= j < |list| ==> out.mangas.value[j] == Kept(list[j], visits[j])
  {
    var list := root.mangas.value;
    var s1 := s.(status := Preparing).(totalDexItems := JsonDexItems(list), status := Processing);
    var visits := JsonVisits(list, dao, isUuid);
    AfterRunTallies(s1, list, visits);
    RunRecords(Start(s1, list), visits, |list|);
    JsonSeenIsTotal(list, dao, isUuid, |list|);
    assert list[..|list|] == list;
  }

  // ---------------------------------------------------------------- one call of processBackup

  /**
   * A document without a name throws before anything is cleared; a name with neither suffix
   * throws after the fields are cleared, leaving the status as it was.
   */
  lemma {:induction false} ProcessBackupRefusesName(s: Screen, doc: Document, dao: Dao, isUuid: string -> bool)
    ensures var p := ProcessBackupSpec(s, Some(doc), dao, isUuid);
            && (doc.displayName.None? ==> p == Pass(s.(originalName := None), Some(IllegalState("try again plz"))))
            && (doc.displayName.Some? && !EndsWith(doc.displayName.value, ".proto.gz") && !EndsWith(doc.displayName.value, ".json") ==>
                  p == Pass(Reset(s.(originalName := doc.displayName)), Some(IllegalArgument("Invalid file selected"))))
  {
  }

  /**
   * A `.proto.gz` document converted without an exception: every MangaDex record of the backup is
   * either counted in `processedItems` or listed in `skippedItems`, and nothing else is.
   */
  lemma {:induction false} ProcessProtoBackupAccounts(s: Screen, doc: Document, dao: Dao, isUuid: string -> bool)
    requires doc.displayName.Some? && EndsWith(doc.displayName.value, ".proto.gz")
    requires doc.gzip.Some? && doc.gzip.value.Ok?
    requires ProcessBackupSpec(s, Some(doc), dao, isUuid).thrown.None?
    ensures var r := ProcessBackupSpec(s, Some(doc), dao, isUuid).screen;
            && r.status == Idle && r.originalName == doc.displayName
            && r.totalDexItems == ProtoDexItems(doc.gzip.value.value.backupManga)
            && r.processedItems + |r.skippedItems| == r.totalDexItems
  {
    ProtoPassOutcome(Reset(s.(originalName := doc.displayName)), doc.gzip.value.value, dao, isUuid);
  }

  /** The JSON counterpart. */
  lemma {:induction false} ProcessJsonBackupAccounts(s: Screen, doc: Document, dao: Dao, isUuid: string -> bool)
    requires doc.displayName.Some? && EndsWith(doc.displayName.value, ".json")
    requires !EndsWith(doc.displayName.value, ".proto.gz")
    requires ProcessBackupSpec(s, Some(doc), dao, isUuid).thrown.None?
    ensures doc.json.Ok? && doc.json.value.mangas.Some?
    ensures var r := ProcessBackupSpec(s, Some(doc), dao, isUuid).screen;
            && r.status == Idle && r.originalName == doc.displayName
            && r.totalDexItems == JsonDexItems(doc.json.value.mangas.value)
            && r.processedItems + |r.skippedItems| == r.totalDexItems
  {
    JsonPassOutcome(Reset(s.(originalName := doc.displayName)), doc.json.value, dao, isUuid);
  }
}
