/**
 * The result of one migration run of the common engine: the migrated backup, the output file
 * name, the three lists of titles, and the totals the summary screen shows.
 */
module MigrationResult {
  import opened Wrappers
  import opened KotlinText
  import opened SourceIds
  import FB = FullBackup
  import LB = LegacyBackup
  import opened Folds

  const ProtoMimeType: string := "application/gzip"
  const JsonMimeType: string := "application/json"

  datatype ProtoMigrationResult = ProtoMigrationResult(
    backup: FB.Backup,
    fileName: string,
    alreadyMigrated: seq<string>,
    missingMangaId: seq<string>,
    missingChapterId: seq<string>)

  datatype JsonMigrationResult = JsonMigrationResult(
    backup: LB.Backup,
    fileName: string,
    alreadyMigrated: seq<string>,
    missingMangaId: seq<string>,
    missingChapterId: seq<string>)

  /** A proto record the totals count: a favourite from a MangaDex source. */
  predicate CountedProto(m: FB.BackupManga) {
    m.favorite && IsMangaDex(m.source)
  }

  /** `backupManga.count { it.favorite && tachiyomiSourceIds.contains(it.source) }`. */
  function ProtoTotalDexManga(list: seq<FB.BackupManga>): (r: nat)
    ensures r <= |list|
    decreases |list|
  {
    if list == [] then 0
    else ProtoTotalDexManga(list[..|list| - 1]) + (if CountedProto(list[|list| - 1]) then 1 else 0)
  }

  /**
   * `count { tachiyomiSourceIds.contains(it.data.source) }` over the records' `data` views, read in
   * order: the first view that throws ends the count with its exception.
   */
  function DexTotal(views: seq<Result<LB.MangaData>>): (r: Result<nat>)
    ensures r.Ok? ==> r.value <= |views|
    decreases |views|
  {
    if views == [] then Ok(0)
    else
      var before :- DexTotal(views[..|views| - 1]);
      var data :- views[|views| - 1];
      Ok(before + (if IsMangaDex(data.source) then 1 else 0))
  }

  /** `mangas.count { tachiyomiSourceIds.contains(it.data.source) }`; the `data` view may throw. */
  function JsonTotalDexManga(list: seq<LB.Manga>): (r: Result<nat>)
    ensures r.Ok? ==> r.value <= |list|
  {
    DexTotal(LB.DataViews(list))
  }

  lemma {:induction false} DexTotalOk(views: seq<Result<LB.MangaData>>)
    ensures DexTotal(views).Ok? <==> forall i :: 0 <= i < |views| ==> views[i].Ok?
    decreases |views|
  {
    if views != [] {
      var k := |views| - 1;
      DexTotalOk(views[..k]);
      assert forall i :: 0 <= i < k ==> views[..k][i] == views[i];
    }
  }

  /** The JSON total is computed exactly when every record's `data` view can be read. */
  lemma JsonTotalOk(list: seq<LB.Manga>)
    ensures JsonTotalDexManga(list).Ok? <==> forall i :: 0 <= i < |list| ==> LB.Data(list[i]).Ok?
  {
    DexTotalOk(LB.DataViews(list));
  }

  /** `totalDexManga - alreadyMigrated.size - missingMangaId.size - missingChapterId.size`. */
  function TotalMigratedManga(totalDexManga: int, alreadyMigrated: seq<string>, missingMangaId: seq<string>, missingChapterId: seq<string>): (r: int)
    ensures r + |alreadyMigrated| + |missingMangaId| + |missingChapterId| == totalDexManga
  {
    totalDexManga - |alreadyMigrated| - |missingMangaId| - |missingChapterId|
  }

  function ProtoMigrated(r: ProtoMigrationResult): int {
    TotalMigratedManga(ProtoTotalDexManga(r.backup.backupManga), r.alreadyMigrated, r.missingMangaId, r.missingChapterId)
  }

  /** The JSON total minus the three lists; reading the total can throw. */
  function JsonMigrated(r: JsonMigrationResult): (m: Result<int>)
    ensures m.Ok? <==> JsonTotalDexManga(r.backup.mangas).Ok?
    ensures m.Ok? ==> m.value + |r.alreadyMigrated| + |r.missingMangaId| + |r.missingChapterId| == JsonTotalDexManga(r.backup.mangas).value
  {
    var total :- JsonTotalDexManga(r.backup.mangas);
    Ok(TotalMigratedManga(total, r.alreadyMigrated, r.missingMangaId, r.missingChapterId))
  }

  lemma {:induction false} ProtoTotalAppend(a: seq<FB.BackupManga>, b: seq<FB.BackupManga>)
    ensures ProtoTotalDexManga(a + b) == ProtoTotalDexManga(a) + ProtoTotalDexManga(b)
    decreases |b|
  {
    if b == [] {
      assert a + b == a;
    } else {
      var b' := b[..|b| - 1];
      assert (a + b)[..|a + b| - 1] == a + b';
      ProtoTotalAppend(a, b');
    }
  }

  /**
   * The proto total depends only on each record's source and favourite flag, so two backups that
   * agree on those, record by record, have the same total.
   */
  lemma {:induction false} ProtoTotalOnlyReadsSourceAndFavourite(a: seq<FB.BackupManga>, b: seq<FB.BackupManga>)
    requires |a| == |b|
    requires forall i :: 0 <= i < |a| ==> a[i].source == b[i].source && a[i].favorite == b[i].favorite
    ensures ProtoTotalDexManga(a) == ProtoTotalDexManga(b)
    decreases |a|
  {
    if a != [] {
      ProtoTotalOnlyReadsSourceAndFavourite(a[..|a| - 1], b[..|b| - 1]);
    }
  }

  /** The total depends only on each view's source. */
  lemma {:induction false} DexTotalOnlyReadsSource(a: seq<Result<LB.MangaData>>, b: seq<Result<LB.MangaData>>)
    requires |a| == |b|
    requires forall i :: 0 <= i < |a| ==> a[i].Ok? && b[i].Ok? && a[i].value.source == b[i].value.source
    ensures DexTotal(a) == DexTotal(b)
    decreases |a|
  {
    if a != [] {
      var k := |a| - 1;
      assert forall i :: 0 <= i < k ==> a[..k][i] == a[i] && b[..k][i] == b[i];
      DexTotalOnlyReadsSource(a[..k], b[..k]);
    }
  }

  /** The JSON total depends only on each record's `data.source`. */
  lemma JsonTotalOnlyReadsSource(a: seq<LB.Manga>, b: seq<LB.Manga>)
    requires |a| == |b|
    requires forall i :: 0 <= i < |a| ==> LB.Data(a[i]).Ok? && LB.Data(b[i]).Ok?
    requires forall i :: 0 <= i < |a| ==> LB.Data(a[i]).value.source == LB.Data(b[i]).value.source
    ensures JsonTotalDexManga(a) == JsonTotalDexManga(b)
  {
    DexTotalOnlyReadsSource(LB.DataViews(a), LB.DataViews(b));
  }
}
