/**
 * The Android app's engine, `MangaDexMigratorViewModel`: one pass over the backup that looks every
 * legacy ID up in the bundled database, rewrites the records it can migrate, and reports its
 * progress through the view model's fields.
 */
module ViewModel {
  import opened Wrappers
  import opened KotlinText
  import opened SourceIds
  import opened MangaDexDao
  import opened MigrationLoop
  import MS = MigratorSteps
  import FB = FullBackup
  import G = GsonBackup
  import MR = MigrationResult
  import MP = MigratorProto
  import MJ = MigratorJson

  const ApiPrefix: string := "/api/"

  // ---------------------------------------------------------------- URL lookups

  /** `migrateMangaUrl(url)`: the new manga URL for the legacy ID in segment 2, or null. */
  function MigrateMangaUrl(url: string, dao: Dao): (r: Result<Option<string>>)
    ensures r.Ok? <==> Segment(url, 2).Ok?
    ensures r.Ok? ==> (r.value.Some? <==> Segment(url, 2).value in dao.newMangaIds)
    ensures r.Ok? && r.value.Some? ==> r.value.value == MS.MangaPrefix + dao.newMangaIds[Segment(url, 2).value]
  {
    var oldMangaId :- Segment(url, 2);
    var newMangaId := GetNewMangaId(dao, oldMangaId);
    if newMangaId.Some? then Ok(Some(MS.MangaPrefix + newMangaId.value)) else Ok(None)
  }

  /**
   * `migrateChapterUrl(url)`: only an `/api/` URL is looked up, by its segment 3; any other URL, and
   * an ID the database does not know, give null.
   */
  function MigrateChapterUrl(url: string, dao: Dao): (r: Result<Option<string>>)
    ensures !StartsWith(url, ApiPrefix) ==> r == Ok(None)
    ensures StartsWith(url, ApiPrefix) ==> (r.Ok? <==> Segment(url, 3).Ok?)
    ensures (r.Ok? && r.value.Some?) <==>
              StartsWith(url, ApiPrefix) && Segment(url, 3).Ok? && Segment(url, 3).value in dao.newChapterIds
    ensures r.Ok? && r.value.Some? ==> r.value.value == MS.ChapterPrefix + dao.newChapterIds[Segment(url, 3).value]
  {
    if StartsWith(url, ApiPrefix) then
      var oldChapterId :- Segment(url, 3);
      var newChapterId := GetNewChapterId(dao, oldChapterId);
      if newChapterId.Some? then Ok(Some(MS.ChapterPrefix + newChapterId.value)) else Ok(None)
    else Ok(None)
  }

  /** A URL the engine writes carries the new ID in segment 2, where a second run reads it back. */
  lemma MigratedUrlSegment(prefix: string, kind: string, id: string)
    requires prefix == "/" + kind + "/" && '/' !in kind && '/' !in id
    ensures Segment(prefix + id, 2) == Ok(id)
  {
    SegmentsOfPath(kind, id);
    assert prefix + id == "/" + kind + "/" + id;
  }

  /** A rewritten chapter URL is in the new form, which every later run leaves alone. */
  lemma RewrittenChapterUrlIsMigrated(url: string, dao: Dao)
    requires MigrateChapterUrl(url, dao).Ok? && MigrateChapterUrl(url, dao).value.Some?
    ensures MS.IsMigratedChapterUrl(MigrateChapterUrl(url, dao).value.value)
  {
  }

  // ---------------------------------------------------------------- the chapter and history loops

  /** What the chapter loop does with one URL: keep one already migrated, else the lookup. */
  function ChapterStep(url: string, dao: Dao): Result<Option<string>> {
    if MS.IsMigratedChapterUrl(url) then Ok(Some(url)) else MigrateChapterUrl(url, dao)
  }

  /** The chapter URL can be kept or rewritten. */
  predicate Resolves(url: string, dao: Dao) {
    ChapterStep(url, dao).Ok? && ChapterStep(url, dao).value.Some?
  }

  datatype ChapterScan = AllChapters(urls: seq<string>) | ChapterMissing(index: nat)

  /**
   * The chapter loop from index i on the list as rewritten so far: it breaks at the first URL the
   * database cannot resolve.
   */
  function ScanChapters(urls: seq<string>, dao: Dao, i: nat): (r: Result<ChapterScan>)
    requires i <= |urls|
    ensures r.Ok? && r.value.AllChapters? ==> |r.value.urls| == |urls|
    ensures r.Ok? && r.value.ChapterMissing? ==> i <= r.value.index < |urls|
    decreases |urls| - i
  {
    if i == |urls| then Ok(AllChapters(urls))
    else if MS.IsMigratedChapterUrl(urls[i]) then ScanChapters(urls, dao, i + 1)
    else
      var newUrl :- MigrateChapterUrl(urls[i], dao);
      if newUrl.None? then Ok(ChapterMissing(i)) else ScanChapters(urls[i := newUrl.value], dao, i + 1)
  }

  /** The chapter loop completes exactly when every URL resolves, and then holds each URL's rewrite. */
  lemma {:induction false} ScanChaptersAll(urls: seq<string>, dao: Dao, i: nat)
    requires i <= |urls|
    ensures var r := ScanChapters(urls, dao, i);
            && ((r.Ok? && r.value.AllChapters?) <==> forall j :: i <= j < |urls| ==> Resolves(urls[j], dao))
            && (r.Ok? && r.value.AllChapters? ==>
                  && r.value.urls[..i] == urls[..i]
                  && forall j :: i <= j < |urls| ==> ChapterStep(urls[j], dao) == Ok(Some(r.value.urls[j])))
    decreases |urls| - i
  {
    if i < |urls| {
      if MS.IsMigratedChapterUrl(urls[i]) {
        ScanChaptersAll(urls, dao, i + 1);
      } else if MigrateChapterUrl(urls[i], dao).Ok? && MigrateChapterUrl(urls[i], dao).value.Some? {
        var next := urls[i := MigrateChapterUrl(urls[i], dao).value.value];
        ScanChaptersAll(next, dao, i + 1);
        assert forall j :: i < j < |urls| ==> next[j] == urls[j];
        assert next[..i] == urls[..i];
      }
    }
  }

  /** The loop breaks at the first URL that does not resolve, after a run of URLs that do. */
  lemma {:induction false} ScanChaptersStops(urls: seq<string>, dao: Dao, i: nat)
    requires i <= |urls|
    ensures var r := ScanChapters(urls, dao, i);
            && (r.Ok? && r.value.ChapterMissing? ==>
                  && ChapterStep(urls[r.value.index], dao) == Ok(None)
                  && forall j :: i <= j < r.value.index ==> Resolves(urls[j], dao))
            && (r.Err? ==>
                  exists k :: i <= k < |urls| && ChapterStep(urls[k], dao) == Err(r.error)
                    && forall j :: i <= j < k ==> Resolves(urls[j], dao))
    decreases |urls| - i
  {
    if i < |urls| {
      if MS.IsMigratedChapterUrl(urls[i]) {
        ScanChaptersStops(urls, dao, i + 1);
      } else if MigrateChapterUrl(urls[i], dao).Ok? && MigrateChapterUrl(urls[i], dao).value.Some? {
        var next := urls[i := MigrateChapterUrl(urls[i], dao).value.value];
        ScanChaptersStops(next, dao, i + 1);
        assert forall j :: i < j < |urls| ==> next[j] == urls[j];
      }
    }
  }

  /** The chapter loop: a URL already in the new form is skipped, a missing chapter breaks the loop. */
  method MigrateChapters(urls: seq<string>, dao: Dao) returns (r: Result<ChapterScan>)
    ensures r == ScanChapters(urls, dao, 0)
  {
    var chapters := urls;
    var i := 0;
    while i < |chapters|
      invariant 0 <= i <= |chapters| == |urls|
      invariant ScanChapters(chapters, dao, i) == ScanChapters(urls, dao, 0)
      decreases |chapters| - i
    {
      if !MS.IsMigratedChapterUrl(chapters[i]) {
        var newChapterUrl := MigrateChapterUrl(chapters[i], dao);
        if newChapterUrl.Err? {
          return Err(newChapterUrl.error);
        }
        if newChapterUrl.value.None? {
          return Ok(ChapterMissing(i));
        }
        chapters := chapters[i := newChapterUrl.value.value];
      }
      i := i + 1;
    }
    return Ok(AllChapters(chapters));
  }

  /** What the history loop does with one URL: a URL the database cannot resolve is kept as it is. */
  function HistoryStep(url: string, dao: Dao): Result<string> {
    if MS.IsMigratedChapterUrl(url) then Ok(url)
    else
      var newUrl :- MigrateChapterUrl(url, dao);
      Ok(newUrl.GetOr(url))
  }

  /** The history loop from index i. */
  function ScanHistory(urls: seq<string>, dao: Dao, i: nat): (r: Result<seq<string>>)
    requires i <= |urls|
    ensures r.Ok? ==> |r.value| == |urls|
    decreases |urls| - i
  {
    if i == |urls| then Ok(urls)
    else if MS.IsMigratedChapterUrl(urls[i]) then ScanHistory(urls, dao, i + 1)
    else
      var newUrl :- MigrateChapterUrl(urls[i], dao);
      if newUrl.Some? then ScanHistory(urls[i := newUrl.value], dao, i + 1) else ScanHistory(urls, dao, i + 1)
  }

  /**
   * The history loop throws exactly when some URL's lookup throws; otherwise it rewrites every entry
   * the database resolves and keeps the others.
   */
  lemma {:induction false} ScanHistorySpec(urls: seq<string>, dao: Dao, i: nat)
    requires i <= |urls|
    ensures var r := ScanHistory(urls, dao, i);
            && (r.Ok? <==> forall j :: i <= j < |urls| ==> HistoryStep(urls[j], dao).Ok?)
            && (r.Ok? ==>
                  && r.value[..i] == urls[..i]
                  && forall j :: i <= j < |urls| ==> HistoryStep(urls[j], dao) == Ok(r.value[j]))
            && (r.Err? ==> exists k :: i <= k < |urls| && HistoryStep(urls[k], dao) == Err(r.error))
    decreases |urls| - i
  {
    if i < |urls| {
      if MS.IsMigratedChapterUrl(urls[i]) {
        ScanHistorySpec(urls, dao, i + 1);
      } else if MigrateChapterUrl(urls[i], dao).Ok? {
        var newUrl := MigrateChapterUrl(urls[i], dao).value;
        var next := if newUrl.Some? then urls[i := newUrl.value] else urls;
        ScanHistorySpec(next, dao, i + 1);
        assert forall j :: i < j < |urls| ==> next[j] == urls[j];
        assert next[..i] == urls[..i];
      }
    }
  }

  /** The history loop: entries already in the new form are skipped, unresolved ones are kept. */
  method MigrateHistory(urls: seq<string>, dao: Dao) returns (r: Result<seq<string>>)
    ensures r == ScanHistory(urls, dao, 0)
  {
    var history := urls;
    var i := 0;
    while i < |history|
      invariant 0 <= i <= |history| == |urls|
      invariant ScanHistory(history, dao, i) == ScanHistory(urls, dao, 0)
      decreases |history| - i
    {
      if !MS.IsMigratedChapterUrl(history[i]) {
        var newChapterUrl := MigrateChapterUrl(history[i], dao);
        if newChapterUrl.Err? {
          return Err(newChapterUrl.error);
        }
        if newChapterUrl.value.Some? {
          history := history[i := newChapterUrl.value.value];
        }
      }
      i := i + 1;
    }
    return Ok(history);
  }

  // ---------------------------------------------------------------- output file name

  /**
   * `getModifiedOutputName` as written: the extension is the name with its first field removed by
   * `replace`, which removes every occurrence of that field, not only the leading one.
   */
  function ModifiedOutputNameAsWritten(originalName: string): string {
    var nameSplit := Split(originalName, '.');
    if |nameSplit| >= 2 then
      var nameWithoutExtension := nameSplit[0];
      var extension := Replace(originalName, nameWithoutExtension, "");
      nameWithoutExtension + "_modified" + extension
    else originalName
  }

  /** With a one-letter stem, `replace` runs over the whole name and removes that letter everywhere. */
  lemma AsWrittenOneLetterStem(c: char, rest: string)
    requires c != '.'
    ensures ModifiedOutputNameAsWritten([c] + "." + rest) == [c] + "_modified." + Replace(rest, [c], "")
  {
    var name := [c] + "." + rest;
    SplitAfterField([c], '.', rest);
    assert name == [c] + ['.'] + rest;
    assert name[1..] == "." + rest;
    assert [c] <= name;
    assert Replace(name, [c], "") == Replace(name[1..], [c], "");
    ReplaceSkipsFirst("." + rest, [c], "");
    assert ("." + rest)[1..] == rest;
  }

  /** `getModifiedOutputName` as intended: `_modified` goes in front of the first dot. */
  function ModifiedOutputName(originalName: string): string {
    var nameSplit := Split(originalName, '.');
    FirstField(originalName, '.');
    if |nameSplit| >= 2 then nameSplit[0] + "_modified" + originalName[|nameSplit[0]|..] else originalName
  }

  /** The stem is the text before the first dot, and the extension (from that dot on) is kept whole. */
  lemma ModifiedOutputNameSpec(stem: string, extension: string)
    requires '.' !in stem && extension != [] && extension[0] == '.'
    ensures ModifiedOutputName(stem + extension) == stem + "_modified" + extension
  {
    SplitAfterField(stem, '.', extension[1..]);
    assert stem + extension == stem + ['.'] + extension[1..];
    assert (stem + extension)[|stem|..] == extension;
  }

  /**
   * The two disagree on every one-letter stem that occurs again after the dot: `p.proto.gz` comes
   * out as `p_modified.roto.gz` instead of `p_modified.proto.gz`.
   */
  lemma ModifiedOutputNameAsWrittenDropsLetters(c: char, rest: string)
    requires c != '.' && c in rest
    ensures ModifiedOutputNameAsWritten([c] + "." + rest) == [c] + "_modified." + Replace(rest, [c], "")
    ensures ModifiedOutputName([c] + "." + rest) == [c] + "_modified." + rest
    ensures ModifiedOutputNameAsWritten([c] + "." + rest) != ModifiedOutputName([c] + "." + rest)
  {
    AsWrittenOneLetterStem(c, rest);
    ModifiedOutputNameSpec([c], "." + rest);
    assert [c] + ("." + rest) == [c] + "." + rest;
    assert [c] + "_modified" + ("." + rest) == [c] + "_modified." + rest;
    DeleteCharShortens(rest, c);
  }

  /** A name without a dot is kept, by the code as written and by the corrected function alike. */
  lemma ModifiedOutputNameWithoutDot(originalName: string)
    requires '.' !in originalName
    ensures ModifiedOutputNameAsWritten(originalName) == originalName
    ensures ModifiedOutputName(originalName) == originalName
  {
    SplitWhole(originalName, '.');
  }

  /**
   * When the stem does not occur again after the first dot, the code as written already gives the
   * intended name: the only occurrence `replace` removes is the leading one.
   */
  lemma {:induction false} ModifiedOutputNameAsWrittenAgrees(stem: string, extension: string)
    requires '.' !in stem && stem != [] && extension != [] && extension[0] == '.'
    requires forall i :: 0 <= i <= |extension| ==> !OccursAt(extension, stem, i)
    ensures ModifiedOutputNameAsWritten(stem + extension) == stem + "_modified" + extension
    ensures ModifiedOutputNameAsWritten(stem + extension) == ModifiedOutputName(stem + extension)
  {
    var name := stem + extension;
    SplitAfterField(stem, '.', extension[1..]);
    assert name == stem + ['.'] + extension[1..];
    assert stem <= name && name[|stem|..] == extension;
    assert Replace(name, stem, "") == "" + Replace(extension, stem, "");
    ReplaceAbsent(extension, stem, "");
    ModifiedOutputNameSpec(stem, extension);
  }

  // ---------------------------------------------------------------- one record

  /** `brokenHistory.map { BackupHistory(it.url, it.lastRead) }`. */
  function BrokenAsHistory(bs: seq<FB.BrokenBackupHistory>): (r: seq<FB.BackupHistory>)
    ensures |r| == |bs| && forall i :: 0 <= i < |bs| ==> r[i] == FB.BackupHistory(bs[i].url, bs[i].lastRead)
  {
    seq(|bs|, i requires 0 <= i < |bs| => FB.BackupHistory(bs[i].url, bs[i].lastRead))
  }

  /** `backupBrokenSources.map { BackupSource(it.name, it.sourceId) }`. */
  function BrokenAsSources(bs: seq<FB.BrokenBackupSource>): (r: seq<FB.BackupSource>)
    ensures |r| == |bs| && forall i :: 0 <= i < |bs| ==> r[i] == FB.BackupSource(bs[i].name, bs[i].sourceId)
  {
    seq(|bs|, i requires 0 <= i < |bs| => FB.BackupSource(bs[i].name, bs[i].sourceId))
  }

  /** The proto loop body for a MangaDex record, from reading its legacy manga ID on. */
  function ProtoFate(m: FB.BackupManga, dao: Dao, isUuid: string -> bool): (r: Result<Fate<FB.BackupManga>>)
    ensures r.Ok? ==> !r.value.OtherSource?
  {
    var oldMangaId :- Segment(m.url, 2);
    if isUuid(oldMangaId) then Ok(AlreadyMigrated)
    else
      // segment 2 was read above, so the lookup cannot throw
      var newMangaUrl := MigrateMangaUrl(m.url, dao).value;
      if newMangaUrl.None? then Ok(MissingManga)
      else
        var scan :- ScanChapters(MP.ChapterUrls(m.chapters), dao, 0);
        match scan
        case ChapterMissing(k) => Ok(MissingChapter(m.chapters[k].name))
        case AllChapters(chapterUrls) =>
          var history := m.history + BrokenAsHistory(m.brokenHistory);
          var historyUrls :- ScanHistory(MP.HistoryUrls(history), dao, 0);
          Ok(Migrated(m.(url := newMangaUrl.value,
                         chapters := MP.WithChapterUrls(m.chapters, chapterUrls),
                         history := MP.WithHistoryUrls(history, historyUrls))))
  }

  /** The JSON loop body for a MangaDex record. */
  function JsonFate(e: G.Entry, dao: Dao, isUuid: string -> bool): (r: Result<Fate<G.Entry>>)
    ensures r.Ok? ==> !r.value.OtherSource?
  {
    var oldMangaId :- Segment(e.manga.url, 2);
    if isUuid(oldMangaId) then Ok(AlreadyMigrated)
    else
      // segment 2 was read above, so the lookup cannot throw
      var newMangaUrl := MigrateMangaUrl(e.manga.url, dao).value;
      if newMangaUrl.None? then Ok(MissingManga)
      else
        var scan :- ScanChapters(G.ChapterUrls(e.chapters), dao, 0);
        match scan
        case ChapterMissing(k) => Ok(MissingChapter(e.chapters[k].name))
        case AllChapters(chapterUrls) =>
          var historyUrls :- ScanHistory(G.HistoryUrls(e.history), dao, 0);
          Ok(Migrated(G.Entry(e.manga.(url := newMangaUrl.value),
                              G.WithChapterUrls(e.chapters, chapterUrls),
                              G.WithHistoryUrls(e.history, historyUrls))))
  }

  /** A proto record in the loop: only favourites are shown and counted. */
  function ProtoVisit(m: FB.BackupManga, dao: Dao, isUuid: string -> bool): Visit<FB.BackupManga> {
    Visit(m.favorite, m.title, if IsMangaDex(m.source) then ProtoFate(m, dao, isUuid) else Ok(OtherSource))
  }

  function ProtoVisits(list: seq<FB.BackupManga>, dao: Dao, isUuid: string -> bool): (r: seq<Visit<FB.BackupManga>>)
    ensures |r| == |list| && forall i :: 0 <= i < |list| ==> r[i] == ProtoVisit(list[i], dao, isUuid)
  {
    seq(|list|, i requires 0 <= i < |list| => ProtoVisit(list[i], dao, isUuid))
  }

  /** A JSON record in the loop: every MangaDex record is shown and counted. */
  function JsonVisit(e: G.Entry, dao: Dao, isUuid: string -> bool): Visit<G.Entry> {
    Visit(true, e.manga.title, if IsMangaDex(e.manga.source) then JsonFate(e, dao, isUuid) else Ok(OtherSource))
  }

  function JsonVisits(list: seq<G.Entry>, dao: Dao, isUuid: string -> bool): (r: seq<Visit<G.Entry>>)
    ensures |r| == |list| && forall i :: 0 <= i < |list| ==> r[i] == JsonVisit(list[i], dao, isUuid)
  {
    seq(|list|, i requires 0 <= i < |list| => JsonVisit(list[i], dao, isUuid))
  }

  /** `mangaList.count { mangaDexSourceIds.contains(it.first.source) }`. */
  function JsonTotalDexItems(list: seq<G.Entry>): (r: nat)
    ensures r <= |list|
    decreases |list|
  {
    if list == [] then 0
    else JsonTotalDexItems(list[..|list| - 1]) + (if IsMangaDex(list[|list| - 1].manga.source) then 1 else 0)
  }

  // ---------------------------------------------------------------- what one record's body promises

  /**
   * A proto record is migrated only when its legacy manga ID is no UUID and is known, and then it
   * carries the new manga URL, every chapter resolved (names kept), and the history followed by the
   * broken history with every resolvable entry rewritten (read times kept); source, title,
   * favourite flag and the broken history itself are kept.
   */
  lemma ProtoFateMigrated(m: FB.BackupManga, dao: Dao, isUuid: string -> bool)
    requires ProtoFate(m, dao, isUuid).Ok? && ProtoFate(m, dao, isUuid).value.Migrated?
    ensures Segment(m.url, 2).Ok?
    ensures var oldMangaId := Segment(m.url, 2).value;
            var r := ProtoFate(m, dao, isUuid).value.record;
            var history := m.history + BrokenAsHistory(m.brokenHistory);
            && !isUuid(oldMangaId) && oldMangaId in dao.newMangaIds
            && r.url == MS.MangaPrefix + dao.newMangaIds[oldMangaId]
            && r.source == m.source && r.title == m.title && r.favorite == m.favorite
            && r.brokenHistory == m.brokenHistory
            && |r.chapters| == |m.chapters|
            && (forall j :: 0 <= j < |m.chapters| ==>
                  r.chapters[j].name == m.chapters[j].name && ChapterStep(m.chapters[j].url, dao) == Ok(Some(r.chapters[j].url)))
            && |r.history| == |history|
            && (forall j :: 0 <= j < |history| ==>
                  r.history[j].lastRead == history[j].lastRead && HistoryStep(history[j].url, dao) == Ok(r.history[j].url))
  {
    ScanChaptersAll(MP.ChapterUrls(m.chapters), dao, 0);
    var history := m.history + BrokenAsHistory(m.brokenHistory);
    ScanHistorySpec(MP.HistoryUrls(history), dao, 0);
  }

  /** The exceptions a loop body can throw all come from reading a URL segment that is not there. */
  lemma ChapterStepThrows(url: string, dao: Dao)
    requires ChapterStep(url, dao).Err?
    ensures ChapterStep(url, dao).error == IndexOutOfBounds
  {
  }

  lemma HistoryStepThrows(url: string, dao: Dao)
    requires HistoryStep(url, dao).Err?
    ensures HistoryStep(url, dao).error == IndexOutOfBounds
  {
  }

  /**
   * The other fates of a proto record: already migrated exactly when segment 2 is a UUID, manga
   * missing exactly when it is not and the database does not know it, a missing chapter names the
   * first chapter that does not resolve, and an exception is always an index out of bounds.
   */
  lemma ProtoFateCases(m: FB.BackupManga, dao: Dao, isUuid: string -> bool)
    ensures var r := ProtoFate(m, dao, isUuid);
            && (r.Ok? && r.value.AlreadyMigrated? <==> Segment(m.url, 2).Ok? && isUuid(Segment(m.url, 2).value))
            && (r.Ok? && r.value.MissingManga? <==>
                  Segment(m.url, 2).Ok? && !isUuid(Segment(m.url, 2).value) && Segment(m.url, 2).value !in dao.newMangaIds)
            && (r.Ok? && r.value.MissingChapter? ==>
                  exists k :: 0 <= k < |m.chapters| && r.value.chapterName == m.chapters[k].name
                    && ChapterStep(m.chapters[k].url, dao) == Ok(None)
                    && forall j :: 0 <= j < k ==> Resolves(m.chapters[j].url, dao))
            && (r.Err? ==> r.error == IndexOutOfBounds)
  {
    var r := ProtoFate(m, dao, isUuid);
    if Segment(m.url, 2).Ok? && !isUuid(Segment(m.url, 2).value) && Segment(m.url, 2).value in dao.newMangaIds {
      var urls := MP.ChapterUrls(m.chapters);
      ScanChaptersStops(urls, dao, 0);
      var scan := ScanChapters(urls, dao, 0);
      if scan.Err? {
        var k :| 0 <= k < |urls| && ChapterStep(urls[k], dao) == Err(scan.error);
        ChapterStepThrows(urls[k], dao);
      } else if scan.value.AllChapters? {
        var history := m.history + BrokenAsHistory(m.brokenHistory);
        ScanHistorySpec(MP.HistoryUrls(history), dao, 0);
        var hs := ScanHistory(MP.HistoryUrls(history), dao, 0);
        if hs.Err? {
          var k :| 0 <= k < |history| && HistoryStep(MP.HistoryUrls(history)[k], dao) == Err(hs.error);
          HistoryStepThrows(MP.HistoryUrls(history)[k], dao);
        }
      }
    }
  }

  /**
   * Migrating is idempotent: a migrated record whose new ID is a UUID without a '/' is seen as
   * already migrated by the next run.
   */
  lemma ProtoFateSecondRun(m: FB.BackupManga, dao: Dao, isUuid: string -> bool)
    requires ProtoFate(m, dao, isUuid).Ok? && ProtoFate(m, dao, isUuid).value.Migrated?
    requires Segment(m.url, 2).Ok? && Segment(m.url, 2).value in dao.newMangaIds
    requires var newId := dao.newMangaIds[Segment(m.url, 2).value]; '/' !in newId && isUuid(newId)
    ensures ProtoFate(ProtoFate(m, dao, isUuid).value.record, dao, isUuid) == Ok(AlreadyMigrated)
  {
    ProtoFateMigrated(m, dao, isUuid);
    MigratedUrlSegment(MS.MangaPrefix, "manga", dao.newMangaIds[Segment(m.url, 2).value]);
  }

  /** A migrated JSON entry: the new manga URL, every chapter resolved, every resolvable history entry rewritten. */
  lemma JsonFateMigrated(e: G.Entry, dao: Dao, isUuid: string -> bool)
    requires JsonFate(e, dao, isUuid).Ok? && JsonFate(e, dao, isUuid).value.Migrated?
    ensures Segment(e.manga.url, 2).Ok?
    ensures var oldMangaId := Segment(e.manga.url, 2).value;
            var r := JsonFate(e, dao, isUuid).value.record;
            && !isUuid(oldMangaId) && oldMangaId in dao.newMangaIds
            && r.manga == e.manga.(url := MS.MangaPrefix + dao.newMangaIds[oldMangaId])
            && |r.chapters| == |e.chapters| && |r.history| == |e.history|
            && (forall j :: 0 <= j < |e.chapters| ==>
                  r.chapters[j].name == e.chapters[j].name && ChapterStep(e.chapters[j].url, dao) == Ok(Some(r.chapters[j].url)))
            && (forall j :: 0 <= j < |e.history| ==>
                  r.history[j].lastRead == e.history[j].lastRead && HistoryStep(e.history[j].url, dao) == Ok(r.history[j].url))
  {
    ScanChaptersAll(G.ChapterUrls(e.chapters), dao, 0);
    ScanHistorySpec(G.HistoryUrls(e.history), dao, 0);
  }

  /** A JSON entry is already migrated, or misses its manga, exactly as a proto record does. */
  lemma JsonFateCases(e: G.Entry, dao: Dao, isUuid: string -> bool)
    ensures var r := JsonFate(e, dao, isUuid);
            var url := e.manga.url;
            && (r.Ok? && r.value.AlreadyMigrated? <==> Segment(url, 2).Ok? && isUuid(Segment(url, 2).value))
            && (r.Ok? && r.value.MissingManga? <==>
                  Segment(url, 2).Ok? && !isUuid(Segment(url, 2).value) && Segment(url, 2).value !in dao.newMangaIds)
            && (r.Ok? && r.value.MissingChapter? ==>
                  exists k :: 0 <= k < |e.chapters| && r.value.chapterName == e.chapters[k].name
                    && ChapterStep(e.chapters[k].url, dao) == Ok(None))
            && (r.Err? ==> r.error == IndexOutOfBounds)
  {
    if Segment(e.manga.url, 2).Ok? && !isUuid(Segment(e.manga.url, 2).value) && Segment(e.manga.url, 2).value in dao.newMangaIds {
      var urls := G.ChapterUrls(e.chapters);
      ScanChaptersStops(urls, dao, 0);
      var scan := ScanChapters(urls, dao, 0);
      if scan.Err? {
        var k :| 0 <= k < |urls| && ChapterStep(urls[k], dao) == Err(scan.error);
        ChapterStepThrows(urls[k], dao);
      } else if scan.value.AllChapters? {
        ScanHistorySpec(G.HistoryUrls(e.history), dao, 0);
        var hs := ScanHistory(G.HistoryUrls(e.history), dao, 0);
        if hs.Err? {
          var k :| 0 <= k < |e.history| && HistoryStep(G.HistoryUrls(e.history)[k], dao) == Err(hs.error);
          HistoryStepThrows(G.HistoryUrls(e.history)[k], dao);
        }
      }
    }
  }

  // ---------------------------------------------------------------- one record, as the loop body runs it

  /** The proto loop body for a MangaDex record, from `url.split("/")[2]` to the rewritten record. */
  method MigrateProtoRecord(m: FB.BackupManga, dao: Dao, isUuid: string -> bool) returns (fate: Result<Fate<FB.BackupManga>>)
    ensures fate == ProtoFate(m, dao, isUuid)
  {
    var oldMangaId := Segment(m.url, 2);
    if oldMangaId.Err? {
      return Err(oldMangaId.error);
    }
    if isUuid(oldMangaId.value) {
      return Ok(AlreadyMigrated);
    }
    var newMangaUrl := MigrateMangaUrl(m.url, dao).value;
    if newMangaUrl.None? {
      return Ok(MissingManga);
    }
    var scan := MigrateChapters(MP.ChapterUrls(m.chapters), dao);
    if scan.Err? {
      return Err(scan.error);
    }
    if scan.value.ChapterMissing? {
      return Ok(MissingChapter(m.chapters[scan.value.index].name));
    }
    var history := m.history + BrokenAsHistory(m.brokenHistory);
    var historyUrls := MigrateHistory(MP.HistoryUrls(history), dao);
    if historyUrls.Err? {
      return Err(historyUrls.error);
    }
    return Ok(Migrated(m.(url := newMangaUrl.value,
                          chapters := MP.WithChapterUrls(m.chapters, scan.value.urls),
                          history := MP.WithHistoryUrls(history, historyUrls.value))));
  }

  /** The JSON loop body for a MangaDex record. */
  method MigrateJsonEntry(e: G.Entry, dao: Dao, isUuid: string -> bool) returns (fate: Result<Fate<G.Entry>>)
    ensures fate == JsonFate(e, dao, isUuid)
  {
    var oldMangaId := Segment(e.manga.url, 2);
    if oldMangaId.Err? {
      return Err(oldMangaId.error);
    }
    if isUuid(oldMangaId.value) {
      return Ok(AlreadyMigrated);
    }
    var newMangaUrl := MigrateMangaUrl(e.manga.url, dao).value;
    if newMangaUrl.None? {
      return Ok(MissingManga);
    }
    var scan := MigrateChapters(G.ChapterUrls(e.chapters), dao);
    if scan.Err? {
      return Err(scan.error);
    }
    if scan.value.ChapterMissing? {
      return Ok(MissingChapter(e.chapters[scan.value.index].name));
    }
    var historyUrls := MigrateHistory(G.HistoryUrls(e.history), dao);
    if historyUrls.Err? {
      return Err(historyUrls.error);
    }
    return Ok(Migrated(G.Entry(e.manga.(url := newMangaUrl.value),
                               G.WithChapterUrls(e.chapters, scan.value.urls),
                               G.WithHistoryUrls(e.history, historyUrls.value))));
  }

  // ---------------------------------------------------------------- the view model's state

  datatype Status = Idle | Preparing | Processing | Finishing

  datatype Content = ProtoContent(backup: FB.Backup) | JsonContent(root: G.Root)

  /** The migrated backup left in the cache directory; its encoding is not modelled. */
  datatype OutputFile = OutputFile(name: string, content: Content)

  /** The fields of the view model. */
  datatype Screen = Screen(
    status: Status,
    currentManga: string,
    processedCount: int,
    migratedCount: int,
    totalDexItems: int,
    alreadyMigrated: seq<string>,
    missingMangaId: seq<string>,
    missingChapterId: seq<string>,
    originalName: Option<string>,
    migratedBackupFile: Option<OutputFile>)

  /**
   * The document picked: its display name, and its content as each format's reader sees it. For
   * the proto format None is a gzip stream that cannot be read and Err a protobuf decoding failure;
   * for JSON None is text that does not parse as an object.
   */
  datatype Upload = Upload(displayName: Option<string>, proto: Option<Result<FB.Backup>>, json: Option<G.Root>)

  /** The fields after a format's pass, and the exception it threw. */
  datatype Pass = Pass(screen: Screen, thrown: Option<Exception>)

  /**
   * The status while the loop runs: `incrementProcessedCount` switches to FINISHING when the count,
   * which started at `from`, reaches the total.
   */
  function ProgressStatus(from: int, processed: int, total: int): Status {
    if from < total <= processed then Finishing else Processing
  }

  function LoopStart<R>(s: Screen, records: seq<R>): LoopState<R> {
    LoopState(records, s.currentManga, s.processedCount, s.migratedCount,
              s.alreadyMigrated, s.missingMangaId, s.missingChapterId, None)
  }

  function AfterLoop<R>(s: Screen, run: LoopState<R>): Screen {
    s.(status := ProgressStatus(s.processedCount, run.processed, s.totalDexItems),
       currentManga := run.currentManga,
       processedCount := run.processed,
       migratedCount := run.migrated,
       alreadyMigrated := run.alreadyMigrated,
       missingMangaId := run.missingMangaId,
       missingChapterId := run.missingChapterId)
  }

  /** FINISHING, the output file under the name `getModifiedOutputName(originalName!!)` gives as written, then IDLE. */
  function Finish(s: Screen, content: Content): Pass {
    var s := s.(status := Finishing);
    match s.originalName
    case None => Pass(s, Some(NullPointer))
    case Some(name) =>
      Pass(s.(migratedBackupFile := Some(OutputFile(ModifiedOutputNameAsWritten(name), content)), status := Idle), None)
  }

  /** `processProtoBackup`. */
  function ProtoPass(s: Screen, input: Option<Result<FB.Backup>>, dao: Dao, isUuid: string -> bool): Pass {
    var s := s.(status := Preparing);
    if input.None? then Pass(s, Some(IllegalState("try again plz")))
    else if input.value.Err? then Pass(s, Some(input.value.error))
    else
      var backup := input.value.value;
      var list := backup.backupManga;
      var s := s.(totalDexItems := MR.ProtoTotalDexManga(list), status := Processing);
      var run := RunUpTo(LoopStart(s, list), ProtoVisits(list, dao, isUuid), |list|, true);
      if run.failure.Some? then Pass(AfterLoop(s, run), run.failure)
      else
        Finish(AfterLoop(s, run), ProtoContent(backup.(backupManga := run.records,
                                                        backupSources := backup.backupSources + BrokenAsSources(backup.backupBrokenSources))))
  }

  /** `processJsonBackup`. */
  function JsonPass(s: Screen, input: Option<G.Root>, dao: Dao, isUuid: string -> bool): Pass {
    var s := s.(status := Preparing);
    if input.None? then Pass(s, Some(IllegalArgument("try again plz")))
    else if input.value.version.GetOr(1) != MJ.SupportedVersion then Pass(s, Some(IllegalArgument("Unknown backup version")))
    else if input.value.mangas.None? then Pass(s, Some(NullPointer))
    else
      var root := input.value;
      var list := root.mangas.value;
      var s := s.(totalDexItems := JsonTotalDexItems(list), status := Processing);
      var run := RunUpTo(LoopStart(s, list), JsonVisits(list, dao, isUuid), |list|, false);
      if run.failure.Some? then Pass(AfterLoop(s, run), run.failure)
      else Finish(AfterLoop(s, run), JsonContent(root.(mangas := Some(run.records))))
  }

  /** The fields `processBackup` clears once the display name is known. */
  function Reset(s: Screen): Screen {
    s.(currentManga := "", migratedBackupFile := None, processedCount := 0, migratedCount := 0,
       totalDexItems := 0, alreadyMigrated := [], missingMangaId := [], missingChapterId := [])
  }

  /** The `catch` of `processBackup`: any exception leaves no output file and the status IDLE. */
  function Caught(p: Pass): Screen {
    if p.thrown.Some? then p.screen.(migratedBackupFile := None, status := Idle) else p.screen
  }

  /** The `when` on the file name's extension, once the fields are cleared. */
  function Dispatch(s: Screen, name: string, upload: Upload, dao: Dao, isUuid: string -> bool): Pass {
    if EndsWith(name, ".proto.gz") then ProtoPass(s, upload.proto, dao, isUuid)
    else if EndsWith(name, ".json") then JsonPass(s, upload.json, dao, isUuid)
    else Pass(s, Some(IllegalArgument("Invalid file selected")))
  }

  /** The `try` block of `processBackup`. */
  function TryProcess(s: Screen, upload: Upload, dao: Dao, isUuid: string -> bool): Pass {
    var s := s.(originalName := upload.displayName);
    match upload.displayName
    case None => Pass(s, Some(IllegalState("try again plz")))
    case Some(name) => Dispatch(Reset(s), name, upload, dao, isUuid)
  }

  /** `processBackup(uri)`: nothing happens without a document. */
  function ProcessBackupSpec(s: Screen, uri: Option<Upload>, dao: Dao, isUuid: string -> bool): Screen {
    if uri.None? then s else Caught(TryProcess(s, uri.value, dao, isUuid))
  }

  /** One counted record: its entry in the list of kind k, or one more migration; one more processed. */
  function Tallied<R>(s: LoopState<R>, k: Kind, entry: string): LoopState<R> {
    var s := s.(processed := s.processed + 1);
    match k
    case AlreadyMigratedList => s.(alreadyMigrated := s.alreadyMigrated + [entry])
    case MissingMangaList => s.(missingMangaId := s.missingMangaId + [entry])
    case MissingChapterList => s.(missingChapterId := s.missingChapterId + [entry])
    case MigratedList => s.(migrated := s.migrated + 1)
  }

  class MigratorViewModel {
    var status: Status
    var currentManga: string
    var processedCount: int
    var migratedCount: int
    var totalDexItems: int
    var alreadyMigrated: seq<string>
    var missingMangaId: seq<string>
    var missingChapterId: seq<string>
    var originalName: Option<string>
    var migratedBackupFile: Option<OutputFile>

    constructor()
      ensures Snapshot() == Screen(Idle, "", 0, 0, 0, [], [], [], None, None)
    {
      status := Idle;
      currentManga := "";
      processedCount := 0;
      migratedCount := 0;
      totalDexItems := 0;
      alreadyMigrated := [];
      missingMangaId := [];
      missingChapterId := [];
      originalName := None;
      migratedBackupFile := None;
    }

    function Snapshot(): Screen
      reads this
    {
      Screen(status, currentManga, processedCount, migratedCount, totalDexItems,
             alreadyMigrated, missingMangaId, missingChapterId, originalName, migratedBackupFile)
    }

    /** The loop's view of the fields, with the working record list and the exception thrown. */
    function Progress<R>(records: seq<R>, failure: Option<Exception>): LoopState<R>
      reads this
    {
      LoopState(records, currentManga, processedCount, migratedCount,
                alreadyMigrated, missingMangaId, missingChapterId, failure)
    }

    /** `incrementProcessedCount()`. */
    method IncrementProcessedCount()
      modifies this
      ensures Snapshot() == old(Snapshot()).(
                processedCount := old(processedCount) + 1,
                status := if old(processedCount) + 1 == totalDexItems then Finishing else old(status))
    {
      processedCount := processedCount + 1;
      if processedCount == totalDexItems {
        status := Finishing;
      }
    }

    /** `processBackup(uri)`: exceptions of either pass are caught here. */
    method ProcessBackup(uri: Option<Upload>, dao: Dao, isUuid: string -> bool)
      modifies this
      ensures Snapshot() == ProcessBackupSpec(old(Snapshot()), uri, dao, isUuid)
    {
      if uri.None? {
        return;
      }
      var thrown := TryProcessBackup(uri.value, dao, isUuid);
      if thrown.Some? {
        migratedBackupFile := None;
        status := Idle;
      }
    }

    /** The `try` block of `processBackup`: returns the exception it throws. */
    method TryProcessBackup(upload: Upload, dao: Dao, isUuid: string -> bool) returns (thrown: Option<Exception>)
      modifies this
      ensures Pass(Snapshot(), thrown) == TryProcess(old(Snapshot()), upload, dao, isUuid)
    {
      originalName := upload.displayName;
      if originalName.None? {
        return Some(IllegalState("try again plz"));
      }
      var name := originalName.value;
      ClearProgress();
      thrown := ProcessFile(name, upload, dao, isUuid);
    }

    /** The fields `processBackup` clears before reading the file. */
    method ClearProgress()
      modifies this
      ensures Snapshot() == Reset(old(Snapshot()))
    {
      currentManga := "";
      migratedBackupFile := None;
      processedCount := 0;
      migratedCount := 0;
      totalDexItems := 0;
      alreadyMigrated := [];
      missingMangaId := [];
      missingChapterId := [];
    }

    /** The `when` on the extension of the file name. */
    method ProcessFile(name: string, upload: Upload, dao: Dao, isUuid: string -> bool) returns (thrown: Option<Exception>)
      modifies this
      ensures Pass(Snapshot(), thrown) == Dispatch(old(Snapshot()), name, upload, dao, isUuid)
    {
      if EndsWith(name, ".proto.gz") {
        thrown := ProcessProtoBackup(upload.proto, dao, isUuid);
      } else if EndsWith(name, ".json") {
        thrown := ProcessJsonBackup(upload.json, dao, isUuid);
      } else {
        thrown := Some(IllegalArgument("Invalid file selected"));
      }
    }

    /**
     * The rest of one iteration over a MangaDex record once its fate is known: the title shown,
     * the record replaced, the matching list and counter updated.
     */
    method Absorb<R>(records: seq<R>, i: nat, shown: bool, title: string, fate: Result<Fate<R>>, named: bool, ghost from: int)
      returns (records': seq<R>)
      requires i < |records|
      requires fate.Ok? ==> !fate.value.OtherSource?
      requires from <= processedCount && status == ProgressStatus(from, processedCount, totalDexItems)
      modifies this
      ensures Progress(records', if fate.Err? then Some(fate.error) else None)
              == Step(old(Progress(records, None)), i, Visit(shown, title, fate), named)
      ensures from <= processedCount && status == ProgressStatus(from, processedCount, totalDexItems)
      ensures totalDexItems == old(totalDexItems) && originalName == old(originalName)
      ensures migratedBackupFile == old(migratedBackupFile)
    {
      records' := records;
      if shown {
        currentManga := title;
      }
      if fate.Err? {
        return;
      }
      var f := fate.value;
      if f.Migrated? {
        records' := records[i := f.record];
      }
      if shown {
        if f.AlreadyMigrated? {
          Tally(AlreadyMigratedList, currentManga, records', from);
        } else if f.MissingManga? {
          Tally(MissingMangaList, currentManga, records', from);
        } else if f.MissingChapter? {
          Tally(MissingChapterList, MissingChapterEntry(currentManga, f.chapterName, named), records', from);
        } else {
          Tally(MigratedList, currentManga, records', from);
        }
      }
    }

    /** Appends the entry to the list of kind k, or counts a migration, then `incrementProcessedCount()`. */
    method Tally<R>(k: Kind, entry: string, ghost records: seq<R>, ghost from: int)
      requires from <= processedCount && status == ProgressStatus(from, processedCount, totalDexItems)
      modifies this
      ensures Progress(records, None) == Tallied(old(Progress(records, None)), k, entry)
      ensures from <= processedCount && status == ProgressStatus(from, processedCount, totalDexItems)
      ensures totalDexItems == old(totalDexItems) && originalName == old(originalName)
      ensures migratedBackupFile == old(migratedBackupFile)
    {
      match k {
        case AlreadyMigratedList => alreadyMigrated := alreadyMigrated + [entry];
        case MissingMangaList => missingMangaId := missingMangaId + [entry];
        case MissingChapterList => missingChapterId := missingChapterId + [entry];
        case MigratedList => migratedCount := migratedCount + 1;
      }
      IncrementProcessedCount();
    }

    /** FINISHING, then the output file under the modified name, then IDLE. */
    method WriteOutputFile(content: Content) returns (thrown: Option<Exception>)
      modifies this
      ensures Pass(Snapshot(), thrown) == Finish(old(Snapshot()), content)
    {
      status := Finishing;
      if originalName.None? {
        return Some(NullPointer);
      }
      migratedBackupFile := Some(OutputFile(ModifiedOutputNameAsWritten(originalName.value), content));
      status := Idle;
      return None;
    }

    /** One pass of the proto loop's body; a record from another source is passed over. */
    method MigrateProtoAt(records: seq<FB.BackupManga>, i: nat, dao: Dao, isUuid: string -> bool,
                          ghost list: seq<FB.BackupManga>, ghost visits: seq<Visit<FB.BackupManga>>, ghost from: int)
      returns (records': seq<FB.BackupManga>, failure: Option<Exception>)
      requires i < |records| == |list| == |visits| && records[i] == list[i]
      requires forall j {:trigger ProtoVisit(list[j], dao, isUuid)} :: 0 <= j < |list| ==> visits[j] == ProtoVisit(list[j], dao, isUuid)
      requires from <= processedCount && status == ProgressStatus(from, processedCount, totalDexItems)
      modifies this
      ensures Progress(records', failure) == Step(old(Progress(records, None)), i, visits[i], true)
      ensures from <= processedCount && status == ProgressStatus(from, processedCount, totalDexItems)
      ensures totalDexItems == old(totalDexItems) && originalName == old(originalName)
      ensures migratedBackupFile == old(migratedBackupFile)
    {
      var backupManga := records[i];
      assert visits[i] == ProtoVisit(list[i], dao, isUuid);
      if !IsMangaDex(backupManga.source) {
        return records, None;
      }
      var fate := MigrateProtoRecord(backupManga, dao, isUuid);
      records' := Absorb(records, i, backupManga.favorite, backupManga.title, fate, true, from);
      failure := if fate.Err? then Some(fate.error) else None;
    }

    /** One pass of the JSON loop's body; a record from another source is passed over. */
    method MigrateJsonAt(records: seq<G.Entry>, i: nat, dao: Dao, isUuid: string -> bool,
                          ghost list: seq<G.Entry>, ghost visits: seq<Visit<G.Entry>>, ghost from: int)
      returns (records': seq<G.Entry>, failure: Option<Exception>)
      requires i < |records| == |list| == |visits| && records[i] == list[i]
      requires forall j {:trigger JsonVisit(list[j], dao, isUuid)} :: 0 <= j < |list| ==> visits[j] == JsonVisit(list[j], dao, isUuid)
      requires from <= processedCount && status == ProgressStatus(from, processedCount, totalDexItems)
      modifies this
      ensures Progress(records', failure) == Step(old(Progress(records, None)), i, visits[i], false)
      ensures from <= processedCount && status == ProgressStatus(from, processedCount, totalDexItems)
      ensures totalDexItems == old(totalDexItems) && originalName == old(originalName)
      ensures migratedBackupFile == old(migratedBackupFile)
    {
      var entry := records[i];
      assert visits[i] == JsonVisit(list[i], dao, isUuid);
      if !IsMangaDex(entry.manga.source) {
        return records, None;
      }
      var fate := MigrateJsonEntry(entry, dao, isUuid);
      records' := Absorb(records, i, true, entry.manga.title, fate, false, from);
      failure := if fate.Err? then Some(fate.error) else None;
    }

    /** The proto `for` loop over `backupMangaList`. */
    method RunProtoLoop(list: seq<FB.BackupManga>, ghost visits: seq<Visit<FB.BackupManga>>, dao: Dao, isUuid: string -> bool)
      returns (records: seq<FB.BackupManga>, failure: Option<Exception>)
      requires |visits| == |list|
      requires forall j {:trigger ProtoVisit(list[j], dao, isUuid)} :: 0 <= j < |list| ==> visits[j] == ProtoVisit(list[j], dao, isUuid)
      requires status == Processing
      modifies this
      ensures Progress(records, failure) == RunUpTo(LoopStart(old(Snapshot()), list), visits, |list|, true)
      ensures status == ProgressStatus(old(processedCount), processedCount, totalDexItems)
      ensures totalDexItems == old(totalDexItems) && originalName == old(originalName)
      ensures migratedBackupFile == old(migratedBackupFile)
    {
      ghost var s0 := Snapshot();
      records := list;
      failure := None;
      var i := 0;
      while i < |records|
        invariant 0 <= i <= |records| == |list|
        invariant Progress(records, None) == RunUpTo(LoopStart(s0, list), visits, i, true)
        invariant forall j :: i <= j < |records| ==> records[j] == list[j]
        invariant s0.processedCount <= processedCount
        invariant status == ProgressStatus(s0.processedCount, processedCount, totalDexItems)
        invariant totalDexItems == s0.totalDexItems && originalName == s0.originalName
        invariant migratedBackupFile == s0.migratedBackupFile
      {
        var thrown;
        records, thrown := MigrateProtoAt(records, i, dao, isUuid, list, visits, s0.processedCount);
        if thrown.Some? {
          failure := thrown;
          RunStops(LoopStart(s0, list), visits, i + 1, |list|, true);
          return;
        }
        i := i + 1;
      }
    }

    /** The JSON `for` loop over `mangaArray`. */
    method RunJsonLoop(list: seq<G.Entry>, ghost visits: seq<Visit<G.Entry>>, dao: Dao, isUuid: string -> bool)
      returns (records: seq<G.Entry>, failure: Option<Exception>)
      requires |visits| == |list|
      requires forall j {:trigger JsonVisit(list[j], dao, isUuid)} :: 0 <= j < |list| ==> visits[j] == JsonVisit(list[j], dao, isUuid)
      requires status == Processing
      modifies this
      ensures Progress(records, failure) == RunUpTo(LoopStart(old(Snapshot()), list), visits, |list|, false)
      ensures status == ProgressStatus(old(processedCount), processedCount, totalDexItems)
      ensures totalDexItems == old(totalDexItems) && originalName == old(originalName)
      ensures migratedBackupFile == old(migratedBackupFile)
    {
      ghost var s0 := Snapshot();
      records := list;
      failure := None;
      var i := 0;
      while i < |records|
        invariant 0 <= i <= |records| == |list|
        invariant Progress(records, None) == RunUpTo(LoopStart(s0, list), visits, i, false)
        invariant forall j :: i <= j < |records| ==> records[j] == list[j]
        invariant s0.processedCount <= processedCount
        invariant status == ProgressStatus(s0.processedCount, processedCount, totalDexItems)
        invariant totalDexItems == s0.totalDexItems && originalName == s0.originalName
        invariant migratedBackupFile == s0.migratedBackupFile
      {
        var thrown;
        records, thrown := MigrateJsonAt(records, i, dao, isUuid, list, visits, s0.processedCount);
        if thrown.Some? {
          failure := thrown;
          RunStops(LoopStart(s0, list), visits, i + 1, |list|, false);
          return;
        }
        i := i + 1;
      }
    }

    /** `processProtoBackup(uri)`: returns the exception it throws. */
    method ProcessProtoBackup(input: Option<Result<FB.Backup>>, dao: Dao, isUuid: string -> bool)
      returns (thrown: Option<Exception>)
      modifies this
      ensures Pass(Snapshot(), thrown) == ProtoPass(old(Snapshot()), input, dao, isUuid)
    {
      status := Preparing;
      if input.None? {
        return Some(IllegalState("try again plz"));
      }
      if input.value.Err? {
        return Some(input.value.error);
      }
      var backup := input.value.value;
      var backupSourceList := backup.backupSources + BrokenAsSources(backup.backupBrokenSources);
      totalDexItems := MR.ProtoTotalDexManga(backup.backupManga);
      status := Processing;
      var backupMangaList, failure := RunProtoLoop(backup.backupManga, ProtoVisits(backup.backupManga, dao, isUuid), dao, isUuid);
      if failure.Some? {
        return failure;
      }
      thrown := WriteOutputFile(ProtoContent(backup.(backupManga := backupMangaList, backupSources := backupSourceList)));
    }

    /** `processJsonBackup(uri)`: returns the exception it throws. */
    method ProcessJsonBackup(input: Option<G.Root>, dao: Dao, isUuid: string -> bool)
      returns (thrown: Option<Exception>)
      modifies this
      ensures Pass(Snapshot(), thrown) == JsonPass(old(Snapshot()), input, dao, isUuid)
    {
      status := Preparing;
      if input.None? {
        return Some(IllegalArgument("try again plz"));
      }
      var root := input.value;
      if root.version.GetOr(1) != MJ.SupportedVersion {
        return Some(IllegalArgument("Unknown backup version"));
      }
      if root.mangas.None? {
        return Some(NullPointer);
      }
      totalDexItems := JsonTotalDexItems(root.mangas.value);
      status := Processing;
      var mangaArray, failure := RunJsonLoop(root.mangas.value, JsonVisits(root.mangas.value, dao, isUuid), dao, isUuid);
      if failure.Some? {
        return failure;
      }
      thrown := WriteOutputFile(JsonContent(root.(mangas := Some(mangaArray))));
    }
  }
}
