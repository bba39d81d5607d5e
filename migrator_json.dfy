/**
 * `processJsonBackup` of the common engine: the version check, the collect pass over the legacy
 * backup's manga list, the two lookups, and the rewrite pass that stores migrated records through
 * `copyWith`. Unlike the proto engine, every record's `data` view is read first (and may throw),
 * every MangaDex record is listed whether it is a favourite or not, and a missing chapter is
 * listed by its title alone.
 */
module MigratorJson {
  import opened Wrappers
  import opened KotlinText
  import opened SourceIds
  import opened IdMaps
  import opened MigratorSteps
  import opened MigrationResult
  import opened Folds
  import LB = LegacyBackup

  const SupportedVersion: Int32 := 2

  function ChapterUrls(cs: seq<LB.MangaChapter>): (r: seq<string>)
    ensures |r| == |cs| && forall i :: 0 <= i < |cs| ==> r[i] == cs[i].url
  {
    seq(|cs|, i requires 0 <= i < |cs| => cs[i].url)
  }

  function WithChapterUrls(cs: seq<LB.MangaChapter>, urls: seq<string>): (r: seq<LB.MangaChapter>)
    requires |urls| == |cs|
    ensures |r| == |cs| && forall i :: 0 <= i < |cs| ==> r[i] == cs[i].(url := urls[i])
  {
    seq(|cs|, i requires 0 <= i < |cs| => cs[i].(url := urls[i]))
  }

  function HistoryViewUrls(hs: seq<LB.MangaHistory>): (r: seq<string>)
    ensures |r| == |hs| && forall i :: 0 <= i < |hs| ==> r[i] == hs[i].url
  {
    seq(|hs|, i requires 0 <= i < |hs| => hs[i].url)
  }

  function WithHistoryViewUrls(hs: seq<LB.MangaHistory>, urls: seq<string>): (r: seq<LB.MangaHistory>)
    requires |urls| == |hs|
    ensures |r| == |hs| && forall i :: 0 <= i < |hs| ==> r[i] == hs[i].(url := urls[i])
  {
    seq(|hs|, i requires 0 <= i < |hs| => hs[i].(url := urls[i]))
  }

  /** The URLs of the `history` view, which throws when one `_history` array cannot be read. */
  function HistoryUrlsOf(m: LB.Manga): (r: Result<seq<string>>)
    ensures r.Ok? <==> LB.History(m).Ok?
    ensures r.Ok? ==> r.value == HistoryViewUrls(LB.History(m).value)
  {
    var hs :- LB.History(m);
    Ok(HistoryViewUrls(hs))
  }

  /** The outcome was computed for this record. */
  predicate FitsRecord(m: LB.Manga, o: Outcome) {
    Fits(o, |m.chapters|, HistoryUrlsOf(m))
  }

  /**
   * The record the rewrite pass stores for a record whose `data` view read d: for a migrated record,
   * `copyWith(newData = d with the new url, newChapters = the rewritten chapters, newHistory = the
   * rewritten history)`, which cannot throw because both views are passed; any other stays as it was.
   */
  function Apply(m: LB.Manga, d: LB.MangaData, o: Outcome): LB.Manga
    requires FitsRecord(m, o)
  {
    if o.Migrated? then
      var hs := WithHistoryViewUrls(LB.History(m).value, o.historyUrls);
      var cs := WithChapterUrls(m.chapters, o.chapterUrls);
      LB.CopyWith(m, Some(d.(url := o.url)), Some(cs), None, Some(hs)).value
    else m
  }

  /**
   * A migrated record reads back with the new manga URL and otherwise the same `data` view, its
   * chapters and history carry the outcome's URLs with everything else kept, and its tracks are
   * untouched. Any other outcome keeps the record exactly.
   */
  lemma ApplyKeeps(m: LB.Manga, d: LB.MangaData, o: Outcome)
    requires LB.Data(m) == Ok(d) && FitsRecord(m, o)
    ensures var r := Apply(m, d, o);
            && LB.Data(r).Ok?
            && LB.Data(r).value.title == d.title && LB.Data(r).value.source == d.source
            && LB.Data(r).value.viewerFlags == d.viewerFlags && LB.Data(r).value.chapterFlags == d.chapterFlags
            && r.track == m.track && |r.chapters| == |m.chapters|
            && (forall i :: 0 <= i < |m.chapters| ==>
                  && r.chapters[i].read == m.chapters[i].read && r.chapters[i].bookmark == m.chapters[i].bookmark
                  && r.chapters[i].lastRead == m.chapters[i].lastRead)
            && (o.Migrated? ==>
                  && LB.Data(r).value.url == o.url
                  && ChapterUrls(r.chapters) == o.chapterUrls
                  && LB.History(r).Ok? && |LB.History(r).value| == |LB.History(m).value|
                  && HistoryViewUrls(LB.History(r).value) == o.historyUrls
                  && (forall i :: 0 <= i < |LB.History(m).value| ==>
                        LB.History(r).value[i].lastRead == LB.History(m).value[i].lastRead))
            && (!o.Migrated? ==> r == m)
  {
    if o.Migrated? {
      var hs := WithHistoryViewUrls(LB.History(m).value, o.historyUrls);
      var cs := WithChapterUrls(m.chapters, o.chapterUrls);
      LB.CopyWithRoundTrip(m, d.(url := o.url), Some(cs), None, hs);
    }
  }

  // ---------------------------------------------------------------- collect pass

  /** One iteration of the collect loop: `data` is read first, and records of other sources are skipped. */
  function CollectStep(m: LB.Manga, maps: (IdMap, IdMap), isUuid: string -> bool): Result<(IdMap, IdMap)> {
    var d :- LB.Data(m);
    if !IsMangaDex(d.source) then Ok(maps)
    else CollectRecord(d.url, ChapterUrls(m.chapters), HistoryUrlsOf(m), maps.0, maps.1, isUuid)
  }

  /** The collect pass over the first records, starting from two empty maps. */
  function Collect(list: seq<LB.Manga>, isUuid: string -> bool): Result<(IdMap, IdMap)>
    decreases |list|
  {
    if list == [] then Ok((Empty, Empty))
    else
      var maps :- Collect(list[..|list| - 1], isUuid);
      CollectStep(list[|list| - 1], maps, isUuid)
  }

  /** A record the collect pass gets past, given its `data` view. */
  predicate CollectableView(m: LB.Manga, view: Result<LB.MangaData>, isUuid: string -> bool) {
    && view.Ok?
    && (!IsMangaDex(view.value.source) ||
        Collectable(view.value.url, ChapterUrls(m.chapters), HistoryUrlsOf(m), isUuid))
  }

  predicate CollectableRecord(m: LB.Manga, isUuid: string -> bool) {
    CollectableView(m, LB.Data(m), isUuid)
  }

  /** The legacy manga ID a record contributes to the manga map. */
  function JsonMangaKeys(m: LB.Manga, isUuid: string -> bool): set<Int32> {
    if LB.Data(m).Ok? && IsMangaDex(LB.Data(m).value.source) then RecordMangaKeys(LB.Data(m).value.url, isUuid) else {}
  }

  /** The legacy chapter IDs a record contributes to the chapter map. */
  function JsonChapterKeys(m: LB.Manga, isUuid: string -> bool): set<Int32> {
    if LB.Data(m).Ok? && IsMangaDex(LB.Data(m).value.source)
    then RecordChapterKeys(LB.Data(m).value.url, ChapterUrls(m.chapters), HistoryUrlsOf(m), isUuid)
    else {}
  }

  function MangaKeysOf(list: seq<LB.Manga>, isUuid: string -> bool): set<Int32> {
    UnionOf(list, JsonMangaKeys, isUuid)
  }

  function ChapterKeysOf(list: seq<LB.Manga>, isUuid: string -> bool): set<Int32> {
    UnionOf(list, JsonChapterKeys, isUuid)
  }

  lemma MangaKeysOfMember(list: seq<LB.Manga>, isUuid: string -> bool, k: Int32)
    ensures k in MangaKeysOf(list, isUuid) <==> exists i :: 0 <= i < |list| && k in JsonMangaKeys(list[i], isUuid)
  {
    UnionOfMember(list, JsonMangaKeys, isUuid, k);
  }

  lemma ChapterKeysOfMember(list: seq<LB.Manga>, isUuid: string -> bool, k: Int32)
    ensures k in ChapterKeysOf(list, isUuid) <==> exists i :: 0 <= i < |list| && k in JsonChapterKeys(list[i], isUuid)
  {
    UnionOfMember(list, JsonChapterKeys, isUuid, k);
  }

  /**
   * A record contributes the segment-3 integer of each chapter and history URL not yet migrated, when
   * its `data` names a MangaDex source and its URL's segment 2 is no UUID.
   */
  lemma JsonChapterKey(m: LB.Manga, isUuid: string -> bool, k: Int32)
    requires LB.Data(m).Ok? && LB.History(m).Ok?
    ensures var d := LB.Data(m).value;
            var hs := LB.History(m).value;
            k in JsonChapterKeys(m, isUuid) <==>
              && IsMangaDex(d.source) && Segment(d.url, 2).Ok? && !isUuid(Segment(d.url, 2).value)
              && ((exists j :: 0 <= j < |m.chapters| && !IsMigratedChapterUrl(m.chapters[j].url) && LegacyChapterId(m.chapters[j].url) == Ok(k))
                  || (exists j :: 0 <= j < |hs| && !IsMigratedChapterUrl(hs[j].url) && LegacyChapterId(hs[j].url) == Ok(k)))
  {
    UrlKeysMember(ChapterUrls(m.chapters), k);
    UrlKeysMember(HistoryViewUrls(LB.History(m).value), k);
  }

  /** One collect step on valid, value-free maps: it fails exactly when the record is not collectable, else adds the record's keys. */
  lemma CollectStepSpec(m: LB.Manga, maps: (IdMap, IdMap), isUuid: string -> bool)
    requires Valid(maps.0) && Valid(maps.1) && maps.0.ids == map[] && maps.1.ids == map[]
    ensures CollectStep(m, maps, isUuid).Ok? <==> CollectableRecord(m, isUuid)
    ensures CollectStep(m, maps, isUuid).Ok? ==>
              var (mangaIds, chapterIds) := CollectStep(m, maps, isUuid).value;
              && Keys(mangaIds) == Keys(maps.0) + JsonMangaKeys(m, isUuid)
              && Keys(chapterIds) == Keys(maps.1) + JsonChapterKeys(m, isUuid)
              && Valid(mangaIds) && Valid(chapterIds) && mangaIds.ids == map[] && chapterIds.ids == map[]
  {
    if LB.Data(m).Ok? && IsMangaDex(LB.Data(m).value.source) {
      CollectRecordSpec(LB.Data(m).value.url, ChapterUrls(m.chapters), HistoryUrlsOf(m), maps.0, maps.1, isUuid);
    }
  }

  lemma {:induction false} CollectAll(list: seq<LB.Manga>, isUuid: string -> bool)
    ensures Collect(list, isUuid).Ok? <==> AllWith(list, CollectableRecord, isUuid)
    ensures Collect(list, isUuid).Ok? ==>
              var (mangaIds, chapterIds) := Collect(list, isUuid).value;
              && Keys(mangaIds) == MangaKeysOf(list, isUuid) && Keys(chapterIds) == ChapterKeysOf(list, isUuid)
              && Valid(mangaIds) && Valid(chapterIds) && mangaIds.ids == map[] && chapterIds.ids == map[]
    decreases |list|
  {
    if list != [] {
      var n := |list| - 1;
      CollectAll(list[..n], isUuid);
      var before := Collect(list[..n], isUuid);
      if before.Ok? {
        CollectStepSpec(list[n], before.value, isUuid);
      }
    } else {
      assert Keys(Empty) == {};
    }
  }

  /**
   * The collect pass fails exactly when a record's `data` view cannot be read, or a MangaDex record
   * has an unreadable legacy ID or `history` view; otherwise it yields two valid maps whose keys are
   * the manga and chapter keys of the list, all mapped to null.
   */
  lemma CollectSpec(list: seq<LB.Manga>, isUuid: string -> bool)
    ensures Collect(list, isUuid).Ok? <==> forall i :: 0 <= i < |list| ==> CollectableRecord(list[i], isUuid)
    ensures Collect(list, isUuid).Ok? ==>
              var (mangaIds, chapterIds) := Collect(list, isUuid).value;
              && Keys(mangaIds) == MangaKeysOf(list, isUuid) && Keys(chapterIds) == ChapterKeysOf(list, isUuid)
              && Valid(mangaIds) && Valid(chapterIds) && mangaIds.ids == map[] && chapterIds.ids == map[]
  {
    CollectAll(list, isUuid);
    AllWithEach(list, CollectableRecord, isUuid);
  }

  /** The collect loop of `processJsonBackup`. */
  method CollectIds(list: seq<LB.Manga>, isUuid: string -> bool) returns (r: Result<(IdMap, IdMap)>)
    ensures r == Collect(list, isUuid)
  {
    var mangaIdMap := Empty;
    var chapterIdMap := Empty;
    var i := 0;
    while i < |list|
      invariant 0 <= i <= |list|
      invariant Collect(list[..i], isUuid) == Ok((mangaIdMap, chapterIdMap))
    {
      assert list[..i + 1][..i] == list[..i];
      var backupManga := list[i];
      var data := LB.Data(backupManga);
      if data.Err? {
        CollectFailureStops(list, i + 1, isUuid);
        assert list[..|list|] == list;
        return Err(data.error);
      }
      if IsMangaDex(data.value.source) {
        var maps := CollectRecordIds(
          data.value.url, ChapterUrls(backupManga.chapters), HistoryUrlsOf(backupManga),
          mangaIdMap, chapterIdMap, isUuid);
        if maps.Err? {
          CollectFailureStops(list, i + 1, isUuid);
          assert list[..|list|] == list;
          return Err(maps.error);
        }
        mangaIdMap, chapterIdMap := maps.value.0, maps.value.1;
      }
      i := i + 1;
    }
    assert list[..i] == list;
    return Ok((mangaIdMap, chapterIdMap));
  }

  /** Once the collect pass throws, the rest of the list cannot undo it. */
  lemma {:induction false} CollectFailureStops(list: seq<LB.Manga>, j: nat, isUuid: string -> bool)
    requires j <= |list| && Collect(list[..j], isUuid).Err?
    ensures Collect(list, isUuid) == Collect(list[..j], isUuid)
    decreases |list| - j
  {
    if j < |list| {
      assert list[..j + 1][..j] == list[..j];
      CollectFailureStops(list, j + 1, isUuid);
    } else {
      assert list[..j] == list;
    }
  }

  // ---------------------------------------------------------------- rewrite pass

  /** A record the rewrite loop got past: the `data` view it read, and its outcome (None for another source). */
  datatype Handled = Handled(data: LB.MangaData, outcome: Option<Outcome>)

  /**
   * The state of the rewrite loop after the first records: the whole list as stored so far, the
   * chapter map, each record handled, and the three lists of titles.
   */
  datatype Pass = Pass(
    records: seq<LB.Manga>,
    chapterIds: IdMap,
    handled: seq<Handled>,
    alreadyMigrated: seq<string>,
    missingMangaId: seq<string>,
    missingChapterId: seq<string>)

  /** What the method reports: the rewritten list and the three lists of titles. */
  datatype Report = Report(
    records: seq<LB.Manga>,
    alreadyMigrated: seq<string>,
    missingMangaId: seq<string>,
    missingChapterId: seq<string>)

  function ReportOf(p: Result<Pass>): Result<Report> {
    var pass :- p;
    Ok(Report(pass.records, pass.alreadyMigrated, pass.missingMangaId, pass.missingChapterId))
  }

  /** The title's entry, when the condition holds; every MangaDex record is listed, favourite or not. */
  function Listed(d: LB.MangaData, condition: bool): seq<string> {
    if condition then [d.title] else []
  }

  /** The bookkeeping of iteration i once record i's view d and outcome o are known. */
  function Advance(list: seq<LB.Manga>, i: nat, p: Pass, d: LB.MangaData, o: Outcome, chapterIds: IdMap): (r: Pass)
    requires i < |list| == |p.records| && FitsRecord(list[i], o)
    ensures |r.records| == |list| && |r.handled| == |p.handled| + 1
  {
    Pass(
      if o.Migrated? then p.records[i := Apply(list[i], d, o)] else p.records,
      chapterIds,
      p.handled + [Handled(d, Some(o))],
      p.alreadyMigrated + Listed(d, o.AlreadyMigrated?),
      p.missingMangaId + Listed(d, o.MissingManga?),
      p.missingChapterId + Listed(d, o.MissingChapter?))
  }

  /** Iteration i of the rewrite loop: `data` is read first; only a migrated record is stored back. */
  function RewriteStep(list: seq<LB.Manga>, views: seq<Result<LB.MangaData>>, i: nat, mangaIds: IdMap, p: Pass, isUuid: string -> bool): (r: Result<Pass>)
    requires i < |list| == |p.records| && |views| == |list|
    ensures r.Ok? ==> |r.value.records| == |list| && |r.value.handled| == |p.handled| + 1
  {
    var m := list[i];
    var d :- views[i];
    if !IsMangaDex(d.source) then Ok(p.(handled := p.handled + [Handled(d, None)]))
    else
      var (o, chapterIds) :- RewriteRecord(d.url, ChapterUrls(m.chapters), HistoryUrlsOf(m), mangaIds, p.chapterIds, isUuid);
      Ok(Advance(list, i, p, d, o, chapterIds))
  }

  /** The rewrite loop after its first n iterations, record i's `data` view being views[i]. */
  function RewriteUpTo(list: seq<LB.Manga>, views: seq<Result<LB.MangaData>>, n: nat, mangaIds: IdMap, chapterIds: IdMap, isUuid: string -> bool): (r: Result<Pass>)
    requires n <= |list| == |views|
    ensures r.Ok? ==> |r.value.records| == |list| && |r.value.handled| == n
    decreases n
  {
    if n == 0 then Ok(Pass(list, chapterIds, [], [], [], []))
    else
      var p :- RewriteUpTo(list, views, n - 1, mangaIds, chapterIds, isUuid);
      RewriteStep(list, views, n - 1, mangaIds, p, isUuid)
  }

  function Rewrite(list: seq<LB.Manga>, mangaIds: IdMap, chapterIds: IdMap, isUuid: string -> bool): Result<Pass> {
    RewriteUpTo(list, LB.DataViews(list), |list|, mangaIds, chapterIds, isUuid)
  }

  /** The rewrite loop of `processJsonBackup`; `backupMangaList[i]` is replaced in place. */
  method RewriteRecords(list: seq<LB.Manga>, mangaIds: IdMap, chapterIds: IdMap, isUuid: string -> bool)
    returns (r: Result<Report>)
    ensures r == ReportOf(Rewrite(list, mangaIds, chapterIds, isUuid))
  {
    ghost var views := LB.DataViews(list);
    var backupMangaList := list;
    var chapterIdMap := chapterIds;
    var alreadyMigrated: seq<string> := [];
    var missingMangaId: seq<string> := [];
    var missingChapterId: seq<string> := [];
    ghost var handled: seq<Handled> := [];
    var i := 0;
    while i < |list|
      invariant 0 <= i <= |list|
      invariant RewriteUpTo(list, views, i, mangaIds, chapterIds, isUuid) ==
                  Ok(Pass(backupMangaList, chapterIdMap, handled, alreadyMigrated, missingMangaId, missingChapterId))
    {
      ghost var before := Pass(backupMangaList, chapterIdMap, handled, alreadyMigrated, missingMangaId, missingChapterId);
      assert RewriteUpTo(list, views, i + 1, mangaIds, chapterIds, isUuid) == RewriteStep(list, views, i, mangaIds, before, isUuid);
      var backupManga := list[i];
      var backupMangaData := LB.Data(backupManga);
      assert backupMangaData == views[i];
      if backupMangaData.Err? {
        RewriteFailureStops(list, views, mangaIds, chapterIds, isUuid, i + 1, |list|);
        return Err(backupMangaData.error);
      }
      var data := backupMangaData.value;
      if !IsMangaDex(data.source) {
        handled := handled + [Handled(data, None)];
      } else {
        var step := RewriteRecordUrls(
          data.url, ChapterUrls(backupManga.chapters), HistoryUrlsOf(backupManga),
          mangaIds, chapterIdMap, isUuid);
        if step.Err? {
          RewriteFailureStops(list, views, mangaIds, chapterIds, isUuid, i + 1, |list|);
          return Err(step.error);
        }
        var (o, afterRecord) := step.value;
        if o.AlreadyMigrated? {
          alreadyMigrated := alreadyMigrated + [data.title];
        } else if o.MissingManga? {
          missingMangaId := missingMangaId + [data.title];
        } else if o.MissingChapter? {
          // missing chapter is unlikely to happen but just in case
          missingChapterId := missingChapterId + [data.title];
        } else {
          backupMangaList := backupMangaList[i := Apply(backupManga, data, o)];
        }
        chapterIdMap := afterRecord;
        handled := handled + [Handled(data, Some(o))];
        assert alreadyMigrated == before.alreadyMigrated + Listed(data, o.AlreadyMigrated?);
        assert missingMangaId == before.missingMangaId + Listed(data, o.MissingManga?);
        assert missingChapterId == before.missingChapterId + Listed(data, o.MissingChapter?);
        assert backupMangaList == if o.Migrated? then before.records[i := Apply(backupManga, data, o)] else before.records;
      }
      i := i + 1;
    }
    return Ok(Report(backupMangaList, alreadyMigrated, missingMangaId, missingChapterId));
  }

  /** Once the rewrite loop throws, the later iterations cannot undo it. */
  lemma {:induction false} RewriteFailureStops(
    list: seq<LB.Manga>, views: seq<Result<LB.MangaData>>, mangaIds: IdMap, chapterIds: IdMap, isUuid: string -> bool, j: nat, n: nat)
    requires j <= n <= |list| == |views| && RewriteUpTo(list, views, j, mangaIds, chapterIds, isUuid).Err?
    ensures RewriteUpTo(list, views, n, mangaIds, chapterIds, isUuid) == RewriteUpTo(list, views, j, mangaIds, chapterIds, isUuid)
    decreases n
  {
    if j < n {
      RewriteFailureStops(list, views, mangaIds, chapterIds, isUuid, j, n - 1);
    }
  }

  // ---------------------------------------------------------------- what the rewrite pass leaves behind

  /** An earlier stage of the loop is a prefix of a later one: it handled the same first records and did not fail. */
  lemma {:induction false} RewritePrefix(
    list: seq<LB.Manga>, views: seq<Result<LB.MangaData>>, mangaIds: IdMap, chapterIds: IdMap, isUuid: string -> bool, i: nat, n: nat)
    requires i <= n <= |list| == |views| && RewriteUpTo(list, views, n, mangaIds, chapterIds, isUuid).Ok?
    ensures RewriteUpTo(list, views, i, mangaIds, chapterIds, isUuid).Ok?
    ensures RewriteUpTo(list, views, i, mangaIds, chapterIds, isUuid).value.handled ==
              RewriteUpTo(list, views, n, mangaIds, chapterIds, isUuid).value.handled[..i]
    decreases n
  {
    if i < n {
      var before := RewriteUpTo(list, views, n - 1, mangaIds, chapterIds, isUuid);
      RewritePrefix(list, views, mangaIds, chapterIds, isUuid, i, n - 1);
      StepExtends(list, views, n - 1, mangaIds, before.value, isUuid);
      var after := RewriteUpTo(list, views, n, mangaIds, chapterIds, isUuid).value;
      assert after.handled[..i] == after.handled[..n - 1][..i];
    } else {
      assert RewriteUpTo(list, views, n, mangaIds, chapterIds, isUuid).value.handled[..n] ==
               RewriteUpTo(list, views, n, mangaIds, chapterIds, isUuid).value.handled;
    }
  }

  /** One iteration appends one handled record and keeps the earlier ones. */
  lemma StepExtends(list: seq<LB.Manga>, views: seq<Result<LB.MangaData>>, i: nat, mangaIds: IdMap, p: Pass, isUuid: string -> bool)
    requires i < |list| == |p.records| && |views| == |list|
    ensures var r := RewriteStep(list, views, i, mangaIds, p, isUuid);
            r.Ok? ==> r.value.handled[..|p.handled|] == p.handled
  {
  }

  /**
   * The outcome of record i is the one-record rewrite of its `data` view with the chapter map as the
   * loop left it before i.
   */
  lemma RewriteOutcome(
    list: seq<LB.Manga>, views: seq<Result<LB.MangaData>>, mangaIds: IdMap, chapterIds: IdMap, isUuid: string -> bool, i: nat, n: nat)
    requires i < n <= |list| == |views| && RewriteUpTo(list, views, n, mangaIds, chapterIds, isUuid).Ok?
    ensures RewriteUpTo(list, views, i, mangaIds, chapterIds, isUuid).Ok?
    ensures var h := RewriteUpTo(list, views, n, mangaIds, chapterIds, isUuid).value.handled[i];
            var m := list[i];
            var before := RewriteUpTo(list, views, i, mangaIds, chapterIds, isUuid).value.chapterIds;
            && views[i] == Ok(h.data)
            && (h.outcome.None? <==> !IsMangaDex(h.data.source))
            && (h.outcome.Some? ==>
                  && RewriteRecord(h.data.url, ChapterUrls(m.chapters), HistoryUrlsOf(m), mangaIds, before, isUuid).Ok?
                  && h.outcome.value == RewriteRecord(h.data.url, ChapterUrls(m.chapters), HistoryUrlsOf(m), mangaIds, before, isUuid).value.0)
  {
    RewritePrefix(list, views, mangaIds, chapterIds, isUuid, i + 1, n);
    RewritePrefix(list, views, mangaIds, chapterIds, isUuid, i, i + 1);
    var next := RewriteUpTo(list, views, i + 1, mangaIds, chapterIds, isUuid).value;
    assert RewriteUpTo(list, views, n, mangaIds, chapterIds, isUuid).value.handled[i] == next.handled[i];
  }

  /** Each handled record's view is the one read for it. */
  predicate ViewsRead(views: seq<Result<LB.MangaData>>, handled: seq<Handled>)
    requires |handled| <= |views|
    decreases |handled|
  {
    if handled == [] then true
    else
      var k := |handled| - 1;
      ViewsRead(views, handled[..k]) && views[k] == Ok(handled[k].data)
  }

  /** Each outcome fits its record. */
  predicate OutcomesFit(list: seq<LB.Manga>, handled: seq<Handled>)
    requires |handled| <= |list|
    decreases |handled|
  {
    if handled == [] then true
    else
      var k := |handled| - 1;
      OutcomesFit(list, handled[..k]) && (handled[k].outcome.Some? ==> FitsRecord(list[k], handled[k].outcome.value))
  }

  /** Exactly the records whose view names an allowed source have an outcome. */
  predicate HandledExactly(handled: seq<Handled>)
    decreases |handled|
  {
    if handled == [] then true
    else
      var k := |handled| - 1;
      HandledExactly(handled[..k]) && (handled[k].outcome.None? <==> !IsMangaDex(handled[k].data.source))
  }

  function ApplyHandled(m: LB.Manga, h: Handled): LB.Manga
    requires h.outcome.Some? ==> FitsRecord(m, h.outcome.value)
  {
    if h.outcome.Some? then Apply(m, h.data, h.outcome.value) else m
  }

  /** The list with each handled record replaced by what the rewrite stores for it. */
  function Applied(list: seq<LB.Manga>, handled: seq<Handled>): (r: seq<LB.Manga>)
    requires |handled| <= |list| && OutcomesFit(list, handled)
    ensures |r| == |list|
    decreases |handled|
  {
    if handled == [] then list
    else
      var k := |handled| - 1;
      Applied(list, handled[..k])[k := ApplyHandled(list[k], handled[k])]
  }

  /** The titles of the records whose outcome lands in the given list, in list order. */
  function Entries(handled: seq<Handled>, listing: Listing): seq<string>
    decreases |handled|
  {
    if handled == [] then []
    else
      var k := |handled| - 1;
      var o := handled[k].outcome;
      Entries(handled[..k], listing) + (if o.Some? && ListingOf(o.value) == listing then [handled[k].data.title] else [])
  }

  /** How many records were migrated. */
  function MigratedCount(handled: seq<Handled>): nat
    decreases |handled|
  {
    if handled == [] then 0
    else
      var k := |handled| - 1;
      var o := handled[k].outcome;
      MigratedCount(handled[..k]) + (if o.Some? && o.value.Migrated? then 1 else 0)
  }

  /** The state of the loop is what the handled records make of the list. */
  predicate Reported(list: seq<LB.Manga>, views: seq<Result<LB.MangaData>>, p: Pass) {
    && |p.records| == |list| == |views| && |p.handled| <= |list|
    && ViewsRead(views, p.handled)
    && OutcomesFit(list, p.handled)
    && HandledExactly(p.handled)
    && p.records == Applied(list, p.handled)
    && p.alreadyMigrated == Entries(p.handled, InAlreadyMigrated)
    && p.missingMangaId == Entries(p.handled, InMissingMangaId)
    && p.missingChapterId == Entries(p.handled, InMissingChapterId)
  }

  /** Handling one more record extends each recursive summary by that record. */
  lemma HandledNext(list: seq<LB.Manga>, views: seq<Result<LB.MangaData>>, handled: seq<Handled>, h: Handled)
    requires |handled| < |list| == |views| && OutcomesFit(list, handled)
    requires h.outcome.Some? ==> FitsRecord(list[|handled|], h.outcome.value)
    ensures var q := handled + [h];
            && q[..|handled|] == handled
            && (ViewsRead(views, q) <==> ViewsRead(views, handled) && views[|handled|] == Ok(h.data))
            && OutcomesFit(list, q)
            && (HandledExactly(q) <==> HandledExactly(handled) && (h.outcome.None? <==> !IsMangaDex(h.data.source)))
            && Applied(list, q) == Applied(list, handled)[|handled| := ApplyHandled(list[|handled|], h)]
  {
    assert (handled + [h])[..|handled|] == handled;
  }

  lemma EntriesNext(handled: seq<Handled>, h: Handled, listing: Listing)
    ensures Entries(handled + [h], listing) ==
              Entries(handled, listing) + (if h.outcome.Some? && ListingOf(h.outcome.value) == listing then [h.data.title] else [])
  {
    assert (handled + [h])[..|handled|] == handled;
  }

  lemma AdvanceReported(list: seq<LB.Manga>, views: seq<Result<LB.MangaData>>, i: nat, p: Pass, d: LB.MangaData, o: Outcome, chapterIds: IdMap)
    requires i < |list| && Reported(list, views, p) && |p.handled| == i
    requires views[i] == Ok(d) && IsMangaDex(d.source) && FitsRecord(list[i], o)
    ensures Reported(list, views, Advance(list, i, p, d, o, chapterIds))
  {
    var h := Handled(d, Some(o));
    HandledNext(list, views, p.handled, h);
    EntriesNext(p.handled, h, InAlreadyMigrated);
    EntriesNext(p.handled, h, InMissingMangaId);
    EntriesNext(p.handled, h, InMissingChapterId);
    if !o.Migrated? {
      AppliedUnchangedAt(list, p.handled);
    }
  }

  lemma SkipReported(list: seq<LB.Manga>, views: seq<Result<LB.MangaData>>, i: nat, p: Pass, d: LB.MangaData)
    requires i < |list| && Reported(list, views, p) && |p.handled| == i
    requires views[i] == Ok(d) && !IsMangaDex(d.source)
    ensures Reported(list, views, p.(handled := p.handled + [Handled(d, None)]))
  {
    var h := Handled(d, None);
    HandledNext(list, views, p.handled, h);
    EntriesNext(p.handled, h, InAlreadyMigrated);
    EntriesNext(p.handled, h, InMissingMangaId);
    EntriesNext(p.handled, h, InMissingChapterId);
    AppliedUnchangedAt(list, p.handled);
  }

  /** Only handled records are replaced; the rest are still the input's. */
  lemma {:induction false} AppliedAt(list: seq<LB.Manga>, handled: seq<Handled>)
    requires |handled| <= |list| && OutcomesFit(list, handled)
    ensures forall i :: |handled| <= i < |list| ==> Applied(list, handled)[i] == list[i]
    decreases |handled|
  {
    if handled != [] {
      AppliedAt(list, handled[..|handled| - 1]);
    }
  }

  /** Storing the input's record at the next position changes nothing. */
  lemma AppliedUnchangedAt(list: seq<LB.Manga>, handled: seq<Handled>)
    requires |handled| < |list| && OutcomesFit(list, handled)
    ensures Applied(list, handled)[|handled| := list[|handled|]] == Applied(list, handled)
  {
    AppliedAt(list, handled);
  }

  /** The state after the first n iterations is what the records they handled make of the list. */
  lemma {:induction false} RewriteReported(
    list: seq<LB.Manga>, views: seq<Result<LB.MangaData>>, mangaIds: IdMap, chapterIds: IdMap, isUuid: string -> bool, n: nat)
    requires n <= |list| == |views| && RewriteUpTo(list, views, n, mangaIds, chapterIds, isUuid).Ok?
    ensures Reported(list, views, RewriteUpTo(list, views, n, mangaIds, chapterIds, isUuid).value)
    decreases n
  {
    if n > 0 {
      RewriteReported(list, views, mangaIds, chapterIds, isUuid, n - 1);
      var p := RewriteUpTo(list, views, n - 1, mangaIds, chapterIds, isUuid).value;
      var m := list[n - 1];
      var d := views[n - 1].value;
      if IsMangaDex(d.source) {
        var step := RewriteRecord(d.url, ChapterUrls(m.chapters), HistoryUrlsOf(m), mangaIds, p.chapterIds, isUuid);
        AdvanceReported(list, views, n - 1, p, d, step.value.0, step.value.1);
      } else {
        SkipReported(list, views, n - 1, p, d);
      }
    }
  }

  lemma {:induction false} ViewsAt(views: seq<Result<LB.MangaData>>, handled: seq<Handled>)
    requires |handled| <= |views| && ViewsRead(views, handled)
    ensures forall i :: 0 <= i < |handled| ==> views[i] == Ok(handled[i].data)
    decreases |handled|
  {
    if handled != [] {
      var k := |handled| - 1;
      ViewsAt(views, handled[..k]);
      assert forall i :: 0 <= i < k ==> handled[..k][i] == handled[i];
    }
  }

  lemma {:induction false} HandledAt(handled: seq<Handled>)
    requires HandledExactly(handled)
    ensures forall i :: 0 <= i < |handled| ==> (handled[i].outcome.None? <==> !IsMangaDex(handled[i].data.source))
    decreases |handled|
  {
    if handled != [] {
      var k := |handled| - 1;
      HandledAt(handled[..k]);
      assert forall i :: 0 <= i < k ==> handled[..k][i] == handled[i];
    }
  }

  /** Record i of the stored list is record i of the input with its outcome applied. */
  lemma {:induction false} AppliedEach(list: seq<LB.Manga>, handled: seq<Handled>)
    requires |handled| <= |list| && OutcomesFit(list, handled)
    ensures forall i :: 0 <= i < |handled| && handled[i].outcome.Some? ==> FitsRecord(list[i], handled[i].outcome.value)
    ensures forall i :: 0 <= i < |handled| ==> Applied(list, handled)[i] == ApplyHandled(list[i], handled[i])
    decreases |handled|
  {
    if handled != [] {
      var k := |handled| - 1;
      AppliedEach(list, handled[..k]);
      assert forall i :: 0 <= i < k ==> handled[..k][i] == handled[i];
    }
  }

  /** Migration never changes what the `data` view says about a record's source. */
  lemma AppliedKeepsSource(list: seq<LB.Manga>, handled: seq<Handled>)
    requires |handled| == |list| && OutcomesFit(list, handled)
    requires forall i :: 0 <= i < |list| ==> LB.Data(list[i]) == Ok(handled[i].data)
    ensures forall i :: 0 <= i < |list| ==>
              && LB.Data(list[i]).Ok? && LB.Data(Applied(list, handled)[i]).Ok?
              && LB.Data(Applied(list, handled)[i]).value.source == LB.Data(list[i]).value.source
  {
    AppliedEach(list, handled);
    forall i | 0 <= i < |handled| && handled[i].outcome.Some? {
      ApplyKeeps(list[i], handled[i].data, handled[i].outcome.value);
    }
  }

  /** How many handled records name a MangaDex source. */
  function DexCount(handled: seq<Handled>): nat
    decreases |handled|
  {
    if handled == [] then 0
    else
      var k := |handled| - 1;
      DexCount(handled[..k]) + (if IsMangaDex(handled[k].data.source) then 1 else 0)
  }

  /** Each MangaDex record lands in exactly one of the three lists or is migrated. */
  lemma {:induction false} EntriesPartition(handled: seq<Handled>)
    requires HandledExactly(handled)
    ensures |Entries(handled, InAlreadyMigrated)| + |Entries(handled, InMissingMangaId)|
              + |Entries(handled, InMissingChapterId)| + MigratedCount(handled) == DexCount(handled)
    decreases |handled|
  {
    if handled != [] {
      EntriesPartition(handled[..|handled| - 1]);
    }
  }

  /** The total of the views handled counts the MangaDex views among them. */
  lemma {:induction false} ViewsTotal(views: seq<Result<LB.MangaData>>, handled: seq<Handled>)
    requires |handled| <= |views| && ViewsRead(views, handled)
    ensures DexTotal(views[..|handled|]) == Ok(DexCount(handled))
    decreases |handled|
  {
    if handled != [] {
      var k := |handled| - 1;
      ViewsTotal(views, handled[..k]);
      assert views[..k + 1][..k] == views[..k];
    }
  }

  /**
   * Each MangaDex record lands in exactly one of the three lists or is migrated, so the sizes add up
   * to the total of the views handled.
   */
  lemma EntriesCount(views: seq<Result<LB.MangaData>>, handled: seq<Handled>)
    requires |handled| <= |views| && ViewsRead(views, handled) && HandledExactly(handled)
    ensures DexTotal(views[..|handled|]) ==
              Ok(|Entries(handled, InAlreadyMigrated)| + |Entries(handled, InMissingMangaId)|
                 + |Entries(handled, InMissingChapterId)| + MigratedCount(handled))
  {
    EntriesPartition(handled);
    ViewsTotal(views, handled);
  }

  // ---------------------------------------------------------------- processJsonBackup

  /** `fileName.replace(".json", "_modified.json")`. */
  function JsonOutputName(fileName: string): string {
    Replace(fileName, ".json", "_modified.json")
  }

  /**
   * `processJsonBackup` on the decoded backup: the version check, the collect pass, the manga lookup,
   * the chapter lookup, then the rewrite pass; the first exception ends the run.
   */
  function Process(decoded: Result<LB.Backup>, fileName: string, isUuid: string -> bool, api: MappingApi): Result<JsonMigrationResult> {
    var backup :- decoded;
    if backup.version != SupportedVersion then Err(IllegalArgument("Unknown backup version"))
    else
      var maps :- Collect(backup.mangas, isUuid);
      var mangaIds :- LookupOrThrow(IdType.Manga, maps.0, api);
      var chapterIds :- LookupOrThrow(IdType.Chapter, maps.1, api);
      var pass :- Rewrite(backup.mangas, mangaIds, chapterIds, isUuid);
      Ok(JsonMigrationResult(
        backup.(mangas := pass.records),
        JsonOutputName(fileName),
        pass.alreadyMigrated, pass.missingMangaId, pass.missingChapterId))
  }

  /** `processJsonBackup`: the version check, the two passes and the two lookups. */
  method ProcessJsonBackup(decoded: Result<LB.Backup>, fileName: string, isUuid: string -> bool, api: MappingApi)
    returns (r: Result<JsonMigrationResult>)
    ensures r == Process(decoded, fileName, isUuid, api)
  {
    if decoded.Err? {
      return Err(decoded.error);
    }
    var backup := decoded.value;
    if backup.version != SupportedVersion {
      return Err(IllegalArgument("Unknown backup version"));
    }
    var maps := CollectIds(backup.mangas, isUuid);
    if maps.Err? {
      return Err(maps.error);
    }
    var mangaIdMap := Lookup(IdType.Manga, maps.value.0, api);
    if mangaIdMap.Err? {
      return Err(mangaIdMap.error);
    }
    var chapterIdMap := Lookup(IdType.Chapter, maps.value.1, api);
    if chapterIdMap.Err? {
      return Err(chapterIdMap.error);
    }
    var report := RewriteRecords(backup.mangas, mangaIdMap.value, chapterIdMap.value, isUuid);
    if report.Err? {
      return Err(report.error);
    }
    return Ok(JsonMigrationResult(
      backup.(mangas := report.value.records),
      JsonOutputName(fileName),
      report.value.alreadyMigrated, report.value.missingMangaId, report.value.missingChapterId));
  }

  // ---------------------------------------------------------------- what processJsonBackup promises

  /** After a successful collect pass the rewrite pass cannot throw, whatever the lookups returned. */
  lemma {:induction false} RewriteUpToOk(
    list: seq<LB.Manga>, views: seq<Result<LB.MangaData>>, mangaIds: IdMap, chapterIds: IdMap, isUuid: string -> bool, n: nat)
    requires n <= |list| == |views| && forall i :: 0 <= i < n ==> CollectableView(list[i], views[i], isUuid)
    ensures RewriteUpTo(list, views, n, mangaIds, chapterIds, isUuid).Ok?
    decreases n
  {
    if n > 0 {
      RewriteUpToOk(list, views, mangaIds, chapterIds, isUuid, n - 1);
      var m := list[n - 1];
      assert CollectableView(m, views[n - 1], isUuid);
      var d := views[n - 1].value;
      if IsMangaDex(d.source) {
        var p := RewriteUpTo(list, views, n - 1, mangaIds, chapterIds, isUuid).value;
        CollectableRewrites(d.url, ChapterUrls(m.chapters), HistoryUrlsOf(m), mangaIds, p.chapterIds, isUuid);
      }
    }
  }

  /**
   * The rewrite pass over the whole list: it keeps the list's length and order; it read every
   * record's `data` view; a record of another source is returned untouched; a MangaDex record is
   * replaced by itself with its outcome applied; the lists hold the titles of the records with each
   * outcome; every MangaDex record is in exactly one list or migrated; and the JSON total of the
   * output equals that of the input.
   */
  lemma RewriteSpec(list: seq<LB.Manga>, mangaIds: IdMap, chapterIds: IdMap, isUuid: string -> bool)
    requires Rewrite(list, mangaIds, chapterIds, isUuid).Ok?
    ensures JsonTotalDexManga(list).Ok?
    ensures var p := Rewrite(list, mangaIds, chapterIds, isUuid).value;
            && |p.records| == |list| && |p.handled| == |list|
            && (forall i :: 0 <= i < |list| ==> LB.Data(list[i]) == Ok(p.handled[i].data))
            && (forall i :: 0 <= i < |list| ==> (p.handled[i].outcome.None? <==> !IsMangaDex(p.handled[i].data.source)))
            && (forall i :: 0 <= i < |list| && p.handled[i].outcome.None? ==> p.records[i] == list[i])
            && (forall i :: 0 <= i < |list| && p.handled[i].outcome.Some? ==>
                  && FitsRecord(list[i], p.handled[i].outcome.value)
                  && p.records[i] == Apply(list[i], p.handled[i].data, p.handled[i].outcome.value))
            && p.alreadyMigrated == Entries(p.handled, InAlreadyMigrated)
            && p.missingMangaId == Entries(p.handled, InMissingMangaId)
            && p.missingChapterId == Entries(p.handled, InMissingChapterId)
            && |p.alreadyMigrated| + |p.missingMangaId| + |p.missingChapterId| + MigratedCount(p.handled)
                 == JsonTotalDexManga(list).value
            && JsonTotalDexManga(p.records) == JsonTotalDexManga(list)
  {
    var views := LB.DataViews(list);
    var p := Rewrite(list, mangaIds, chapterIds, isUuid).value;
    RewriteReported(list, views, mangaIds, chapterIds, isUuid, |list|);
    ViewsAt(views, p.handled);
    HandledAt(p.handled);
    AppliedEach(list, p.handled);
    EntriesCount(views, p.handled);
    assert views[..|list|] == views;
    AppliedKeepsSource(list, p.handled);
    JsonTotalOnlyReadsSource(p.records, list);
  }

  /**
   * The outcome of a MangaDex record is what the one-record rewrite gives its `data` view with the
   * chapter map the earlier records left behind, so RewriteRecordSpec says what it means.
   */
  lemma RewriteOutcomeOf(list: seq<LB.Manga>, mangaIds: IdMap, chapterIds: IdMap, isUuid: string -> bool, i: nat)
    requires i < |list| && Rewrite(list, mangaIds, chapterIds, isUuid).Ok?
    ensures RewriteUpTo(list, LB.DataViews(list), i, mangaIds, chapterIds, isUuid).Ok? && LB.Data(list[i]).Ok?
    ensures var m := list[i];
            var d := LB.Data(m).value;
            var step := RewriteRecord(d.url, ChapterUrls(m.chapters), HistoryUrlsOf(m), mangaIds,
                          RewriteUpTo(list, LB.DataViews(list), i, mangaIds, chapterIds, isUuid).value.chapterIds, isUuid);
            IsMangaDex(d.source) ==>
              && step.Ok?
              && Rewrite(list, mangaIds, chapterIds, isUuid).value.handled[i] == Handled(d, Some(step.value.0))
  {
    RewriteOutcome(list, LB.DataViews(list), mangaIds, chapterIds, isUuid, i, |list|);
  }

  /**
   * `processJsonBackup` fails exactly when the input cannot be decoded, its version is not 2 (then
   * with "Unknown backup version"), the collect pass throws, or one of the two lookups fails (then
   * with "try again plz"). On success the version, categories and extensions are untouched, the name
   * is rewritten, the manga list keeps its length and JSON total, and the migrated count reported is
   * the number of MangaDex records actually migrated, never negative.
   */
  lemma ProcessSpec(decoded: Result<LB.Backup>, fileName: string, isUuid: string -> bool, api: MappingApi)
    ensures var r := Process(decoded, fileName, isUuid, api);
            r.Ok? <==>
              && decoded.Ok?
              && decoded.value.version == 2
              && Collect(decoded.value.mangas, isUuid).Ok?
              && Converted(IdType.Manga, Collect(decoded.value.mangas, isUuid).value.0, api).Some?
              && Converted(IdType.Chapter, Collect(decoded.value.mangas, isUuid).value.1, api).Some?
    ensures decoded.Ok? ==>
              (Collect(decoded.value.mangas, isUuid).Ok? <==>
                 forall i :: 0 <= i < |decoded.value.mangas| ==> CollectableRecord(decoded.value.mangas[i], isUuid))
    ensures decoded.Err? ==> Process(decoded, fileName, isUuid, api) == Err(decoded.error)
    ensures decoded.Ok? && decoded.value.version != 2 ==>
              Process(decoded, fileName, isUuid, api) == Err(IllegalArgument("Unknown backup version"))
    ensures decoded.Ok? && decoded.value.version == 2 && Collect(decoded.value.mangas, isUuid).Ok? &&
            (Converted(IdType.Manga, Collect(decoded.value.mangas, isUuid).value.0, api).None? ||
             Converted(IdType.Chapter, Collect(decoded.value.mangas, isUuid).value.1, api).None?) ==>
              Process(decoded, fileName, isUuid, api) == Err(IllegalState("try again plz"))
    ensures var r := Process(decoded, fileName, isUuid, api);
            r.Ok? ==>
              && r.value.backup.version == decoded.value.version
              && r.value.backup.rawCategories == decoded.value.rawCategories
              && r.value.backup.extensions == decoded.value.extensions
              && r.value.fileName == JsonOutputName(fileName)
              && |r.value.backup.mangas| == |decoded.value.mangas|
              && JsonTotalDexManga(r.value.backup.mangas).Ok?
              && JsonTotalDexManga(r.value.backup.mangas) == JsonTotalDexManga(decoded.value.mangas)
              && JsonMigrated(r.value).Ok? && JsonMigrated(r.value).value >= 0
  {
    if decoded.Ok? && decoded.value.version == 2 {
      var list := decoded.value.mangas;
      CollectSpec(list, isUuid);
      var maps := Collect(list, isUuid);
      if maps.Ok? {
        var mangaIds := LookupOrThrow(IdType.Manga, maps.value.0, api);
        var chapterIds := LookupOrThrow(IdType.Chapter, maps.value.1, api);
        if mangaIds.Ok? && chapterIds.Ok? {
          var views := LB.DataViews(list);
          assert forall i :: 0 <= i < |list| ==> CollectableView(list[i], views[i], isUuid);
          RewriteUpToOk(list, views, mangaIds.value, chapterIds.value, isUuid, |list|);
          RewriteSpec(list, mangaIds.value, chapterIds.value, isUuid);
        }
      }
    } else if decoded.Ok? {
      CollectSpec(decoded.value.mangas, isUuid);
    }
  }

  /**
   * `totalMigratedManga` of a successful run is exactly the number of MangaDex records the rewrite
   * pass migrated.
   */
  lemma ProcessMigratedCount(decoded: Result<LB.Backup>, fileName: string, isUuid: string -> bool, api: MappingApi)
    requires Process(decoded, fileName, isUuid, api).Ok?
    ensures decoded.Ok? && Collect(decoded.value.mangas, isUuid).Ok?
    ensures decoded.Ok? && Collect(decoded.value.mangas, isUuid).Ok? ==>
              var list := decoded.value.mangas;
              var maps := Collect(list, isUuid).value;
              && Converted(IdType.Manga, maps.0, api).Some? && Converted(IdType.Chapter, maps.1, api).Some?
              && var mangaIds := Converted(IdType.Manga, maps.0, api).value;
              var chapterIds := Converted(IdType.Chapter, maps.1, api).value;
              && Rewrite(list, mangaIds, chapterIds, isUuid).Ok?
              && JsonMigrated(Process(decoded, fileName, isUuid, api).value) == Ok(MigratedCount(Rewrite(list, mangaIds, chapterIds, isUuid).value.handled))
  {
    var list := decoded.value.mangas;
    var maps := Collect(list, isUuid).value;
    var mangaIds := LookupOrThrow(IdType.Manga, maps.0, api);
    var chapterIds := LookupOrThrow(IdType.Chapter, maps.1, api);
    assert mangaIds.Ok? && chapterIds.Ok?;
    assert Rewrite(list, mangaIds.value, chapterIds.value, isUuid).Ok?;
    PassMigratedCount(decoded.value, JsonOutputName(fileName), list, mangaIds.value, chapterIds.value, isUuid);
  }

  /** The result built from a rewrite pass reports exactly the records that pass migrated. */
  lemma PassMigratedCount(backup: LB.Backup, name: string, list: seq<LB.Manga>, mangaIds: IdMap, chapterIds: IdMap, isUuid: string -> bool)
    requires Rewrite(list, mangaIds, chapterIds, isUuid).Ok?
    ensures var p := Rewrite(list, mangaIds, chapterIds, isUuid).value;
            JsonMigrated(JsonMigrationResult(backup.(mangas := p.records), name, p.alreadyMigrated, p.missingMangaId, p.missingChapterId))
              == Ok(MigratedCount(p.handled))
  {
    var p := Rewrite(list, mangaIds, chapterIds, isUuid).value;
    RewriteTotals(list, mangaIds, chapterIds, isUuid);
    MigratedOfTotals(
      JsonMigrationResult(backup.(mangas := p.records), name, p.alreadyMigrated, p.missingMangaId, p.missingChapterId),
      JsonTotalDexManga(list).value, MigratedCount(p.handled));
  }

  /** The two totals of a rewrite pass: its lists and migrated count add up, and the total is kept. */
  lemma RewriteTotals(list: seq<LB.Manga>, mangaIds: IdMap, chapterIds: IdMap, isUuid: string -> bool)
    requires Rewrite(list, mangaIds, chapterIds, isUuid).Ok?
    ensures JsonTotalDexManga(list).Ok?
    ensures var p := Rewrite(list, mangaIds, chapterIds, isUuid).value;
            && |p.alreadyMigrated| + |p.missingMangaId| + |p.missingChapterId| + MigratedCount(p.handled)
                 == JsonTotalDexManga(list).value
            && JsonTotalDexManga(p.records) == JsonTotalDexManga(list)
  {
    RewriteSpec(list, mangaIds, chapterIds, isUuid);
  }

  /** A result whose total is known reports that total less its three lists. */
  lemma MigratedOfTotals(r: JsonMigrationResult, total: nat, migrated: nat)
    requires JsonTotalDexManga(r.backup.mangas) == Ok(total)
    requires |r.alreadyMigrated| + |r.missingMangaId| + |r.missingChapterId| + migrated == total
    ensures JsonMigrated(r) == Ok(migrated)
  {
  }

  /** A name that ends in `.json`, with no earlier occurrence, gets `_modified` before the suffix. */
  lemma JsonOutputNameOfStem(stem: string)
    requires forall i :: 0 <= i < |stem| ==> !OccursAt(stem + ".json", ".json", i)
    ensures JsonOutputName(stem + ".json") == stem + "_modified.json"
  {
    ReplaceSuffix(stem, ".json", "_modified.json");
  }
}
