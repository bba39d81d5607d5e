/**
 * `processProtoBackup` of the common engine: the collect pass over the protobuf backup's manga
 * list, the two lookups, and the rewrite pass that replaces migrated records in place.
 */
module MigratorProto {
  import opened Wrappers
  import opened KotlinText
  import opened SourceIds
  import opened FullBackup
  import opened IdMaps
  import opened MigratorSteps
  import opened MigrationResult
  import opened Folds

  function ChapterUrls(cs: seq<BackupChapter>): (r: seq<string>)
    ensures |r| == |cs| && forall i :: 0 <= i < |cs| ==> r[i] == cs[i].url
  {
    seq(|cs|, i requires 0 <= i < |cs| => cs[i].url)
  }

  function HistoryUrls(hs: seq<BackupHistory>): (r: seq<string>)
    ensures |r| == |hs| && forall i :: 0 <= i < |hs| ==> r[i] == hs[i].url
  {
    seq(|hs|, i requires 0 <= i < |hs| => hs[i].url)
  }

  function WithChapterUrls(cs: seq<BackupChapter>, urls: seq<string>): (r: seq<BackupChapter>)
    requires |urls| == |cs|
    ensures |r| == |cs| && forall i :: 0 <= i < |cs| ==> r[i] == cs[i].(url := urls[i])
  {
    seq(|cs|, i requires 0 <= i < |cs| => cs[i].(url := urls[i]))
  }

  function WithHistoryUrls(hs: seq<BackupHistory>, urls: seq<string>): (r: seq<BackupHistory>)
    requires |urls| == |hs|
    ensures |r| == |hs| && forall i :: 0 <= i < |hs| ==> r[i] == hs[i].(url := urls[i])
  {
    seq(|hs|, i requires 0 <= i < |hs| => hs[i].(url := urls[i]))
  }

  /** The outcome was computed for this record. */
  predicate FitsRecord(m: BackupManga, o: Outcome) {
    && (o.MissingChapter? ==> o.index < |m.chapters|)
    && (o.Migrated? ==> |o.chapterUrls| == |m.chapters| && |o.historyUrls| == |m.history|)
  }

  /** The record the rewrite pass stores: a migrated record gets its new URLs, any other stays as it was. */
  function Apply(m: BackupManga, o: Outcome): BackupManga
    requires FitsRecord(m, o)
  {
    if o.Migrated? then
      m.(url := o.url,
         chapters := WithChapterUrls(m.chapters, o.chapterUrls),
         history := WithHistoryUrls(m.history, o.historyUrls))
    else m
  }

  /**
   * A migrated record differs from the input only in its URLs: source, title, favourite flag,
   * broken history, chapter names, read times and list lengths are kept. Any other outcome keeps
   * the record exactly.
   */
  lemma ApplyKeeps(m: BackupManga, o: Outcome)
    requires FitsRecord(m, o)
    ensures var r := Apply(m, o);
            && r.source == m.source && r.title == m.title && r.favorite == m.favorite
            && r.brokenHistory == m.brokenHistory
            && |r.chapters| == |m.chapters| && |r.history| == |m.history|
            && (forall i :: 0 <= i < |m.chapters| ==> r.chapters[i].name == m.chapters[i].name)
            && (forall i :: 0 <= i < |m.history| ==> r.history[i].lastRead == m.history[i].lastRead)
            && (o.Migrated? ==>
                  && r.url == o.url
                  && ChapterUrls(r.chapters) == o.chapterUrls
                  && HistoryUrls(r.history) == o.historyUrls)
            && (!o.Migrated? ==> r == m)
  {
  }

  // ---------------------------------------------------------------- collect pass

  /** One iteration of the collect loop: records of other sources are skipped. */
  function CollectStep(m: BackupManga, maps: (IdMap, IdMap), isUuid: string -> bool): Result<(IdMap, IdMap)> {
    if !IsMangaDex(m.source) then Ok(maps)
    else CollectRecord(m.url, ChapterUrls(m.chapters), Ok(HistoryUrls(m.history)), maps.0, maps.1, isUuid)
  }

  /** The collect pass over the first records, starting from two empty maps. */
  function Collect(list: seq<BackupManga>, isUuid: string -> bool): Result<(IdMap, IdMap)>
    decreases |list|
  {
    if list == [] then Ok((Empty, Empty))
    else
      var maps :- Collect(list[..|list| - 1], isUuid);
      CollectStep(list[|list| - 1], maps, isUuid)
  }

  predicate CollectableRecord(m: BackupManga, isUuid: string -> bool) {
    !IsMangaDex(m.source) || Collectable(m.url, ChapterUrls(m.chapters), Ok(HistoryUrls(m.history)), isUuid)
  }

  /** The legacy manga ID a record contributes to the manga map (none for another source). */
  function ProtoMangaKeys(m: BackupManga, isUuid: string -> bool): set<Int32> {
    if IsMangaDex(m.source) then RecordMangaKeys(m.url, isUuid) else {}
  }

  /** The legacy chapter IDs a record contributes to the chapter map (none for another source). */
  function ProtoChapterKeys(m: BackupManga, isUuid: string -> bool): set<Int32> {
    if IsMangaDex(m.source) then RecordChapterKeys(m.url, ChapterUrls(m.chapters), Ok(HistoryUrls(m.history)), isUuid) else {}
  }

  function MangaKeysOf(list: seq<BackupManga>, isUuid: string -> bool): set<Int32> {
    UnionOf(list, ProtoMangaKeys, isUuid)
  }

  function ChapterKeysOf(list: seq<BackupManga>, isUuid: string -> bool): set<Int32> {
    UnionOf(list, ProtoChapterKeys, isUuid)
  }

  lemma MangaKeysOfMember(list: seq<BackupManga>, isUuid: string -> bool, k: Int32)
    ensures k in MangaKeysOf(list, isUuid) <==> exists i :: 0 <= i < |list| && k in ProtoMangaKeys(list[i], isUuid)
  {
    UnionOfMember(list, ProtoMangaKeys, isUuid, k);
  }

  lemma ChapterKeysOfMember(list: seq<BackupManga>, isUuid: string -> bool, k: Int32)
    ensures k in ChapterKeysOf(list, isUuid) <==> exists i :: 0 <= i < |list| && k in ProtoChapterKeys(list[i], isUuid)
  {
    UnionOfMember(list, ProtoChapterKeys, isUuid, k);
  }

  /** A record contributes the integer in segment 2 of its URL, when it is a MangaDex record and that segment is no UUID. */
  lemma ProtoMangaKey(m: BackupManga, isUuid: string -> bool, k: Int32)
    ensures k in ProtoMangaKeys(m, isUuid) <==> IsMangaDex(m.source) && MangaKey(m.url, isUuid) == Some(k)
  {
  }

  /**
   * A record contributes the segment-3 integer of each chapter and history URL not yet migrated, when
   * it is a MangaDex record whose segment 2 is no UUID.
   */
  lemma ProtoChapterKey(m: BackupManga, isUuid: string -> bool, k: Int32)
    ensures k in ProtoChapterKeys(m, isUuid) <==>
              && IsMangaDex(m.source) && Segment(m.url, 2).Ok? && !isUuid(Segment(m.url, 2).value)
              && ((exists j :: 0 <= j < |m.chapters| && !IsMigratedChapterUrl(m.chapters[j].url) && LegacyChapterId(m.chapters[j].url) == Ok(k))
                  || (exists j :: 0 <= j < |m.history| && !IsMigratedChapterUrl(m.history[j].url) && LegacyChapterId(m.history[j].url) == Ok(k)))
  {
    UrlKeysMember(ChapterUrls(m.chapters), k);
    UrlKeysMember(HistoryUrls(m.history), k);
  }

  /** One collect step on valid, value-free maps: it fails exactly when the record is not collectable, else adds the record's keys. */
  lemma CollectStepSpec(m: BackupManga, maps: (IdMap, IdMap), isUuid: string -> bool)
    requires Valid(maps.0) && Valid(maps.1) && maps.0.ids == map[] && maps.1.ids == map[]
    ensures CollectStep(m, maps, isUuid).Ok? <==> CollectableRecord(m, isUuid)
    ensures CollectStep(m, maps, isUuid).Ok? ==>
              var (mangaIds, chapterIds) := CollectStep(m, maps, isUuid).value;
              && Keys(mangaIds) == Keys(maps.0) + ProtoMangaKeys(m, isUuid)
              && Keys(chapterIds) == Keys(maps.1) + ProtoChapterKeys(m, isUuid)
              && Valid(mangaIds) && Valid(chapterIds) && mangaIds.ids == map[] && chapterIds.ids == map[]
  {
    if IsMangaDex(m.source) {
      CollectRecordSpec(m.url, ChapterUrls(m.chapters), Ok(HistoryUrls(m.history)), maps.0, maps.1, isUuid);
    }
  }

  lemma {:induction false} CollectAll(list: seq<BackupManga>, isUuid: string -> bool)
    ensures Collect(list, isUuid).Ok? <==> AllWith(list, CollectableRecord, isUuid)
    ensures Collect(list, isUuid).Ok? ==>
              var (mangaIds, chapterIds) := Collect(list, isUuid).value;
              && Keys(mangaIds) == MangaKeysOf(list, isUuid) && Keys(chapterIds) == ChapterKeysOf(list, isUuid)
              && Valid(mangaIds) && Valid(chapterIds) && mangaIds.ids == map[] && chapterIds.ids == map[]
    decreases |list|
  {
    if list != [] {
      var n := |list| - 1;
      CollectAll(list[..n], isUuid);
      var before := Collect(list[..n], isUuid);
      if before.Ok? {
        CollectStepSpec(list[n], before.value, isUuid);
      }
    } else {
      assert Keys(Empty) == {};
    }
  }

  /**
   * The collect pass fails exactly when a MangaDex record has an unreadable legacy ID; otherwise it
   * yields two valid maps whose keys are the manga and chapter keys of the list, all mapped to null.
   */
  lemma CollectSpec(list: seq<BackupManga>, isUuid: string -> bool)
    ensures Collect(list, isUuid).Ok? <==> forall i :: 0 <= i < |list| ==> CollectableRecord(list[i], isUuid)
    ensures Collect(list, isUuid).Ok? ==>
              var (mangaIds, chapterIds) := Collect(list, isUuid).value;
              && Keys(mangaIds) == MangaKeysOf(list, isUuid) && Keys(chapterIds) == ChapterKeysOf(list, isUuid)
              && Valid(mangaIds) && Valid(chapterIds) && mangaIds.ids == map[] && chapterIds.ids == map[]
  {
    CollectAll(list, isUuid);
    AllWithEach(list, CollectableRecord, isUuid);
  }

  /** The collect loop of `processProtoBackup`. */
  method CollectIds(list: seq<BackupManga>, isUuid: string -> bool) returns (r: Result<(IdMap, IdMap)>)
    ensures r == Collect(list, isUuid)
  {
    var mangaIdMap := Empty;
    var chapterIdMap := Empty;
    var i := 0;
    while i < |list|
      invariant 0 <= i <= |list|
      invariant Collect(list[..i], isUuid) == Ok((mangaIdMap, chapterIdMap))
    {
      assert list[..i + 1][..i] == list[..i];
      var backupManga := list[i];
      if IsMangaDex(backupManga.source) {
        var maps := CollectRecordIds(
          backupManga.url, ChapterUrls(backupManga.chapters), Ok(HistoryUrls(backupManga.history)),
          mangaIdMap, chapterIdMap, isUuid);
        if maps.Err? {
          CollectFailureStops(list, i + 1, isUuid);
          assert list[..|list|] == list;
          return Err(maps.error);
        }
        mangaIdMap, chapterIdMap := maps.value.0, maps.value.1;
      }
      i := i + 1;
    }
    assert list[..i] == list;
    return Ok((mangaIdMap, chapterIdMap));
  }

  /** Once the collect pass throws, the rest of the list cannot undo it. */
  lemma {:induction false} CollectFailureStops(list: seq<BackupManga>, j: nat, isUuid: string -> bool)
    requires j <= |list| && Collect(list[..j], isUuid).Err?
    ensures Collect(list, isUuid) == Collect(list[..j], isUuid)
    decreases |list| - j
  {
    if j < |list| {
      assert list[..j + 1][..j] == list[..j];
      CollectFailureStops(list, j + 1, isUuid);
    } else {
      assert list[..j] == list;
    }
  }

  // ---------------------------------------------------------------- rewrite pass

  /**
   * The state of the rewrite loop after the first records: the whole list as stored so far, the
   * chapter map, the outcome of each record handled (None for a record of another source) and the
   * three lists of titles.
   */
  datatype Pass = Pass(
    records: seq<BackupManga>,
    chapterIds: IdMap,
    outcomes: seq<Option<Outcome>>,
    alreadyMigrated: seq<string>,
    missingMangaId: seq<string>,
    missingChapterId: seq<string>)

  /** What the method reports: the rewritten list and the three lists of titles. */
  datatype Report = Report(
    records: seq<BackupManga>,
    alreadyMigrated: seq<string>,
    missingMangaId: seq<string>,
    missingChapterId: seq<string>)

  function ReportOf(p: Result<Pass>): Result<Report> {
    var pass :- p;
    Ok(Report(pass.records, pass.alreadyMigrated, pass.missingMangaId, pass.missingChapterId))
  }

  /** A favourite's entry, when the condition holds; unfavourited manga are migrated silently. */
  function Listed(m: BackupManga, condition: bool, entry: string): seq<string> {
    if m.favorite && condition then [entry] else []
  }

  /** The `missingChapterId` entry: `"<title> (<chapter name>)"`. */
  function MissingChapterEntry(m: BackupManga, o: Outcome): string
    requires FitsRecord(m, o)
  {
    if o.MissingChapter? then m.title + " (" + m.chapters[o.index].name + ")" else m.title
  }

  /** The bookkeeping of iteration i once the outcome of record i is known. */
  function Advance(list: seq<BackupManga>, i: nat, p: Pass, o: Outcome, chapterIds: IdMap): (r: Pass)
    requires i < |list| == |p.records| && FitsRecord(list[i], o)
    ensures |r.records| == |list| && |r.outcomes| == |p.outcomes| + 1
  {
    var m := list[i];
    Pass(
      if o.Migrated? then p.records[i := Apply(m, o)] else p.records,
      chapterIds,
      p.outcomes + [Some(o)],
      p.alreadyMigrated + Listed(m, o.AlreadyMigrated?, m.title),
      p.missingMangaId + Listed(m, o.MissingManga?, m.title),
      p.missingChapterId + Listed(m, o.MissingChapter?, MissingChapterEntry(m, o)))
  }

  /** Iteration i of the rewrite loop; only a migrated record is stored back into the list. */
  function RewriteStep(list: seq<BackupManga>, i: nat, mangaIds: IdMap, p: Pass, isUuid: string -> bool): (r: Result<Pass>)
    requires i < |list| == |p.records|
    ensures r.Ok? ==> |r.value.records| == |list| && |r.value.outcomes| == |p.outcomes| + 1
  {
    var m := list[i];
    if !IsMangaDex(m.source) then Ok(p.(outcomes := p.outcomes + [None]))
    else
      var (o, chapterIds) :- RewriteRecord(m.url, ChapterUrls(m.chapters), Ok(HistoryUrls(m.history)), mangaIds, p.chapterIds, isUuid);
      Ok(Advance(list, i, p, o, chapterIds))
  }

  /** The rewrite loop after its first n iterations. */
  function RewriteUpTo(list: seq<BackupManga>, n: nat, mangaIds: IdMap, chapterIds: IdMap, isUuid: string -> bool): (r: Result<Pass>)
    requires n <= |list|
    ensures r.Ok? ==> |r.value.records| == |list| && |r.value.outcomes| == n
    decreases n
  {
    if n == 0 then Ok(Pass(list, chapterIds, [], [], [], []))
    else
      var p :- RewriteUpTo(list, n - 1, mangaIds, chapterIds, isUuid);
      RewriteStep(list, n - 1, mangaIds, p, isUuid)
  }

  function Rewrite(list: seq<BackupManga>, mangaIds: IdMap, chapterIds: IdMap, isUuid: string -> bool): Result<Pass> {
    RewriteUpTo(list, |list|, mangaIds, chapterIds, isUuid)
  }

  /** The rewrite loop of `processProtoBackup`; `backupMangaList[i]` is replaced in place. */
  method RewriteRecords(list: seq<BackupManga>, mangaIds: IdMap, chapterIds: IdMap, isUuid: string -> bool)
    returns (r: Result<Report>)
    ensures r == ReportOf(Rewrite(list, mangaIds, chapterIds, isUuid))
  {
    var backupMangaList := list;
    var chapterIdMap := chapterIds;
    var alreadyMigrated: seq<string> := [];
    var missingMangaId: seq<string> := [];
    var missingChapterId: seq<string> := [];
    ghost var outcomes: seq<Option<Outcome>> := [];
    var i := 0;
    while i < |list|
      invariant 0 <= i <= |list|
      invariant RewriteUpTo(list, i, mangaIds, chapterIds, isUuid) ==
                  Ok(Pass(backupMangaList, chapterIdMap, outcomes, alreadyMigrated, missingMangaId, missingChapterId))
    {
      ghost var before := Pass(backupMangaList, chapterIdMap, outcomes, alreadyMigrated, missingMangaId, missingChapterId);
      assert RewriteUpTo(list, i + 1, mangaIds, chapterIds, isUuid) == RewriteStep(list, i, mangaIds, before, isUuid);
      var backupManga := list[i];
      if !IsMangaDex(backupManga.source) {
        outcomes := outcomes + [None];
      } else {
        var step := RewriteRecordUrls(
          backupManga.url, ChapterUrls(backupManga.chapters), Ok(HistoryUrls(backupManga.history)),
          mangaIds, chapterIdMap, isUuid);
        if step.Err? {
          RewriteFailureStops(list, mangaIds, chapterIds, isUuid, i + 1, |list|);
          return Err(step.error);
        }
        var (o, afterRecord) := step.value;
        if o.AlreadyMigrated? {
          if backupManga.favorite {
            alreadyMigrated := alreadyMigrated + [backupManga.title];
          }
        } else if o.MissingManga? {
          if backupManga.favorite {
            missingMangaId := missingMangaId + [backupManga.title];
          }
        } else if o.MissingChapter? {
          // missing chapter is unlikely to happen but just in case
          if backupManga.favorite {
            missingChapterId := missingChapterId + [MissingChapterEntry(backupManga, o)];
          }
        } else {
          backupMangaList := backupMangaList[i := Apply(backupManga, o)];
        }
        chapterIdMap := afterRecord;
        outcomes := outcomes + [Some(o)];
        assert alreadyMigrated == before.alreadyMigrated + Listed(backupManga, o.AlreadyMigrated?, backupManga.title);
        assert missingMangaId == before.missingMangaId + Listed(backupManga, o.MissingManga?, backupManga.title);
        assert missingChapterId == before.missingChapterId + Listed(backupManga, o.MissingChapter?, MissingChapterEntry(backupManga, o));
        assert backupMangaList == if o.Migrated? then before.records[i := Apply(backupManga, o)] else before.records;
      }
      i := i + 1;
    }
    return Ok(Report(backupMangaList, alreadyMigrated, missingMangaId, missingChapterId));
  }

  /** Once the rewrite loop throws, the later iterations cannot undo it. */
  lemma {:induction false} RewriteFailureStops(
    list: seq<BackupManga>, mangaIds: IdMap, chapterIds: IdMap, isUuid: string -> bool, j: nat, n: nat)
    requires j <= n <= |list| && RewriteUpTo(list, j, mangaIds, chapterIds, isUuid).Err?
    ensures RewriteUpTo(list, n, mangaIds, chapterIds, isUuid) == RewriteUpTo(list, j, mangaIds, chapterIds, isUuid)
    decreases n
  {
    if j < n {
      RewriteFailureStops(list, mangaIds, chapterIds, isUuid, j, n - 1);
    }
  }

  // ---------------------------------------------------------------- what the rewrite pass leaves behind

  /** An earlier stage of the loop is a prefix of a later one: its outcomes come first and it did not fail. */
  lemma {:induction false} RewritePrefix(
    list: seq<BackupManga>, mangaIds: IdMap, chapterIds: IdMap, isUuid: string -> bool, i: nat, n: nat)
    requires i <= n <= |list| && RewriteUpTo(list, n, mangaIds, chapterIds, isUuid).Ok?
    ensures RewriteUpTo(list, i, mangaIds, chapterIds, isUuid).Ok?
    ensures RewriteUpTo(list, i, mangaIds, chapterIds, isUuid).value.outcomes ==
              RewriteUpTo(list, n, mangaIds, chapterIds, isUuid).value.outcomes[..i]
    decreases n
  {
    if i < n {
      var before := RewriteUpTo(list, n - 1, mangaIds, chapterIds, isUuid);
      RewritePrefix(list, mangaIds, chapterIds, isUuid, i, n - 1);
      StepExtends(list, n - 1, mangaIds, before.value, isUuid);
      var after := RewriteUpTo(list, n, mangaIds, chapterIds, isUuid).value;
      assert after.outcomes[..i] == after.outcomes[..n - 1][..i];
    } else {
      assert RewriteUpTo(list, n, mangaIds, chapterIds, isUuid).value.outcomes[..n] ==
               RewriteUpTo(list, n, mangaIds, chapterIds, isUuid).value.outcomes;
    }
  }

  /** One iteration appends one outcome and keeps the earlier ones. */
  lemma StepExtends(list: seq<BackupManga>, i: nat, mangaIds: IdMap, p: Pass, isUuid: string -> bool)
    requires i < |list| == |p.records|
    ensures var r := RewriteStep(list, i, mangaIds, p, isUuid);
            r.Ok? ==> r.value.outcomes[..|p.outcomes|] == p.outcomes
  {
  }

  /** The outcome of record i is the one-record rewrite with the chapter map as the loop left it before i. */
  lemma RewriteOutcome(
    list: seq<BackupManga>, mangaIds: IdMap, chapterIds: IdMap, isUuid: string -> bool, i: nat, n: nat)
    requires i < n <= |list| && RewriteUpTo(list, n, mangaIds, chapterIds, isUuid).Ok?
    ensures RewriteUpTo(list, i, mangaIds, chapterIds, isUuid).Ok?
    ensures var o := RewriteUpTo(list, n, mangaIds, chapterIds, isUuid).value.outcomes[i];
            var m := list[i];
            var before := RewriteUpTo(list, i, mangaIds, chapterIds, isUuid).value.chapterIds;
            && (o.None? <==> !IsMangaDex(m.source))
            && (o.Some? ==>
                  && RewriteRecord(m.url, ChapterUrls(m.chapters), Ok(HistoryUrls(m.history)), mangaIds, before, isUuid).Ok?
                  && o.value == RewriteRecord(m.url, ChapterUrls(m.chapters), Ok(HistoryUrls(m.history)), mangaIds, before, isUuid).value.0)
  {
    RewritePrefix(list, mangaIds, chapterIds, isUuid, i + 1, n);
    RewritePrefix(list, mangaIds, chapterIds, isUuid, i, i + 1);
    var next := RewriteUpTo(list, i + 1, mangaIds, chapterIds, isUuid).value;
    assert RewriteUpTo(list, n, mangaIds, chapterIds, isUuid).value.outcomes[i] == next.outcomes[i];
  }

  /** Each outcome so far fits its record. */
  predicate OutcomesFit(list: seq<BackupManga>, outcomes: seq<Option<Outcome>>)
    requires |outcomes| <= |list|
    decreases |outcomes|
  {
    if outcomes == [] then true
    else
      var k := |outcomes| - 1;
      OutcomesFit(list, outcomes[..k]) && (outcomes[k].Some? ==> FitsRecord(list[k], outcomes[k].value))
  }

  /** Exactly the records of an allowed source have an outcome. */
  predicate HandledExactly(list: seq<BackupManga>, outcomes: seq<Option<Outcome>>)
    requires |outcomes| <= |list|
    decreases |outcomes|
  {
    if outcomes == [] then true
    else
      var k := |outcomes| - 1;
      HandledExactly(list, outcomes[..k]) && (outcomes[k].None? <==> !IsMangaDex(list[k].source))
  }

  /** The record stored for a handled record: unchanged for another source, else its outcome applied. */
  function ApplyOutcome(m: BackupManga, o: Option<Outcome>): BackupManga
    requires o.Some? ==> FitsRecord(m, o.value)
  {
    if o.Some? then Apply(m, o.value) else m
  }

  /** The list with each handled record replaced by what the rewrite stores for it. */
  function Applied(list: seq<BackupManga>, outcomes: seq<Option<Outcome>>): (r: seq<BackupManga>)
    requires |outcomes| <= |list| && OutcomesFit(list, outcomes)
    ensures |r| == |list|
    decreases |outcomes|
  {
    if outcomes == [] then list
    else
      var k := |outcomes| - 1;
      Applied(list, outcomes[..k])[k := ApplyOutcome(list[k], outcomes[k])]
  }

  /** The entry a handled record adds to its list: the title, with the chapter name for a missing chapter. */
  function EntryOf(m: BackupManga, o: Outcome): string
    requires FitsRecord(m, o)
  {
    MissingChapterEntry(m, o)
  }

  /** The entries of the favourites whose outcome lands in the given list, in list order. */
  function Entries(list: seq<BackupManga>, outcomes: seq<Option<Outcome>>, listing: Listing): seq<string>
    requires |outcomes| <= |list| && OutcomesFit(list, outcomes)
    decreases |outcomes|
  {
    if outcomes == [] then []
    else
      var k := |outcomes| - 1;
      var o := outcomes[k];
      Entries(list, outcomes[..k], listing)
        + (if o.Some? && list[k].favorite && ListingOf(o.value) == listing then [EntryOf(list[k], o.value)] else [])
  }

  /** How many favourites were migrated. */
  function MigratedCount(list: seq<BackupManga>, outcomes: seq<Option<Outcome>>): nat
    requires |outcomes| <= |list|
    decreases |outcomes|
  {
    if outcomes == [] then 0
    else
      var k := |outcomes| - 1;
      MigratedCount(list, outcomes[..k]) + (if outcomes[k].Some? && list[k].favorite && outcomes[k].value.Migrated? then 1 else 0)
  }

  /** The state of the loop is what its outcomes make of the list. */
  predicate Reported(list: seq<BackupManga>, p: Pass) {
    && |p.records| == |list| && |p.outcomes| <= |list|
    && OutcomesFit(list, p.outcomes)
    && HandledExactly(list, p.outcomes)
    && p.records == Applied(list, p.outcomes)
    && p.alreadyMigrated == Entries(list, p.outcomes, InAlreadyMigrated)
    && p.missingMangaId == Entries(list, p.outcomes, InMissingMangaId)
    && p.missingChapterId == Entries(list, p.outcomes, InMissingChapterId)
  }

  lemma AdvanceReported(list: seq<BackupManga>, i: nat, p: Pass, o: Outcome, chapterIds: IdMap)
    requires i < |list| && Reported(list, p) && |p.outcomes| == i && IsMangaDex(list[i].source) && FitsRecord(list[i], o)
    ensures Reported(list, Advance(list, i, p, o, chapterIds))
  {
    var q := Advance(list, i, p, o, chapterIds);
    assert q.outcomes[..i] == p.outcomes;
    if !o.Migrated? {
      AppliedUnchangedAt(list, p.outcomes);
    }
  }

  lemma SkipReported(list: seq<BackupManga>, i: nat, p: Pass)
    requires i < |list| && Reported(list, p) && |p.outcomes| == i && !IsMangaDex(list[i].source)
    ensures Reported(list, p.(outcomes := p.outcomes + [None]))
  {
    var q := p.(outcomes := p.outcomes + [None]);
    assert q.outcomes[..i] == p.outcomes;
    AppliedUnchangedAt(list, p.outcomes);
  }

  /** Only handled records are replaced; the rest are still the input's. */
  lemma {:induction false} AppliedAt(list: seq<BackupManga>, outcomes: seq<Option<Outcome>>)
    requires |outcomes| <= |list| && OutcomesFit(list, outcomes)
    ensures forall i :: |outcomes| <= i < |list| ==> Applied(list, outcomes)[i] == list[i]
    decreases |outcomes|
  {
    if outcomes != [] {
      AppliedAt(list, outcomes[..|outcomes| - 1]);
    }
  }

  /** Storing the input's record at the next position changes nothing. */
  lemma AppliedUnchangedAt(list: seq<BackupManga>, outcomes: seq<Option<Outcome>>)
    requires |outcomes| < |list| && OutcomesFit(list, outcomes)
    ensures Applied(list, outcomes)[|outcomes| := list[|outcomes|]] == Applied(list, outcomes)
  {
    AppliedAt(list, outcomes);
  }

  /** The state after the first n iterations is what their outcomes make of the list. */
  lemma {:induction false} RewriteReported(
    list: seq<BackupManga>, mangaIds: IdMap, chapterIds: IdMap, isUuid: string -> bool, n: nat)
    requires n <= |list| && RewriteUpTo(list, n, mangaIds, chapterIds, isUuid).Ok?
    ensures Reported(list, RewriteUpTo(list, n, mangaIds, chapterIds, isUuid).value)
    decreases n
  {
    if n > 0 {
      RewriteReported(list, mangaIds, chapterIds, isUuid, n - 1);
      var p := RewriteUpTo(list, n - 1, mangaIds, chapterIds, isUuid).value;
      var m := list[n - 1];
      if IsMangaDex(m.source) {
        var step := RewriteRecord(m.url, ChapterUrls(m.chapters), Ok(HistoryUrls(m.history)), mangaIds, p.chapterIds, isUuid);
        AdvanceReported(list, n - 1, p, step.value.0, step.value.1);
      } else {
        SkipReported(list, n - 1, p);
      }
    }
  }

  lemma {:induction false} OutcomesFitAt(list: seq<BackupManga>, outcomes: seq<Option<Outcome>>)
    requires |outcomes| <= |list| && OutcomesFit(list, outcomes)
    ensures forall i :: 0 <= i < |outcomes| && outcomes[i].Some? ==> FitsRecord(list[i], outcomes[i].value)
    decreases |outcomes|
  {
    if outcomes != [] {
      var k := |outcomes| - 1;
      OutcomesFitAt(list, outcomes[..k]);
      assert forall i :: 0 <= i < k ==> outcomes[..k][i] == outcomes[i];
    }
  }

  /** A record has an outcome exactly when its source is one of the MangaDex sources. */
  lemma {:induction false} HandledAt(list: seq<BackupManga>, outcomes: seq<Option<Outcome>>)
    requires |outcomes| <= |list| && HandledExactly(list, outcomes)
    ensures forall i :: 0 <= i < |outcomes| ==> (outcomes[i].None? <==> !IsMangaDex(list[i].source))
    decreases |outcomes|
  {
    if outcomes != [] {
      var k := |outcomes| - 1;
      HandledAt(list, outcomes[..k]);
      assert forall i :: 0 <= i < k ==> outcomes[..k][i] == outcomes[i];
    }
  }

  /** Record i of the stored list is record i of the input with its outcome applied. */
  lemma {:induction false} AppliedEach(list: seq<BackupManga>, outcomes: seq<Option<Outcome>>)
    requires |outcomes| <= |list| && OutcomesFit(list, outcomes)
    ensures forall i :: 0 <= i < |outcomes| && outcomes[i].Some? ==> FitsRecord(list[i], outcomes[i].value)
    ensures forall i :: 0 <= i < |outcomes| ==> Applied(list, outcomes)[i] == ApplyOutcome(list[i], outcomes[i])
    decreases |outcomes|
  {
    OutcomesFitAt(list, outcomes);
    if outcomes != [] {
      var k := |outcomes| - 1;
      AppliedEach(list, outcomes[..k]);
      assert forall i :: 0 <= i < k ==> outcomes[..k][i] == outcomes[i];
    }
  }

  /** Migration never changes a record's source or favourite flag. */
  lemma AppliedKeepsSourceAndFavourite(list: seq<BackupManga>, outcomes: seq<Option<Outcome>>)
    requires |outcomes| <= |list| && OutcomesFit(list, outcomes)
    ensures forall i :: 0 <= i < |list| ==>
              Applied(list, outcomes)[i].source == list[i].source && Applied(list, outcomes)[i].favorite == list[i].favorite
  {
    AppliedEach(list, outcomes);
    AppliedAt(list, outcomes);
    forall i | 0 <= i < |outcomes| && outcomes[i].Some? {
      ApplyKeeps(list[i], outcomes[i].value);
    }
  }

  /**
   * Each counted record (a favourite of an allowed source) lands in exactly one of the three lists
   * or is migrated, so the sizes add up to the proto total of the records handled.
   */
  lemma {:induction false} EntriesCount(list: seq<BackupManga>, outcomes: seq<Option<Outcome>>)
    requires |outcomes| <= |list| && OutcomesFit(list, outcomes) && HandledExactly(list, outcomes)
    ensures |Entries(list, outcomes, InAlreadyMigrated)| + |Entries(list, outcomes, InMissingMangaId)|
              + |Entries(list, outcomes, InMissingChapterId)| + MigratedCount(list, outcomes)
            == ProtoTotalDexManga(list[..|outcomes|])
    decreases |outcomes|
  {
    if outcomes != [] {
      var k := |outcomes| - 1;
      EntriesCount(list, outcomes[..k]);
      assert list[..k + 1][..k] == list[..k];
    }
  }

  // ---------------------------------------------------------------- processProtoBackup

  /** `fileName.replace(".proto.gz", "_modified.proto.gz")`. */
  function ProtoOutputName(fileName: string): string {
    Replace(fileName, ".proto.gz", "_modified.proto.gz")
  }

  /**
   * `processProtoBackup` on the decoded backup: the collect pass, the manga lookup, the chapter
   * lookup, then the rewrite pass; the first exception ends the run.
   */
  function Process(decoded: Result<Backup>, fileName: string, isUuid: string -> bool, api: MappingApi): Result<ProtoMigrationResult> {
    var backup :- decoded;
    var maps :- Collect(backup.backupManga, isUuid);
    var mangaIds :- LookupOrThrow(IdType.Manga, maps.0, api);
    var chapterIds :- LookupOrThrow(IdType.Chapter, maps.1, api);
    var pass :- Rewrite(backup.backupManga, mangaIds, chapterIds, isUuid);
    Ok(ProtoMigrationResult(
      backup.(backupManga := pass.records),
      ProtoOutputName(fileName),
      pass.alreadyMigrated, pass.missingMangaId, pass.missingChapterId))
  }

  /** `processProtoBackup`: the two passes and the two lookups, in place on the manga list. */
  method ProcessProtoBackup(decoded: Result<Backup>, fileName: string, isUuid: string -> bool, api: MappingApi)
    returns (r: Result<ProtoMigrationResult>)
    ensures r == Process(decoded, fileName, isUuid, api)
  {
    if decoded.Err? {
      return Err(decoded.error);
    }
    var backup := decoded.value;
    var maps := CollectIds(backup.backupManga, isUuid);
    if maps.Err? {
      return Err(maps.error);
    }
    var mangaIdMap := Lookup(IdType.Manga, maps.value.0, api);
    if mangaIdMap.Err? {
      return Err(mangaIdMap.error);
    }
    var chapterIdMap := Lookup(IdType.Chapter, maps.value.1, api);
    if chapterIdMap.Err? {
      return Err(chapterIdMap.error);
    }
    var report := RewriteRecords(backup.backupManga, mangaIdMap.value, chapterIdMap.value, isUuid);
    if report.Err? {
      return Err(report.error);
    }
    return Ok(ProtoMigrationResult(
      backup.(backupManga := report.value.records),
      ProtoOutputName(fileName),
      report.value.alreadyMigrated, report.value.missingMangaId, report.value.missingChapterId));
  }

  // ---------------------------------------------------------------- what processProtoBackup promises

  /** After a successful collect pass the rewrite pass cannot throw, whatever the lookups returned. */
  lemma {:induction false} RewriteUpToOk(
    list: seq<BackupManga>, mangaIds: IdMap, chapterIds: IdMap, isUuid: string -> bool, n: nat)
    requires n <= |list| && forall i :: 0 <= i < n ==> CollectableRecord(list[i], isUuid)
    ensures RewriteUpTo(list, n, mangaIds, chapterIds, isUuid).Ok?
    decreases n
  {
    if n > 0 {
      RewriteUpToOk(list, mangaIds, chapterIds, isUuid, n - 1);
      var m := list[n - 1];
      if IsMangaDex(m.source) {
        var p := RewriteUpTo(list, n - 1, mangaIds, chapterIds, isUuid).value;
        CollectableRewrites(m.url, ChapterUrls(m.chapters), Ok(HistoryUrls(m.history)), mangaIds, p.chapterIds, isUuid);
      }
    }
  }

  /**
   * The rewrite pass over the whole list: it keeps the list's length and order; a record of another
   * source is returned untouched; a MangaDex record is replaced by itself with its outcome applied
   * (so only a migrated record changes, and only in its URLs); the lists hold the entries of the
   * favourites with each outcome; every counted record is in exactly one list or migrated; and the
   * proto total of the output equals that of the input.
   */
  lemma RewriteSpec(list: seq<BackupManga>, mangaIds: IdMap, chapterIds: IdMap, isUuid: string -> bool)
    requires Rewrite(list, mangaIds, chapterIds, isUuid).Ok?
    ensures var p := Rewrite(list, mangaIds, chapterIds, isUuid).value;
            && |p.records| == |list| && |p.outcomes| == |list|
            && (forall i :: 0 <= i < |list| && !IsMangaDex(list[i].source) ==> p.records[i] == list[i])
            && (forall i :: 0 <= i < |list| && IsMangaDex(list[i].source) ==>
                  && p.outcomes[i].Some? && FitsRecord(list[i], p.outcomes[i].value)
                  && p.records[i] == Apply(list[i], p.outcomes[i].value))
            && OutcomesFit(list, p.outcomes)
            && p.alreadyMigrated == Entries(list, p.outcomes, InAlreadyMigrated)
            && p.missingMangaId == Entries(list, p.outcomes, InMissingMangaId)
            && p.missingChapterId == Entries(list, p.outcomes, InMissingChapterId)
            && |p.alreadyMigrated| + |p.missingMangaId| + |p.missingChapterId| + MigratedCount(list, p.outcomes)
                 == ProtoTotalDexManga(list)
            && ProtoTotalDexManga(p.records) == ProtoTotalDexManga(list)
  {
    var p := Rewrite(list, mangaIds, chapterIds, isUuid).value;
    RewriteReported(list, mangaIds, chapterIds, isUuid, |list|);
    HandledAt(list, p.outcomes);
    AppliedEach(list, p.outcomes);
    EntriesCount(list, p.outcomes);
    assert list[..|list|] == list;
    AppliedKeepsSourceAndFavourite(list, p.outcomes);
    ProtoTotalOnlyReadsSourceAndFavourite(p.records, list);
  }

  /**
   * The outcome of a MangaDex record is what the one-record rewrite gives it with the chapter map
   * the earlier records left behind, so RewriteRecordSpec says what it means.
   */
  lemma RewriteOutcomeOf(list: seq<BackupManga>, mangaIds: IdMap, chapterIds: IdMap, isUuid: string -> bool, i: nat)
    requires i < |list| && IsMangaDex(list[i].source) && Rewrite(list, mangaIds, chapterIds, isUuid).Ok?
    ensures RewriteUpTo(list, i, mangaIds, chapterIds, isUuid).Ok?
    ensures var m := list[i];
            var step := RewriteRecord(m.url, ChapterUrls(m.chapters), Ok(HistoryUrls(m.history)), mangaIds,
                          RewriteUpTo(list, i, mangaIds, chapterIds, isUuid).value.chapterIds, isUuid);
            && step.Ok?
            && Rewrite(list, mangaIds, chapterIds, isUuid).value.outcomes[i] == Some(step.value.0)
  {
    RewriteOutcome(list, mangaIds, chapterIds, isUuid, i, |list|);
  }

  /**
   * `processProtoBackup` fails exactly when the input cannot be decoded, a MangaDex record has an
   * unreadable legacy ID, or one of the two lookups fails (then with "try again plz"). On success
   * the sources are untouched, the manga list is the rewrite pass's, the name is rewritten, and the
   * migrated count reported is the number of counted records actually migrated, never negative.
   */
  lemma ProcessSpec(decoded: Result<Backup>, fileName: string, isUuid: string -> bool, api: MappingApi)
    ensures var r := Process(decoded, fileName, isUuid, api);
            r.Ok? <==>
              && decoded.Ok?
              && Collect(decoded.value.backupManga, isUuid).Ok?
              && Converted(IdType.Manga, Collect(decoded.value.backupManga, isUuid).value.0, api).Some?
              && Converted(IdType.Chapter, Collect(decoded.value.backupManga, isUuid).value.1, api).Some?
    ensures decoded.Ok? ==>
              (Collect(decoded.value.backupManga, isUuid).Ok? <==>
                 forall i :: 0 <= i < |decoded.value.backupManga| ==> CollectableRecord(decoded.value.backupManga[i], isUuid))
    ensures decoded.Err? ==> Process(decoded, fileName, isUuid, api) == Err(decoded.error)
    ensures decoded.Ok? && Collect(decoded.value.backupManga, isUuid).Ok? &&
            (Converted(IdType.Manga, Collect(decoded.value.backupManga, isUuid).value.0, api).None? ||
             Converted(IdType.Chapter, Collect(decoded.value.backupManga, isUuid).value.1, api).None?) ==>
              Process(decoded, fileName, isUuid, api) == Err(IllegalState("try again plz"))
    ensures var r := Process(decoded, fileName, isUuid, api);
            r.Ok? ==>
              && r.value.backup.backupSources == decoded.value.backupSources
              && r.value.backup.backupBrokenSources == decoded.value.backupBrokenSources
              && r.value.fileName == ProtoOutputName(fileName)
              && |r.value.backup.backupManga| == |decoded.value.backupManga|
              && (forall i :: 0 <= i < |decoded.value.backupManga| && !IsMangaDex(decoded.value.backupManga[i].source) ==>
                    r.value.backup.backupManga[i] == decoded.value.backupManga[i])
              && ProtoTotalDexManga(r.value.backup.backupManga) == ProtoTotalDexManga(decoded.value.backupManga)
              && ProtoMigrated(r.value) >= 0
  {
    if decoded.Ok? {
      var list := decoded.value.backupManga;
      CollectSpec(list, isUuid);
      var maps := Collect(list, isUuid);
      if maps.Ok? {
        var mangaIds := LookupOrThrow(IdType.Manga, maps.value.0, api);
        var chapterIds := LookupOrThrow(IdType.Chapter, maps.value.1, api);
        if mangaIds.Ok? && chapterIds.Ok? {
          RewriteUpToOk(list, mangaIds.value, chapterIds.value, isUuid, |list|);
          RewriteSpec(list, mangaIds.value, chapterIds.value, isUuid);
        }
      }
    }
  }

  /**
   * `totalMigratedManga` of a successful run is exactly the number of records the rewrite pass
   * migrated, counting only the favourites of a MangaDex source, as the total does.
   */
  lemma ProcessMigratedCount(decoded: Result<Backup>, fileName: string, isUuid: string -> bool, api: MappingApi)
    requires Process(decoded, fileName, isUuid, api).Ok?
    ensures decoded.Ok? && Collect(decoded.value.backupManga, isUuid).Ok?
    ensures decoded.Ok? && Collect(decoded.value.backupManga, isUuid).Ok? ==>
              var list := decoded.value.backupManga;
              var maps := Collect(list, isUuid).value;
              && Converted(IdType.Manga, maps.0, api).Some? && Converted(IdType.Chapter, maps.1, api).Some?
              && var mangaIds := Converted(IdType.Manga, maps.0, api).value;
              var chapterIds := Converted(IdType.Chapter, maps.1, api).value;
              && Rewrite(list, mangaIds, chapterIds, isUuid).Ok?
              && ProtoMigrated(Process(decoded, fileName, isUuid, api).value) == MigratedCount(list, Rewrite(list, mangaIds, chapterIds, isUuid).value.outcomes)
  {
    ProcessSpec(decoded, fileName, isUuid, api);
    var list := decoded.value.backupManga;
    var maps := Collect(list, isUuid).value;
    RewriteSpec(list, Converted(IdType.Manga, maps.0, api).value, Converted(IdType.Chapter, maps.1, api).value, isUuid);
  }

  /** A name that ends in `.proto.gz`, with no earlier occurrence, gets `_modified` before the suffix. */
  lemma ProtoOutputNameOfStem(stem: string)
    requires forall i :: 0 <= i < |stem| ==> !OccursAt(stem + ".proto.gz", ".proto.gz", i)
    ensures ProtoOutputName(stem + ".proto.gz") == stem + "_modified.proto.gz"
  {
    ReplaceSuffix(stem, ".proto.gz", "_modified.proto.gz");
  }

  /** A name without `.proto.gz` is kept. */
  lemma ProtoOutputNameWithoutSuffix(fileName: string)
    requires forall i :: 0 <= i <= |fileName| ==> !OccursAt(fileName, ".proto.gz", i)
    ensures ProtoOutputName(fileName) == fileName
  {
    ReplaceAbsent(fileName, ".proto.gz", "_modified.proto.gz");
  }
}
