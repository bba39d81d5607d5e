/**
 * The per-record steps the two-pass engine runs for both backup formats, on the URLs of one manga
 * record: collecting its legacy IDs, and rewriting its manga, chapter and history URLs once the
 * new IDs are known.
 */
module MigratorSteps {
  import opened Wrappers
  import opened KotlinText
  import opened IdMaps

  const ChapterPrefix: string := "/chapter/"
  const MangaPrefix: string := "/manga/"

  /** A chapter or history URL that is already in the new form. */
  predicate IsMigratedChapterUrl(url: string) {
    StartsWith(url, ChapterPrefix)
  }

  /** `url.split("/")[3].toInt()`, the legacy chapter ID of a URL such as `/api/chapter/6789`. */
  function LegacyChapterId(url: string): Result<Int32> {
    var field :- Segment(url, 3);
    ToInt(field)
  }

  /** Every URL that is not yet migrated carries a readable legacy chapter ID. */
  predicate AllLegacyIdsReadable(urls: seq<string>) {
    forall j :: 0 <= j < |urls| && !IsMigratedChapterUrl(urls[j]) ==> LegacyChapterId(urls[j]).Ok?
  }

  // ---------------------------------------------------------------- collect pass

  /** The loop over chapter (or history) URLs of the collect pass: `chapterIdMap[oldChapterId] = null`. */
  function CollectUrls(urls: seq<string>, acc: IdMap): Result<IdMap>
    decreases |urls|
  {
    if urls == [] then Ok(acc)
    else if IsMigratedChapterUrl(urls[0]) then CollectUrls(urls[1..], acc)
    else
      var key :- LegacyChapterId(urls[0]);
      CollectUrls(urls[1..], Put(acc, key, None))
  }

  /** The legacy chapter IDs of the URLs that are not yet migrated. */
  function UrlKeys(urls: seq<string>): set<Int32>
    decreases |urls|
  {
    if urls == [] then {}
    else
      (if !IsMigratedChapterUrl(urls[0]) && LegacyChapterId(urls[0]).Ok? then {LegacyChapterId(urls[0]).value} else {})
      + UrlKeys(urls[1..])
  }

  lemma {:induction false} UrlKeysMember(urls: seq<string>, k: Int32)
    ensures k in UrlKeys(urls) <==>
              exists j :: 0 <= j < |urls| && !IsMigratedChapterUrl(urls[j]) && LegacyChapterId(urls[j]) == Ok(k)
    decreases |urls|
  {
    if urls != [] {
      UrlKeysMember(urls[1..], k);
      if exists j :: 1 <= j < |urls| && !IsMigratedChapterUrl(urls[j]) && LegacyChapterId(urls[j]) == Ok(k) {
        var j :| 1 <= j < |urls| && !IsMigratedChapterUrl(urls[j]) && LegacyChapterId(urls[j]) == Ok(k);
        assert urls[1..][j - 1] == urls[j];
      }
      if exists j :: 0 <= j < |urls[1..]| && !IsMigratedChapterUrl(urls[1..][j]) && LegacyChapterId(urls[1..][j]) == Ok(k) {
        var j :| 0 <= j < |urls[1..]| && !IsMigratedChapterUrl(urls[1..][j]) && LegacyChapterId(urls[1..][j]) == Ok(k);
        assert urls[j + 1] == urls[1..][j];
      }
    }
  }

  lemma AllLegacyIdsReadableTail(urls: seq<string>)
    requires urls != []
    ensures AllLegacyIdsReadable(urls) <==>
              (!IsMigratedChapterUrl(urls[0]) ==> LegacyChapterId(urls[0]).Ok?) && AllLegacyIdsReadable(urls[1..])
  {
    assert forall j :: 1 <= j < |urls| ==> urls[1..][j - 1] == urls[j];
  }

  /**
   * The URL loop of the collect pass fails exactly when a URL that is not yet migrated has no
   * readable legacy ID; otherwise it adds exactly those IDs as keys, each mapped to null.
   */
  lemma {:induction false} CollectUrlsSpec(urls: seq<string>, acc: IdMap)
    ensures CollectUrls(urls, acc).Ok? <==> AllLegacyIdsReadable(urls)
    ensures CollectUrls(urls, acc).Ok? ==>
              var r := CollectUrls(urls, acc).value;
              && Keys(r) == Keys(acc) + UrlKeys(urls)
              && (Valid(acc) ==> Valid(r))
              && (acc.ids == map[] ==> r.ids == map[])
    decreases |urls|
  {
    if urls != [] {
      AllLegacyIdsReadableTail(urls);
      if IsMigratedChapterUrl(urls[0]) {
        CollectUrlsSpec(urls[1..], acc);
      } else if LegacyChapterId(urls[0]).Ok? {
        var key := LegacyChapterId(urls[0]).value;
        CollectUrlsSpec(urls[1..], Put(acc, key, None));
      }
    }
  }

  /** The loop over one record's chapter or history URLs in the collect pass. */
  method CollectChapterIds(urls: seq<string>, chapterIds: IdMap) returns (r: Result<IdMap>)
    ensures r == CollectUrls(urls, chapterIds)
  {
    var acc := chapterIds;
    var i := 0;
    while i < |urls|
      invariant 0 <= i <= |urls|
      invariant CollectUrls(urls, chapterIds) == CollectUrls(urls[i..], acc)
    {
      assert urls[i..][0] == urls[i];
      assert urls[i..][1..] == urls[i + 1..];
      if !IsMigratedChapterUrl(urls[i]) {
        var key := LegacyChapterId(urls[i]);
        if key.Err? {
          return Err(key.error);
        }
        acc := Put(acc, key.value, None);
      }
      i := i + 1;
    }
    return Ok(acc);
  }

  /**
   * The collect step for one record of an allowed source: segment 2 of the manga URL is read; a
   * UUID there means the record is already migrated and adds nothing; otherwise the legacy manga ID
   * and the legacy IDs of its chapter URLs, then of its history URLs, become keys mapped to null.
   * The history list is a Result because the legacy JSON record computes it only at that point.
   */
  function CollectRecord(
    url: string, chapterUrls: seq<string>, historyUrls: Result<seq<string>>,
    mangaIds: IdMap, chapterIds: IdMap, isUuid: string -> bool): Result<(IdMap, IdMap)>
  {
    var oldMangaId :- Segment(url, 2);
    if isUuid(oldMangaId) then Ok((mangaIds, chapterIds))
    else
      var key :- ToInt(oldMangaId);
      var afterChapters :- CollectUrls(chapterUrls, chapterIds);
      var history :- historyUrls;
      var afterHistory :- CollectUrls(history, afterChapters);
      Ok((Put(mangaIds, key, None), afterHistory))
  }

  /** `url.split("/")[2].toInt()` for a manga URL whose segment 2 is not a UUID; None otherwise. */
  function MangaKey(url: string, isUuid: string -> bool): (r: Option<Int32>)
    ensures r.Some? <==> Segment(url, 2).Ok? && !isUuid(Segment(url, 2).value) && ToInt(Segment(url, 2).value).Ok?
    ensures r.Some? ==> ToInt(Segment(url, 2).value) == Ok(r.value)
  {
    if Segment(url, 2).Ok? && !isUuid(Segment(url, 2).value) && ToInt(Segment(url, 2).value).Ok?
    then Some(ToInt(Segment(url, 2).value).value)
    else None
  }

  /** The legacy manga ID a record contributes: segment 2 of its URL when that is not a UUID. */
  function RecordMangaKeys(url: string, isUuid: string -> bool): set<Int32> {
    if MangaKey(url, isUuid).Some? then {MangaKey(url, isUuid).value} else {}
  }

  /** The legacy chapter IDs a record contributes: those of its chapter and history URLs not yet migrated. */
  function RecordChapterKeys(
    url: string, chapterUrls: seq<string>, historyUrls: Result<seq<string>>, isUuid: string -> bool): set<Int32>
  {
    if Segment(url, 2).Ok? && !isUuid(Segment(url, 2).value)
    then UrlKeys(chapterUrls) + (if historyUrls.Ok? then UrlKeys(historyUrls.value) else {})
    else {}
  }

  /** The collect step of a record does not throw. */
  predicate Collectable(url: string, chapterUrls: seq<string>, historyUrls: Result<seq<string>>, isUuid: string -> bool) {
    && Segment(url, 2).Ok?
    && (isUuid(Segment(url, 2).value) ||
        (&& ToInt(Segment(url, 2).value).Ok?
         && AllLegacyIdsReadable(chapterUrls)
         && historyUrls.Ok?
         && AllLegacyIdsReadable(historyUrls.value)))
  }

  /**
   * The collect step fails exactly when the record is not collectable; otherwise it adds exactly the
   * record's manga and chapter keys, leaves the maps valid and adds no value.
   */
  lemma CollectRecordSpec(
    url: string, chapterUrls: seq<string>, historyUrls: Result<seq<string>>,
    mangaIds: IdMap, chapterIds: IdMap, isUuid: string -> bool)
    ensures CollectRecord(url, chapterUrls, historyUrls, mangaIds, chapterIds, isUuid).Ok? <==>
              Collectable(url, chapterUrls, historyUrls, isUuid)
    ensures CollectRecord(url, chapterUrls, historyUrls, mangaIds, chapterIds, isUuid).Ok? ==>
              var (m, c) := CollectRecord(url, chapterUrls, historyUrls, mangaIds, chapterIds, isUuid).value;
              && Keys(m) == Keys(mangaIds) + RecordMangaKeys(url, isUuid)
              && Keys(c) == Keys(chapterIds) + RecordChapterKeys(url, chapterUrls, historyUrls, isUuid)
              && (Valid(mangaIds) ==> Valid(m)) && (Valid(chapterIds) ==> Valid(c))
              && (mangaIds.ids == map[] ==> m.ids == map[]) && (chapterIds.ids == map[] ==> c.ids == map[])
  {
    CollectUrlsSpec(chapterUrls, chapterIds);
    if CollectUrls(chapterUrls, chapterIds).Ok? && historyUrls.Ok? {
      CollectUrlsSpec(historyUrls.value, CollectUrls(chapterUrls, chapterIds).value);
    }
  }

  /** One record of the collect pass, run in place on the two maps. */
  method CollectRecordIds(
    url: string, chapterUrls: seq<string>, historyUrls: Result<seq<string>>,
    mangaIds: IdMap, chapterIds: IdMap, isUuid: string -> bool) returns (r: Result<(IdMap, IdMap)>)
    ensures r == CollectRecord(url, chapterUrls, historyUrls, mangaIds, chapterIds, isUuid)
  {
    var oldMangaId := Segment(url, 2);
    if oldMangaId.Err? {
      return Err(oldMangaId.error);
    }
    if isUuid(oldMangaId.value) {
      // don't bother if it's already migrated
      return Ok((mangaIds, chapterIds));
    }
    var key := ToInt(oldMangaId.value);
    if key.Err? {
      return Err(key.error);
    }
    var mangaIdMap := Put(mangaIds, key.value, None);
    var afterChapters := CollectChapterIds(chapterUrls, chapterIds);
    if afterChapters.Err? {
      return Err(afterChapters.error);
    }
    if historyUrls.Err? {
      return Err(historyUrls.error);
    }
    var afterHistory := CollectChapterIds(historyUrls.value, afterChapters.value);
    if afterHistory.Err? {
      return Err(afterHistory.error);
    }
    return Ok((mangaIdMap, afterHistory.value));
  }

  // ---------------------------------------------------------------- rewrite pass: chapters

  /** How the chapter loop of the rewrite pass ends. */
  datatype ChapterPass =
    | Missing(index: nat, chapterIds: IdMap)          // `break` at the first chapter without a new ID
    | AllMigrated(urls: seq<string>, chapterIds: IdMap)

  /**
   * The chapter loop from position i on: a URL not yet migrated gets `/chapter/<new ID>` and its key
   * is then set back to null (line 182 of the common engine); the first one without a new ID stops
   * the loop.
   */
  function ChaptersFrom(urls: seq<string>, i: nat, chapterIds: IdMap): (r: Result<ChapterPass>)
    requires i <= |urls|
    ensures r.Ok? && r.value.AllMigrated? ==> |r.value.urls| == |urls|
    ensures r.Ok? && r.value.Missing? ==> i <= r.value.index < |urls|
    decreases |urls| - i
  {
    if i == |urls| then Ok(AllMigrated(urls, chapterIds))
    else if IsMigratedChapterUrl(urls[i]) then ChaptersFrom(urls, i + 1, chapterIds)
    else
      var key :- LegacyChapterId(urls[i]);
      match Get(chapterIds, key)
      case None => Ok(Missing(i, chapterIds))
      case Some(newId) => ChaptersFrom(urls[i := ChapterPrefix + newId], i + 1, Put(chapterIds, key, None))
  }

  /** `after` is what the rewrite makes of chapter URL `before` when the map holds `chapterIds`. */
  predicate ChapterRewritten(before: string, after: string, chapterIds: IdMap) {
    if IsMigratedChapterUrl(before) then after == before
    else
      && LegacyChapterId(before).Ok?
      && Get(chapterIds, LegacyChapterId(before).value).Some?
      && after == ChapterPrefix + Get(chapterIds, LegacyChapterId(before).value).value
  }

  /** `m` holds a subset of the values of `base`, each unchanged. */
  predicate Cleared(m: IdMap, base: IdMap) {
    forall k :: Get(m, k).Some? ==> Get(m, k) == Get(base, k)
  }

  /**
   * The chapter loop fails only on an unreadable legacy ID and succeeds when every ID is readable.
   * When every chapter is found, each URL not yet migrated becomes `/chapter/<its new ID>` as the
   * map held it at the start, migrated URLs stay, and every key used has been cleared. When one is
   * missing, it is the first chapter not yet migrated whose key holds null, and every earlier one
   * was found. Either way the loop only clears values.
   */
  lemma {:induction false} ChaptersFromSpec(urls: seq<string>, i: nat, chapterIds: IdMap)
    requires i <= |urls|
    ensures var r := ChaptersFrom(urls, i, chapterIds);
            && ((forall j :: i <= j < |urls| && !IsMigratedChapterUrl(urls[j]) ==> LegacyChapterId(urls[j]).Ok?) ==> r.Ok?)
            && (r.Err? ==> exists j :: i <= j < |urls| && !IsMigratedChapterUrl(urls[j]) && LegacyChapterId(urls[j]).Err?)
            && (r.Ok? ==> Cleared(r.value.chapterIds, chapterIds))
            && (r.Ok? && r.value.AllMigrated? ==>
                  && (forall j :: 0 <= j < i ==> r.value.urls[j] == urls[j])
                  && (forall j :: i <= j < |urls| ==> ChapterRewritten(urls[j], r.value.urls[j], chapterIds))
                  && (forall j :: i <= j < |urls| && !IsMigratedChapterUrl(urls[j]) ==>
                        Get(r.value.chapterIds, LegacyChapterId(urls[j]).value).None?))
            && (r.Ok? && r.value.Missing? ==>
                  && !IsMigratedChapterUrl(urls[r.value.index])
                  && LegacyChapterId(urls[r.value.index]).Ok?
                  && Get(r.value.chapterIds, LegacyChapterId(urls[r.value.index]).value).None?
                  && (forall j :: i <= j < r.value.index && !IsMigratedChapterUrl(urls[j]) ==>
                        LegacyChapterId(urls[j]).Ok? && Get(chapterIds, LegacyChapterId(urls[j]).value).Some?))
    decreases |urls| - i
  {
    if i < |urls| {
      if IsMigratedChapterUrl(urls[i]) {
        ChaptersFromSpec(urls, i + 1, chapterIds);
      } else if LegacyChapterId(urls[i]).Ok? {
        var key := LegacyChapterId(urls[i]).value;
        if Get(chapterIds, key).Some? {
          var newId := Get(chapterIds, key).value;
          var next := urls[i := ChapterPrefix + newId];
          var cleared := Put(chapterIds, key, None);
          ChaptersFromSpec(next, i + 1, cleared);
          assert forall j :: i < j < |urls| ==> next[j] == urls[j];
          assert Cleared(cleared, chapterIds);
          var r := ChaptersFrom(next, i + 1, cleared);
          assert r == ChaptersFrom(urls, i, chapterIds);
          if r.Ok? && r.value.AllMigrated? {
            assert r.value.urls[i] == ChapterPrefix + newId;
            forall j | i < j < |urls| ensures ChapterRewritten(urls[j], r.value.urls[j], chapterIds) {
              assert ChapterRewritten(next[j], r.value.urls[j], cleared);
            }
          }
        }
      }
    }
  }

  /** The chapter loop of one record, rewriting its chapter URLs in place. */
  method MigrateChapterUrls(urls: seq<string>, chapterIds: IdMap) returns (r: Result<ChapterPass>)
    ensures r == ChaptersFrom(urls, 0, chapterIds)
  {
    var chapters := urls;
    var chapterIdMap := chapterIds;
    var i := 0;
    while i < |chapters|
      invariant 0 <= i <= |chapters|
      invariant ChaptersFrom(urls, 0, chapterIds) == ChaptersFrom(chapters, i, chapterIdMap)
      decreases |chapters| - i
    {
      if !IsMigratedChapterUrl(chapters[i]) {
        var oldChapterId := LegacyChapterId(chapters[i]);
        if oldChapterId.Err? {
          return Err(oldChapterId.error);
        }
        var newChapterId := Get(chapterIdMap, oldChapterId.value);
        if newChapterId.None? {
          return Ok(Missing(i, chapterIdMap));
        }
        chapters := chapters[i := ChapterPrefix + newChapterId.value];
        chapterIdMap := Put(chapterIdMap, oldChapterId.value, None);
      }
      i := i + 1;
    }
    return Ok(AllMigrated(chapters, chapterIdMap));
  }

  // ---------------------------------------------------------------- rewrite pass: history

  /** The history loop from position i on: rewritten where the map holds a new ID, kept otherwise. */
  function HistoryFrom(urls: seq<string>, i: nat, chapterIds: IdMap): (r: Result<seq<string>>)
    requires i <= |urls|
    ensures r.Ok? ==> |r.value| == |urls|
    decreases |urls| - i
  {
    if i == |urls| then Ok(urls)
    else if IsMigratedChapterUrl(urls[i]) then HistoryFrom(urls, i + 1, chapterIds)
    else
      var key :- LegacyChapterId(urls[i]);
      match Get(chapterIds, key)
      case Some(newId) => HistoryFrom(urls[i := ChapterPrefix + newId], i + 1, chapterIds)
      case None => HistoryFrom(urls, i + 1, chapterIds)
  }

  /** What becomes of one history URL: `/chapter/<new ID>` when the map holds one, the URL itself otherwise. */
  function HistoryUrl(url: string, chapterIds: IdMap): string {
    if IsMigratedChapterUrl(url) || LegacyChapterId(url).Err? then url
    else
      match Get(chapterIds, LegacyChapterId(url).value)
      case Some(newId) => ChapterPrefix + newId
      case None => url
  }

  /**
   * The history loop fails exactly when a URL not yet migrated has no readable legacy ID; otherwise
   * every URL from position i on is rewritten independently of the others and nothing is dropped.
   */
  lemma {:induction false} HistoryFromSpec(urls: seq<string>, i: nat, chapterIds: IdMap)
    requires i <= |urls|
    ensures HistoryFrom(urls, i, chapterIds).Ok? <==>
              forall j :: i <= j < |urls| && !IsMigratedChapterUrl(urls[j]) ==> LegacyChapterId(urls[j]).Ok?
    ensures HistoryFrom(urls, i, chapterIds).Ok? ==>
              var r := HistoryFrom(urls, i, chapterIds).value;
              && (forall j :: 0 <= j < i ==> r[j] == urls[j])
              && (forall j :: i <= j < |urls| ==> r[j] == HistoryUrl(urls[j], chapterIds))
    decreases |urls| - i
  {
    if i < |urls| {
      if IsMigratedChapterUrl(urls[i]) {
        HistoryFromSpec(urls, i + 1, chapterIds);
      } else if LegacyChapterId(urls[i]).Ok? {
        var key := LegacyChapterId(urls[i]).value;
        match Get(chapterIds, key)
        case Some(newId) =>
          var next := urls[i := ChapterPrefix + newId];
          HistoryFromSpec(next, i + 1, chapterIds);
          assert forall j :: i < j < |urls| ==> next[j] == urls[j];
        case None =>
          HistoryFromSpec(urls, i + 1, chapterIds);
      }
    }
  }

  /** The history loop of one record, rewriting its history URLs in place. */
  method MigrateHistoryUrls(urls: seq<string>, chapterIds: IdMap) returns (r: Result<seq<string>>)
    ensures r == HistoryFrom(urls, 0, chapterIds)
  {
    var history := urls;
    var i := 0;
    while i < |history|
      invariant 0 <= i <= |history|
      invariant HistoryFrom(urls, 0, chapterIds) == HistoryFrom(history, i, chapterIds)
      decreases |history| - i
    {
      if !IsMigratedChapterUrl(history[i]) {
        var oldChapterId := LegacyChapterId(history[i]);
        if oldChapterId.Err? {
          return Err(oldChapterId.error);
        }
        var newChapterId := Get(chapterIds, oldChapterId.value);
        if newChapterId.Some? {
          history := history[i := ChapterPrefix + newChapterId.value];
        }
      }
      i := i + 1;
    }
    return Ok(history);
  }

  // ---------------------------------------------------------------- rewrite pass: one record

  /** What the rewrite pass does with one record of an allowed source. */
  datatype Outcome =
    | AlreadyMigrated
    | MissingManga
    | MissingChapter(index: nat)
    | Migrated(url: string, chapterUrls: seq<string>, historyUrls: seq<string>)

  /** A missing chapter's index names a chapter; a migrated record keeps its numbers of chapters and history entries. */
  predicate Fits(o: Outcome, chapterCount: nat, historyUrls: Result<seq<string>>) {
    && (o.MissingChapter? ==> o.index < chapterCount)
    && (o.Migrated? ==> |o.chapterUrls| == chapterCount && historyUrls.Ok? && |o.historyUrls| == |historyUrls.value|)
  }

  /** Where the change lands in each list of titles. */
  datatype Listing = InAlreadyMigrated | InMissingMangaId | InMissingChapterId | InMigrated

  function ListingOf(o: Outcome): Listing {
    match o
    case AlreadyMigrated => InAlreadyMigrated
    case MissingManga => InMissingMangaId
    case MissingChapter(_) => InMissingChapterId
    case Migrated(_, _, _) => InMigrated
  }

  /** `convertMapping(…) ?: throw IllegalStateException("try again plz")`. */
  function LookupOrThrow(kind: IdType, m: IdMap, api: MappingApi): (r: Result<IdMap>)
    ensures r.Ok? <==> Converted(kind, m, api).Some?
    ensures r.Ok? ==> r.value == Converted(kind, m, api).value
    ensures r.Err? ==> r.error == IllegalState("try again plz")
  {
    match Converted(kind, m, api)
    case None => Err(IllegalState("try again plz"))
    case Some(ids) => Ok(ids)
  }

  /** The lookup that `LookupOrThrow` specifies, with the request loop. */
  method Lookup(kind: IdType, m: IdMap, api: MappingApi) returns (r: Result<IdMap>)
    ensures r == LookupOrThrow(kind, m, api)
  {
    var converted := ConvertMapping(kind, m, api);
    if converted.None? {
      return Err(IllegalState("try again plz"));
    }
    return Ok(converted.value);
  }

  /**
   * The rewrite step for one record of an allowed source: a UUID in segment 2 means it is already
   * migrated; a legacy ID without a new one means the manga is missing; otherwise the chapter loop
   * runs, and only when every chapter is found does the history loop run and the record change.
   */
  function RewriteRecord(
    url: string, chapterUrls: seq<string>, historyUrls: Result<seq<string>>,
    mangaIds: IdMap, chapterIds: IdMap, isUuid: string -> bool): (r: Result<(Outcome, IdMap)>)
    ensures r.Ok? ==> Fits(r.value.0, |chapterUrls|, historyUrls)
  {
    var oldMangaId :- Segment(url, 2);
    if isUuid(oldMangaId) then Ok((AlreadyMigrated, chapterIds))
    else
      var key :- ToInt(oldMangaId);
      match Get(mangaIds, key)
      case None => Ok((MissingManga, chapterIds))
      case Some(newMangaId) =>
        var pass :- ChaptersFrom(chapterUrls, 0, chapterIds);
        match pass
        case Missing(index, afterChapters) => Ok((MissingChapter(index), afterChapters))
        case AllMigrated(chapters, afterChapters) =>
          var history :- historyUrls;
          var newHistory :- HistoryFrom(history, 0, afterChapters);
          Ok((Migrated(MangaPrefix + newMangaId, chapters, newHistory), afterChapters))
  }

  /**
   * What each outcome means. Already migrated: segment 2 is a UUID, and the chapter map is untouched.
   * Missing manga: the legacy manga ID has no new ID, and the map is untouched. Missing chapter: the
   * manga was found and a chapter at that index, not yet migrated, has no new ID. Migrated: the URL
   * is `/manga/<new ID>`, every chapter URL is rewritten from the map as it was before the record,
   * their keys are cleared, and each history URL is rewritten from the map as it is after that.
   */
  lemma RewriteRecordSpec(
    url: string, chapterUrls: seq<string>, historyUrls: Result<seq<string>>,
    mangaIds: IdMap, chapterIds: IdMap, isUuid: string -> bool)
    ensures var r := RewriteRecord(url, chapterUrls, historyUrls, mangaIds, chapterIds, isUuid);
            r.Ok? ==>
            && Segment(url, 2).Ok?
            && (r.value.0.AlreadyMigrated? <==> isUuid(Segment(url, 2).value))
            && (!r.value.0.AlreadyMigrated? ==> ToInt(Segment(url, 2).value).Ok?)
            && Cleared(r.value.1, chapterIds)
            && (r.value.0.AlreadyMigrated? || r.value.0.MissingManga? ==> r.value.1 == chapterIds)
            && (r.value.0.MissingManga? <==>
                  !isUuid(Segment(url, 2).value) && Get(mangaIds, ToInt(Segment(url, 2).value).value).None?)
            && (r.value.0.MissingChapter? ==>
                  var j := r.value.0.index;
                  && j < |chapterUrls| && !IsMigratedChapterUrl(chapterUrls[j])
                  && LegacyChapterId(chapterUrls[j]).Ok?
                  && Get(r.value.1, LegacyChapterId(chapterUrls[j]).value).None?)
            && (r.value.0.Migrated? ==>
                  var o := r.value.0;
                  && o.url == MangaPrefix + Get(mangaIds, ToInt(Segment(url, 2).value).value).value
                  && |o.chapterUrls| == |chapterUrls|
                  && (forall j :: 0 <= j < |chapterUrls| ==> ChapterRewritten(chapterUrls[j], o.chapterUrls[j], chapterIds))
                  && (forall j :: 0 <= j < |chapterUrls| && !IsMigratedChapterUrl(chapterUrls[j]) ==>
                        Get(r.value.1, LegacyChapterId(chapterUrls[j]).value).None?)
                  && historyUrls.Ok?
                  && |o.historyUrls| == |historyUrls.value|
                  && (forall j :: 0 <= j < |o.historyUrls| ==> o.historyUrls[j] == HistoryUrl(historyUrls.value[j], r.value.1)))
  {
    if Segment(url, 2).Ok? && !isUuid(Segment(url, 2).value) && ToInt(Segment(url, 2).value).Ok? {
      ChaptersFromSpec(chapterUrls, 0, chapterIds);
      var pass := ChaptersFrom(chapterUrls, 0, chapterIds);
      if pass.Ok? && pass.value.AllMigrated? && historyUrls.Ok? {
        HistoryFromSpec(historyUrls.value, 0, pass.value.chapterIds);
      }
    }
  }

  /**
   * A record whose IDs the collect pass could read cannot make the rewrite pass throw, whatever
   * the maps hold by then.
   */
  lemma CollectableRewrites(
    url: string, chapterUrls: seq<string>, historyUrls: Result<seq<string>>,
    mangaIds: IdMap, chapterIds: IdMap, isUuid: string -> bool)
    requires Collectable(url, chapterUrls, historyUrls, isUuid)
    ensures RewriteRecord(url, chapterUrls, historyUrls, mangaIds, chapterIds, isUuid).Ok?
  {
    ChaptersFromSpec(chapterUrls, 0, chapterIds);
    var pass := ChaptersFrom(chapterUrls, 0, chapterIds);
    if !isUuid(Segment(url, 2).value) && pass.Ok? && pass.value.AllMigrated? {
      HistoryFromSpec(historyUrls.value, 0, pass.value.chapterIds);
    }
  }

  /** One record of the rewrite pass, with its chapter and history loops. */
  method RewriteRecordUrls(
    url: string, chapterUrls: seq<string>, historyUrls: Result<seq<string>>,
    mangaIds: IdMap, chapterIds: IdMap, isUuid: string -> bool) returns (r: Result<(Outcome, IdMap)>)
    ensures r == RewriteRecord(url, chapterUrls, historyUrls, mangaIds, chapterIds, isUuid)
  {
    var oldMangaId := Segment(url, 2);
    if oldMangaId.Err? {
      return Err(oldMangaId.error);
    }
    if isUuid(oldMangaId.value) {
      // don't bother if it's already migrated
      return Ok((AlreadyMigrated, chapterIds));
    }
    var key := ToInt(oldMangaId.value);
    if key.Err? {
      return Err(key.error);
    }
    var newMangaId := Get(mangaIds, key.value);
    if newMangaId.None? {
      return Ok((MissingManga, chapterIds));
    }
    var pass := MigrateChapterUrls(chapterUrls, chapterIds);
    if pass.Err? {
      return Err(pass.error);
    }
    if pass.value.Missing? {
      // missing chapter is unlikely to happen but just in case
      return Ok((MissingChapter(pass.value.index), pass.value.chapterIds));
    }
    if historyUrls.Err? {
      return Err(historyUrls.error);
    }
    var newHistory := MigrateHistoryUrls(historyUrls.value, pass.value.chapterIds);
    if newHistory.Err? {
      return Err(newHistory.error);
    }
    return Ok((Migrated(MangaPrefix + newMangaId.value, pass.value.urls, newHistory.value), pass.value.chapterIds));
  }

  // ---------------------------------------------------------------- consequences

  /**
   * Because a chapter's key is cleared as soon as the chapter is migrated, a history URL naming a
   * chapter of the same record that was just migrated keeps its legacy form.
   */
  lemma HistoryOfMigratedChapterKept(
    url: string, chapterUrls: seq<string>, historyUrls: Result<seq<string>>,
    mangaIds: IdMap, chapterIds: IdMap, isUuid: string -> bool, c: nat, h: nat)
    requires RewriteRecord(url, chapterUrls, historyUrls, mangaIds, chapterIds, isUuid).Ok?
    requires RewriteRecord(url, chapterUrls, historyUrls, mangaIds, chapterIds, isUuid).value.0.Migrated?
    requires c < |chapterUrls| && !IsMigratedChapterUrl(chapterUrls[c])
    requires historyUrls.Ok? && h < |historyUrls.value|
    requires historyUrls.value[h] == chapterUrls[c]
    ensures RewriteRecord(url, chapterUrls, historyUrls, mangaIds, chapterIds, isUuid).value.0.historyUrls[h] == historyUrls.value[h]
  {
    RewriteRecordSpec(url, chapterUrls, historyUrls, mangaIds, chapterIds, isUuid);
  }

  /**
   * Re-running the rewrite on a migrated manga URL finds the new ID in segment 2; when that ID is a
   * UUID without '/', the record counts as already migrated. Rewritten chapter URLs start with
   * `/chapter/`, so a second run leaves them alone.
   */
  lemma MigratedUrlIsAlreadyMigrated(
    newMangaId: string, chapterUrls: seq<string>, historyUrls: Result<seq<string>>,
    mangaIds: IdMap, chapterIds: IdMap, isUuid: string -> bool)
    requires '/' !in newMangaId && isUuid(newMangaId)
    ensures Segment(MangaPrefix + newMangaId, 2) == Ok(newMangaId)
    ensures RewriteRecord(MangaPrefix + newMangaId, chapterUrls, historyUrls, mangaIds, chapterIds, isUuid) ==
              Ok((AlreadyMigrated, chapterIds))
    ensures IsMigratedChapterUrl(ChapterPrefix + newMangaId)
  {
    SegmentsOfPath("manga", newMangaId);
    assert MangaPrefix + newMangaId == "/" + "manga" + "/" + newMangaId;
  }
}
