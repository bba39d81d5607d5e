/**
 * The older Android migrator: the view model that lives beside `MangaDexMigratorActivity`. It
 * examines the records of the one English MangaDex source, looks up only chapter URLs under
 * `/api/`, keeps a single list of skipped titles, rewrites no history and catches nothing.
 */
module ActivityViewModel {
  import opened Wrappers
  import opened KotlinText
  import opened SourceIds
  import opened MangaDexDao
  import VM = ViewModel
  import MS = MigratorSteps
  import MP = MigratorProto
  import MJ = MigratorJson
  import FB = FullBackup
  import G = GsonBackup

  // ---------------------------------------------------------------- the chapter loop

  /** A chapter URL this variant leaves alone, or one whose `/api/` ID the database knows. */
  predicate ApiResolves(url: string, dao: Dao) {
    !StartsWith(url, VM.ApiPrefix) || (VM.MigrateChapterUrl(url, dao).Ok? && VM.MigrateChapterUrl(url, dao).value.Some?)
  }

  /** What the chapter loop does with one URL: only an `/api/` URL is looked up, any other is kept. */
  function ApiChapterStep(url: string, dao: Dao): Result<Option<string>> {
    if StartsWith(url, VM.ApiPrefix) then VM.MigrateChapterUrl(url, dao) else Ok(Some(url))
  }

  /**
   * The chapter loop from index i on the URLs rewritten so far: null when it breaks at an `/api/`
   * chapter the database does not know, the whole rewritten list otherwise.
   */
  function ScanApiChapters(urls: seq<string>, dao: Dao, i: nat): (r: Result<Option<seq<string>>>)
    requires i <= |urls|
    ensures r.Ok? && r.value.Some? ==> |r.value.value| == |urls|
    decreases |urls| - i
  {
    if i == |urls| then Ok(Some(urls))
    else if !StartsWith(urls[i], VM.ApiPrefix) then ScanApiChapters(urls, dao, i + 1)
    else
      var newUrl :- VM.MigrateChapterUrl(urls[i], dao);
      if newUrl.None? then Ok(None) else ScanApiChapters(urls[i := newUrl.value], dao, i + 1)
  }

  /**
   * The chapter loop completes exactly when every URL from i on resolves, and then holds each
   * URL's rewrite; an exception is always a missing segment 3.
   */
  lemma {:induction false} ScanApiChaptersSpec(urls: seq<string>, dao: Dao, i: nat)
    requires i <= |urls|
    ensures var r := ScanApiChapters(urls, dao, i);
            && ((r.Ok? && r.value.Some?) <==> forall j :: i <= j < |urls| ==> ApiResolves(urls[j], dao))
            && (r.Ok? && r.value.Some? ==>
                  && r.value.value[..i] == urls[..i]
                  && forall j :: i <= j < |urls| ==> ApiChapterStep(urls[j], dao) == Ok(Some(r.value.value[j])))
            && (r.Err? ==> r.error == IndexOutOfBounds)
    decreases |urls| - i
  {
    if i < |urls| {
      if !StartsWith(urls[i], VM.ApiPrefix) {
        ScanApiChaptersSpec(urls, dao, i + 1);
      } else if VM.MigrateChapterUrl(urls[i], dao).Ok? && VM.MigrateChapterUrl(urls[i], dao).value.Some? {
        var next := urls[i := VM.MigrateChapterUrl(urls[i], dao).value.value];
        ScanApiChaptersSpec(next, dao, i + 1);
        assert forall j :: i < j < |urls| ==> next[j] == urls[j];
        assert next[..i] == urls[..i];
      }
    }
  }

  /** The chapter loop: an `/api/` chapter the database does not know breaks it. */
  method MigrateApiChapters(urls: seq<string>, dao: Dao) returns (r: Result<Option<seq<string>>>)
    ensures r == ScanApiChapters(urls, dao, 0)
  {
    var chapters := urls;
    var i := 0;
    while i < |chapters|
      invariant 0 <= i <= |chapters| == |urls|
      invariant ScanApiChapters(chapters, dao, i) == ScanApiChapters(urls, dao, 0)
      decreases |chapters| - i
    {
      if StartsWith(chapters[i], VM.ApiPrefix) {
        var newChapterUrl := VM.MigrateChapterUrl(chapters[i], dao);
        if newChapterUrl.Err? {
          return Err(newChapterUrl.error);
        }
        if newChapterUrl.value.None? {
          return Ok(None);
        }
        chapters := chapters[i := newChapterUrl.value.value];
      }
      i := i + 1;
    }
    return Ok(Some(chapters));
  }

  // ---------------------------------------------------------------- one record

  /** What the loop body does with a record of the MangaDex source. */
  datatype Outcome<R> =
    | Foreign             // another source: passed over
    | Skipped             // UUID already, manga unknown, or an `/api/` chapter unknown
    | Converted(record: R)

  /** The proto loop body for a MangaDex record, from `url.split("/")[2]` on. */
  function ProtoOutcome(m: FB.BackupManga, dao: Dao, isUuid: string -> bool): (r: Result<Outcome<FB.BackupManga>>)
    ensures r.Ok? ==> !r.value.Foreign?
  {
    var oldMangaId :- Segment(m.url, 2);
    if isUuid(oldMangaId) then Ok(Skipped)
    else
      var newMangaId := GetNewMangaId(dao, oldMangaId);
      if newMangaId.None? then Ok(Skipped)
      else
        var scan :- ScanApiChapters(MP.ChapterUrls(m.chapters), dao, 0);
        if scan.None? then Ok(Skipped)
        else Ok(Converted(m.(url := MS.MangaPrefix + newMangaId.value, chapters := MP.WithChapterUrls(m.chapters, scan.value))))
  }

  /** The JSON loop body for a MangaDex record: only the manga and its chapters are rewritten. */
  function JsonOutcome(e: G.Entry, dao: Dao, isUuid: string -> bool): (r: Result<Outcome<G.Entry>>)
    ensures r.Ok? ==> !r.value.Foreign?
  {
    var oldMangaId :- Segment(e.manga.url, 2);
    if isUuid(oldMangaId) then Ok(Skipped)
    else
      var newMangaId := GetNewMangaId(dao, oldMangaId);
      if newMangaId.None? then Ok(Skipped)
      else
        var scan :- ScanApiChapters(G.ChapterUrls(e.chapters), dao, 0);
        if scan.None? then Ok(Skipped)
        else Ok(Converted(e.(manga := e.manga.(url := MS.MangaPrefix + newMangaId.value),
                             chapters := G.WithChapterUrls(e.chapters, scan.value))))
  }

  /**
   * A converted proto record carries `/manga/<new ID>` and every chapter resolved, names kept;
   * everything else, the history included, is the original's.
   */
  lemma ProtoOutcomeConverted(m: FB.BackupManga, dao: Dao, isUuid: string -> bool)
    requires ProtoOutcome(m, dao, isUuid).Ok? && ProtoOutcome(m, dao, isUuid).value.Converted?
    ensures Segment(m.url, 2).Ok?
    ensures var oldMangaId := Segment(m.url, 2).value;
            var r := ProtoOutcome(m, dao, isUuid).value.record;
            && !isUuid(oldMangaId) && oldMangaId in dao.newMangaIds
            && r.url == MS.MangaPrefix + dao.newMangaIds[oldMangaId]
            && r.source == m.source && r.title == m.title && r.favorite == m.favorite
            && r.history == m.history && r.brokenHistory == m.brokenHistory
            && |r.chapters| == |m.chapters|
            && forall j :: 0 <= j < |m.chapters| ==>
                 r.chapters[j].name == m.chapters[j].name && ApiChapterStep(m.chapters[j].url, dao) == Ok(Some(r.chapters[j].url))
  {
    ScanApiChaptersSpec(MP.ChapterUrls(m.chapters), dao, 0);
  }

  /** A converted JSON entry: `/manga/<new ID>`, every chapter resolved, the history untouched. */
  lemma JsonOutcomeConverted(e: G.Entry, dao: Dao, isUuid: string -> bool)
    requires JsonOutcome(e, dao, isUuid).Ok? && JsonOutcome(e, dao, isUuid).value.Converted?
    ensures Segment(e.manga.url, 2).Ok?
    ensures var oldMangaId := Segment(e.manga.url, 2).value;
            var r := JsonOutcome(e, dao, isUuid).value.record;
            && !isUuid(oldMangaId) && oldMangaId in dao.newMangaIds
            && r.manga == e.manga.(url := MS.MangaPrefix + dao.newMangaIds[oldMangaId])
            && r.history == e.history
            && |r.chapters| == |e.chapters|
            && forall j :: 0 <= j < |e.chapters| ==>
                 r.chapters[j].name == e.chapters[j].name && ApiChapterStep(e.chapters[j].url, dao) == Ok(Some(r.chapters[j].url))
  {
    ScanApiChaptersSpec(G.ChapterUrls(e.chapters), dao, 0);
  }

  /**
   * A proto record is converted exactly when segment 2 is no UUID, the database knows it and every
   * `/api/` chapter resolves; a UUID or an unknown manga ID skips it; an exception is always a
   * missing URL segment.
   */
  lemma ProtoOutcomeCases(m: FB.BackupManga, dao: Dao, isUuid: string -> bool)
    ensures var r := ProtoOutcome(m, dao, isUuid);
            && ((r.Ok? && r.value.Converted?) <==>
                  && Segment(m.url, 2).Ok? && !isUuid(Segment(m.url, 2).value) && Segment(m.url, 2).value in dao.newMangaIds
                  && forall j :: 0 <= j < |m.chapters| ==> ApiResolves(m.chapters[j].url, dao))
            && (Segment(m.url, 2).Ok? && (isUuid(Segment(m.url, 2).value) || Segment(m.url, 2).value !in dao.newMangaIds) ==>
                  r == Ok(Skipped))
            && (r.Err? ==> r.error == IndexOutOfBounds)
  {
    ScanApiChaptersSpec(MP.ChapterUrls(m.chapters), dao, 0);
  }

  /** The JSON counterpart. */
  lemma JsonOutcomeCases(e: G.Entry, dao: Dao, isUuid: string -> bool)
    ensures var r := JsonOutcome(e, dao, isUuid);
            && ((r.Ok? && r.value.Converted?) <==>
                  && Segment(e.manga.url, 2).Ok? && !isUuid(Segment(e.manga.url, 2).value)
                  && Segment(e.manga.url, 2).value in dao.newMangaIds
                  && forall j :: 0 <= j < |e.chapters| ==> ApiResolves(e.chapters[j].url, dao))
            && (Segment(e.manga.url, 2).Ok? && (isUuid(Segment(e.manga.url, 2).value) || Segment(e.manga.url, 2).value !in dao.newMangaIds) ==>
                  r == Ok(Skipped))
            && (r.Err? ==> r.error == IndexOutOfBounds)
  {
    ScanApiChaptersSpec(G.ChapterUrls(e.chapters), dao, 0);
  }

  /** A converted record whose new ID is a UUID without a '/' is skipped by the next run. */
  lemma ProtoOutcomeSecondRun(m: FB.BackupManga, dao: Dao, isUuid: string -> bool)
    requires ProtoOutcome(m, dao, isUuid).Ok? && ProtoOutcome(m, dao, isUuid).value.Converted?
    requires Segment(m.url, 2).Ok? && Segment(m.url, 2).value in dao.newMangaIds
    requires var newId := dao.newMangaIds[Segment(m.url, 2).value]; '/' !in newId && isUuid(newId)
    ensures ProtoOutcome(ProtoOutcome(m, dao, isUuid).value.record, dao, isUuid) == Ok(Skipped)
  {
    ProtoOutcomeConverted(m, dao, isUuid);
    VM.MigratedUrlSegment(MS.MangaPrefix, "manga", dao.newMangaIds[Segment(m.url, 2).value]);
  }

  // ---------------------------------------------------------------- the record loop

  /** One record as the loop meets it: its title and what its body does. */
  datatype Visit<R> = Visit(title: string, outcome: Result<Outcome<R>>)

  /** The fields the loop updates, with the working record list and the exception thrown. */
  datatype Run<R> = Run(records: seq<R>, currentManga: string, processed: int, skipped: seq<string>,
                        failure: Option<Exception>)

  /**
   * One pass of the body at index i: a record of another source changes nothing; any other shows
   * its title, then throws, joins the skipped titles, or replaces the record and counts one.
   */
  function Step<R>(s: Run<R>, i: nat, v: Visit<R>): (r: Run<R>)
    requires i < |s.records|
    ensures |r.records| == |s.records|
  {
    if s.failure.Some? then s
    else
      match v.outcome
      case Err(e) => s.(currentManga := v.title, failure := Some(e))
      case Ok(Foreign) => s
      case Ok(Skipped) => s.(currentManga := v.title, skipped := s.skipped + [v.title])
      case Ok(Converted(x)) => s.(currentManga := v.title, records := s.records[i := x], processed := s.processed + 1)
  }

  /** The loop after its first n passes; once something is thrown nothing changes. */
  function RunUpTo<R>(start: Run<R>, visits: seq<Visit<R>>, n: nat): (r: Run<R>)
    requires n <= |visits| == |start.records|
    ensures |r.records| == |start.records|
    decreases n
  {
    if n == 0 then start else Step(RunUpTo(start, visits, n - 1), n - 1, visits[n - 1])
  }

  /** The records among the first n the loop examines: those of the MangaDex source. */
  function SeenCount<R>(visits: seq<Visit<R>>, n: nat): (r: nat)
    requires n <= |visits|
    ensures r <= n
    decreases n
  {
    if n == 0 then 0 else SeenCount(visits, n - 1) + (if visits[n - 1].outcome == Ok(Foreign) then 0 else 1)
  }

  /** The records among the first n that the body converts. */
  function ConvertedCount<R>(visits: seq<Visit<R>>, n: nat): (r: nat)
    requires n <= |visits|
    ensures r <= n
    decreases n
  {
    if n == 0 then 0
    else ConvertedCount(visits, n - 1) + (if visits[n - 1].outcome.Ok? && visits[n - 1].outcome.value.Converted? then 1 else 0)
  }

  /** The titles of the records among the first n that the body skips, in order. */
  function SkippedTitles<R>(visits: seq<Visit<R>>, n: nat): (r: seq<string>)
    requires n <= |visits|
    ensures |r| <= n
    decreases n
  {
    if n == 0 then [] else SkippedTitles(visits, n - 1) + (if visits[n - 1].outcome == Ok(Skipped) then [visits[n - 1].title] else [])
  }

  /** The record the loop leaves at index j once its body has run. */
  function Kept<R>(original: R, v: Visit<R>): R {
    if v.outcome.Ok? && v.outcome.value.Converted? then v.outcome.value.record else original
  }

  lemma {:induction false} RunStops<R>(start: Run<R>, visits: seq<Visit<R>>, n: nat, m: nat)
    requires n <= m <= |visits| == |start.records|
    requires RunUpTo(start, visits, n).failure.Some?
    ensures RunUpTo(start, visits, m) == RunUpTo(start, visits, n)
    decreases m
  {
    if m > n {
      RunStops(start, visits, n, m - 1);
    }
  }

  /** The loop throws exactly when some record's body throws, and then with that exception. */
  lemma {:induction false} RunFails<R>(start: Run<R>, visits: seq<Visit<R>>, n: nat)
    requires n <= |visits| == |start.records|
    requires start.failure.None?
    ensures RunUpTo(start, visits, n).failure.None? <==> forall j :: 0 <= j < n ==> visits[j].outcome.Ok?
    ensures RunUpTo(start, visits, n).failure.Some? ==>
              exists k :: 0 <= k < n && visits[k].outcome == Err(RunUpTo(start, visits, n).failure.value)
    decreases n
  {
    if n > 0 {
      RunFails(start, visits, n - 1);
      if RunUpTo(start, visits, n - 1).failure.None? && visits[n - 1].outcome.Err? {
        assert visits[n - 1].outcome == Err(RunUpTo(start, visits, n).failure.value);
      }
    }
  }

  /**
   * Without an exception, the count grows by the converted records and the skip list by the titles
   * of the skipped ones; every examined record lands in exactly one of the two.
   */
  lemma {:induction false} RunTallies<R>(start: Run<R>, visits: seq<Visit<R>>, n: nat)
    requires n <= |visits| == |start.records|
    requires RunUpTo(start, visits, n).failure.None?
    ensures var r := RunUpTo(start, visits, n);
            && r.processed == start.processed + ConvertedCount(visits, n)
            && r.skipped == start.skipped + SkippedTitles(visits, n)
            && ConvertedCount(visits, n) + |SkippedTitles(visits, n)| == SeenCount(visits, n)
    decreases n
  {
    if n > 0 {
      RunTallies(start, visits, n - 1);
    }
  }

  /**
   * Record j of the result is the converted record where the body converted it and the original
   * everywhere else; records not yet visited are always the originals.
   */
  lemma {:induction false} RunRecords<R>(start: Run<R>, visits: seq<Visit<R>>, n: nat)
    requires n <= |visits| == |start.records|
    ensures var r := RunUpTo(start, visits, n);
            && (forall j :: n <= j < |start.records| ==> r.records[j] == start.records[j])
            && (r.failure.None? ==> forall j :: 0 <= j < n ==> r.records[j] == Kept(start.records[j], visits[j]))
    decreases n
  {
    if n > 0 {
      RunRecords(start, visits, n - 1);
    }
  }

  /** Only records of the MangaDex source reach the body. */
  function ProtoVisit(m: FB.BackupManga, dao: Dao, isUuid: string -> bool): Visit<FB.BackupManga> {
    Visit(m.title, if m.source == MangaDexSourceId then ProtoOutcome(m, dao, isUuid) else Ok(Foreign))
  }

  function ProtoVisits(list: seq<FB.BackupManga>, dao: Dao, isUuid: string -> bool): (r: seq<Visit<FB.BackupManga>>)
    ensures |r| == |list| && forall i :: 0 <= i < |list| ==> r[i] == ProtoVisit(list[i], dao, isUuid)
  {
    seq(|list|, i requires 0 <= i < |list| => ProtoVisit(list[i], dao, isUuid))
  }

  function JsonVisit(e: G.Entry, dao: Dao, isUuid: string -> bool): Visit<G.Entry> {
    Visit(e.manga.title, if e.manga.source == MangaDexSourceId then JsonOutcome(e, dao, isUuid) else Ok(Foreign))
  }

  function JsonVisits(list: seq<G.Entry>, dao: Dao, isUuid: string -> bool): (r: seq<Visit<G.Entry>>)
    ensures |r| == |list| && forall i :: 0 <= i < |list| ==> r[i] == JsonVisit(list[i], dao, isUuid)
  {
    seq(|list|, i requires 0 <= i < |list| => JsonVisit(list[i], dao, isUuid))
  }

  /** `backupMangaList.count { it.source == MANGADEX_SOURCE_ID }`, favourite or not. */
  function ProtoDexItems(list: seq<FB.BackupManga>): (r: nat)
    ensures r <= |list|
    decreases |list|
  {
    if list == [] then 0
    else ProtoDexItems(list[..|list| - 1]) + (if list[|list| - 1].source == MangaDexSourceId then 1 else 0)
  }

  /** `mangaList.count { it.first.source == MANGADEX_SOURCE_ID }`. */
  function JsonDexItems(list: seq<G.Entry>): (r: nat)
    ensures r <= |list|
    decreases |list|
  {
    if list == [] then 0
    else JsonDexItems(list[..|list| - 1]) + (if list[|list| - 1].manga.source == MangaDexSourceId then 1 else 0)
  }

  // ---------------------------------------------------------------- the screen

  datatype Status = Idle | Preparing | Processing

  /** `convertedBackup`: the migrated proto backup, or the migrated JSON document. */
  datatype ConvertedBackup = ProtoConverted(backup: FB.Backup) | JsonConverted(root: G.Root)

  /** The view model's fields. */
  datatype Screen = Screen(
    status: Status,
    currentManga: string,
    processedItems: int,
    totalDexItems: int,
    skippedItems: seq<string>,
    convertedBackup: Option<ConvertedBackup>,
    originalName: Option<string>)

  /**
   * What the document picker hands over: its display name, the gunzipped protobuf backup (None
   * when the stream cannot be read, Err when it does not decode) and the parsed JSON tree.
   */
  datatype Document = Document(displayName: Option<string>, gzip: Option<Result<FB.Backup>>, json: Result<G.Root>)

  /** The fields after a call, and the exception the call throws, if any. */
  datatype Pass = Pass(screen: Screen, thrown: Option<Exception>)

  function Start<R>(s: Screen, records: seq<R>): Run<R> {
    Run(records, s.currentManga, s.processedItems, s.skippedItems, None)
  }

  function AfterLoop<R>(s: Screen, run: Run<R>): Screen {
    s.(currentManga := run.currentManga, processedItems := run.processed, skippedItems := run.skipped)
  }

  /** `processProtoBackup`: an exception leaves the fields as they were when it was thrown. */
  function ProtoPass(s: Screen, input: Option<Result<FB.Backup>>, dao: Dao, isUuid: string -> bool): Pass {
    var s := s.(status := Preparing);
    if input.None? then Pass(s.(status := Idle), Some(IllegalState("try again plz")))
    else if input.value.Err? then Pass(s, Some(input.value.error))
    else
      var backup := input.value.value;
      var list := backup.backupManga;
      var s := s.(totalDexItems := ProtoDexItems(list), status := Processing);
      var run := RunUpTo(Start(s, list), ProtoVisits(list, dao, isUuid), |list|);
      if run.failure.Some? then Pass(AfterLoop(s, run), run.failure)
      else Pass(AfterLoop(s, run).(convertedBackup := Some(ProtoConverted(backup.(backupManga := run.records))), status := Idle), None)
  }

  /** `processJsonBackup`. */
  function JsonPass(s: Screen, input: Result<G.Root>, dao: Dao, isUuid: string -> bool): Pass {
    var s := s.(status := Preparing);
    if input.Err? then Pass(s, Some(input.error))
    else if input.value.version.GetOr(1) != MJ.SupportedVersion then Pass(s, Some(IllegalArgument("Unknown backup version")))
    else if input.value.mangas.None? then Pass(s, Some(NullPointer))
    else
      var root := input.value;
      var list := root.mangas.value;
      var s := s.(totalDexItems := JsonDexItems(list), status := Processing);
      var run := RunUpTo(Start(s, list), JsonVisits(list, dao, isUuid), |list|);
      if run.failure.Some? then Pass(AfterLoop(s, run), run.failure)
      else Pass(AfterLoop(s, run).(convertedBackup := Some(JsonConverted(root.(mangas := Some(run.records)))), status := Idle), None)
  }

  /** The fields `processBackup` clears before it dispatches. */
  function Reset(s: Screen): Screen {
    s.(currentManga := "", convertedBackup := None, processedItems := 0, totalDexItems := 0, skippedItems := [])
  }

  /** `processBackup(uri)`: no exception is caught, so the caller receives it. */
  function ProcessBackupSpec(s: Screen, uri: Option<Document>, dao: Dao, isUuid: string -> bool): Pass {
    if uri.None? then Pass(s, None)
    else
      var doc := uri.value;
      var s := s.(originalName := doc.displayName);
      if doc.displayName.None? then Pass(s, Some(IllegalState("try again plz")))
      else
        var name := doc.displayName.value;
        var s := Reset(s);
        if EndsWith(name, ".proto.gz") then ProtoPass(s, doc.gzip, dao, isUuid)
        else if EndsWith(name, ".json") then JsonPass(s, doc.json, dao, isUuid)
        else Pass(s, Some(IllegalArgument("Invalid file selected")))
  }

  // ---------------------------------------------------------------- one record, as the loop body runs it

  /** The proto loop body for a MangaDex record. */
  method ConvertProtoRecord(m: FB.BackupManga, dao: Dao, isUuid: string -> bool) returns (outcome: Result<Outcome<FB.BackupManga>>)
    ensures outcome == ProtoOutcome(m, dao, isUuid)
  {
    var oldMangaId := Segment(m.url, 2);
    if oldMangaId.Err? {
      return Err(oldMangaId.error);
    }
    if isUuid(oldMangaId.value) {
      return Ok(Skipped);
    }
    var newMangaId := GetNewMangaId(dao, oldMangaId.value);
    if newMangaId.None? {
      return Ok(Skipped);
    }
    var chapters := MigrateApiChapters(MP.ChapterUrls(m.chapters), dao);
    if chapters.Err? {
      return Err(chapters.error);
    }
    if chapters.value.None? {
      return Ok(Skipped);
    }
    return Ok(Converted(m.(url := MS.MangaPrefix + newMangaId.value, chapters := MP.WithChapterUrls(m.chapters, chapters.value.value))));
  }

  /** The JSON loop body for a MangaDex record. */
  method ConvertJsonEntry(e: G.Entry, dao: Dao, isUuid: string -> bool) returns (outcome: Result<Outcome<G.Entry>>)
    ensures outcome == JsonOutcome(e, dao, isUuid)
  {
    var oldMangaId := Segment(e.manga.url, 2);
    if oldMangaId.Err? {
      return Err(oldMangaId.error);
    }
    if isUuid(oldMangaId.value) {
      return Ok(Skipped);
    }
    var newMangaId := GetNewMangaId(dao, oldMangaId.value);
    if newMangaId.None? {
      return Ok(Skipped);
    }
    var chapters := MigrateApiChapters(G.ChapterUrls(e.chapters), dao);
    if chapters.Err? {
      return Err(chapters.error);
    }
    if chapters.value.None? {
      return Ok(Skipped);
    }
    return Ok(Converted(e.(manga := e.manga.(url := MS.MangaPrefix + newMangaId.value),
                           chapters := G.WithChapterUrls(e.chapters, chapters.value.value))));
  }

  // ---------------------------------------------------------------- the view model

  class MigratorViewModel {
    var status: Status
    var currentManga: string
    var processedItems: int
    var totalDexItems: int
    var skippedItems: seq<string>
    var convertedBackup: Option<ConvertedBackup>
    var originalName: Option<string>

    constructor()
      ensures Snapshot() == Screen(Idle, "", 0, 0, [], None, None)
    {
      status := Idle;
      currentManga := "";
      processedItems := 0;
      totalDexItems := 0;
      skippedItems := [];
      convertedBackup := None;
      originalName := None;
    }

    function Snapshot(): Screen
      reads this
    {
      Screen(status, currentManga, processedItems, totalDexItems, skippedItems, convertedBackup, originalName)
    }

    /** The loop's view of the fields, with the working record list and the exception thrown. */
    function Progress<R>(records: seq<R>, failure: Option<Exception>): Run<R>
      reads this
    {
      Run(records, currentManga, processedItems, skippedItems, failure)
    }

    /** `processBackup(uri)`: returns the exception it throws. */
    method ProcessBackup(uri: Option<Document>, dao: Dao, isUuid: string -> bool) returns (thrown: Option<Exception>)
      modifies this
      ensures Pass(Snapshot(), thrown) == ProcessBackupSpec(old(Snapshot()), uri, dao, isUuid)
    {
      if uri.None? {
        return None;
      }
      originalName := uri.value.displayName;
      if originalName.None? {
        return Some(IllegalState("try again plz"));
      }
      ClearProgress();
      thrown := ProcessFile(originalName.value, uri.value, dao, isUuid);
    }

    method ClearProgress()
      modifies this
      ensures Snapshot() == Reset(old(Snapshot()))
    {
      currentManga := "";
      convertedBackup := None;
      processedItems := 0;
      totalDexItems := 0;
      skippedItems := [];
    }

    /** The `when` on the file name's suffix. */
    method ProcessFile(name: string, doc: Document, dao: Dao, isUuid: string -> bool) returns (thrown: Option<Exception>)
      modifies this
      ensures Pass(Snapshot(), thrown) ==
                if EndsWith(name, ".proto.gz") then ProtoPass(old(Snapshot()), doc.gzip, dao, isUuid)
                else if EndsWith(name, ".json") then JsonPass(old(Snapshot()), doc.json, dao, isUuid)
                else Pass(old(Snapshot()), Some(IllegalArgument("Invalid file selected")))
    {
      if EndsWith(name, ".proto.gz") {
        thrown := ProcessProtoBackup(doc.gzip, dao, isUuid);
      } else if EndsWith(name, ".json") {
        thrown := ProcessJsonBackup(doc.json, dao, isUuid);
      } else {
        thrown := Some(IllegalArgument("Invalid file selected"));
      }
    }

    /** What the body does once a record's outcome is known. */
    method Absorb<R>(records: seq<R>, i: nat, v: Visit<R>) returns (records': seq<R>, failure: Option<Exception>)
      requires i < |records|
      requires v.outcome.Ok? ==> !v.outcome.value.Foreign?
      modifies this
      ensures Progress(records', failure) == Step(old(Progress(records, None)), i, v)
      ensures status == old(status) && totalDexItems == old(totalDexItems)
      ensures originalName == old(originalName) && convertedBackup == old(convertedBackup)
    {
      currentManga := v.title;
      records', failure := records, None;
      match v.outcome {
        case Err(e) =>
          failure := Some(e);
        case Ok(Skipped) =>
          skippedItems := skippedItems + [currentManga];
        case Ok(Converted(x)) =>
          records' := records[i := x];
          processedItems := processedItems + 1;
      }
    }

    /** One pass of the proto loop's body; a record of another source is passed over. */
    method ConvertProtoAt(records: seq<FB.BackupManga>, i: nat, dao: Dao, isUuid: string -> bool,
                          ghost list: seq<FB.BackupManga>, ghost visits: seq<Visit<FB.BackupManga>>)
      returns (records': seq<FB.BackupManga>, failure: Option<Exception>)
      requires i < |records| == |list| == |visits| && records[i] == list[i]
      requires forall j {:trigger ProtoVisit(list[j], dao, isUuid)} :: 0 <= j < |list| ==> visits[j] == ProtoVisit(list[j], dao, isUuid)
      modifies this
      ensures Progress(records', failure) == Step(old(Progress(records, None)), i, visits[i])
      ensures status == old(status) && totalDexItems == old(totalDexItems)
      ensures originalName == old(originalName) && convertedBackup == old(convertedBackup)
    {
      var backupManga := records[i];
      assert visits[i] == ProtoVisit(list[i], dao, isUuid);
      if backupManga.source != MangaDexSourceId {
        return records, None;
      }
      var outcome := ConvertProtoRecord(backupManga, dao, isUuid);
      records', failure := Absorb(records, i, Visit(backupManga.title, outcome));
    }

    /** One pass of the JSON loop's body; a record of another source is passed over. */
    method ConvertJsonAt(records: seq<G.Entry>, i: nat, dao: Dao, isUuid: string -> bool,
                         ghost list: seq<G.Entry>, ghost visits: seq<Visit<G.Entry>>)
      returns (records': seq<G.Entry>, failure: Option<Exception>)
      requires i < |records| == |list| == |visits| && records[i] == list[i]
      requires forall j {:trigger JsonVisit(list[j], dao, isUuid)} :: 0 <= j < |list| ==> visits[j] == JsonVisit(list[j], dao, isUuid)
      modifies this
      ensures Progress(records', failure) == Step(old(Progress(records, None)), i, visits[i])
      ensures status == old(status) && totalDexItems == old(totalDexItems)
      ensures originalName == old(originalName) && convertedBackup == old(convertedBackup)
    {
      var entry := records[i];
      assert visits[i] == JsonVisit(list[i], dao, isUuid);
      if entry.manga.source != MangaDexSourceId {
        return records, None;
      }
      var outcome := ConvertJsonEntry(entry, dao, isUuid);
      records', failure := Absorb(records, i, Visit(entry.manga.title, outcome));
    }

    /** The proto `for` loop over `backupMangaList`. */
    method RunProtoLoop(list: seq<FB.BackupManga>, ghost visits: seq<Visit<FB.BackupManga>>, dao: Dao, isUuid: string -> bool)
      returns (records: seq<FB.BackupManga>, failure: Option<Exception>)
      requires |visits| == |list|
      requires forall j {:trigger ProtoVisit(list[j], dao, isUuid)} :: 0 <= j < |list| ==> visits[j] == ProtoVisit(list[j], dao, isUuid)
      modifies this
      ensures Progress(records, failure) == RunUpTo(Start(old(Snapshot()), list), visits, |list|)
      ensures status == old(status) && totalDexItems == old(totalDexItems)
      ensures originalName == old(originalName) && convertedBackup == old(convertedBackup)
    {
      ghost var s0 := Snapshot();
      records := list;
      failure := None;
      var i := 0;
      while i < |records|
        invariant 0 <= i <= |records| == |list|
        invariant Progress(records, None) == RunUpTo(Start(s0, list), visits, i)
        invariant forall j :: i <= j < |records| ==> records[j] == list[j]
        invariant status == s0.status && totalDexItems == s0.totalDexItems
        invariant originalName == s0.originalName && convertedBackup == s0.convertedBackup
      {
        var thrown;
        records, thrown := ConvertProtoAt(records, i, dao, isUuid, list, visits);
        if thrown.Some? {
          failure := thrown;
          RunStops(Start(s0, list), visits, i + 1, |list|);
          return;
        }
        i := i + 1;
      }
    }

    /** The JSON `for` loop over `mangaList`, writing back into `mangaArray`. */
    method RunJsonLoop(list: seq<G.Entry>, ghost visits: seq<Visit<G.Entry>>, dao: Dao, isUuid: string -> bool)
      returns (records: seq<G.Entry>, failure: Option<Exception>)
      requires |visits| == |list|
      requires forall j {:trigger JsonVisit(list[j], dao, isUuid)} :: 0 <= j < |list| ==> visits[j] == JsonVisit(list[j], dao, isUuid)
      modifies this
      ensures Progress(records, failure) == RunUpTo(Start(old(Snapshot()), list), visits, |list|)
      ensures status == old(status) && totalDexItems == old(totalDexItems)
      ensures originalName == old(originalName) && convertedBackup == old(convertedBackup)
    {
      ghost var s0 := Snapshot();
      records := list;
      failure := None;
      var i := 0;
      while i < |records|
        invariant 0 <= i <= |records| == |list|
        invariant Progress(records, None) == RunUpTo(Start(s0, list), visits, i)
        invariant forall j :: i <= j < |records| ==> records[j] == list[j]
        invariant status == s0.status && totalDexItems == s0.totalDexItems
        invariant originalName == s0.originalName && convertedBackup == s0.convertedBackup
      {
        var thrown;
        records, thrown := ConvertJsonAt(records, i, dao, isUuid, list, visits);
        if thrown.Some? {
          failure := thrown;
          RunStops(Start(s0, list), visits, i + 1, |list|);
          return;
        }
        i := i + 1;
      }
    }

    /** `processProtoBackup(uri)`: returns the exception it throws. */
    method ProcessProtoBackup(input: Option<Result<FB.Backup>>, dao: Dao, isUuid: string -> bool)
      returns (thrown: Option<Exception>)
      modifies this
      ensures Pass(Snapshot(), thrown) == ProtoPass(old(Snapshot()), input, dao, isUuid)
    {
      status := Preparing;
      if input.None? {
        status := Idle;
        return Some(IllegalState("try again plz"));
      }
      if input.value.Err? {
        return Some(input.value.error);
      }
      var backup := input.value.value;
      totalDexItems := ProtoDexItems(backup.backupManga);
      status := Processing;
      var backupMangaList, failure := RunProtoLoop(backup.backupManga, ProtoVisits(backup.backupManga, dao, isUuid), dao, isUuid);
      if failure.Some? {
        return failure;
      }
      convertedBackup := Some(ProtoConverted(backup.(backupManga := backupMangaList)));
      status := Idle;
      thrown := None;
    }

    /** `processJsonBackup(uri)`: returns the exception it throws. */
    method ProcessJsonBackup(input: Result<G.Root>, dao: Dao, isUuid: string -> bool)
      returns (thrown: Option<Exception>)
      modifies this
      ensures Pass(Snapshot(), thrown) == JsonPass(old(Snapshot()), input, dao, isUuid)
    {
      status := Preparing;
      if input.Err? {
        return Some(input.error);
      }
      var root := input.value;
      if root.version.GetOr(1) != MJ.SupportedVersion {
        return Some(IllegalArgument("Unknown backup version"));
      }
      if root.mangas.None? {
        return Some(NullPointer);
      }
      totalDexItems := JsonDexItems(root.mangas.value);
      status := Processing;
      var mangaArray, failure := RunJsonLoop(root.mangas.value, JsonVisits(root.mangas.value, dao, isUuid), dao, isUuid);
      if failure.Some? {
        return failure;
      }
      convertedBackup := Some(JsonConverted(root.(mangas := Some(mangaArray))));
      status := Idle;
      thrown := None;
    }
  }
}
