/**
 * The record loop the two Android engines of `MangaDexMigratorViewModel.kt` share. Each MangaDex
 * record ends in one of four fates (already migrated, manga missing, a chapter missing, migrated);
 * a record that is shown in the progress screen is counted once and its title goes to the list of
 * its fate, a migrated record replaces the original in the list, and the first exception ends the
 * loop with the state reached so far.
 */
module MigrationLoop {
  import opened Wrappers

  /** What the loop body decided for one record. */
  datatype Fate<R> =
    | OtherSource
    | AlreadyMigrated
    | MissingManga
    | MissingChapter(chapterName: string)
    | Migrated(record: R)

  /**
   * One record as the loop sees it: whether its progress is shown and counted (the proto engine
   * counts favourites only), the title shown, and its fate or the exception its body throws.
   */
  datatype Visit<R> = Visit(shown: bool, title: string, fate: Result<Fate<R>>)

  /** The view model fields the loop updates, the working copy of the record list, and the exception. */
  datatype LoopState<R> = LoopState(
    records: seq<R>,
    currentManga: string,
    processed: int,
    migrated: int,
    alreadyMigrated: seq<string>,
    missingMangaId: seq<string>,
    missingChapterId: seq<string>,
    failure: Option<Exception>)

  /** A record from another source, passed over by `continue`. */
  predicate Skips<R>(v: Visit<R>) {
    v.fate.Ok? && v.fate.value.OtherSource?
  }

  /** A record that ends with `incrementProcessedCount()`. */
  predicate Counts<R>(v: Visit<R>) {
    v.shown && v.fate.Ok? && !v.fate.value.OtherSource?
  }

  /** The entry of the missing-chapter list: `"$currentManga ($chapterMissing)"`, or the bare title. */
  function MissingChapterEntry(title: string, chapterName: string, named: bool): string {
    if named then title + " (" + chapterName + ")" else title
  }

  /** The loop body for record i. */
  function Step<R>(s: LoopState<R>, i: nat, v: Visit<R>, named: bool): (r: LoopState<R>)
    requires i < |s.records|
    ensures |r.records| == |s.records|
  {
    if s.failure.Some? || Skips(v) then s
    else
      var s1 := s.(currentManga := if v.shown then v.title else s.currentManga);
      match v.fate
      case Err(e) => s1.(failure := Some(e))
      case Ok(fate) =>
        var s2 := if fate.Migrated? then s1.(records := s1.records[i := fate.record]) else s1;
        if !v.shown then s2
        else if fate.AlreadyMigrated? then
          s2.(alreadyMigrated := s2.alreadyMigrated + [v.title], processed := s2.processed + 1)
        else if fate.MissingManga? then
          s2.(missingMangaId := s2.missingMangaId + [v.title], processed := s2.processed + 1)
        else if fate.MissingChapter? then
          s2.(missingChapterId := s2.missingChapterId + [MissingChapterEntry(v.title, fate.chapterName, named)],
              processed := s2.processed + 1)
        else
          s2.(migrated := s2.migrated + 1, processed := s2.processed + 1)
  }

  /** The state after the loop bodies of records 0 .. n-1. */
  function RunUpTo<R>(start: LoopState<R>, visits: seq<Visit<R>>, n: nat, named: bool): (r: LoopState<R>)
    requires n <= |visits| == |start.records|
    ensures |r.records| == |start.records|
    decreases n
  {
    if n == 0 then start else Step(RunUpTo(start, visits, n - 1, named), n - 1, visits[n - 1], named)
  }

  // ---------------------------------------------------------------- independent descriptions

  /** How many of the first n records are counted. */
  function CountOf<R>(visits: seq<Visit<R>>, n: nat): (r: nat)
    requires n <= |visits|
    ensures r <= n
    decreases n
  {
    if n == 0 then 0 else CountOf(visits, n - 1) + (if Counts(visits[n - 1]) then 1 else 0)
  }

  /** The four lists the outcome screen shows, the migrated count standing for the last. */
  datatype Kind = AlreadyMigratedList | MissingMangaList | MissingChapterList | MigratedList

  predicate OfKind<R>(f: Fate<R>, k: Kind) {
    match k
    case AlreadyMigratedList => f.AlreadyMigrated?
    case MissingMangaList => f.MissingManga?
    case MissingChapterList => f.MissingChapter?
    case MigratedList => f.Migrated?
  }

  /** What one record adds to list k. */
  function EntryOf<R>(v: Visit<R>, k: Kind, named: bool): (r: seq<string>)
    ensures |r| <= 1
  {
    if Counts(v) && OfKind(v.fate.value, k) then
      [if v.fate.value.MissingChapter? then MissingChapterEntry(v.title, v.fate.value.chapterName, named) else v.title]
    else []
  }

  /** The titles list k receives, in order, from the counted records among the first n. */
  function Listed<R>(visits: seq<Visit<R>>, n: nat, k: Kind, named: bool): (r: seq<string>)
    requires n <= |visits|
    ensures |r| <= n
    decreases n
  {
    if n == 0 then [] else Listed(visits, n - 1, k, named) + EntryOf(visits[n - 1], k, named)
  }

  /** Every count is accounted for by exactly one list or the migrated count. */
  predicate Balanced<R>(s: LoopState<R>) {
    s.processed == s.migrated + |s.alreadyMigrated| + |s.missingMangaId| + |s.missingChapterId|
  }

  /** The record the loop leaves at index j once its body has run. */
  function Kept<R>(original: R, v: Visit<R>): R {
    if v.fate.Ok? && v.fate.value.Migrated? then v.fate.value.record else original
  }

  // ---------------------------------------------------------------- what the loop promises

  /** Once an exception is thrown, later records change nothing. */
  lemma {:induction false} RunStops<R>(start: LoopState<R>, visits: seq<Visit<R>>, n: nat, m: nat, named: bool)
    requires n <= m <= |visits| == |start.records|
    requires RunUpTo(start, visits, n, named).failure.Some?
    ensures RunUpTo(start, visits, m, named) == RunUpTo(start, visits, n, named)
    decreases m
  {
    if m > n {
      RunStops(start, visits, n, m - 1, named);
    }
  }

  /** Each count lands in exactly one place, so a balanced start stays balanced. */
  lemma {:induction false} RunBalanced<R>(start: LoopState<R>, visits: seq<Visit<R>>, n: nat, named: bool)
    requires n <= |visits| == |start.records|
    requires Balanced(start)
    ensures Balanced(RunUpTo(start, visits, n, named))
    decreases n
  {
    if n > 0 {
      RunBalanced(start, visits, n - 1, named);
    }
  }

  /** The loop throws exactly when some record's body throws. */
  lemma {:induction false} RunFails<R>(start: LoopState<R>, visits: seq<Visit<R>>, n: nat, named: bool)
    requires n <= |visits| == |start.records|
    requires start.failure.None?
    ensures RunUpTo(start, visits, n, named).failure.None? <==> forall j :: 0 <= j < n ==> visits[j].fate.Ok?
    ensures RunUpTo(start, visits, n, named).failure.Some? ==>
              exists k :: 0 <= k < n && visits[k].fate == Err(RunUpTo(start, visits, n, named).failure.value)
    decreases n
  {
    if n > 0 {
      RunFails(start, visits, n - 1, named);
      if RunUpTo(start, visits, n - 1, named).failure.None? && visits[n - 1].fate.Err? {
        assert visits[n - 1].fate == Err(RunUpTo(start, visits, n, named).failure.value);
      }
    }
  }

  /** The list of kind k in a state. */
  function ListOf<R>(s: LoopState<R>, k: Kind): seq<string>
    requires k != MigratedList
  {
    match k
    case AlreadyMigratedList => s.alreadyMigrated
    case MissingMangaList => s.missingMangaId
    case MissingChapterList => s.missingChapterId
  }

  /** One loop body that throws nothing adds one to the counts of a counted record, and nothing else. */
  lemma StepCounts<R>(s: LoopState<R>, i: nat, v: Visit<R>, named: bool)
    requires i < |s.records|
    requires Step(s, i, v, named).failure.None?
    ensures var r := Step(s, i, v, named);
            && s.failure.None?
            && r.processed == s.processed + (if Counts(v) then 1 else 0)
            && r.migrated == s.migrated + |EntryOf(v, MigratedList, named)|
  {
  }

  /** One loop body that throws nothing adds its record's entry to the list of its fate only. */
  lemma StepLists<R>(s: LoopState<R>, i: nat, v: Visit<R>, named: bool, k: Kind)
    requires i < |s.records| && k != MigratedList
    requires Step(s, i, v, named).failure.None?
    ensures s.failure.None? && ListOf(Step(s, i, v, named), k) == ListOf(s, k) + EntryOf(v, k, named)
  {
  }

  /** Without an exception, the counts are those of the counted records. */
  lemma {:induction false} RunCounts<R>(start: LoopState<R>, visits: seq<Visit<R>>, n: nat, named: bool)
    requires n <= |visits| == |start.records|
    requires RunUpTo(start, visits, n, named).failure.None?
    ensures var r := RunUpTo(start, visits, n, named);
            && r.processed == start.processed + CountOf(visits, n)
            && r.migrated == start.migrated + |Listed(visits, n, MigratedList, named)|
    decreases n
  {
    if n > 0 {
      StepCounts(RunUpTo(start, visits, n - 1, named), n - 1, visits[n - 1], named);
      RunCounts(start, visits, n - 1, named);
    }
  }

  /** Without an exception, each list holds exactly the entries of the counted records of its fate, in order. */
  lemma {:induction false} RunLists<R>(start: LoopState<R>, visits: seq<Visit<R>>, n: nat, named: bool, k: Kind)
    requires n <= |visits| == |start.records| && k != MigratedList
    requires RunUpTo(start, visits, n, named).failure.None?
    ensures ListOf(RunUpTo(start, visits, n, named), k) == ListOf(start, k) + Listed(visits, n, k, named)
    decreases n
  {
    if n > 0 {
      StepLists(RunUpTo(start, visits, n - 1, named), n - 1, visits[n - 1], named, k);
      RunLists(start, visits, n - 1, named, k);
    }
  }

  /**
   * Without an exception, record j of the result is the migrated record where the body migrated it
   * and the original everywhere else; records not yet visited are always the originals.
   */
  lemma {:induction false} RunRecords<R>(start: LoopState<R>, visits: seq<Visit<R>>, n: nat, named: bool)
    requires n <= |visits| == |start.records|
    ensures var r := RunUpTo(start, visits, n, named);
            && (forall j :: n <= j < |start.records| ==> r.records[j] == start.records[j])
            && (r.failure.None? ==> forall j :: 0 <= j < n ==> r.records[j] == Kept(start.records[j], visits[j]))
    decreases n
  {
    if n > 0 {
      RunRecords(start, visits, n - 1, named);
    }
  }
}
