/**
 * The legacy JSON backup as the Android app sees it: a parsed root object whose `mangas` array holds
 * one object per manga, decoded by the Tachiyomi type adapters into the manga, its chapters and its
 * history. Only the members the migrator reads or writes are modelled.
 */
module GsonBackup {
  import opened Wrappers
  import opened KotlinText

  /** `MangaImpl`: the URL is rewritten, the title is shown, the source selects the record. */
  datatype Manga = Manga(url: string, title: string, source: Int64)

  /** `ChapterImpl`. */
  datatype Chapter = Chapter(url: string, name: string)

  /** `DHistory`. */
  datatype History = History(url: string, lastRead: Int64)

  /** One element of `mangas`, as `Triple(manga, chapters, history)`; a missing list decodes as empty. */
  datatype Entry = Entry(manga: Manga, chapters: seq<Chapter>, history: seq<History>)

  /** The root object: `version` when present, and the `mangas` array when present. */
  datatype Root = Root(version: Option<Int32>, mangas: Option<seq<Entry>>)

  function ChapterUrls(cs: seq<Chapter>): (r: seq<string>)
    ensures |r| == |cs| && forall i :: 0 <= i < |cs| ==> r[i] == cs[i].url
  {
    seq(|cs|, i requires 0 <= i < |cs| => cs[i].url)
  }

  function HistoryUrls(hs: seq<History>): (r: seq<string>)
    ensures |r| == |hs| && forall i :: 0 <= i < |hs| ==> r[i] == hs[i].url
  {
    seq(|hs|, i requires 0 <= i < |hs| => hs[i].url)
  }

  function WithChapterUrls(cs: seq<Chapter>, urls: seq<string>): (r: seq<Chapter>)
    requires |urls| == |cs|
    ensures |r| == |cs| && forall i :: 0 <= i < |cs| ==> r[i] == cs[i].(url := urls[i])
  {
    seq(|cs|, i requires 0 <= i < |cs| => cs[i].(url := urls[i]))
  }

  function WithHistoryUrls(hs: seq<History>, urls: seq<string>): (r: seq<History>)
    requires |urls| == |hs|
    ensures |r| == |hs| && forall i :: 0 <= i < |hs| ==> r[i] == hs[i].(url := urls[i])
  {
    seq(|hs|, i requires 0 <= i < |hs| => hs[i].(url := urls[i]))
  }
}
