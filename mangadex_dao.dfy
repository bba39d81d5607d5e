/**
 * The bundled `mangadex.db` lookup the Android app queries: legacy manga and chapter IDs, as they
 * appear in the URLs, mapped to the new IDs. A key that is absent is a query that returns null.
 */
module MangaDexDao {
  import opened Wrappers

  datatype Dao = Dao(newMangaIds: map<string, string>, newChapterIds: map<string, string>)

  /** `getNewMangaId(oldId)`. */
  function GetNewMangaId(dao: Dao, oldId: string): (r: Option<string>)
    ensures r.Some? <==> oldId in dao.newMangaIds
    ensures r.Some? ==> r.value == dao.newMangaIds[oldId]
  {
    if oldId in dao.newMangaIds then Some(dao.newMangaIds[oldId]) else None
  }

  /** `getNewChapterId(oldId)`. */
  function GetNewChapterId(dao: Dao, oldId: string): (r: Option<string>)
    ensures r.Some? <==> oldId in dao.newChapterIds
    ensures r.Some? ==> r.value == dao.newChapterIds[oldId]
  {
    if oldId in dao.newChapterIds then Some(dao.newChapterIds[oldId]) else None
  }
}
