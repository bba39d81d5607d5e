/**
 * The legacy (JSON) Tachiyomi backup as the common engine decodes it. A manga record keeps its
 * `manga` and `history` members as raw JSON arrays and reads them positionally through the `data`
 * and `history` views; `copyWith` writes new values back in the same positions.
 */
module LegacyBackup {
  import opened Wrappers
  import opened KotlinText

  /**
   * A kotlinx.serialization JSON element, as far as the views need it: a literal with its text
   * content (strings and numbers alike; `isString` tells which) or an array.
   */
  datatype JsonElement = JsonPrimitive(content: string, isString: bool) | JsonArray(items: seq<JsonElement>)

  /** `array[i]`, which throws past the end. */
  function ElementAt<T>(a: seq<T>, i: nat): (r: Result<T>)
    ensures r.Ok? <==> i < |a|
    ensures r.Ok? ==> r.value == a[i]
  {
    if i < |a| then Ok(a[i]) else Err(IndexOutOfBounds)
  }

  /** `e.jsonPrimitive.content`: `jsonPrimitive` throws on an array. */
  function Content(e: JsonElement): Result<string> {
    match e
    case JsonPrimitive(c, _) => Ok(c)
    case JsonArray(_) => Err(IllegalArgument("Element is not a JsonPrimitive"))
  }

  /** `e.jsonPrimitive.long`, the content parsed with `toLong()`. */
  function LongOf(e: JsonElement): Result<Int64> {
    var c :- Content(e);
    ToLong(c)
  }

  /** `e.jsonPrimitive.int`, the content parsed with `toInt()`. */
  function IntOf(e: JsonElement): Result<Int32> {
    var c :- Content(e);
    ToInt(c)
  }

  /** `add(String)` of the array builder. */
  function StringElement(s: string): JsonElement {
    JsonPrimitive(s, true)
  }

  /** `add(Number)` of the array builder: the number's decimal text. */
  function NumberElement(n: int): JsonElement {
    JsonPrimitive(IntToString(n), false)
  }

  datatype MangaData = MangaData(url: string, title: string, source: Int64, viewerFlags: Int32, chapterFlags: Int32)

  datatype MangaHistory = MangaHistory(url: string, lastRead: Int64)

  datatype MangaChapter = MangaChapter(url: string, read: Int32, bookmark: Int32, lastRead: Int32)

  datatype MangaTrack = MangaTrack(
    title: string, sync: Int32, media: Int32, library: Int64, lastRead: Int32, trackingUrl: string)

  datatype Category = Category(name: string, order: Int32)

  /** A manga record: `rawData` is the `_data` array, `rawHistory` the `_history` arrays. */
  datatype Manga = Manga(
    rawData: seq<JsonElement>,
    chapters: seq<MangaChapter>,
    track: seq<MangaTrack>,
    rawHistory: seq<seq<JsonElement>>)

  /** The backup: `rawCategories` is the `_categories` list of arrays. */
  datatype Backup = Backup(
    version: Int32,
    mangas: seq<Manga>,
    rawCategories: seq<seq<JsonElement>>,
    extensions: seq<string>)

  // ---------------------------------------------------------------- the positional views

  /** The `data` getter: positions 0..4 of `_data`, read left to right. */
  function Data(m: Manga): Result<MangaData> {
    var e0 :- ElementAt(m.rawData, 0);
    var url :- Content(e0);
    var e1 :- ElementAt(m.rawData, 1);
    var title :- Content(e1);
    var e2 :- ElementAt(m.rawData, 2);
    var source :- LongOf(e2);
    var e3 :- ElementAt(m.rawData, 3);
    var viewerFlags :- IntOf(e3);
    var e4 :- ElementAt(m.rawData, 4);
    var chapterFlags :- IntOf(e4);
    Ok(MangaData(url, title, source, viewerFlags, chapterFlags))
  }

  /** The `data` view of each record of a list. */
  function DataViews(list: seq<Manga>): (r: seq<Result<MangaData>>)
    ensures |r| == |list| && forall i :: 0 <= i < |list| ==> r[i] == Data(list[i])
  {
    seq(|list|, i requires 0 <= i < |list| => Data(list[i]))
  }

  /**
   * The `data` view succeeds exactly when `_data` has at least five elements, the first two are
   * literals, the third holds a Long and the fourth and fifth hold Ints; it then reads url, title,
   * source, viewer flags and chapter flags from positions 0 to 4.
   */
  lemma DataView(m: Manga)
    ensures Data(m).Ok? <==>
              && |m.rawData| >= 5
              && Content(m.rawData[0]).Ok? && Content(m.rawData[1]).Ok?
              && LongOf(m.rawData[2]).Ok? && IntOf(m.rawData[3]).Ok? && IntOf(m.rawData[4]).Ok?
    ensures Data(m).Ok? ==>
              Data(m).value == MangaData(
                Content(m.rawData[0]).value, Content(m.rawData[1]).value, LongOf(m.rawData[2]).value,
                IntOf(m.rawData[3]).value, IntOf(m.rawData[4]).value)
  {
  }

  /** One element of the `history` getter: `[url, lastRead]`. */
  function HistoryEntry(a: seq<JsonElement>): Result<MangaHistory> {
    var e0 :- ElementAt(a, 0);
    var url :- Content(e0);
    var e1 :- ElementAt(a, 1);
    var lastRead :- LongOf(e1);
    Ok(MangaHistory(url, lastRead))
  }

  /** `_history.map { … }`: the first failing entry aborts the whole view. */
  function HistoryOf(raw: seq<seq<JsonElement>>): (r: Result<seq<MangaHistory>>)
    ensures r.Ok? <==> forall i :: 0 <= i < |raw| ==> HistoryEntry(raw[i]).Ok?
    ensures r.Ok? ==> |r.value| == |raw| && forall i :: 0 <= i < |raw| ==> HistoryEntry(raw[i]) == Ok(r.value[i])
    decreases |raw|
  {
    if raw == [] then Ok([])
    else
      var h :- HistoryEntry(raw[0]);
      var rest :- HistoryOf(raw[1..]);
      assert forall i :: 1 <= i < |raw| ==> raw[i] == raw[1..][i - 1];
      Ok([h] + rest)
  }

  /** The `history` getter. */
  function History(m: Manga): Result<seq<MangaHistory>> {
    HistoryOf(m.rawHistory)
  }

  // ---------------------------------------------------------------- copyWith

  /** The `_data` array `copyWith` builds. */
  function DataArray(d: MangaData): seq<JsonElement> {
    [StringElement(d.url), StringElement(d.title), NumberElement(d.source),
     NumberElement(d.viewerFlags), NumberElement(d.chapterFlags)]
  }

  /** One `_history` array `copyWith` builds. */
  function HistoryArray(h: MangaHistory): seq<JsonElement> {
    [StringElement(h.url), NumberElement(h.lastRead)]
  }

  function HistoryArrays(hs: seq<MangaHistory>): (r: seq<seq<JsonElement>>)
    ensures |r| == |hs| && forall i :: 0 <= i < |hs| ==> r[i] == HistoryArray(hs[i])
  {
    seq(|hs|, i requires 0 <= i < |hs| => HistoryArray(hs[i]))
  }

  /**
   * `copyWith(newData, newChapters, newTrack, newHistory)`; None stands for an argument left out,
   * whose default is the current view (so a left-out `data` or `history` view can throw).
   */
  function CopyWith(
    m: Manga, newData: Option<MangaData>, newChapters: Option<seq<MangaChapter>>,
    newTrack: Option<seq<MangaTrack>>, newHistory: Option<seq<MangaHistory>>): Result<Manga>
  {
    var d :- if newData.Some? then Ok(newData.value) else Data(m);
    var h :- if newHistory.Some? then Ok(newHistory.value) else History(m);
    Ok(Manga(DataArray(d), newChapters.GetOr(m.chapters), newTrack.GetOr(m.track), HistoryArrays(h)))
  }

  lemma StringElementRoundTrip(s: string)
    ensures Content(StringElement(s)) == Ok(s)
  {
  }

  lemma IntElementRoundTrip(n: Int32)
    ensures IntOf(NumberElement(n)) == Ok(n)
  {
    IntRoundTrip(n);
  }

  lemma LongElementRoundTrip(n: Int64)
    ensures LongOf(NumberElement(n)) == Ok(n)
  {
    LongRoundTrip(n);
  }

  /** What `copyWith` writes, the `data` view reads back. */
  lemma {:induction false} DataRoundTrip(d: MangaData)
    ensures Data(Manga(DataArray(d), [], [], [])) == Ok(d)
  {
    LongElementRoundTrip(d.source);
    IntElementRoundTrip(d.viewerFlags);
    IntElementRoundTrip(d.chapterFlags);
  }

  /** What `copyWith` writes, the `history` view reads back, element by element and in order. */
  lemma {:induction false} HistoryRoundTrip(hs: seq<MangaHistory>)
    ensures HistoryOf(HistoryArrays(hs)) == Ok(hs)
  {
    var raw := HistoryArrays(hs);
    forall i | 0 <= i < |hs| ensures HistoryEntry(raw[i]) == Ok(hs[i]) {
      LongElementRoundTrip(hs[i].lastRead);
    }
    var r := HistoryOf(raw);
    assert r.Ok? && |r.value| == |hs|;
    assert forall i :: 0 <= i < |hs| ==> r.value[i] == hs[i];
    assert r.value == hs;
  }

  /**
   * `copyWith` with explicit data and history: the views read back exactly the values passed, the
   * new `_data` array has five elements and every `_history` array two, and chapters and track are
   * the ones passed or kept.
   */
  lemma CopyWithRoundTrip(
    m: Manga, d: MangaData, newChapters: Option<seq<MangaChapter>>,
    newTrack: Option<seq<MangaTrack>>, hs: seq<MangaHistory>)
    ensures CopyWith(m, Some(d), newChapters, newTrack, Some(hs)).Ok?
    ensures var r := CopyWith(m, Some(d), newChapters, newTrack, Some(hs)).value;
            && Data(r) == Ok(d)
            && History(r) == Ok(hs)
            && |r.rawData| == 5
            && (forall i :: 0 <= i < |r.rawHistory| ==> |r.rawHistory[i]| == 2)
            && r.chapters == (if newChapters.Some? then newChapters.value else m.chapters)
            && r.track == (if newTrack.Some? then newTrack.value else m.track)
  {
    var r := CopyWith(m, Some(d), newChapters, newTrack, Some(hs)).value;
    DataRoundTrip(d);
    assert Data(r) == Data(Manga(DataArray(d), [], [], []));
    HistoryRoundTrip(hs);
  }

  /**
   * `copyWith()` with every argument left out succeeds exactly when both views can be read, and
   * then keeps all four views as they were.
   */
  lemma CopyWithDefaults(m: Manga)
    ensures CopyWith(m, None, None, None, None).Ok? <==> Data(m).Ok? && History(m).Ok?
    ensures CopyWith(m, None, None, None, None).Ok? ==>
              var r := CopyWith(m, None, None, None, None).value;
              && Data(r) == Data(m) && History(r) == History(m)
              && r.chapters == m.chapters && r.track == m.track
  {
    if Data(m).Ok? && History(m).Ok? {
      CopyWithRoundTrip(m, Data(m).value, None, None, History(m).value);
    }
  }

  // ---------------------------------------------------------------- decoding defaults

  /** A manga object as it appears in the JSON text; None is a member that is absent. */
  datatype MangaObject = MangaObject(
    manga: Option<seq<JsonElement>>,
    chapters: Option<seq<MangaChapter>>,
    track: Option<seq<MangaTrack>>,
    history: Option<seq<seq<JsonElement>>>)

  /** The backup object as it appears in the JSON text. */
  datatype BackupObject = BackupObject(
    version: Option<Int32>,
    mangas: Option<seq<MangaObject>>,
    categories: Option<seq<seq<JsonElement>>>,
    extensions: Option<seq<string>>)

  /** Decoding a manga object: `manga` is required, the three lists default to empty. */
  function DecodeManga(o: MangaObject): Result<Manga> {
    if o.manga.None? then Err(CodecFailure)
    else Ok(Manga(o.manga.value, o.chapters.GetOr([]), o.track.GetOr([]), o.history.GetOr([])))
  }

  function DecodeMangas(os: seq<MangaObject>): (r: Result<seq<Manga>>)
    ensures r.Ok? <==> forall i :: 0 <= i < |os| ==> DecodeManga(os[i]).Ok?
    ensures r.Ok? ==> |r.value| == |os| && forall i :: 0 <= i < |os| ==> DecodeManga(os[i]) == Ok(r.value[i])
    decreases |os|
  {
    if os == [] then Ok([])
    else
      var m :- DecodeManga(os[0]);
      var rest :- DecodeMangas(os[1..]);
      assert forall i :: 1 <= i < |os| ==> os[i] == os[1..][i - 1];
      Ok([m] + rest)
  }

  /** Decoding the backup: `version` defaults to 1, the other members are required. */
  function DecodeBackup(o: BackupObject): Result<Backup> {
    if o.mangas.None? || o.categories.None? || o.extensions.None? then Err(CodecFailure)
    else
      var mangas :- DecodeMangas(o.mangas.value);
      Ok(Backup(o.version.GetOr(1), mangas, o.categories.value, o.extensions.value))
  }

  /**
   * An absent `version` reads as 1, and absent `chapters`, `track` or `history` members read as
   * empty lists; present members are kept as written.
   */
  lemma DecodingDefaults(o: BackupObject, i: nat)
    requires DecodeBackup(o).Ok?
    ensures DecodeBackup(o).value.version == (if o.version.None? then 1 else o.version.value)
    ensures i < |o.mangas.value| ==>
              var m := DecodeBackup(o).value.mangas[i];
              var mo := o.mangas.value[i];
              && m.rawData == mo.manga.value
              && (mo.chapters.None? ==> m.chapters == []) && (mo.chapters.Some? ==> m.chapters == mo.chapters.value)
              && (mo.track.None? ==> m.track == []) && (mo.track.Some? ==> m.track == mo.track.value)
              && (mo.history.None? ==> m.rawHistory == []) && (mo.history.Some? ==> m.rawHistory == mo.history.value)
  {
  }

  // ---------------------------------------------------------------- categories

  /**
   * The `categories` getter as written: element 0 of `_categories` is itself an array, so
   * `jsonPrimitive` throws on it whenever the list is not empty (and the list access throws when it is).
   */
  function CategoriesAsWritten(b: Backup): Result<Category> {
    var first :- ElementAt(b.rawCategories, 0);
    var name :- Content(JsonArray(first));
    var second :- ElementAt(b.rawCategories, 1);
    var order :- IntOf(JsonArray(second));
    Ok(Category(name, order))
  }

  /** The getter as written cannot return a category, whatever the backup holds. */
  lemma CategoriesAsWrittenAlwaysThrows(b: Backup)
    ensures CategoriesAsWritten(b).Err?
  {
  }

  /** A backup holding the single category `["Default", 0]`, for which the getter still throws. */
  lemma CategoriesAsWrittenCounterexample()
    ensures var b := Backup(2, [], [[StringElement("Default"), NumberElement(0)]], []);
            && CategoriesAsWritten(b) == Err(IllegalArgument("Element is not a JsonPrimitive"))
            && Categories(b) == Ok([Category("Default", 0)])
  {
    IntElementRoundTrip(0);
    var b := Backup(2, [], [[StringElement("Default"), NumberElement(0)]], []);
    assert CategoryEntry(b.rawCategories[0]) == Ok(Category("Default", 0));
    var r := Categories(b);
    assert r.Ok? && |r.value| == 1 && r.value[0] == Category("Default", 0);
    assert r.value == [Category("Default", 0)];
  }

  /** One `[name, order]` category array. */
  function CategoryEntry(a: seq<JsonElement>): Result<Category> {
    var e0 :- ElementAt(a, 0);
    var name :- Content(e0);
    var e1 :- ElementAt(a, 1);
    var order :- IntOf(e1);
    Ok(Category(name, order))
  }

  /** The corrected getter: every entry of `_categories` read as `[name, order]`. */
  function Categories(b: Backup): (r: Result<seq<Category>>)
    ensures r.Ok? <==> forall i :: 0 <= i < |b.rawCategories| ==> CategoryEntry(b.rawCategories[i]).Ok?
    ensures r.Ok? ==> |r.value| == |b.rawCategories|
    ensures r.Ok? ==> forall i :: 0 <= i < |b.rawCategories| ==> CategoryEntry(b.rawCategories[i]) == Ok(r.value[i])
  {
    CategoriesOf(b.rawCategories)
  }

  function CategoriesOf(raw: seq<seq<JsonElement>>): (r: Result<seq<Category>>)
    ensures r.Ok? <==> forall i :: 0 <= i < |raw| ==> CategoryEntry(raw[i]).Ok?
    ensures r.Ok? ==> |r.value| == |raw| && forall i :: 0 <= i < |raw| ==> CategoryEntry(raw[i]) == Ok(r.value[i])
    decreases |raw|
  {
    if raw == [] then Ok([])
    else
      var c :- CategoryEntry(raw[0]);
      var rest :- CategoriesOf(raw[1..]);
      assert forall i :: 1 <= i < |raw| ==> raw[i] == raw[1..][i - 1];
      Ok([c] + rest)
  }

  /** The array written for a category. */
  function CategoryArray(c: Category): seq<JsonElement> {
    [StringElement(c.name), NumberElement(c.order)]
  }

  /** Categories written as `[name, order]` arrays read back as the same categories, in order. */
  lemma {:induction false} CategoriesRoundTrip(b: Backup, cs: seq<Category>)
    requires |b.rawCategories| == |cs|
    requires forall i :: 0 <= i < |cs| ==> b.rawCategories[i] == CategoryArray(cs[i])
    ensures Categories(b) == Ok(cs)
  {
    forall i | 0 <= i < |cs| ensures CategoryEntry(b.rawCategories[i]) == Ok(cs[i]) {
      IntElementRoundTrip(cs[i].order);
    }
    var r := Categories(b);
    assert r.Ok? && |r.value| == |cs|;
    assert forall i :: 0 <= i < |cs| ==> r.value[i] == cs[i];
    assert r.value == cs;
  }
}
