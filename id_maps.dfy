/**
 * The legacy-ID maps of the common engine and the batched lookup that fills them.
 *
 * Kotlin's `mutableMapOf<Int, String?>()` is a LinkedHashMap: its keys keep insertion order, and a
 * key may be present with the value null. IdMap keeps the keys in `order` and the non-null values
 * in `ids`; a key mapped to null is in `order` and not in `ids`.
 */
module IdMaps {
  import opened Wrappers
  import opened KotlinText

  datatype IdMap = IdMap(order: seq<Int32>, ids: map<Int32, string>)

  predicate Distinct(s: seq<Int32>) {
    forall i, j :: 0 <= i < j < |s| ==> s[i] != s[j]
  }

  /** The key set of the LinkedHashMap. */
  function Keys(m: IdMap): set<Int32> {
    set k | k in m.order
  }

  /** Keys are listed once each, and every non-null value belongs to a key. */
  predicate Valid(m: IdMap) {
    Distinct(m.order) && m.ids.Keys <= Keys(m)
  }

  const Empty: IdMap := IdMap([], map[])

  /** `map[k]`: null both for an absent key and for a key mapped to null. */
  function Get(m: IdMap, k: Int32): Option<string> {
    if k in m.ids then Some(m.ids[k]) else None
  }

  /** `map[k] = v`: a new key goes to the end of the order, an existing key keeps its place. */
  function Put(m: IdMap, k: Int32, v: Option<string>): (r: IdMap)
    ensures Get(r, k) == v
    ensures forall k' :: k' != k ==> Get(r, k') == Get(m, k')
    ensures Keys(r) == Keys(m) + {k}
    ensures k in m.order ==> r.order == m.order
    ensures Valid(m) ==> Valid(r)
  {
    var order := if k in m.order then m.order else m.order + [k];
    assert Keys(IdMap(order, m.ids)) == Keys(m) + {k};
    IdMap(order, match v case Some(id) => m.ids[k := id] case None => m.ids - {k})
  }

  // ---------------------------------------------------------------- chunking

  /** `keys.chunked(n)`: consecutive pieces of n keys, the last one possibly shorter. */
  function Chunks(s: seq<Int32>, n: nat): (r: seq<seq<Int32>>)
    requires n > 0
    ensures forall i :: 0 <= i < |r| ==> 1 <= |r[i]| <= n
    ensures forall i :: 0 <= i < |r| - 1 ==> |r[i]| == n
    decreases |s|
  {
    if s == [] then [] else if |s| <= n then [s] else [s[..n]] + Chunks(s[n..], n)
  }

  function Flatten(chunks: seq<seq<Int32>>): seq<Int32>
    decreases |chunks|
  {
    if chunks == [] then [] else chunks[0] + Flatten(chunks[1..])
  }

  /** The chunks, put back together, are the key list. */
  lemma {:induction false} ChunksFlatten(s: seq<Int32>, n: nat)
    requires n > 0
    ensures Flatten(Chunks(s, n)) == s
    decreases |s|
  {
    if s != [] && |s| > n {
      ChunksFlatten(s[n..], n);
      var r := Chunks(s, n);
      assert r[1..] == Chunks(s[n..], n);
      assert s[..n] + s[n..] == s;
    } else if s != [] {
      assert Chunks(s, n)[1..] == [];
    }
  }

  // ---------------------------------------------------------------- the batched lookup

  /** Which legacy mapping the request asks for (`IdType.MANGA` / `IdType.CHAPTER`). */
  datatype IdType = Manga | Chapter

  /**
   * One POST of the legacy-mapping endpoint: the legacyId/newId pairs returned for one chunk of
   * keys, or None when the request throws.
   */
  type MappingApi = (IdType, seq<Int32>) -> Option<seq<(Int32, string)>>

  const ChunkSize: nat := 1000

  /** `results.forEach { map[it.legacyId] = it.newId }`. */
  function PutAll(m: IdMap, pairs: seq<(Int32, string)>): (r: IdMap)
    ensures Valid(m) ==> Valid(r)
    decreases |pairs|
  {
    if pairs == [] then m else PutAll(Put(m, pairs[0].0, Some(pairs[0].1)), pairs[1..])
  }

  /** The value the last pair for key k gives it, if any pair does. */
  function LastFor(pairs: seq<(Int32, string)>, k: Int32): Option<string>
    decreases |pairs|
  {
    if pairs == [] then None
    else
      var later := LastFor(pairs[1..], k);
      if later.Some? then later else if pairs[0].0 == k then Some(pairs[0].1) else None
  }

  /** The legacy IDs the pairs name. */
  function PairKeys(pairs: seq<(Int32, string)>): set<Int32>
    decreases |pairs|
  {
    if pairs == [] then {} else {pairs[0].0} + PairKeys(pairs[1..])
  }

  lemma {:induction false} PutAllAppend(m: IdMap, a: seq<(Int32, string)>, b: seq<(Int32, string)>)
    ensures PutAll(m, a + b) == PutAll(PutAll(m, a), b)
    decreases |a|
  {
    if a == [] {
      assert a + b == b;
    } else {
      assert (a + b)[0] == a[0];
      assert (a + b)[1..] == a[1..] + b;
      PutAllAppend(Put(m, a[0].0, Some(a[0].1)), a[1..], b);
    }
  }

  /** After the pairs are stored, a key holds the last value a pair gave it, or what it held before. */
  lemma {:induction false} PutAllGet(m: IdMap, pairs: seq<(Int32, string)>, k: Int32)
    ensures Get(PutAll(m, pairs), k) == if LastFor(pairs, k).Some? then LastFor(pairs, k) else Get(m, k)
    ensures Keys(PutAll(m, pairs)) == Keys(m) + PairKeys(pairs)
    decreases |pairs|
  {
    if pairs != [] {
      PutAllGet(Put(m, pairs[0].0, Some(pairs[0].1)), pairs[1..], k);
    }
  }

  /** The lookup threaded through the chunks; None as soon as one request fails. */
  function ConvertFrom(kind: IdType, acc: IdMap, chunks: seq<seq<Int32>>, api: MappingApi): Option<IdMap>
    decreases |chunks|
  {
    if chunks == [] then Some(acc)
    else match api(kind, chunks[0])
      case None => None
      case Some(pairs) => ConvertFrom(kind, PutAll(acc, pairs), chunks[1..], api)
  }

  /** What `convertMapping(type, map)` returns. */
  function Converted(kind: IdType, m: IdMap, api: MappingApi): Option<IdMap> {
    ConvertFrom(kind, m, Chunks(m.order, ChunkSize), api)
  }

  /** Every answer of the requests for the chunks, in order; None when one request fails. */
  function Responses(kind: IdType, chunks: seq<seq<Int32>>, api: MappingApi): Option<seq<(Int32, string)>>
    decreases |chunks|
  {
    if chunks == [] then Some([])
    else match api(kind, chunks[0])
      case None => None
      case Some(pairs) =>
        match Responses(kind, chunks[1..], api)
        case None => None
        case Some(rest) => Some(pairs + rest)
  }

  /**
   * The lookup fails exactly when one of the requests fails; otherwise it is the input map
   * overwritten with all returned pairs, in the order they came back.
   */
  lemma {:induction false} ConvertFromResponses(kind: IdType, acc: IdMap, chunks: seq<seq<Int32>>, api: MappingApi)
    ensures ConvertFrom(kind, acc, chunks, api).None? <==> Responses(kind, chunks, api).None?
    ensures ConvertFrom(kind, acc, chunks, api).Some? ==>
              ConvertFrom(kind, acc, chunks, api).value == PutAll(acc, Responses(kind, chunks, api).value)
    ensures Responses(kind, chunks, api).None? <==> exists i :: 0 <= i < |chunks| && api(kind, chunks[i]).None?
    decreases |chunks|
  {
    if chunks != [] {
      match api(kind, chunks[0])
      case None =>
      case Some(pairs) =>
        ConvertFromResponses(kind, PutAll(acc, pairs), chunks[1..], api);
        if Responses(kind, chunks[1..], api).Some? {
          PutAllAppend(acc, pairs, Responses(kind, chunks[1..], api).value);
        }
        if exists i :: 0 <= i < |chunks[1..]| && api(kind, chunks[1..][i]).None? {
          var i :| 0 <= i < |chunks[1..]| && api(kind, chunks[1..][i]).None?;
          assert chunks[i + 1] == chunks[1..][i];
        }
        if exists i :: 0 <= i < |chunks| && api(kind, chunks[i]).None? {
          var i :| 0 <= i < |chunks| && api(kind, chunks[i]).None?;
          assert i > 0;
          assert chunks[1..][i - 1] == chunks[i];
        }
    }
  }

  /** `results.forEach { mutableMap[it.legacyId] = it.newId }`, in place. */
  method StorePairs(m: IdMap, pairs: seq<(Int32, string)>) returns (r: IdMap)
    ensures r == PutAll(m, pairs)
  {
    r := m;
    var j := 0;
    while j < |pairs|
      invariant 0 <= j <= |pairs|
      invariant PutAll(m, pairs) == PutAll(r, pairs[j..])
    {
      assert pairs[j..][0] == pairs[j];
      assert pairs[j..][1..] == pairs[j + 1..];
      r := Put(r, pairs[j].0, Some(pairs[j].1));
      j := j + 1;
    }
  }

  /**
   * `convertMapping`: the keys are sent in chunks of at most 1000; the map returned is the input map
   * with every returned pair stored, or None when one request fails.
   */
  method ConvertMapping(kind: IdType, m: IdMap, api: MappingApi) returns (r: Option<IdMap>)
    ensures r == Converted(kind, m, api)
  {
    var mutableMap := m;
    var keyChunks := Chunks(m.order, ChunkSize);
    var index := 0;
    while index < |keyChunks|
      invariant 0 <= index <= |keyChunks|
      invariant Converted(kind, m, api) == ConvertFrom(kind, mutableMap, keyChunks[index..], api)
    {
      assert keyChunks[index..][0] == keyChunks[index];
      assert keyChunks[index..][1..] == keyChunks[index + 1..];
      var results := api(kind, keyChunks[index]);
      if results.None? {
        // Don't continue if one of the batches failed
        return None;
      }
      mutableMap := StorePairs(mutableMap, results.value);
      index := index + 1;
    }
    return Some(mutableMap);
  }

  /**
   * What the caller can rely on: each request carries at most 1000 keys and together they carry
   * every key once, in map order; the lookup fails exactly when a request does; on success each key
   * holds the last value returned for it, or its old value when none was returned.
   */
  lemma ConvertedSpec(kind: IdType, m: IdMap, api: MappingApi, k: Int32)
    ensures forall c :: c in Chunks(m.order, ChunkSize) ==> 1 <= |c| <= ChunkSize
    ensures Flatten(Chunks(m.order, ChunkSize)) == m.order
    ensures Converted(kind, m, api).None? <==>
              exists c :: c in Chunks(m.order, ChunkSize) && api(kind, c).None?
    ensures Responses(kind, Chunks(m.order, ChunkSize), api).Some? ==>
              var pairs := Responses(kind, Chunks(m.order, ChunkSize), api).value;
              && Converted(kind, m, api).Some?
              && Get(Converted(kind, m, api).value, k) == (if LastFor(pairs, k).Some? then LastFor(pairs, k) else Get(m, k))
  {
    var chunks := Chunks(m.order, ChunkSize);
    ChunksFlatten(m.order, ChunkSize);
    ConvertFromResponses(kind, m, chunks, api);
    if Responses(kind, chunks, api).Some? {
      PutAllGet(m, Responses(kind, chunks, api).value, k);
    }
    if exists c :: c in chunks && api(kind, c).None? {
      var c :| c in chunks && api(kind, c).None?;
      var i :| 0 <= i < |chunks| && chunks[i] == c;
    }
  }
}
