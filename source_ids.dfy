/** The MangaDex source identifiers the engines migrate (one per MangaDex language). */
module SourceIds {
  import opened KotlinText

  /**
   * `tachiyomiSourceIds` of the common engine; the Android view model keeps an identical list under
   * the name `mangaDexSourceIds`.
   */
  const TachiyomiSourceIds: seq<Int64> := [
    2499283573021220255, // en
    1145824452519314725, // sv
    1347402746269051958, // my
    1411768577036936240, // ja
    1424273154577029558, // he
    1471784905273036181, // ms
    1493666528525752601, // zh-Hant
    1713554459881080228, // th
    1952071260038453057, // it
    2098905203823335614, // ru
    2655149515337070132, // pt-BR
    3260701926561129943, // el
    3285208643537017688, // ko
    3339599426223341161, // ar
    3578612018159256808, // cs
    3781216447842245147, // fa
    3807502156582598786, // id
    3846770256925560569, // tr
    4150470519566206911, // bn
    425785191804166217,  // da
    4284949320785450865, // hu
    4505830566611664829, // fr
    4710920497926776490, // sh
    4774459486579224459, // ro
    4872213291993424667, // no
    4938773340256184018, // es-419
    5098537545549490547, // de
    5148895169070562838, // zh-Hans
    5189216366882819742, // pt
    5463447640980279236, // bg
    5779037855201976894, // uk
    5860541308324630662, // ca
    5967745367608513818, // mn
    6400665728063187402, // es
    6750440049024086587, // nl
    6840513937945146538, // hi
    737986167355114438,  // lt
    8033579885162383068, // pl
    8254121249433835847, // fi
    8578871918181236609, // fil
    9194073792736219759  // vi
  ]

  /** The single English source the older engine handles. */
  const MangaDexSourceId: Int64 := 2499283573021220255

  /** `ids.contains(source)` over the first n ids. */
  predicate ContainsBefore(ids: seq<Int64>, source: int, n: nat)
    requires n <= |ids|
    decreases n
  {
    n > 0 && (ids[n - 1] == source || ContainsBefore(ids, source, n - 1))
  }

  /** The scan finds the source exactly when it is one of the first n ids. */
  lemma {:induction false} ContainsBeforeIsMembership(ids: seq<Int64>, source: int, n: nat)
    requires n <= |ids|
    ensures ContainsBefore(ids, source, n) <==> exists j :: 0 <= j < n && ids[j] == source
    decreases n
  {
    if n > 0 {
      ContainsBeforeIsMembership(ids, source, n - 1);
    }
  }

  /**
   * `tachiyomiSourceIds.contains(source)`, written out as one comparison per id so that a proof
   * mentioning a record's source does not unfold the whole sequence literal;
   * IsMangaDexIsMembership ties it to the list.
   */
  predicate IsMangaDex(source: int) {
    source == 2499283573021220255 || source == 1145824452519314725 || source == 1347402746269051958
    || source == 1411768577036936240 || source == 1424273154577029558 || source == 1471784905273036181
    || source == 1493666528525752601 || source == 1713554459881080228 || source == 1952071260038453057
    || source == 2098905203823335614 || source == 2655149515337070132 || source == 3260701926561129943
    || source == 3285208643537017688 || source == 3339599426223341161 || source == 3578612018159256808
    || source == 3781216447842245147 || source == 3807502156582598786 || source == 3846770256925560569
    || source == 4150470519566206911 || source == 425785191804166217 || source == 4284949320785450865
    || source == 4505830566611664829 || source == 4710920497926776490 || source == 4774459486579224459
    || source == 4872213291993424667 || source == 4938773340256184018 || source == 5098537545549490547
    || source == 5148895169070562838 || source == 5189216366882819742 || source == 5463447640980279236
    || source == 5779037855201976894 || source == 5860541308324630662 || source == 5967745367608513818
    || source == 6400665728063187402 || source == 6750440049024086587 || source == 6840513937945146538
    || source == 737986167355114438 || source == 8033579885162383068 || source == 8254121249433835847
    || source == 8578871918181236609 || source == 9194073792736219759
  }

  /** The written-out predicate is exactly membership in the list. */
  lemma IsMangaDexIsMembership(source: int)
    ensures IsMangaDex(source) <==> source in TachiyomiSourceIds
  {
    ContainsBeforeIsMembership(TachiyomiSourceIds, source, |TachiyomiSourceIds|);
  }

  /** The older engine's source is one of the sources the newer engines migrate. */
  lemma EnglishSourceIsMangaDex()
    ensures IsMangaDex(MangaDexSourceId)
    ensures |TachiyomiSourceIds| == 41
  {
    assert TachiyomiSourceIds[0] == MangaDexSourceId;
  }
}
