/**
 * The Kotlin standard-library string and number operations the migrator relies on, with the
 * semantics of the Kotlin standard library: `split` keeps empty fields, `replace` rewrites every
 * non-overlapping occurrence from left to right, `toInt`/`toLong` accept an optional sign followed
 * by ASCII digits and fail outside the type's range, and `toString` writes plain decimal.
 */
module KotlinText {
  import opened Wrappers

  const IntMin: int := -0x8000_0000
  const IntMax: int := 0x7fff_ffff
  const LongMin: int := -0x8000_0000_0000_0000
  const LongMax: int := 0x7fff_ffff_ffff_ffff

  /** Kotlin `Int` (32 bits) and `Long` (64 bits). */
  type Int32 = x: int | IntMin <= x <= IntMax
  type Int64 = x: int | LongMin <= x <= LongMax

  // ---------------------------------------------------------------- splitting

  /** `s.split(d)`: the fields between delimiters, empty fields included. */
  function Split(s: string, d: char): (r: seq<string>)
    ensures |r| >= 1
    ensures forall i :: 0 <= i < |r| ==> d !in r[i]
    decreases |s|
  {
    if s == [] then [""]
    else
      var rest := Split(s[1..], d);
      if s[0] == d then [""] + rest else [[s[0]] + rest[0]] + rest[1..]
  }

  /** `fields.joinToString(d)`, the inverse of Split. */
  function Join(fields: seq<string>, d: char): string
    requires |fields| >= 1
    decreases |fields|
  {
    if |fields| == 1 then fields[0] else fields[0] + [d] + Join(fields[1..], d)
  }

  lemma {:induction false} JoinSplit(s: string, d: char)
    ensures Join(Split(s, d), d) == s
    decreases |s|
  {
    if s != [] {
      JoinSplit(s[1..], d);
      var rest := Split(s[1..], d);
      if s[0] == d {
        assert Split(s, d)[1..] == rest;
      } else {
        var r := Split(s, d);
        if |rest| == 1 {
          assert r == [[s[0]] + rest[0]];
        } else {
          assert r[1..] == rest[1..];
          assert Join(r, d) == [s[0]] + rest[0] + [d] + Join(rest[1..], d);
        }
      }
    }
  }

  /** A field that holds no delimiter is split off whole. */
  lemma {:induction false} SplitAfterField(a: string, d: char, b: string)
    requires d !in a
    ensures Split(a + [d] + b, d) == [a] + Split(b, d)
    decreases |a|
  {
    if a == [] {
      assert a + [d] + b == [d] + b;
      assert ([d] + b)[1..] == b;
    } else {
      SplitAfterField(a[1..], d, b);
      assert (a + [d] + b)[1..] == a[1..] + [d] + b;
      assert [a[0]] + a[1..] == a;
    }
  }

  /** Text with no delimiter is one field. */
  lemma {:induction false} SplitWhole(s: string, d: char)
    requires d !in s
    ensures Split(s, d) == [s]
    decreases |s|
  {
    if s != [] {
      SplitWhole(s[1..], d);
      assert [s[0]] + s[1..] == s;
    }
  }

  /** The first field is the text up to the first delimiter; there is a second field exactly when a delimiter occurs. */
  lemma {:induction false} FirstField(s: string, d: char)
    ensures var f := Split(s, d)[0];
            && |f| <= |s| && s[..|f|] == f
            && (|Split(s, d)| >= 2 <==> d in s)
            && (d in s ==> s[|f|] == d)
    decreases |s|
  {
    if s != [] && s[0] != d {
      FirstField(s[1..], d);
      assert d in s <==> d in s[1..];
    }
  }

  /** `s.split("/")[k]`, which throws past the last field. */
  function Segment(s: string, k: nat): (r: Result<string>)
    ensures r.Ok? <==> k < |Split(s, '/')|
    ensures r.Ok? ==> '/' !in r.value
  {
    var fields := Split(s, '/');
    if k < |fields| then Ok(fields[k]) else Err(IndexOutOfBounds)
  }

  /** The URL `/<kind>/<id>` the migrator writes splits back into `""`, kind and id. */
  lemma SegmentsOfPath(kind: string, id: string)
    requires '/' !in kind && '/' !in id
    ensures Split("/" + kind + "/" + id, '/') == ["", kind, id]
  {
    SplitAfterField(kind, '/', id);
    SplitWhole(id, '/');
    SplitAfterField("", '/', kind + "/" + id);
    assert "/" + kind + "/" + id == "" + ['/'] + (kind + ['/'] + id);
  }

  // ---------------------------------------------------------------- prefixes and replacing

  predicate StartsWith(s: string, prefix: string) {
    prefix <= s
  }

  predicate EndsWith(s: string, suffix: string) {
    |suffix| <= |s| && s[|s| - |suffix|..] == suffix
  }

  /**
   * `s.replace(target, replacement)`: scanning from the left, each occurrence of `target` is replaced and the scan
   * resumes after it. An empty `target` matches before every character and at the end.
   */
  function Replace(s: string, target: string, replacement: string): string
    decreases |s|
  {
    if target == [] then
      if s == [] then replacement else replacement + [s[0]] + Replace(s[1..], target, replacement)
    else if target <= s then replacement + Replace(s[|target|..], target, replacement)
    else if s == [] then []
    else [s[0]] + Replace(s[1..], target, replacement)
  }

  /** `target` occurs in `s` starting at index i. */
  predicate OccursAt(s: string, target: string, i: nat) {
    i + |target| <= |s| && s[i..i + |target|] == target
  }

  lemma {:induction false} ReplaceAbsent(s: string, target: string, replacement: string)
    requires target != []
    requires forall i :: 0 <= i <= |s| ==> !OccursAt(s, target, i)
    ensures Replace(s, target, replacement) == s
    decreases |s|
  {
    if s != [] {
      assert !OccursAt(s, target, 0);
      assert |target| <= |s| ==> s[0..|target|] == s[..|target|];
      forall i | 0 <= i <= |s[1..]| ensures !OccursAt(s[1..], target, i) {
        assert !OccursAt(s, target, i + 1);
        if i + |target| <= |s[1..]| {
          assert s[1..][i..i + |target|] == s[i + 1..i + 1 + |target|];
        }
      }
      ReplaceAbsent(s[1..], target, replacement);
    }
  }

  /** Where `target` does not occur at the front, the first character is kept and the scan moves on. */
  lemma ReplaceSkipsFirst(s: string, target: string, replacement: string)
    requires target != [] && s != [] && !OccursAt(s, target, 0)
    ensures Replace(s, target, replacement) == [s[0]] + Replace(s[1..], target, replacement)
  {
    assert |target| <= |s| ==> s[0..|target|] == s[..|target|];
  }

  lemma ShiftNoOccurrence(stem: string, target: string)
    requires stem != []
    requires forall i :: 0 <= i < |stem| ==> !OccursAt(stem + target, target, i)
    ensures forall i :: 0 <= i < |stem[1..]| ==> !OccursAt(stem[1..] + target, target, i)
  {
    var s := stem + target;
    assert s[1..] == stem[1..] + target;
    forall i | 0 <= i < |stem[1..]| ensures !OccursAt(stem[1..] + target, target, i) {
      assert !OccursAt(s, target, i + 1);
      assert s[1..][i..i + |target|] == s[i + 1..i + 1 + |target|];
    }
  }

  /** Deleting a character shortens the text exactly when the character occurs in it. */
  lemma {:induction false} DeleteCharShortens(s: string, c: char)
    ensures |Replace(s, [c], "")| <= |s|
    ensures c in s ==> |Replace(s, [c], "")| < |s|
    decreases |s|
  {
    if s != [] {
      DeleteCharShortens(s[1..], c);
      assert c in s ==> s[0] == c || c in s[1..];
      if [c] <= s {
        assert s[|[c]|..] == s[1..];
      }
    }
  }

  /** One step of the scan over `stem + target` where `target` does not start the text. */
  lemma ReplaceStemStep(stem: string, target: string, replacement: string)
    requires target != [] && stem != [] && !OccursAt(stem + target, target, 0)
    ensures Replace(stem + target, target, replacement) == [stem[0]] + Replace(stem[1..] + target, target, replacement)
  {
    var s := stem + target;
    ReplaceSkipsFirst(s, target, replacement);
    assert s[1..] == stem[1..] + target;
  }

  /** Replacing a suffix that does not occur earlier rewrites only that suffix. */
  lemma {:induction false} ReplaceSuffix(stem: string, target: string, replacement: string)
    requires target != []
    requires forall i :: 0 <= i < |stem| ==> !OccursAt(stem + target, target, i)
    ensures Replace(stem + target, target, replacement) == stem + replacement
    decreases |stem|
  {
    if stem == [] {
      assert stem + target == target;
      assert target[|target|..] == [];
    } else {
      ReplaceStemStep(stem, target, replacement);
      ShiftNoOccurrence(stem, target);
      ReplaceSuffix(stem[1..], target, replacement);
      assert [stem[0]] + stem[1..] == stem;
    }
  }

  // ---------------------------------------------------------------- numbers

  predicate IsDigit(c: char) {
    '0' <= c <= '9'
  }

  predicate AllDigits(s: string) {
    forall i :: 0 <= i < |s| ==> IsDigit(s[i])
  }

  /** The value of a run of decimal digits, or None when a character is no digit. */
  function DigitsValue(s: string): (r: Option<nat>)
    ensures r.Some? <==> AllDigits(s)
    decreases |s|
  {
    if s == [] then Some(0)
    else if !IsDigit(s[|s| - 1]) then None
    else match DigitsValue(s[..|s| - 1])
      case None => None
      case Some(v) => Some(10 * v + (s[|s| - 1] as int - '0' as int))
  }

  function InRange(v: int, lo: int, hi: int): Option<int> {
    if lo <= v <= hi then Some(v) else None
  }

  /**
   * `toIntOrNull`/`toLongOrNull` with the type's bounds [lo, hi]: a leading '-' or '+', then at
   * least one digit and nothing else.
   */
  function ParseInteger(s: string, lo: int, hi: int): (r: Option<int>)
    ensures r.Some? ==> lo <= r.value <= hi
  {
    if s == [] then None
    else if s[0] == '-' || s[0] == '+' then
      if |s| == 1 then None
      else match DigitsValue(s[1..])
        case None => None
        case Some(magnitude) => var v: int := magnitude; InRange(if s[0] == '-' then -v else v, lo, hi)
    else match DigitsValue(s)
      case None => None
      case Some(v) => InRange(v, lo, hi)
  }

  /** `s.toInt()`, which throws NumberFormatException where toIntOrNull gives null. */
  function ToInt(s: string): (r: Result<Int32>)
    ensures r.Ok? <==> ParseInteger(s, IntMin, IntMax).Some?
  {
    match ParseInteger(s, IntMin, IntMax)
    case Some(v) => Ok(v)
    case None => Err(NumberFormat)
  }

  /** `s.toLong()`. */
  function ToLong(s: string): (r: Result<Int64>)
    ensures r.Ok? <==> ParseInteger(s, LongMin, LongMax).Some?
  {
    match ParseInteger(s, LongMin, LongMax)
    case Some(v) => Ok(v)
    case None => Err(NumberFormat)
  }

  function DigitChar(n: nat): char
    requires n < 10
  {
    ('0' as int + n) as char
  }

  /** Decimal digits of a natural number, most significant first, no leading zero. */
  function NatToString(n: nat): (r: string)
    ensures |r| >= 1 && AllDigits(r)
  {
    if n < 10 then [DigitChar(n)] else NatToString(n / 10) + [DigitChar(n % 10)]
  }

  /** `n.toString()` for an Int or a Long. */
  function IntToString(n: int): string {
    if n < 0 then "-" + NatToString(-n) else NatToString(n)
  }

  lemma {:induction false} DigitsOfNat(n: nat)
    ensures DigitsValue(NatToString(n)) == Some(n)
  {
    if n >= 10 {
      DigitsOfNat(n / 10);
      var s := NatToString(n);
      assert s[..|s| - 1] == NatToString(n / 10);
    }
  }

  /** Printing then parsing gives the number back, for every number in range. */
  lemma ParseIntToString(n: int, lo: int, hi: int)
    requires lo <= n <= hi
    ensures ParseInteger(IntToString(n), lo, hi) == Some(n)
  {
    if n < 0 {
      DigitsOfNat(-n);
      assert IntToString(n)[1..] == NatToString(-n);
    } else {
      DigitsOfNat(n);
    }
  }

  lemma IntRoundTrip(n: Int32)
    ensures ToInt(IntToString(n)) == Ok(n)
  {
    ParseIntToString(n, IntMin, IntMax);
  }

  lemma LongRoundTrip(n: Int64)
    ensures ToLong(IntToString(n)) == Ok(n)
  {
    ParseIntToString(n, LongMin, LongMax);
  }
}
