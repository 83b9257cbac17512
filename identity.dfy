/**
 * The identity records of src/lib/user-identity.ts and the pure logic behind its exchange:
 * the unique id with its check digit, the 32-bit rolling checksum, the export package and
 * its checksum gate, and the merge rules for imported stats.
 */
module Identity {
  import opened Wrappers
  import opened Text
  import opened Stats

  /** An avatar symbol the identity can point to by `id`. */
  datatype Symbol = Symbol(id: nat, name: string, glyph: string)

  const SPIRITUAL_SYMBOLS: seq<Symbol> := [
    Symbol(1, "Om", "ॐ"), Symbol(2, "Lotus", "🪷"), Symbol(3, "Moon", "☽"),
    Symbol(4, "Sun", "☀"), Symbol(5, "Star", "✧"), Symbol(6, "Wheel", "☸"),
    Symbol(7, "Tree", "🌳"), Symbol(8, "Mountain", "🏔"), Symbol(9, "Water", "~"),
    Symbol(10, "Fire", "🔥"), Symbol(11, "Sky", "☁"), Symbol(12, "Peace", "☮")
  ]

  datatype UserIdentity = UserIdentity(spiritualName: string, symbolId: int, uniqueId: string, creationDate: nat)

  // ---------------------------------------------------------------- unique id

  const SPIRITUAL_WORDS: seq<string> := ["SHANTI", "PREMA", "ANANDA", "DHARMA", "KARMA"]

  /** The first three letters A to Z of the upper-cased name, or "OM" when it has none. */
  function IdPrefix(name: string): string
  {
    var clean := KeepUpperLetters(UpperCase(name));
    if clean == [] then "OM" else if |clean| <= 3 then clean else clean[..3]
  }

  /** The last digit of the id: `(code(prefix[0]) + code(word[0]) + number) % 10`. */
  function CheckDigit(prefix: string, word: string, number: nat): nat
    requires prefix != [] && word != []
  {
    (prefix[0] as int + word[0] as int + number) % 10
  }

  /**
   * `generateUniqueId(name)` with its two random draws given: the index of the word and
   * the number in 100..999.
   */
  function GenerateUniqueId(name: string, wordIndex: nat, number: nat): (id: string)
    requires wordIndex < |SPIRITUAL_WORDS| && 100 <= number <= 999
    ensures StartsWith(id, IdPrefix(name) + "-")
  {
    var prefix := IdPrefix(name);
    var word := SPIRITUAL_WORDS[wordIndex];
    prefix + "-" + word + "-" + Decimal(number) + Decimal(CheckDigit(prefix, word, number))
  }

  /**
   * An id of the form PREFIX-WORD-NNND whose last digit D is the check digit of the
   * other parts.
   */
  predicate ValidUniqueId(id: string)
  {
    var parts := Split(id, '-');
    && |parts| == 3 && parts[0] != [] && parts[1] != []
    && |parts[2]| == 4 && AllDigits(parts[2])
    && DigitValue(parts[2][3]) == CheckDigit(parts[0], parts[1], DigitsValue(parts[2][..3]))
  }

  /** The prefix has one to three letters A to Z, taken from the name, or is "OM". */
  lemma IdPrefixShape(name: string)
    ensures 1 <= |IdPrefix(name)| <= 3
    ensures forall i :: 0 <= i < |IdPrefix(name)| ==> IsUpperLetter(IdPrefix(name)[i])
    ensures IdPrefix(name) == "OM" || IdPrefix(name) <= KeepUpperLetters(UpperCase(name))
  {
  }

  lemma ThreeDigits(n: nat)
    requires 100 <= n <= 999
    ensures |Decimal(n)| == 3
  {
    var q := n / 10;
    assert 10 <= q <= 99;
    assert |Decimal(q / 10)| == 1;
    assert |Decimal(q)| == 2;
  }

  /**
   * A generated id splits at its dashes into the prefix, the chosen word and four digits:
   * the chosen number and its check digit, so every generated id passes the digit check.
   */
  lemma GeneratedIdLayout(name: string, wordIndex: nat, number: nat)
    requires wordIndex < |SPIRITUAL_WORDS| && 100 <= number <= 999
    ensures var parts := Split(GenerateUniqueId(name, wordIndex, number), '-');
      && |parts| == 3
      && parts[0] == IdPrefix(name)
      && parts[1] == SPIRITUAL_WORDS[wordIndex]
      && |parts[2]| == 4 && AllDigits(parts[2])
      && DigitsValue(parts[2][..3]) == number
    ensures ValidUniqueId(GenerateUniqueId(name, wordIndex, number))
  {
    var prefix := IdPrefix(name);
    var word := SPIRITUAL_WORDS[wordIndex];
    var digit := CheckDigit(prefix, word, number);
    var tail := Decimal(number) + Decimal(digit);
    IdPrefixShape(name);
    ThreeDigits(number);
    assert '-' !in prefix by {
      forall i | 0 <= i < |prefix| ensures prefix[i] != '-' { assert IsUpperLetter(prefix[i]); }
    }
    assert '-' !in word;
    assert '-' !in tail by { assert AllDigits(tail); }
    SplitNoSeparator(tail, '-');
    SplitAtFirst(word, '-', tail);
    assert GenerateUniqueId(name, wordIndex, number) == prefix + ['-'] + (word + ['-'] + tail);
    SplitAtFirst(prefix, '-', word + ['-'] + tail);
    assert tail[..3] == Decimal(number);
    DecimalRoundTrip(number);
    assert tail[3] == DigitChar(digit);
  }

  // ---------------------------------------------------------------- checksum

  const TWO_POW_31: int := 0x8000_0000
  const TWO_POW_32: int := 0x1_0000_0000

  /** `ToInt32`: wrap-around into the signed 32-bit range. */
  function Int32(x: int): (r: int)
    ensures -TWO_POW_31 <= r < TWO_POW_31
    ensures (r - x) % TWO_POW_32 == 0
  {
    ((x + TWO_POW_31) % TWO_POW_32) - TWO_POW_31
  }

  lemma ModAddMultiple(a: int, k: int)
    ensures (a + k * TWO_POW_32) % TWO_POW_32 == a % TWO_POW_32
  {
    var b := a + k * TWO_POW_32;
    var q1, r1 := b / TWO_POW_32, b % TWO_POW_32;
    var q2, r2 := a / TWO_POW_32, a % TWO_POW_32;
    assert b == q1 * TWO_POW_32 + r1 && a == q2 * TWO_POW_32 + r2;
    assert r1 - r2 == (q2 + k - q1) * TWO_POW_32;
  }

  lemma Int32Congruent(x: int, y: int, k: int)
    requires x == y + k * TWO_POW_32
    ensures Int32(x) == Int32(y)
  {
    ModAddMultiple(y + TWO_POW_31, k);
  }

  lemma Int32Difference(x: int)
    ensures x - Int32(x) == ((x - Int32(x)) / TWO_POW_32) * TWO_POW_32
  {
  }

  /** The rolling hash: `h := int32(31 * h + c)` over the character codes, from 0. */
  function Hash(s: string): (h: int)
    ensures -TWO_POW_31 <= h < TWO_POW_31
  {
    if s == [] then 0 else Int32(31 * Hash(s[..|s| - 1]) + s[|s| - 1] as int)
  }

  /** The same polynomial without wrap-around. */
  function Poly(s: string): int
  {
    if s == [] then 0 else 31 * Poly(s[..|s| - 1]) + s[|s| - 1] as int
  }

  /** Wrapping at every step is the same as wrapping once at the end. */
  lemma {:induction false} HashIsWrappedPoly(s: string)
    ensures Hash(s) == Int32(Poly(s))
  {
    if s != [] {
      var p := s[..|s| - 1];
      var c := s[|s| - 1] as int;
      HashIsWrappedPoly(p);
      var q := Poly(p);
      Int32Difference(q);
      var k := (q - Int32(q)) / TWO_POW_32;
      assert 31 * q + c == (31 * Int32(q) + c) + (31 * k) * TWO_POW_32;
      Int32Congruent(31 * q + c, 31 * Int32(q) + c, 31 * k);
    }
  }

  /** One iteration as written: `hash = ((hash << 5) - hash) + char; hash = hash & hash`. */
  lemma ShiftStep(h: int, c: int)
    ensures Int32(Int32(h * 32) - h + c) == Int32(31 * h + c)
  {
    Int32Difference(h * 32);
    var k := (h * 32 - Int32(h * 32)) / TWO_POW_32;
    assert 31 * h + c == (Int32(h * 32) - h + c) + k * TWO_POW_32;
    Int32Congruent(31 * h + c, Int32(h * 32) - h + c, k);
  }

  function Abs(x: int): nat { if x < 0 then -x else x }

  /** The string the checksum is taken over. */
  function ChecksumInput(identity: UserIdentity, totalCount: nat): string
  {
    identity.uniqueId + Decimal(identity.creationDate) + Decimal(totalCount)
  }

  /** `calculateChecksum`: the first 8 hexadecimal digits of `|hash|`. */
  function Checksum(identity: UserIdentity, totalCount: nat): string
  {
    var hex := Hex(Abs(Hash(ChecksumInput(identity, totalCount))));
    if |hex| <= 8 then hex else hex[..8]
  }

  lemma {:induction false} HexLength(n: nat, k: nat)
    requires 1 <= k
    requires n < Pow16(k)
    ensures |Hex(n)| <= k
  {
    if n >= 16 {
      HexLength(n / 16, k - 1);
    }
  }

  function Pow16(k: nat): nat { if k == 0 then 1 else 16 * Pow16(k - 1) }

  /**
   * The checksum is the lower-case hexadecimal of `|hash|` with nothing cut off: it has 1
   * to 8 digits, since `|hash|` is at most 2^31.
   */
  lemma ChecksumIsWholeHex(identity: UserIdentity, totalCount: nat)
    ensures Checksum(identity, totalCount) == Hex(Abs(Hash(ChecksumInput(identity, totalCount))))
    ensures 1 <= |Checksum(identity, totalCount)| <= 8
  {
    assert Pow16(8) == 0x1_0000_0000;
    HexLength(Abs(Hash(ChecksumInput(identity, totalCount))), 8);
  }

  /** `calculateChecksum` as written: the loop over the characters with the shift step. */
  method CalculateChecksum(identity: UserIdentity, totalCount: nat) returns (checksum: string)
    ensures checksum == Checksum(identity, totalCount)
  {
    var str := ChecksumInput(identity, totalCount);
    var hash := 0;
    var i := 0;
    while i < |str|
      invariant 0 <= i <= |str|
      invariant hash == Hash(str[..i])
    {
      var c := str[i] as int;
      ShiftStep(hash, c);
      hash := Int32(hash * 32) - hash + c;
      hash := Int32(hash);
      assert str[..i + 1][..i] == str[..i];
      i := i + 1;
    }
    assert str[..i] == str;
    var hex := Hex(Abs(hash));
    checksum := if |hex| <= 8 then hex else hex[..8];
  }

  // ---------------------------------------------------------------- export package

  /**
   * `UserIdentityExport`. The stats of a package built here carry no daily records; a
   * package read from elsewhere may.
   */
  datatype ExportPackage = ExportPackage(
    identity: UserIdentity,
    stats: MantraStats,
    dailyRecords: Option<seq<DailyRecord>>,
    version: string,
    checksum: string)

  const EXPORT_VERSION: string := "1.0"

  /** `generateExportData`, given the stored identity and the stats just read. */
  function ExportData(identity: Option<UserIdentity>, stats: MantraStats): Result<ExportPackage, string>
  {
    match identity
    case None => Err("No user identity found")
    case Some(id) => Ok(ExportPackage(id, stats, None, EXPORT_VERSION, Checksum(id, stats.totalCount)))
  }

  /** The gate of apply and merge: the recomputed checksum equals the carried one. */
  predicate ChecksumMatches(p: ExportPackage)
  {
    Checksum(p.identity, p.stats.totalCount) == p.checksum
  }

  /**
   * Without an identity there is nothing to export; with one, the package carries it, the
   * stats, version "1.0" and no daily records, and passes the checksum gate.
   */
  lemma ExportDataEffect(identity: Option<UserIdentity>, stats: MantraStats)
    ensures ExportData(identity, stats).Err? <==> identity.None?
    ensures ExportData(identity, stats).Ok? ==>
      var p := ExportData(identity, stats).value;
      && p.identity == identity.value && p.stats == stats && p.version == "1.0"
      && p.dailyRecords.None? && ChecksumMatches(p)
  {
  }

  /** Inputs whose hashes differ in absolute value get different checksums. */
  lemma ChecksumSeparates(identity: UserIdentity, total1: nat, total2: nat)
    requires Abs(Hash(ChecksumInput(identity, total1))) != Abs(Hash(ChecksumInput(identity, total2)))
    ensures Checksum(identity, total1) != Checksum(identity, total2)
  {
    ChecksumIsWholeHex(identity, total1);
    ChecksumIsWholeHex(identity, total2);
    if Checksum(identity, total1) == Checksum(identity, total2) {
      HexInjective(Abs(Hash(ChecksumInput(identity, total1))), Abs(Hash(ChecksumInput(identity, total2))));
    }
  }

  lemma {:induction false} HexInjective(a: nat, b: nat)
    requires Hex(a) == Hex(b)
    ensures a == b
    decreases a
  {
    if a >= 16 && b >= 16 {
      var ha, hb := Hex(a), Hex(b);
      assert ha[..|ha| - 1] == Hex(a / 16) && hb[..|hb| - 1] == Hex(b / 16);
      HexInjective(a / 16, b / 16);
      HexDigitInjective(a % 16, b % 16);
    } else if a < 16 && b < 16 {
      HexDigitInjective(a, b);
    }
  }

  lemma HexDigitInjective(a: nat, b: nat)
    requires a < 16 && b < 16 && HexDigit(a) == HexDigit(b)
    ensures a == b
  {
  }

  // ---------------------------------------------------------------- merge

  /** `[...new Set(s)]`: first occurrences, in order. */
  function Dedup(s: seq<string>): seq<string>
  {
    if s == [] then []
    else
      var d := Dedup(s[..|s| - 1]);
      if s[|s| - 1] in d then d else d + [s[|s| - 1]]
  }

  predicate NoDuplicates(s: seq<string>)
  {
    forall i, j :: 0 <= i < j < |s| ==> s[i] != s[j]
  }

  /** The deduplicated list holds each element of the input exactly once. */
  lemma {:induction false} DedupExactly(s: seq<string>)
    ensures forall x :: x in Dedup(s) <==> x in s
    ensures NoDuplicates(Dedup(s))
  {
    if s != [] {
      DedupExactly(s[..|s| - 1]);
      assert s == s[..|s| - 1] + [s[|s| - 1]];
    }
  }

  /** A list without duplicates is its own deduplication. */
  lemma {:induction false} DedupOfDistinct(s: seq<string>)
    requires NoDuplicates(s)
    ensures Dedup(s) == s
  {
    if s != [] {
      DedupOfDistinct(s[..|s| - 1]);
    }
  }

  /** Deduplicating `a + b` keeps the deduplication of `a` in front. */
  lemma {:induction false} DedupKeepsPrefix(a: seq<string>, b: seq<string>)
    ensures |Dedup(a + b)| >= |Dedup(a)| && Dedup(a + b)[..|Dedup(a)|] == Dedup(a)
  {
    if b != [] {
      var b' := b[..|b| - 1];
      assert (a + b)[..|a + b| - 1] == a + b';
      DedupKeepsPrefix(a, b');
    } else {
      assert a + b == a;
    }
  }

  /** The stats `mergeImportedIdentity` stores. */
  function MergeStats(current: MantraStats, imported: MantraStats): (m: MantraStats)
    ensures NoDuplicates(m.achievements)
  {
    DedupExactly(current.achievements + imported.achievements);
    MantraStats(
      if current.todayCount >= imported.todayCount then current.todayCount else imported.todayCount,
      current.totalCount + imported.totalCount,
      if current.streak >= imported.streak then current.streak else imported.streak,
      current.lastChantDate,
      Dedup(current.achievements + imported.achievements),
      Some(current.practiceDays.GetOr(0) + imported.practiceDays.GetOr(0)))
  }

  /**
   * Merging takes the larger today count and streak, adds the totals and practice days
   * (a missing count as 0), keeps the current last chant date, and unites the achievements
   * without duplicates, the current ones first. A current list that itself repeats a tag
   * (a replaced import stores the imported list as it came) is deduplicated in front.
   */
  lemma MergeStatsEffect(current: MantraStats, imported: MantraStats)
    ensures var m := MergeStats(current, imported);
      && m.todayCount >= current.todayCount && m.todayCount >= imported.todayCount
      && (m.todayCount == current.todayCount || m.todayCount == imported.todayCount)
      && m.streak >= current.streak && m.streak >= imported.streak
      && (m.streak == current.streak || m.streak == imported.streak)
      && m.totalCount == current.totalCount + imported.totalCount
      && m.lastChantDate == current.lastChantDate
      && m.practiceDays == Some(current.practiceDays.GetOr(0) + imported.practiceDays.GetOr(0))
      && (forall t :: t in m.achievements <==> t in current.achievements || t in imported.achievements)
      && NoDuplicates(m.achievements)
      && |m.achievements| >= |Dedup(current.achievements)|
      && m.achievements[..|Dedup(current.achievements)|] == Dedup(current.achievements)
      && (NoDuplicates(current.achievements) ==>
            |m.achievements| >= |current.achievements| && m.achievements[..|current.achievements|] == current.achievements)
  {
    var all := current.achievements + imported.achievements;
    DedupExactly(all);
    DedupKeepsPrefix(current.achievements, imported.achievements);
    if NoDuplicates(current.achievements) {
      DedupOfDistinct(current.achievements);
    }
  }
}
