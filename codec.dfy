/**
 * The transfer token of src/lib/user-identity.ts: "OM-IDENTITY:" followed by the
 * serialised export package. The serialisation here is a length-prefixed text format
 * standing in for base64-encoded JSON; each field reader is proved to undo its writer.
 */
module Codec {
  import opened Wrappers
  import opened Text
  import opened Calendar
  import opened Stats
  import opened Identity

  const TOKEN_PREFIX: string := "OM-IDENTITY:"

  // ---------------------------------------------------------------- numbers

  /** The characters before the first ';' and those after it. */
  function ReadField(s: string): Option<(string, string)>
  {
    if s == [] then None
    else if s[0] == ';' then Some(([], s[1..]))
    else match ReadField(s[1..])
      case None => None
      case Some((a, r)) => Some(([s[0]] + a, r))
  }

  lemma {:induction false} ReadFieldAppend(a: string, rest: string)
    requires ';' !in a
    ensures ReadField(a + ";" + rest) == Some((a, rest))
  {
    if a == [] {
      assert a + ";" + rest == [';'] + rest;
    } else {
      assert (a + ";" + rest)[1..] == a[1..] + ";" + rest;
      ReadFieldAppend(a[1..], rest);
      assert [a[0]] + a[1..] == a;
    }
  }

  lemma Assoc(a: string, b: string, c: string)
    ensures (a + b) + c == a + (b + c)
  {
  }

  function EncNat(n: nat): string { Decimal(n) + ";" }

  function ReadNat(s: string): Option<(nat, string)>
  {
    match ReadField(s)
    case None => None
    case Some((d, r)) => if d != [] && AllDigits(d) then Some((DigitsValue(d), r)) else None
  }

  lemma ReadNatRoundTrip(n: nat, rest: string)
    ensures ReadNat(EncNat(n) + rest) == Some((n, rest))
  {
    var d := Decimal(n);
    assert ';' !in d by { assert AllDigits(d); }
    ReadFieldAppend(d, rest);
    DecimalRoundTrip(n);
  }

  function EncInt(i: int): string { if i < 0 then "-" + EncNat(-i) else "+" + EncNat(i) }

  function ReadInt(s: string): Option<(int, string)>
  {
    if s == [] then None
    else match ReadNat(s[1..])
      case None => None
      case Some((n, r)) =>
        var v: int := if s[0] == '-' then 0 - n as int else n as int;
        if s[0] == '-' || s[0] == '+' then Some((v, r)) else None
  }

  lemma ReadIntRoundTrip(i: int, rest: string)
    ensures ReadInt(EncInt(i) + rest) == Some((i, rest))
  {
    var n: nat := if i < 0 then -i else i;
    assert (EncInt(i) + rest)[1..] == EncNat(n) + rest;
    ReadNatRoundTrip(n, rest);
  }

  // ---------------------------------------------------------------- strings

  function EncStr(t: string): string { EncNat(|t|) + t }

  function ReadStr(s: string): Option<(string, string)>
  {
    match ReadNat(s)
    case None => None
    case Some((n, r)) => if n <= |r| then Some((r[..n], r[n..])) else None
  }

  lemma ReadStrRoundTrip(t: string, rest: string)
    ensures ReadStr(EncStr(t) + rest) == Some((t, rest))
  {
    assert EncStr(t) + rest == EncNat(|t|) + (t + rest);
    ReadNatRoundTrip(|t|, t + rest);
    assert (t + rest)[..|t|] == t && (t + rest)[|t|..] == rest;
  }

  function EncStrItems(xs: seq<string>): string
  {
    if xs == [] then [] else EncStr(xs[0]) + EncStrItems(xs[1..])
  }

  function ReadStrItems(count: nat, s: string): Option<(seq<string>, string)>
  {
    if count == 0 then Some(([], s))
    else match ReadStr(s)
      case None => None
      case Some((x, r)) =>
        match ReadStrItems(count - 1, r)
        case None => None
        case Some((xs, r')) => Some(([x] + xs, r'))
  }

  lemma {:induction false} ReadStrItemsRoundTrip(xs: seq<string>, rest: string)
    ensures ReadStrItems(|xs|, EncStrItems(xs) + rest) == Some((xs, rest))
  {
    if xs != [] {
      Assoc(EncStr(xs[0]), EncStrItems(xs[1..]), rest);
      ReadStrRoundTrip(xs[0], EncStrItems(xs[1..]) + rest);
      ReadStrItemsRoundTrip(xs[1..], rest);
      assert [xs[0]] + xs[1..] == xs;
    } else {
      assert EncStrItems(xs) + rest == rest;
    }
  }

  function EncStrList(xs: seq<string>): string { EncNat(|xs|) + EncStrItems(xs) }

  function ReadStrList(s: string): Option<(seq<string>, string)>
  {
    match ReadNat(s)
    case None => None
    case Some((n, r)) => ReadStrItems(n, r)
  }

  lemma ReadStrListRoundTrip(xs: seq<string>, rest: string)
    ensures ReadStrList(EncStrList(xs) + rest) == Some((xs, rest))
  {
    Assoc(EncNat(|xs|), EncStrItems(xs), rest);
    ReadNatRoundTrip(|xs|, EncStrItems(xs) + rest);
    ReadStrItemsRoundTrip(xs, rest);
  }

  // ---------------------------------------------------------------- records

  function EncOptNat(o: Option<nat>): string
  {
    match o
    case None => "N"
    case Some(n) => "S" + EncNat(n)
  }

  function ReadOptNat(s: string): Option<(Option<nat>, string)>
  {
    if s == [] then None
    else if s[0] == 'N' then Some((None, s[1..]))
    else if s[0] == 'S' then
      match ReadNat(s[1..])
      case None => None
      case Some((n, r)) => Some((Some(n), r))
    else None
  }

  lemma ReadOptNatRoundTrip(o: Option<nat>, rest: string)
    ensures ReadOptNat(EncOptNat(o) + rest) == Some((o, rest))
  {
    assert (EncOptNat(o) + rest)[1..] == (if o.None? then rest else EncNat(o.value) + rest);
    if o.Some? {
      ReadNatRoundTrip(o.value, rest);
    }
  }

  function EncDate(d: Date): string { EncInt(d.year) + (EncInt(d.month) + EncInt(d.day)) }

  function ReadDate(s: string): Option<(Date, string)>
  {
    match ReadInt(s)
    case None => None
    case Some((y, s1)) =>
      match ReadInt(s1)
      case None => None
      case Some((m, s2)) =>
        match ReadInt(s2)
        case None => None
        case Some((d, s3)) => Some((Date(y, m, d), s3))
  }

  lemma ReadDateRoundTrip(d: Date, rest: string)
    ensures ReadDate(EncDate(d) + rest) == Some((d, rest))
  {
    Assoc(EncInt(d.year), EncInt(d.month) + EncInt(d.day), rest);
    Assoc(EncInt(d.month), EncInt(d.day), rest);
    ReadIntRoundTrip(d.year, EncInt(d.month) + (EncInt(d.day) + rest));
    ReadIntRoundTrip(d.month, EncInt(d.day) + rest);
    ReadIntRoundTrip(d.day, rest);
  }

  function EncRecord(r: DailyRecord): string { EncDate(r.date) + EncNat(r.count) }

  function ReadRecord(s: string): Option<(DailyRecord, string)>
  {
    match ReadDate(s)
    case None => None
    case Some((d, s1)) =>
      match ReadNat(s1)
      case None => None
      case Some((c, s2)) => Some((DailyRecord(d, c), s2))
  }

  lemma ReadRecordRoundTrip(r: DailyRecord, rest: string)
    ensures ReadRecord(EncRecord(r) + rest) == Some((r, rest))
  {
    Assoc(EncDate(r.date), EncNat(r.count), rest);
    ReadDateRoundTrip(r.date, EncNat(r.count) + rest);
    ReadNatRoundTrip(r.count, rest);
  }

  function EncRecordItems(xs: seq<DailyRecord>): string
  {
    if xs == [] then [] else EncRecord(xs[0]) + EncRecordItems(xs[1..])
  }

  function ReadRecordItems(count: nat, s: string): Option<(seq<DailyRecord>, string)>
  {
    if count == 0 then Some(([], s))
    else match ReadRecord(s)
      case None => None
      case Some((x, r)) =>
        match ReadRecordItems(count - 1, r)
        case None => None
        case Some((xs, r')) => Some(([x] + xs, r'))
  }

  lemma {:induction false} ReadRecordItemsRoundTrip(xs: seq<DailyRecord>, rest: string)
    ensures ReadRecordItems(|xs|, EncRecordItems(xs) + rest) == Some((xs, rest))
  {
    if xs != [] {
      var x, tail := xs[0], xs[1..];
      var after := EncRecordItems(tail) + rest;
      assert EncRecordItems(xs) + rest == EncRecord(x) + after by {
        Assoc(EncRecord(x), EncRecordItems(tail), rest);
      }
      ReadRecordRoundTrip(x, after);
      ReadRecordItemsRoundTrip(tail, rest);
      assert [x] + tail == xs;
    } else {
      assert EncRecordItems(xs) + rest == rest;
    }
  }

  function EncOptRecords(o: Option<seq<DailyRecord>>): string
  {
    match o
    case None => "N"
    case Some(xs) => "S" + (EncNat(|xs|) + EncRecordItems(xs))
  }

  function ReadOptRecords(s: string): Option<(Option<seq<DailyRecord>>, string)>
  {
    if s == [] then None
    else if s[0] == 'N' then Some((None, s[1..]))
    else if s[0] == 'S' then
      match ReadNat(s[1..])
      case None => None
      case Some((n, r)) =>
        match ReadRecordItems(n, r)
        case None => None
        case Some((xs, r')) => Some((Some(xs), r'))
    else None
  }

  lemma ReadOptRecordsRoundTrip(o: Option<seq<DailyRecord>>, rest: string)
    ensures ReadOptRecords(EncOptRecords(o) + rest) == Some((o, rest))
  {
    if o.Some? {
      var xs := o.value;
      Assoc("S", EncNat(|xs|) + EncRecordItems(xs), rest);
      Assoc(EncNat(|xs|), EncRecordItems(xs), rest);
      assert (EncOptRecords(o) + rest)[1..] == EncNat(|xs|) + (EncRecordItems(xs) + rest);
      ReadNatRoundTrip(|xs|, EncRecordItems(xs) + rest);
      ReadRecordItemsRoundTrip(xs, rest);
    } else {
      assert (EncOptRecords(o) + rest)[1..] == rest;
    }
  }

  function EncIdentity(i: UserIdentity): string
  {
    EncStr(i.spiritualName) + (EncInt(i.symbolId) + (EncStr(i.uniqueId) + EncNat(i.creationDate)))
  }

  function ReadIdentity(s: string): Option<(UserIdentity, string)>
  {
    match ReadStr(s)
    case None => None
    case Some((name, s1)) =>
      match ReadInt(s1)
      case None => None
      case Some((symbol, s2)) =>
        match ReadStr(s2)
        case None => None
        case Some((uid, s3)) =>
          match ReadNat(s3)
          case None => None
          case Some((created, s4)) => Some((UserIdentity(name, symbol, uid, created), s4))
  }

  lemma ReadIdentityRoundTrip(i: UserIdentity, rest: string)
    ensures ReadIdentity(EncIdentity(i) + rest) == Some((i, rest))
  {
    var r3 := EncNat(i.creationDate) + rest;
    var r2 := EncStr(i.uniqueId) + r3;
    var r1 := EncInt(i.symbolId) + r2;
    Assoc(EncStr(i.spiritualName), EncInt(i.symbolId) + (EncStr(i.uniqueId) + EncNat(i.creationDate)), rest);
    Assoc(EncInt(i.symbolId), EncStr(i.uniqueId) + EncNat(i.creationDate), rest);
    Assoc(EncStr(i.uniqueId), EncNat(i.creationDate), rest);
    ReadStrRoundTrip(i.spiritualName, r1);
    ReadIntRoundTrip(i.symbolId, r2);
    ReadStrRoundTrip(i.uniqueId, r3);
    ReadNatRoundTrip(i.creationDate, rest);
  }

  function EncStats(st: MantraStats): string
  {
    EncNat(st.todayCount) + (EncNat(st.totalCount) + (EncNat(st.streak) + (EncDate(st.lastChantDate)
      + (EncStrList(st.achievements) + EncOptNat(st.practiceDays)))))
  }

  function ReadStats(s: string): Option<(MantraStats, string)>
  {
    match ReadNat(s)
    case None => None
    case Some((today, s1)) =>
      match ReadNat(s1)
      case None => None
      case Some((total, s2)) =>
        match ReadNat(s2)
        case None => None
        case Some((streak, s3)) =>
          match ReadDate(s3)
          case None => None
          case Some((last, s4)) =>
            match ReadStrList(s4)
            case None => None
            case Some((ach, s5)) =>
              match ReadOptNat(s5)
              case None => None
              case Some((days, s6)) => Some((MantraStats(today, total, streak, last, ach, days), s6))
  }

  lemma ReadStatsRoundTrip(st: MantraStats, rest: string)
    ensures ReadStats(EncStats(st) + rest) == Some((st, rest))
  {
    var r5 := EncOptNat(st.practiceDays) + rest;
    var r4 := EncStrList(st.achievements) + r5;
    var r3 := EncDate(st.lastChantDate) + r4;
    var r2 := EncNat(st.streak) + r3;
    var r1 := EncNat(st.totalCount) + r2;
    var e5 := EncStrList(st.achievements) + EncOptNat(st.practiceDays);
    var e4 := EncDate(st.lastChantDate) + e5;
    var e3 := EncNat(st.streak) + e4;
    var e2 := EncNat(st.totalCount) + e3;
    Assoc(EncNat(st.todayCount), e2, rest);
    Assoc(EncNat(st.totalCount), e3, rest);
    Assoc(EncNat(st.streak), e4, rest);
    Assoc(EncDate(st.lastChantDate), e5, rest);
    Assoc(EncStrList(st.achievements), EncOptNat(st.practiceDays), rest);
    ReadNatRoundTrip(st.todayCount, r1);
    ReadNatRoundTrip(st.totalCount, r2);
    ReadNatRoundTrip(st.streak, r3);
    ReadDateRoundTrip(st.lastChantDate, r4);
    ReadStrListRoundTrip(st.achievements, r5);
    ReadOptNatRoundTrip(st.practiceDays, rest);
  }

  // ---------------------------------------------------------------- the package

  /** The serialised package (standing in for `JSON.stringify` followed by `btoa`). */
  function EncodePackage(p: ExportPackage): string
  {
    EncIdentity(p.identity) + (EncStats(p.stats) + (EncOptRecords(p.dailyRecords)
      + (EncStr(p.version) + EncStr(p.checksum))))
  }

  function ReadPackage(s: string): Option<(ExportPackage, string)>
  {
    match ReadIdentity(s)
    case None => None
    case Some((identity, s1)) =>
      match ReadStats(s1)
      case None => None
      case Some((stats, s2)) =>
        match ReadOptRecords(s2)
        case None => None
        case Some((records, s3)) =>
          match ReadStr(s3)
          case None => None
          case Some((version, s4)) =>
            match ReadStr(s4)
            case None => None
            case Some((checksum, s5)) => Some((ExportPackage(identity, stats, records, version, checksum), s5))
  }

  /** The reader: a package that fills the whole text, or nothing (as `atob`/`JSON.parse` throw). */
  function DecodePackage(s: string): Option<ExportPackage>
  {
    match ReadPackage(s)
    case None => None
    case Some((p, rest)) => if rest == [] then Some(p) else None
  }

  lemma ReadPackageRoundTrip(p: ExportPackage, rest: string)
    ensures ReadPackage(EncodePackage(p) + rest) == Some((p, rest))
  {
    var r4 := EncStr(p.checksum) + rest;
    var r3 := EncStr(p.version) + r4;
    var r2 := EncOptRecords(p.dailyRecords) + r3;
    var r1 := EncStats(p.stats) + r2;
    var e3 := EncStr(p.version) + EncStr(p.checksum);
    var e2 := EncOptRecords(p.dailyRecords) + e3;
    var e1 := EncStats(p.stats) + e2;
    Assoc(EncIdentity(p.identity), e1, rest);
    Assoc(EncStats(p.stats), e2, rest);
    Assoc(EncOptRecords(p.dailyRecords), e3, rest);
    Assoc(EncStr(p.version), EncStr(p.checksum), rest);
    ReadIdentityRoundTrip(p.identity, r1);
    ReadStatsRoundTrip(p.stats, r2);
    ReadOptRecordsRoundTrip(p.dailyRecords, r3);
    ReadStrRoundTrip(p.version, r4);
    ReadStrRoundTrip(p.checksum, rest);
  }

  /** Decoding undoes encoding. */
  lemma DecodeEncode(p: ExportPackage)
    ensures DecodePackage(EncodePackage(p)) == Some(p)
  {
    ReadPackageRoundTrip(p, []);
    assert EncodePackage(p) + [] == EncodePackage(p);
  }

  /** `exportIdentityToText` on an export package. */
  function ExportToText(p: ExportPackage): (text: string)
    ensures StartsWith(text, TOKEN_PREFIX)
  {
    TOKEN_PREFIX + EncodePackage(p)
  }

  /** `importIdentityFromText`: `None` without the prefix; otherwise the decoding of what follows it. */
  function ImportFromText(text: string): (r: Option<ExportPackage>)
    ensures r.Some? ==> StartsWith(text, TOKEN_PREFIX)
  {
    if StartsWith(text, TOKEN_PREFIX) then DecodePackage(text[|TOKEN_PREFIX|..]) else None
  }

  /**
   * Importing an exported token gives the package back; a text without the prefix gives
   * nothing; a text with the prefix is read from its 13th character on.
   */
  lemma ImportExport(p: ExportPackage, text: string)
    ensures ImportFromText(ExportToText(p)) == Some(p)
    ensures !StartsWith(text, TOKEN_PREFIX) ==> ImportFromText(text).None?
    ensures StartsWith(text, TOKEN_PREFIX) ==> ImportFromText(text) == DecodePackage(text[12..])
  {
    var t := ExportToText(p);
    assert t[..|TOKEN_PREFIX|] == TOKEN_PREFIX && t[|TOKEN_PREFIX|..] == EncodePackage(p);
    DecodeEncode(p);
  }
}
