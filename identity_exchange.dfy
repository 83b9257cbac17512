/**
 * The operations of src/lib/user-identity.ts on the store: the stored identity, the export
 * package and its text token, and the two ways of taking an imported package in. A thrown
 * error is an `Err` result.
 */
module IdentityExchange {
  import opened Wrappers
  import opened Calendar
  import opened Stats
  import opened Identity
  import opened Codec
  import opened Storage
  import MantraStorage

  /** `saveUserIdentity` */
  method SaveUserIdentity(store: Store, identity: UserIdentity)
    modifies store`identity
    ensures store.identity == Some(identity)
  {
    store.identity := Some(identity);
  }

  /** `getUserIdentity`: the stored identity, if any. */
  method GetUserIdentity(store: Store) returns (identity: Option<UserIdentity>)
    ensures identity == store.identity
  {
    identity := store.identity;
  }

  /** `hasUserIdentity` */
  method HasUserIdentity(store: Store) returns (has: bool)
    ensures has <==> store.identity.Some?
  {
    has := store.identity != None;
  }

  /** `updateSpiritualName`: renames a stored identity; without one nothing happens. */
  method UpdateSpiritualName(store: Store, newName: string)
    modifies store`identity
    ensures store.identity ==
      if old(store.identity).None? then None else Some(old(store.identity).value.(spiritualName := newName))
  {
    var identity := GetUserIdentity(store);
    if identity.Some? {
      SaveUserIdentity(store, identity.value.(spiritualName := newName));
    }
  }

  /** `updateSpiritualSymbol`: changes the symbol of a stored identity; without one nothing happens. */
  method UpdateSpiritualSymbol(store: Store, symbolId: int)
    modifies store`identity
    ensures store.identity ==
      if old(store.identity).None? then None else Some(old(store.identity).value.(symbolId := symbolId))
  {
    var identity := GetUserIdentity(store);
    if identity.Some? {
      SaveUserIdentity(store, identity.value.(symbolId := symbolId));
    }
  }

  /**
   * `generateExportData`: reads the identity, then the stats (which stores the rolled-over
   * record even when the export then fails for want of an identity).
   */
  method GenerateExportData(store: Store, today: Date) returns (result: Result<ExportPackage, string>)
    requires ValidDate(today)
    modifies store`stats
    ensures result == ExportData(store.identity, Reconcile(old(store.stats), today, |store.dailyRecords|))
    ensures store.stats == Some(Reconcile(old(store.stats), today, |store.dailyRecords|))
  {
    var identity := GetUserIdentity(store);
    var stats := MantraStorage.GetMantraStats(store, today);
    if identity.None? {
      return Err("No user identity found");
    }
    var checksum := CalculateChecksum(identity.value, stats.totalCount);
    result := Ok(ExportPackage(identity.value, stats, None, "1.0", checksum));
  }

  /** `exportIdentityToText`: the export package as a token, or the export's error. */
  method ExportIdentityToText(store: Store, today: Date) returns (result: Result<string, string>)
    requires ValidDate(today)
    modifies store`stats
    ensures var exported := ExportData(store.identity, Reconcile(old(store.stats), today, |store.dailyRecords|));
      result == match exported
        case Ok(p) => Ok(ExportToText(p))
        case Err(e) => Err(e)
    ensures result.Ok? ==> ImportFromText(result.value).Some? && ChecksumMatches(ImportFromText(result.value).value)
  {
    var exportData := GenerateExportData(store, today);
    if exportData.Err? {
      return Err(exportData.error);
    }
    ExportedTokenAccepted(exportData.value.identity, exportData.value.stats);
    result := Ok(ExportToText(exportData.value));
  }

  /**
   * A token exported for an identity imports back to the very package, and that package
   * passes the checksum gate of apply and merge.
   */
  lemma ExportedTokenAccepted(identity: UserIdentity, stats: MantraStats)
    ensures ExportData(Some(identity), stats).Ok?
    ensures var p := ExportData(Some(identity), stats).value;
      ImportFromText(ExportToText(p)) == Some(p) && ChecksumMatches(p)
  {
    var p := ExportData(Some(identity), stats).value;
    ExportDataEffect(Some(identity), stats);
    ImportExport(p, ExportToText(p));
  }

  /**
   * `applyImportedIdentity`: a package whose checksum does not match is refused and nothing
   * changes; otherwise its identity, stats and daily records (none: an empty log) replace
   * the stored ones.
   */
  method ApplyImportedIdentity(store: Store, data: ExportPackage) returns (result: Result<(), string>)
    modifies store`identity, store`stats, store`dailyRecords
    ensures result.Ok? <==> ChecksumMatches(data)
    ensures result.Ok? ==>
      && store.identity == Some(data.identity)
      && store.stats == Some(data.stats)
      && store.dailyRecords == data.dailyRecords.GetOr([])
    ensures result.Err? ==>
      && result.error == "Invalid identity data (checksum mismatch)"
      && store.identity == old(store.identity)
      && store.stats == old(store.stats)
      && store.dailyRecords == old(store.dailyRecords)
  {
    var calculatedChecksum := CalculateChecksum(data.identity, data.stats.totalCount);
    if calculatedChecksum != data.checksum {
      return Err("Invalid identity data (checksum mismatch)");
    }
    SaveUserIdentity(store, data.identity);
    store.stats := Some(data.stats);
    store.dailyRecords := data.dailyRecords.GetOr([]);
    result := Ok(());
  }

  /**
   * `mergeImportedIdentity`: a package whose checksum does not match is refused and nothing
   * changes; otherwise the current stats (read, and so rolled over, first) are merged with
   * the package's and stored, and the identity and the log stay as they are.
   */
  method MergeImportedIdentity(store: Store, data: ExportPackage, today: Date) returns (result: Result<(), string>)
    requires ValidDate(today)
    modifies store`stats
    ensures result.Ok? <==> ChecksumMatches(data)
    ensures result.Ok? ==>
      store.stats == Some(MergeStats(Reconcile(old(store.stats), today, |store.dailyRecords|), data.stats))
    ensures result.Err? ==>
      result.error == "Invalid identity data (checksum mismatch)" && store.stats == old(store.stats)
  {
    var calculatedChecksum := CalculateChecksum(data.identity, data.stats.totalCount);
    if calculatedChecksum != data.checksum {
      return Err("Invalid identity data (checksum mismatch)");
    }
    var currentStats := MantraStorage.GetMantraStats(store, today);
    store.stats := Some(MergeStats(currentStats, data.stats));
    result := Ok(());
  }

  /** `resetUserIdentity`: removes the identity, the stats and the daily records. */
  method ResetUserIdentity(store: Store)
    modifies store`identity, store`stats, store`dailyRecords
    ensures store.identity.None? && store.stats.None? && store.dailyRecords == []
  {
    store.identity := None;
    store.stats := None;
    store.dailyRecords := [];
  }
}
