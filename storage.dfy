/**
 * `StorageManager` of `lib/storage.ts`: settings and scan history kept in
 * the browser's key/value store.  The store is a map from key to the value
 * last written under it; the JSON text it would hold is abstracted to the
 * value itself, and a value that does not parse is `Unreadable`.
 */
module Storage {
  import opened ThreatDetector

  datatype Settings = Settings(
    autoScan: bool,
    enableNotifications: bool,
    quickScan: bool,
    deepScan: bool,
    scanMode: ScanMode)

  datatype Status = Threat | Clean

  /** One scan as the history stores it. */
  datatype ScanRecord = ScanRecord(
    id: int,
    fileName: string,
    fileSize: int,
    timestamp: string,
    status: Status,
    threat: bool,
    riskScore: int)

  /** What the store holds under a key. */
  datatype Item = SettingsItem(settings: Settings) | HistoryItem(history: seq<ScanRecord>) | Unreadable

  datatype Stats = Stats(total: nat, threats: nat, clean: nat)

  const DefaultSettings := Settings(false, true, false, true, Deep)
  const SettingsKey := "nexus_settings"
  const HistoryKey := "nexus_scan_history"
  const MaxHistory := 100

  /** `getSettings` with a window: the stored record, or the defaults when there is none or it cannot be read. */
  function StoredSettings(items: map<string, Item>): Settings
  {
    if SettingsKey in items && items[SettingsKey].SettingsItem? then items[SettingsKey].settings
    else DefaultSettings
  }

  /** `getScanHistory` with a window: the stored list, or the empty list. */
  function StoredHistory(items: map<string, Item>): seq<ScanRecord>
  {
    if HistoryKey in items && items[HistoryKey].HistoryItem? then items[HistoryKey].history
    else []
  }

  /** `unshift` then `slice(0, 100)`: the newest record first, the oldest dropped beyond 100. */
  function WithResult(history: seq<ScanRecord>, result: ScanRecord): (h: seq<ScanRecord>)
    ensures h == [result] + history[..Min(|history|, MaxHistory - 1)]
    ensures |h| == Min(|history| + 1, MaxHistory)
  {
    var unshifted := [result] + history;
    var trimmed := unshifted[..Min(|unshifted|, MaxHistory)];
    assert trimmed[1..] == history[..Min(|history|, MaxHistory - 1)];
    trimmed
  }

  /** The records of `history` whose verdict is `threat`, in order (`filter`). */
  function Filter(history: seq<ScanRecord>, threat: bool): seq<ScanRecord>
  {
    if history == [] then []
    else (if history[0].threat == threat then [history[0]] else []) + Filter(history[1..], threat)
  }

  /** `getStats` over a history. */
  function StatsOf(history: seq<ScanRecord>): (s: Stats)
    ensures s.total == |history|
    ensures s.threats + s.clean == s.total
  {
    FilterPartition(history);
    Stats(|history|, |Filter(history, true)|, |Filter(history, false)|)
  }

  /** The two filters split the history: every record lands in exactly one of them. */
  lemma {:induction false} FilterPartition(history: seq<ScanRecord>)
    ensures |Filter(history, true)| + |Filter(history, false)| == |history|
    ensures multiset(Filter(history, true)) + multiset(Filter(history, false)) == multiset(history)
    ensures forall b, r :: r in Filter(history, b) ==> r.threat == b
  {
    if history != [] {
      FilterPartition(history[1..]);
      assert history == [history[0]] + history[1..];
    }
  }

  /** Prepending a record bumps the total and exactly one of the two counts. */
  lemma StatsPrepend(record: ScanRecord, history: seq<ScanRecord>)
    ensures StatsOf([record] + history) == Stats(
      StatsOf(history).total + 1,
      StatsOf(history).threats + (if record.threat then 1 else 0),
      StatsOf(history).clean + (if record.threat then 0 else 1))
  {
    assert ([record] + history)[1..] == history;
  }

  class StorageManager {
    /** Whether `typeof window !== "undefined"`: without a window nothing is read or written. */
    const hasWindow: bool
    var items: map<string, Item>

    constructor (hasWindow: bool, items: map<string, Item>)
      ensures this.hasWindow == hasWindow && this.items == items
    {
      this.hasWindow := hasWindow;
      this.items := items;
    }

    /** What `getSettings` returns in this state. */
    function CurrentSettings(): Settings
      reads this
    {
      if hasWindow then StoredSettings(items) else DefaultSettings
    }

    /** What `getScanHistory` returns in this state. */
    function History(): seq<ScanRecord>
      reads this
    {
      if hasWindow then StoredHistory(items) else []
    }

    method GetSettings() returns (s: Settings)
      ensures s == CurrentSettings()
      ensures !hasWindow ==> s == DefaultSettings
    {
      if !hasWindow {
        return DefaultSettings;
      }
      if SettingsKey in items && items[SettingsKey].SettingsItem? {
        s := items[SettingsKey].settings;
      } else {
        s := DefaultSettings;
      }
    }

    method SaveSettings(settings: Settings)
      modifies this
      ensures items == if hasWindow then old(items)[SettingsKey := SettingsItem(settings)] else old(items)
      ensures hasWindow ==> CurrentSettings() == settings
      ensures History() == old(History())
    {
      if !hasWindow {
        return;
      }
      items := items[SettingsKey := SettingsItem(settings)];
    }

    method GetScanHistory() returns (history: seq<ScanRecord>)
      ensures history == History()
      ensures !hasWindow ==> history == []
    {
      if !hasWindow {
        return [];
      }
      if HistoryKey in items && items[HistoryKey].HistoryItem? {
        history := items[HistoryKey].history;
      } else {
        history := [];
      }
    }

    method AddScanResult(result: ScanRecord)
      modifies this
      ensures items == if hasWindow then old(items)[HistoryKey := HistoryItem(WithResult(old(History()), result))]
                       else old(items)
      ensures hasWindow ==> History() == WithResult(old(History()), result)
      ensures CurrentSettings() == old(CurrentSettings())
    {
      if !hasWindow {
        return;
      }
      var history := GetScanHistory();
      history := [result] + history;
      var trimmed := history[..Min(|history|, MaxHistory)];
      items := items[HistoryKey := HistoryItem(trimmed)];
    }

    method ClearHistory()
      modifies this
      ensures items == if hasWindow then old(items) - {HistoryKey} else old(items)
      ensures History() == []
      ensures CurrentSettings() == old(CurrentSettings())
    {
      if !hasWindow {
        return;
      }
      items := items - {HistoryKey};
    }

    method GetStats() returns (stats: Stats)
      ensures stats == StatsOf(History())
      ensures stats.threats + stats.clean == stats.total == |History()|
    {
      var history := GetScanHistory();
      stats := Stats(|history|, |Filter(history, true)|, |Filter(history, false)|);
    }
  }

  /** Adding a result keeps at most 100 records, newest first, the survivors in their old order. */
  lemma AddScanResultKeepsNewest(history: seq<ScanRecord>, result: ScanRecord)
    ensures |WithResult(history, result)| <= MaxHistory
    ensures WithResult(history, result)[0] == result
    ensures WithResult(history, result)[1..] <= history
    ensures |history| < MaxHistory ==> WithResult(history, result) == [result] + history
    ensures |history| >= MaxHistory ==>
      WithResult(history, result)[1..] == history[..MaxHistory - 1]
  {
  }

  /** Saving settings and reading them back gives the saved record; the history is untouched. */
  lemma SaveThenLoad(items: map<string, Item>, settings: Settings)
    ensures StoredSettings(items[SettingsKey := SettingsItem(settings)]) == settings
    ensures StoredHistory(items[SettingsKey := SettingsItem(settings)]) == StoredHistory(items)
  {
    assert SettingsKey != HistoryKey;
  }

  /** With nothing stored the defaults are read: deep scanning on, quick off. */
  lemma DefaultsWhenEmpty()
    ensures StoredSettings(map[]) == DefaultSettings
    ensures StoredHistory(map[]) == []
    ensures DefaultSettings.quickScan == !DefaultSettings.deepScan && DefaultSettings.scanMode == Deep
  {
  }

  /** Clearing removes the history only. */
  lemma ClearThenLoad(items: map<string, Item>)
    ensures StoredHistory(items - {HistoryKey}) == []
    ensures StoredSettings(items - {HistoryKey}) == StoredSettings(items)
  {
    assert SettingsKey != HistoryKey;
  }
}
