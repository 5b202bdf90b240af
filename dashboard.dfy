/**
 * The dashboard of `app/page.tsx`: its in-memory scan list, the running
 * counts and the threat level, loaded from the store on mount and updated
 * each time a scan completes.  The React setters are taken to apply in
 * program order; the clock is an input.
 */
module Dashboard {
  import opened ThreatDetector
  import opened Storage

  datatype ThreatLevel = Low | Critical

  /** The record `handleScanComplete` builds from a scorer result. */
  function NewEntry(result: DetectionResult, id: int, timestamp: string): (e: ScanRecord)
    ensures e.fileName == result.fileName && e.fileSize == result.fileSize
    ensures e.threat == result.threat && e.riskScore == result.riskScore
    ensures e.status == Threat <==> result.threat
    ensures e.id == id && e.timestamp == timestamp
  {
    ScanRecord(id, result.fileName, result.fileSize, timestamp,
      if result.threat then Threat else Clean, result.threat, result.riskScore)
  }

  /** Some record of the history was judged a threat. */
  predicate AnyThreat(history: seq<ScanRecord>)
  {
    exists i :: 0 <= i < |history| && history[i].threat
  }

  /** The threat count is positive exactly when some record is a threat. */
  lemma {:induction false} ThreatCountPositive(history: seq<ScanRecord>)
    ensures StatsOf(history).threats > 0 <==> AnyThreat(history)
  {
    if history != [] {
      ThreatCountPositive(history[1..]);
      StatsPrepend(history[0], history[1..]);
      assert [history[0]] + history[1..] == history;
      if AnyThreat(history[1..]) {
        var i :| 0 <= i < |history[1..]| && history[1..][i].threat;
        assert history[i + 1].threat;
      }
      if !history[0].threat && AnyThreat(history) {
        var i :| 0 <= i < |history| && history[i].threat;
        assert history[1..][i - 1].threat;
      }
    }
  }

  class Home {
    var scanHistory: seq<ScanRecord>
    var stats: Stats
    var threatLevel: ThreatLevel
    var isLoaded: bool

    /** The counts describe the list and the level is critical exactly when a threat was counted. */
    predicate Valid()
      reads this
    {
      stats == StatsOf(scanHistory) && (threatLevel == Critical <==> stats.threats > 0)
    }

    /** The initial hook values: nothing scanned, level low, not loaded. */
    constructor ()
      ensures scanHistory == [] && stats == Stats(0, 0, 0) && threatLevel == Low && !isLoaded
      ensures Valid()
    {
      scanHistory := [];
      stats := Stats(0, 0, 0);
      threatLevel := Low;
      isLoaded := false;
    }

    /** The mount effect: history and counts from the store, the level from the threat count. */
    method Load(storage: StorageManager)
      modifies this
      ensures scanHistory == storage.History() && stats == StatsOf(scanHistory) && isLoaded
      ensures threatLevel == (if stats.threats > 0 then Critical else Low)
      ensures Valid()
    {
      var history := storage.GetScanHistory();
      var loadedStats := storage.GetStats();
      scanHistory := history;
      stats := loadedStats;
      isLoaded := true;
      if loadedStats.threats > 0 {
        threatLevel := Critical;
      } else {
        threatLevel := Low;
      }
    }

    method HandleScanComplete(result: DetectionResult, id: int, timestamp: string)
      modifies this
      ensures scanHistory == [NewEntry(result, id, timestamp)] + old(scanHistory)
      ensures stats == Stats(
        old(stats).total + 1,
        old(stats).threats + (if result.threat then 1 else 0),
        old(stats).clean + (if result.threat then 0 else 1))
      ensures threatLevel ==
        if result.threat then Critical
        else if old(stats).threats == 0 && old(stats).total > 0 then Low
        else old(threatLevel)
      ensures isLoaded == old(isLoaded)
      ensures old(Valid()) ==> Valid()
    {
      var newEntry := NewEntry(result, id, timestamp);
      var prev := stats;
      StatsPrepend(newEntry, scanHistory);
      scanHistory := [newEntry] + scanHistory;
      stats := Stats(
        prev.total + 1,
        prev.threats + (if result.threat then 1 else 0),
        prev.clean + (if result.threat then 0 else 1));

      if result.threat {
        threatLevel := Critical;
      } else if prev.threats == 0 && prev.total > 0 {
        threatLevel := Low;
      }
    }
  }

  /** In a consistent dashboard the level is critical exactly when the list holds a threat. */
  lemma LevelTracksHistory(history: seq<ScanRecord>, stats: Stats, level: ThreatLevel)
    requires stats == StatsOf(history) && (level == Critical <==> stats.threats > 0)
    ensures level == Critical <==> AnyThreat(history)
  {
    ThreatCountPositive(history);
  }
}
