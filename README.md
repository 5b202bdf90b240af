# Nexus file-risk engine, history store, settings toggles and dashboard in Dafny

This project models the logic at the core of Nexus, a browser ransomware scanner. It has four parts.

- **The heuristic scorer** (`lib/threat-detector.ts`, the `reader.onload` body of `analyzeFile`).
  - The byte content of a file goes through six stages: extension, magic header, five filename signatures, byte entropy, double extension and, in deep mode, five decoded-text signatures.
  - Each stage adds points and pushes labels.
  - The total is clamped to 100 and thresholded at 40. The labels are cut to six.
  - `ThreatDetector.AnalyzeFile` follows the code statement by statement: a running score, a label list, loops over both rule tables and the byte-frequency loop.
  - `AnalyzeFile` is proved equal to `ThreatDetector.Analyze`, a specification written as independent per-stage signals concatenated in stage order.
  - The properties of the scorer are proved about `Analyze` in `ThreatDetectorProperties`.
- **The store** (`lib/storage.ts`).
  - The browser key/value store is a map from key to the value written under it, held in the class `Storage.StorageManager`.
  - The class covers settings with their defaults, the scan history capped at the newest 100, clearing, and the threat/clean statistics.
  - `hasWindow` stands for `typeof window !== "undefined"`.
- **The settings page** (`app/settings/page.tsx`).
  - `SettingsPage.Toggle` is the pure transition of `toggleSetting`. It keeps the quick and deep switches exclusive and `scanMode` in step with them.
  - The class `SettingsPage.SettingsScreen` carries the page state, saves into the store and builds the notification text from the camelCase key.
- **The dashboard** (`app/page.tsx`).
  - The class `Dashboard.Home` holds the in-memory history, the counters and the threat level.
  - It loads them from the store and updates them on every completed scan.
  - It keeps the invariant that the counters describe the list and that the level is critical exactly when a threat was counted.

Some inputs are passed in as parameters:

- Two computations of the scorer are function parameters:
  - `entropyAbove` decides "Shannon entropy of this 256-entry byte-count table is above 7.5";
  - `textTest` decides "this regular expression, given by its source text, matches the UTF-8 decoding of these bytes".
- The clock (`Date.now()`, `toLocaleString()`) is a pair of inputs, `id` and `timestamp`.

Modules: `Text` (string and byte helpers), `ThreatDetector`, `ThreatDetectorProperties`, `Storage`, `SettingsPage`, `Dashboard`.

The model follows the code, including these quirks:

- **Name without a dot.** `split(".").pop()` gives the whole name, so the extension is `"." + lowercase(name)` and a file called `exe` scores as an `.exe` (`BareNameCountsAsExtension`).
- **Case of the double extension.** The double-extension check does not lower-case the last segment. `a.pdf.EXE` fires the extension stage but not the double-extension stage (`DoubleExtensionKeepsCase`).
- **De-duplication of labels.** Only the deep stage checks `details.includes(name)`. The check never fires, because no quick-stage label equals a text-rule label and the five text labels differ from each other (`TextNamesFresh`, which rests on `EarlierTextLabels`). No other stage de-duplicates.
- **Dashboard history is not capped.** The dashboard list grows without the 100-entry cap that the store applies.

## Model

| member | source | states |
|---|---|---|
| ThreatDetector.Analyze | lib/threat-detector.ts:104-116 | the score is within 0..100; the verdict is a threat exactly when the score is at least 40; at most 6 details, which are the first min(6, n) labels of the stage-ordered label list; name and size are echoed |
| ThreatDetector.AnalyzeFile | lib/threat-detector.ts:26-117 | the step-by-step accumulation of score and labels over all stages produces exactly the result of the specification `Analyze` |
| ThreatDetector.CountFrequencies | lib/threat-detector.ts:61-64 | the frequency loop over the sample yields, for every byte value, the number of times it occurs in the sample |
| ThreatDetector.CheckExtension | lib/threat-detector.ts:34-38 | the extension stage adds exactly the extension signal's points and appends exactly its labels |
| ThreatDetector.CheckHeader | lib/threat-detector.ts:40-50 | the header stage adds exactly the header signal's points and appends exactly its labels |
| ThreatDetector.ApplyNameRules | lib/threat-detector.ts:52-58 | the loop over the five filename rules adds the points and appends the labels of the matching rules in table order |
| ThreatDetector.CheckEntropy | lib/threat-detector.ts:60-73 | the entropy stage adds exactly the entropy signal's points and appends exactly its labels |
| ThreatDetector.CheckDoubleExtension | lib/threat-detector.ts:75-80 | the double-extension stage adds exactly that signal's points and appends exactly its labels |
| ThreatDetector.ApplyTextRules | lib/threat-detector.ts:96-101 | each matching text rule adds 8 points whether or not its label is already present; labels are only appended; when none of the rule names is present yet, exactly the matching rules' labels are appended in order |
| ThreatDetector.EarlierTextLabels | lib/threat-detector.ts:88-101 | a text rule's label is never among the labels pushed by the text rules before it in the table |
| ThreatDetector.TextNamesFresh | lib/threat-detector.ts:99 | no text-rule label ever occurs among the labels of the earlier stages, so the duplicate check before a push never rejects anything |
| ThreatDetectorProperties.ExtensionAfterLastDot | lib/threat-detector.ts:28-38 | the extension is "." plus the lower-cased text after the last dot; the stage fires with 15 points and one label naming it exactly when that is in the dangerous list |
| ThreatDetectorProperties.ExtensionWithoutDot | lib/threat-detector.ts:28 | a name without a dot has the extension "." plus the whole lower-cased name, and that decides the stage |
| ThreatDetectorProperties.BareNameCountsAsExtension | lib/threat-detector.ts:19-38 | a file named `exe` scores 15 points as a `.exe` |
| ThreatDetectorProperties.HeaderSignalOnBytes | lib/threat-detector.ts:41-50 | the upper-case hex-prefix test equals a byte test: 20 points for 4D 5A, else 10 for 50 4B, else nothing; at most one label; fewer than two bytes never score |
| ThreatDetectorProperties.NameSignalMatches | lib/threat-detector.ts:53-58 | the filename stage adds 25 points per label; a rule's label is present iff one of its literals occurs in the lower-cased name |
| ThreatDetectorProperties.NameSignalCount | lib/threat-detector.ts:53-58 | the filename stage pushes exactly one label per matching rule and adds 25 times the number of matching rules |
| ThreatDetectorProperties.NameStageBounds | lib/threat-detector.ts:11-17 | with the five-rule table the filename stage adds a multiple of 25 that is at most 125 |
| ThreatDetectorProperties.HistogramSum | lib/threat-detector.ts:63-65 | the byte counts sum to the sample length |
| ThreatDetectorProperties.EntropySampleCounts | lib/threat-detector.ts:61-73 | the sample is the first min(4096, length) bytes; its counts sum to that length; an empty file contributes no points and no label |
| ThreatDetectorProperties.DoubleExtensionAfterLastDot | lib/threat-detector.ts:76-80 | the stage fires, with 10 points, exactly when the name has at least two dots and "." plus the last segment, case kept, is in the dangerous list |
| ThreatDetectorProperties.OneDotNeverDouble | lib/threat-detector.ts:76-77 | a name with at most one dot never fires the double-extension stage |
| ThreatDetectorProperties.DoubleExtensionKeepsCase | lib/threat-detector.ts:76-80 | `a.pdf.EXE` fires the extension stage but not the double-extension stage, because the last segment keeps its case |
| ThreatDetectorProperties.UpperCaseExeExtension | lib/threat-detector.ts:28-38 | an upper-case `EXE` suffix is lower-cased for the extension stage, and `.EXE` itself is not in the dangerous list |
| ThreatDetectorProperties.TextSignalMatches | lib/threat-detector.ts:96-101 | the text stage adds 8 points per label; a rule's label is present iff its pattern matches the snippet |
| ThreatDetectorProperties.TextSignalCount | lib/threat-detector.ts:96-101 | the text stage pushes exactly one label per matching rule and adds 8 times the number of matching rules |
| ThreatDetectorProperties.QuickNeverAboveDeep | lib/threat-detector.ts:83-115 | deep points are quick points plus 8 per matching text rule; quick labels and quick details are prefixes of the deep ones; the quick score is at most the deep score, and a quick threat is a deep threat |
| Text.ContainsIff | lib/threat-detector.ts:53-54 | the literal search used for the `/i` alternations succeeds exactly when the literal occurs at some position |
| Text.SplitLength | lib/threat-detector.ts:76-77 | `split(".")` gives one more segment than the name has dots |
| Text.SplitSegmentsFree | lib/threat-detector.ts:76 | no segment of a split contains the separator |
| Text.JoinSplit | lib/threat-detector.ts:28 | joining the segments with the separator restores the name |
| Text.SplitLastAfterSeparator | lib/threat-detector.ts:28 | the last segment of `a + "." + b` is `b` when `b` has no dot |
| Text.UpperHexDigitInjective | lib/threat-detector.ts:42 | different hex digits stay different after upper-casing, so the hex prefix decides the header bytes |
| Storage.WithResult | lib/storage.ts:62-65 | the new history is the new record followed by the first min(n, 99) old records, of length min(n + 1, 100) |
| Storage.AddScanResultKeepsNewest | lib/storage.ts:62-65 | at most 100 records; the new one first; the survivors are a prefix of the old history in order; nothing is dropped below 100, otherwise only the oldest |
| Storage.StatsOf | lib/storage.ts:81-88 | the total is the history length and threats plus clean equals the total |
| Storage.FilterPartition | lib/storage.ts:85-86 | the two filters split the history: their lengths add up, their multisets add up to the history's, and every record lands on the side of its verdict |
| Storage.StatsPrepend | app/page.tsx:45-49 | prepending a record adds one to the total and one to exactly the count matching its verdict |
| Storage.StorageManager.GetSettings | lib/storage.ts:29-37 | returns the stored settings, or the defaults when there is no window, nothing stored or something unreadable |
| Storage.StorageManager.SaveSettings | lib/storage.ts:39-46 | writes the settings under `nexus_settings` when there is a window, otherwise changes nothing; the history is unchanged |
| Storage.StorageManager.GetScanHistory | lib/storage.ts:49-57 | returns the stored history, or the empty list when there is no window, nothing stored or something unreadable |
| Storage.StorageManager.AddScanResult | lib/storage.ts:59-70 | with a window the stored history becomes `WithResult(old history, record)`; without one nothing changes; the settings stay |
| Storage.StorageManager.ClearHistory | lib/storage.ts:72-79 | removes the history key when there is a window; the history then reads as empty; the settings stay |
| Storage.StorageManager.GetStats | lib/storage.ts:81-88 | returns the statistics of the current history, with threats plus clean equal to its length |
| Storage.SaveThenLoad | lib/storage.ts:29-46 | reading the settings after saving them gives the saved record, and the history is untouched |
| Storage.DefaultsWhenEmpty | lib/storage.ts:19-37 | an empty store reads as the default settings and an empty history; the defaults have quick scanning off, deep on and the deep mode |
| Storage.ClearThenLoad | lib/storage.ts:72-79 | after clearing, the history reads as empty and the settings read as before |
| SettingsPage.Toggle | app/settings/page.tsx:20-29 | the toggled key is negated; the auto-scan and notification toggles change nothing else; a scan toggle sets the other scan switch to the opposite and the mode to match; a scan toggle establishes the exclusivity invariant and the other toggles preserve it |
| SettingsPage.ToggleTwice | app/settings/page.tsx:21-29 | from settings satisfying the invariant, toggling the same key twice restores them |
| SettingsPage.SpacesOnlyAdded | app/settings/page.tsx:35-36 | the capital-spacing step only inserts spaces: removing them gives back the key |
| SettingsPage.FeatureLabelWords | app/settings/page.tsx:35-38 | for a key without whitespace, the label with its spaces removed is the lower-cased key, and it has no capitals |
| SettingsPage.EnableNotificationsLabel | app/settings/page.tsx:35-38 | the key `enableNotifications` becomes the label `enable notifications` |
| SettingsPage.Message | app/settings/page.tsx:39-42 | the message is the label plus " enabled" exactly when the value is on, and the label plus " disabled" exactly when it is off |
| SettingsPage.SettingsScreen.constructor | app/settings/page.tsx:10-12 | the page starts with the stored settings, no notification and not loaded |
| SettingsPage.SettingsScreen.Load | app/settings/page.tsx:14-18 | the mount effect re-reads the stored settings and marks the page loaded |
| SettingsPage.SettingsScreen.ToggleSetting | app/settings/page.tsx:20-43 | the page settings become `Toggle(old, key)`; with a window they are saved under `nexus_settings`; a success notification carries `Message(label, new value)` |
| Dashboard.NewEntry | app/page.tsx:34-42 | the entry copies name, size, verdict and score; its status is THREAT exactly when the result is a threat; id and timestamp come from the clock inputs |
| Dashboard.ThreatCountPositive | lib/storage.ts:85 | the threat count is positive exactly when some record in the history is a threat |
| Dashboard.Home.constructor | app/page.tsx:12-16 | the dashboard starts empty, with zero counters and a low level, in a consistent state |
| Dashboard.Home.Load | app/page.tsx:18-31 | the list and counters come from the store; the level is critical exactly when the loaded threat count is positive; the state is consistent |
| Dashboard.Home.HandleScanComplete | app/page.tsx:33-57 | the new entry is prepended to the uncapped list; the total and exactly one of the counts go up by one; a threat sets the level critical; a clean result sets it low only when the old counts have no threats and a positive total, otherwise the level is kept; a consistent state stays consistent |
| Dashboard.LevelTracksHistory | app/page.tsx:26-30 | in a consistent dashboard the level is critical exactly when the list holds a threat |

## Left out

- Reading the file (`FileReader`, the `Promise`) and the random `setTimeout` delay are not modelled. They do not affect the returned values; the bytes are an input.
- The floating-point Shannon sum with `Math.log2` is not modelled. The comparison "entropy > 7.5" is the parameter `entropyAbove`, applied to the 256-entry count table. An empty sample iterates over no counts and is not passed to it.
- UTF-8 decoding with `TextDecoder` and JavaScript regular expressions (`\b`, the `g` flag and its `lastIndex` state) are not modelled. The deep rules are decided by the parameter `textTest`.
- The filename signatures are `/i` alternations of literals. They are modelled as substring tests of lower-case literals against the lower-cased name.
- `toLowerCase`, `toUpperCase` and `trim` are modelled for ASCII letters and ASCII whitespace only; Unicode case mapping and Unicode spaces are not modelled.
- `localStorage`, `JSON.stringify`/`JSON.parse`, the `try`/`catch` blocks and `console.error` are not modelled. The store is a map of decoded values. A value that does not parse, or that has the wrong shape, reads as absent; a failed write is not modelled. The code does not check the shape of what `JSON.parse` returns: a stored history that is not an array would make `getStats` throw at `history.filter`, outside any `try`, and a malformed settings object would be returned as it is. The model does not capture either failure.
- `Date.now()` and `toLocaleString()` are not modelled. They are the inputs `id` and `timestamp`.
- Toggling the `scanMode` key is not modelled. The page type allows it but never calls it; the model covers the four boolean switches.
- React state batching and stale closures are not modelled. The setters of a handler apply in program order, and `handleScanComplete` reads the counts from before its own update, as the code does.
- `components/threat-analysis.tsx`, which calls the scorer and the store after a scan, is not part of this model; neither are the rendering components, `app/history/page.tsx` nor `app/layout.tsx`.
- The constant `systemStatus` of the dashboard is not modelled.
- The default argument `scanMode = "deep"` of `analyzeFile` is not modelled: the mode is always an explicit input, as its only caller, `components/threat-analysis.tsx`, always passes one.
- ThreatDetector.Analyze: does not state that all details are distinct. Any duplicate would have to come from the quick stages, whose labels are distinct constants; only the deep stage is shown never to add a duplicate (`TextNamesFresh`).
