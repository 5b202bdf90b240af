/**
 * The heuristic file-risk scorer of `lib/threat-detector.ts`.
 *
 * `AnalyzeFile` follows the `reader.onload` body statement by statement:
 * one running score, one list of labels pushed stage after stage, loops over
 * the two rule tables and the byte-frequency loop.  `Analyze` is its
 * specification, written the other way round: every stage is an independent
 * `Signal` (points and labels), the signals are concatenated in stage order,
 * and the total is clamped, thresholded and truncated.
 *
 * Two computations of the source are passed in rather than modelled: the
 * test "Shannon entropy of this byte-count table exceeds 7.5" and the test
 * "this regular expression matches the UTF-8 decoding of these bytes".
 */
module ThreatDetector {
  import opened Text

  datatype ScanMode = Quick | Deep

  datatype DetectionResult = DetectionResult(
    fileName: string,
    fileSize: int,
    threat: bool,
    riskScore: int,
    details: seq<string>)

  /** A filename signature: its `/…/i` pattern is an alternation of literals, kept here lower-cased. */
  datatype NameRule = NameRule(literals: seq<string>, name: string)

  /** A decoded-text signature: the source text of its regular expression and its label. */
  datatype TextRule = TextRule(pattern: string, name: string)

  const RansomwareSignatures: seq<NameRule> := [
    NameRule(["ransom"], "Ransom keyword detected"),
    NameRule(["crypto", "aes", "rsa"], "Cryptographic keyword presence"),
    NameRule(["wiper", "destroy", "delete"], "Destructive operation keyword"),
    NameRule([".locked", ".encrypted", ".crypt", ".pay"], "Suspicious extension"),
    NameRule(["readme.txt", "help_decrypt", "decrypt_instructions"], "Ransom note pattern")
  ]

  const DangerousExtensions: seq<string> :=
    [".exe", ".dll", ".bat", ".cmd", ".scr", ".vbs", ".js", ".zip", ".rar", ".7z"]

  const SuspiciousPatterns: seq<TextRule> := [
    TextRule("\\bEncrypt(File|Data)|CryptEncrypt|AES_set_key", "Encryption routine signature"),
    TextRule("\\bBitcoin|Wallet|Payment|Decrypt\\b", "Payment or decryption instructions"),
    TextRule("\\bSystem32|Registry|ShadowCopy|VolumeSnapshot", "System modification attempt"),
    TextRule("\\bPowershell|cmd\\.exe|rundll32|wmic", "Command execution signature"),
    TextRule("\\bCreateRemoteThread|VirtualAllocEx|WriteProcessMemory", "Code injection signature")
  ]

  const PeLabel := "Detected PE Executable header (MZ)"
  const ZipLabel := "Archive header detected (ZIP/RAR container)"
  const EntropyLabel := "High entropy detected (possible encryption)"
  const DoubleExtensionLabel := "Double extension pattern detected"

  const ExtensionPoints := 15
  const PePoints := 20
  const ZipPoints := 10
  const NameRulePoints := 25
  const EntropyPoints := 20
  const DoubleExtensionPoints := 10
  const TextRulePoints := 8

  const MaxScore := 100
  const ThreatThreshold := 40
  const MaxDetails := 6
  const HeaderLength := 4
  const EntropySampleLength := 4096
  const TextSnippetLength := 1024 * 1024

  /** "The Shannon entropy of the sample with these 256 byte counts is above 7.5." */
  type EntropyTest = seq<nat> -> bool

  /** "The regular expression with this source text matches the UTF-8 decoding of these bytes." */
  type TextTest = (string, seq<byte>) -> bool

  function Min(a: int, b: int): int { if a <= b then a else b }

  /** What one stage contributes: points to add and labels to push, in order. */
  datatype Signal = Signal(points: nat, labels: seq<string>)

  const NoSignal := Signal(0, [])

  function Combine(a: Signal, b: Signal): Signal
  {
    Signal(a.points + b.points, a.labels + b.labels)
  }

  // ---------------------------------------------------------------- stage 1

  /** `"." + name.split(".").pop().toLowerCase()`: the whole name when it has no dot. */
  function FileExtension(name: string): string
  {
    "." + Lower(Last(Split(name, '.')))
  }

  function ExtensionLabel(ext: string): string
  {
    "High-risk file type: " + ext
  }

  function ExtensionSignal(name: string): Signal
  {
    var ext := FileExtension(name);
    if ext in DangerousExtensions then Signal(ExtensionPoints, [ExtensionLabel(ext)]) else NoSignal
  }

  // ---------------------------------------------------------------- stage 2

  /** The first four bytes (fewer if the file is shorter), as upper-case hex. */
  function HeaderHex(bytes: seq<byte>): string
  {
    Upper(BytesHex(bytes[..Min(HeaderLength, |bytes|)]))
  }

  function HeaderSignal(bytes: seq<byte>): Signal
  {
    var hex := HeaderHex(bytes);
    if StartsWith(hex, "4D5A") then Signal(PePoints, [PeLabel])
    else if StartsWith(hex, "504B") then Signal(ZipPoints, [ZipLabel])
    else NoSignal
  }

  // ---------------------------------------------------------------- stage 3

  predicate NameRuleMatches(rule: NameRule, lowerName: string)
  {
    exists k :: 0 <= k < |rule.literals| && Contains(lowerName, rule.literals[k])
  }

  /** The filename rules of `rules`, tested in table order against the lower-cased name. */
  function NameSignal(rules: seq<NameRule>, lowerName: string): Signal
  {
    if rules == [] then NoSignal
    else
      var before := NameSignal(rules[..|rules| - 1], lowerName);
      var rule := Last(rules);
      if NameRuleMatches(rule, lowerName) then Combine(before, Signal(NameRulePoints, [rule.name]))
      else before
  }

  // ---------------------------------------------------------------- stage 4

  function EntropySample(bytes: seq<byte>): seq<byte>
  {
    bytes[..Min(EntropySampleLength, |bytes|)]
  }

  /** The byte-frequency table: entry `v` counts the occurrences of byte value `v`. */
  function Histogram(sample: seq<byte>): (h: seq<nat>)
    ensures |h| == 256
  {
    seq(256, v requires 0 <= v < 256 => multiset(sample)[v as byte])
  }

  /**
   * The entropy stage.  Over an empty sample the source's sum has no terms and
   * is 0, which is not above 7.5; otherwise the entropy test decides.
   */
  function EntropySignal(bytes: seq<byte>, entropyAbove: EntropyTest): Signal
  {
    var sample := EntropySample(bytes);
    if |sample| > 0 && entropyAbove(Histogram(sample)) then Signal(EntropyPoints, [EntropyLabel])
    else NoSignal
  }

  // ---------------------------------------------------------------- stage 5

  /** More than two dot-separated parts, and the last part, case kept, is a dangerous extension. */
  function DoubleExtensionSignal(name: string): Signal
  {
    var parts := Split(name, '.');
    if |parts| > 2 && "." + Last(parts) in DangerousExtensions
    then Signal(DoubleExtensionPoints, [DoubleExtensionLabel])
    else NoSignal
  }

  // ---------------------------------------------------------------- stage 6

  function TextSnippet(bytes: seq<byte>): seq<byte>
  {
    bytes[..Min(TextSnippetLength, |bytes|)]
  }

  /** The decoded-text rules of `rules`, tested in table order. */
  function TextSignal(rules: seq<TextRule>, snippet: seq<byte>, textTest: TextTest): Signal
  {
    if rules == [] then NoSignal
    else
      var before := TextSignal(rules[..|rules| - 1], snippet, textTest);
      var rule := Last(rules);
      if textTest(rule.pattern, snippet) then Combine(before, Signal(TextRulePoints, [rule.name]))
      else before
  }

  // ------------------------------------------------------------ aggregation

  /** Stages 1 to 5, in stage order. */
  function QuickSignal(name: string, bytes: seq<byte>, entropyAbove: EntropyTest): Signal
  {
    Combine(Combine(Combine(Combine(
      ExtensionSignal(name),
      HeaderSignal(bytes)),
      NameSignal(RansomwareSignatures, Lower(name))),
      EntropySignal(bytes, entropyAbove)),
      DoubleExtensionSignal(name))
  }

  /** All stages the mode runs, in stage order; the text stage only in deep mode. */
  function ScanSignal(name: string, bytes: seq<byte>, mode: ScanMode,
                      entropyAbove: EntropyTest, textTest: TextTest): Signal
  {
    var quick := QuickSignal(name, bytes, entropyAbove);
    if mode == Deep then Combine(quick, TextSignal(SuspiciousPatterns, TextSnippet(bytes), textTest))
    else quick
  }

  /** The result the scorer resolves with. */
  function Analyze(name: string, size: int, bytes: seq<byte>, mode: ScanMode,
                   entropyAbove: EntropyTest, textTest: TextTest): (r: DetectionResult)
    ensures 0 <= r.riskScore <= MaxScore
    ensures r.threat <==> r.riskScore >= ThreatThreshold
    ensures |r.details| <= MaxDetails
    ensures r.details <= ScanSignal(name, bytes, mode, entropyAbove, textTest).labels
    ensures |r.details| == Min(MaxDetails, |ScanSignal(name, bytes, mode, entropyAbove, textTest).labels|)
    ensures r.fileName == name && r.fileSize == size
  {
    var signal := ScanSignal(name, bytes, mode, entropyAbove, textTest);
    var score := Min(MaxScore, signal.points);
    DetectionResult(name, size, score >= ThreatThreshold, score, signal.labels[..Min(MaxDetails, |signal.labels|)])
  }

  // ------------------------------------------------------------- the method

  /** The `freq` loop: one pass over the sample, bumping the count of each byte. */
  method CountFrequencies(sample: seq<byte>) returns (freq: seq<nat>)
    ensures freq == Histogram(sample)
  {
    freq := seq(256, _ => 0);
    for i := 0 to |sample|
      invariant freq == Histogram(sample[..i])
    {
      var b := sample[i];
      assert sample[..i + 1] == sample[..i] + [b];
      freq := freq[b := freq[b] + 1];
    }
    assert sample[..|sample|] == sample;
  }

  /** The `RANSOMWARE_SIGNATURES.forEach` loop over the lower-cased name. */
  method ApplyNameRules(fileName: string, score: int, details: seq<string>)
    returns (score': int, details': seq<string>)
    ensures score' == score + NameSignal(RansomwareSignatures, fileName).points
    ensures details' == details + NameSignal(RansomwareSignatures, fileName).labels
  {
    score', details' := score, details;
    for i := 0 to |RansomwareSignatures|
      invariant score' == score + NameSignal(RansomwareSignatures[..i], fileName).points
      invariant details' == details + NameSignal(RansomwareSignatures[..i], fileName).labels
    {
      var sig := RansomwareSignatures[i];
      assert RansomwareSignatures[..i + 1][..i] == RansomwareSignatures[..i];
      if NameRuleMatches(sig, fileName) {
        score' := score' + NameRulePoints;
        details' := details' + [sig.name];
      }
    }
    assert RansomwareSignatures[..|RansomwareSignatures|] == RansomwareSignatures;
  }

  /**
   * The `suspiciousPatterns.forEach` loop.  A matching rule always adds its
   * points; its label is pushed only when `details` does not hold it yet,
   * which, when no text-rule label is present beforehand, is always.
   */
  method ApplyTextRules(snippet: seq<byte>, textTest: TextTest, score: int, details: seq<string>)
    returns (score': int, details': seq<string>)
    ensures score' == score + TextSignal(SuspiciousPatterns, snippet, textTest).points
    ensures (forall j :: 0 <= j < |SuspiciousPatterns| ==> SuspiciousPatterns[j].name !in details) ==>
      details' == details + TextSignal(SuspiciousPatterns, snippet, textTest).labels
    ensures details <= details'
  {
    score', details' := score, details;
    ghost var unseen := forall j :: 0 <= j < |SuspiciousPatterns| ==> SuspiciousPatterns[j].name !in details;
    for i := 0 to |SuspiciousPatterns|
      invariant score' == score + TextSignal(SuspiciousPatterns[..i], snippet, textTest).points
      invariant unseen ==> details' == details + TextSignal(SuspiciousPatterns[..i], snippet, textTest).labels
      invariant details <= details'
    {
      var p := SuspiciousPatterns[i];
      assert SuspiciousPatterns[..i + 1][..i] == SuspiciousPatterns[..i];
      if textTest(p.pattern, snippet) {
        score' := score' + TextRulePoints;
        if unseen {
          EarlierTextLabels(snippet, textTest, i);
        }
        if p.name !in details' {
          details' := details' + [p.name];
        }
      }
    }
    assert SuspiciousPatterns[..|SuspiciousPatterns|] == SuspiciousPatterns;
  }

  /** Stage 1: the lower-cased extension against the dangerous list. */
  method CheckExtension(name: string, score: int, details: seq<string>)
    returns (score': int, details': seq<string>)
    ensures score' == score + ExtensionSignal(name).points
    ensures details' == details + ExtensionSignal(name).labels
  {
    score', details' := score, details;
    var fileExtension := "." + Lower(Last(Split(name, '.')));
    if fileExtension in DangerousExtensions {
      score' := score' + ExtensionPoints;
      details' := details' + [ExtensionLabel(fileExtension)];
    }
  }

  /** Stage 2: the hex of the first four bytes, MZ tested before ZIP. */
  method CheckHeader(bytes: seq<byte>, score: int, details: seq<string>)
    returns (score': int, details': seq<string>)
    ensures score' == score + HeaderSignal(bytes).points
    ensures details' == details + HeaderSignal(bytes).labels
  {
    score', details' := score, details;
    var headerHex := Upper(BytesHex(bytes[..Min(HeaderLength, |bytes|)]));
    if StartsWith(headerHex, "4D5A") {
      score' := score' + PePoints;
      details' := details' + [PeLabel];
    } else if StartsWith(headerHex, "504B") {
      score' := score' + ZipPoints;
      details' := details' + [ZipLabel];
    }
  }

  /** Stage 4: count the byte values of the first 4096 bytes and ask the entropy test. */
  method CheckEntropy(bytes: seq<byte>, entropyAbove: EntropyTest, score: int, details: seq<string>)
    returns (score': int, details': seq<string>)
    ensures score' == score + EntropySignal(bytes, entropyAbove).points
    ensures details' == details + EntropySignal(bytes, entropyAbove).labels
  {
    score', details' := score, details;
    var sample := bytes[..Min(EntropySampleLength, |bytes|)];
    var freq := CountFrequencies(sample);
    // an empty sample has no counts to sum, so the source's entropy is 0 and the test is skipped
    if |sample| > 0 && entropyAbove(freq) {
      score' := score' + EntropyPoints;
      details' := details' + [EntropyLabel];
    }
  }

  /** Stage 5: the original name split on dots, its last part taken as it is. */
  method CheckDoubleExtension(name: string, score: int, details: seq<string>)
    returns (score': int, details': seq<string>)
    ensures score' == score + DoubleExtensionSignal(name).points
    ensures details' == details + DoubleExtensionSignal(name).labels
  {
    score', details' := score, details;
    var parts := Split(name, '.');
    if |parts| > 2 && "." + Last(parts) in DangerousExtensions {
      score' := score' + DoubleExtensionPoints;
      details' := details' + [DoubleExtensionLabel];
    }
  }

  /** The `reader.onload` body of `analyzeFile`, once the bytes are loaded. */
  method AnalyzeFile(name: string, size: int, bytes: seq<byte>, mode: ScanMode,
                     entropyAbove: EntropyTest, textTest: TextTest) returns (r: DetectionResult)
    ensures r == Analyze(name, size, bytes, mode, entropyAbove, textTest)
  {
    var fileName := Lower(name);
    var riskScore := 0;
    var details: seq<string> := [];
    // the signals of the stages run so far
    ghost var done := NoSignal;

    riskScore, details := CheckExtension(name, riskScore, details);
    done := ExtensionSignal(name);
    assert [] + done.labels == done.labels;
    riskScore, details := CheckHeader(bytes, riskScore, details);
    done := Combine(done, HeaderSignal(bytes));
    riskScore, details := ApplyNameRules(fileName, riskScore, details);
    done := Combine(done, NameSignal(RansomwareSignatures, fileName));
    riskScore, details := CheckEntropy(bytes, entropyAbove, riskScore, details);
    done := Combine(done, EntropySignal(bytes, entropyAbove));
    riskScore, details := CheckDoubleExtension(name, riskScore, details);
    done := Combine(done, DoubleExtensionSignal(name));
    assert done == QuickSignal(name, bytes, entropyAbove);

    // 6. deep text pattern scanning
    if mode == Deep {
      var snippet := bytes[..Min(TextSnippetLength, |bytes|)];
      TextNamesFresh(name, bytes, entropyAbove, snippet, textTest);
      riskScore, details := ApplyTextRules(snippet, textTest, riskScore, details);
      done := Combine(done, TextSignal(SuspiciousPatterns, snippet, textTest));
    }
    assert done == ScanSignal(name, bytes, mode, entropyAbove, textTest);
    assert riskScore == done.points && details == done.labels;

    // normalise and finalise
    riskScore := Min(MaxScore, riskScore);
    var threat := riskScore >= ThreatThreshold;
    r := DetectionResult(name, size, threat, riskScore, details[..Min(MaxDetails, |details|)]);
  }

  // ------------------------------------------------------ label bookkeeping

  /** The labels stages 1 to 5 can push, other than the extension label. */
  const FixedQuickLabels: seq<string> := [
    PeLabel, ZipLabel,
    "Ransom keyword detected", "Cryptographic keyword presence", "Destructive operation keyword",
    "Suspicious extension", "Ransom note pattern",
    EntropyLabel, DoubleExtensionLabel
  ]

  ghost predicate IsQuickLabel(l: string)
  {
    l in FixedQuickLabels || (exists ext :: l == ExtensionLabel(ext))
  }

  lemma {:induction false} NameSignalLabels(rules: seq<NameRule>, lowerName: string)
    ensures forall l :: l in NameSignal(rules, lowerName).labels ==> exists j :: 0 <= j < |rules| && rules[j].name == l
  {
    if rules != [] {
      NameSignalLabels(rules[..|rules| - 1], lowerName);
    }
  }

  lemma {:induction false} TextSignalLabels(rules: seq<TextRule>, snippet: seq<byte>, textTest: TextTest)
    ensures forall l :: l in TextSignal(rules, snippet, textTest).labels ==> exists j :: 0 <= j < |rules| && rules[j].name == l
  {
    if rules != [] {
      TextSignalLabels(rules[..|rules| - 1], snippet, textTest);
    }
  }

  /** Every label of stages 1 to 5 comes from the fixed list or is an extension label. */
  lemma QuickLabelsKnown(name: string, bytes: seq<byte>, entropyAbove: EntropyTest)
    ensures forall l :: l in QuickSignal(name, bytes, entropyAbove).labels ==> IsQuickLabel(l)
  {
    NameSignalLabels(RansomwareSignatures, Lower(name));
    var e := ExtensionSignal(name).labels;
    assert forall l :: l in e ==> l == ExtensionLabel(FileExtension(name));
  }

  /** No label of stages 1 to 5 is the label of a text rule. */
  lemma TextNamesNotQuick(j: int, l: string)
    requires 0 <= j < |SuspiciousPatterns|
    requires IsQuickLabel(l)
    ensures l != SuspiciousPatterns[j].name
  {
    if l !in FixedQuickLabels {
      var ext :| l == ExtensionLabel(ext);
      assert l == "High-risk file type: " + ext;
      assert l[4] == "High-risk file type: "[4] == '-';
      assert SuspiciousPatterns[j].name[4] != '-';
    }
  }

  /** The text rules carry five different labels. */
  lemma EarlierTextLabels(snippet: seq<byte>, textTest: TextTest, i: int)
    requires 0 <= i < |SuspiciousPatterns|
    ensures SuspiciousPatterns[i].name !in TextSignal(SuspiciousPatterns[..i], snippet, textTest).labels
  {
    TextSignalLabels(SuspiciousPatterns[..i], snippet, textTest);
  }

  /** Stages 1 to 5 push no text-rule label, so the text stage's de-duplication never fires. */
  lemma TextNamesFresh(name: string, bytes: seq<byte>, entropyAbove: EntropyTest,
                       snippet: seq<byte>, textTest: TextTest)
    ensures forall j :: 0 <= j < |SuspiciousPatterns| ==>
      SuspiciousPatterns[j].name !in QuickSignal(name, bytes, entropyAbove).labels
  {
    QuickLabelsKnown(name, bytes, entropyAbove);
    forall j, l | 0 <= j < |SuspiciousPatterns| && l in QuickSignal(name, bytes, entropyAbove).labels
      ensures l != SuspiciousPatterns[j].name
    {
      TextNamesNotQuick(j, l);
    }
  }
}
