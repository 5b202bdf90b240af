/**
 * What the scorer promises, proved about the specification `Analyze` and
 * its stage signals (and so, by `AnalyzeFile`'s postcondition, about the
 * statement-by-statement model too).
 */
module ThreatDetectorProperties {
  import opened Text
  import opened ThreatDetector

  // ---------------------------------------------------------------- stage 1

  /** With a dot in the name, the extension is the lower-cased text after the last dot. */
  lemma ExtensionAfterLastDot(stem: string, ext: string)
    requires '.' !in ext
    ensures FileExtension(stem + "." + ext) == "." + Lower(ext)
    ensures ExtensionSignal(stem + "." + ext) ==
      if "." + Lower(ext) in DangerousExtensions
      then Signal(ExtensionPoints, [ExtensionLabel("." + Lower(ext))])
      else NoSignal
  {
    SplitLastAfterSeparator(stem, ext, '.');
  }

  /** Without a dot, the whole lower-cased name is taken as the extension. */
  lemma ExtensionWithoutDot(name: string)
    requires '.' !in name
    ensures FileExtension(name) == "." + Lower(name)
    ensures ExtensionSignal(name) ==
      if "." + Lower(name) in DangerousExtensions
      then Signal(ExtensionPoints, [ExtensionLabel("." + Lower(name))])
      else NoSignal
  {
    SplitNoSeparator(name, '.');
  }

  /** So a file called plainly `exe` is scored as an executable. */
  lemma BareNameCountsAsExtension()
    ensures ExtensionSignal("exe") == Signal(ExtensionPoints, [ExtensionLabel(".exe")])
  {
    ExtensionWithoutDot("exe");
    var lower := Lower("exe");
    assert lower == "exe" by {
      assert |lower| == 3 && lower[0] == 'e' && lower[1] == 'x' && lower[2] == 'e';
    }
    assert "." + lower == ".exe";
  }

  // ---------------------------------------------------------------- stage 2

  /** The hex-prefix test is a test of the first two bytes; a shorter file never matches. */
  lemma HeaderSignalOnBytes(bytes: seq<byte>)
    ensures HeaderSignal(bytes) ==
      if |bytes| >= 2 && bytes[0] == 0x4D && bytes[1] == 0x5A then Signal(PePoints, [PeLabel])
      else if |bytes| >= 2 && bytes[0] == 0x50 && bytes[1] == 0x4B then Signal(ZipPoints, [ZipLabel])
      else NoSignal
  {
    var head := bytes[..Min(HeaderLength, |bytes|)];
    var hex := HeaderHex(bytes);
    if |bytes| >= 2 {
      var b0, b1 := bytes[0], bytes[1];
      assert BytesHex(head) == ByteHex(b0) + (ByteHex(b1) + BytesHex(head[2..])) by {
        assert head[1..][0] == b1 && head[1..][1..] == head[2..];
      }
      assert hex[0] == UpperChar(HexDigit(b0 / 16)) && hex[1] == UpperChar(HexDigit(b0 % 16));
      assert hex[2] == UpperChar(HexDigit(b1 / 16)) && hex[3] == UpperChar(HexDigit(b1 % 16));
      assert StartsWith(hex, "4D5A") <==> hex[0] == '4' && hex[1] == 'D' && hex[2] == '5' && hex[3] == 'A';
      assert StartsWith(hex, "504B") <==> hex[0] == '5' && hex[1] == '0' && hex[2] == '4' && hex[3] == 'B';
      UpperHexDigitInjective(b0 / 16, 4);
      UpperHexDigitInjective(b0 / 16, 5);
      UpperHexDigitInjective(b0 % 16, 13);
      UpperHexDigitInjective(b0 % 16, 0);
      UpperHexDigitInjective(b1 / 16, 5);
      UpperHexDigitInjective(b1 / 16, 4);
      UpperHexDigitInjective(b1 % 16, 10);
      UpperHexDigitInjective(b1 % 16, 11);
    } else {
      assert |hex| <= 2;
    }
  }

  // ---------------------------------------------------------------- stage 3

  /**
   * Every filename rule is tested on its own: the stage pushes the label of each
   * matching rule, of no other, and scores 25 per label.
   */
  lemma {:induction false} NameSignalMatches(rules: seq<NameRule>, lowerName: string)
    ensures NameSignal(rules, lowerName).points == NameRulePoints * |NameSignal(rules, lowerName).labels|
    ensures |NameSignal(rules, lowerName).labels| <= |rules|
    ensures forall k :: 0 <= k < |rules| && NameRuleMatches(rules[k], lowerName) ==>
      rules[k].name in NameSignal(rules, lowerName).labels
    ensures forall l :: l in NameSignal(rules, lowerName).labels ==>
      exists k :: 0 <= k < |rules| && rules[k].name == l && NameRuleMatches(rules[k], lowerName)
  {
    if rules != [] {
      var init := rules[..|rules| - 1];
      NameSignalMatches(init, lowerName);
      forall k | 0 <= k < |rules| - 1 ensures rules[k] == init[k] { }
      forall l | l in NameSignal(init, lowerName).labels
        ensures exists k :: 0 <= k < |rules| && rules[k].name == l && NameRuleMatches(rules[k], lowerName)
      {
        var k :| 0 <= k < |init| && init[k].name == l && NameRuleMatches(init[k], lowerName);
        assert rules[k] == init[k];
      }
    }
  }

  /** The positions of the filename rules that match the lower-cased name. */
  ghost function MatchingNameRules(rules: seq<NameRule>, lowerName: string): set<int>
  {
    set k | 0 <= k < |rules| && NameRuleMatches(rules[k], lowerName)
  }

  /** The filename stage pushes one label and scores 25 for every matching rule. */
  lemma {:induction false} NameSignalCount(rules: seq<NameRule>, lowerName: string)
    ensures |NameSignal(rules, lowerName).labels| == |MatchingNameRules(rules, lowerName)|
    ensures NameSignal(rules, lowerName).points == NameRulePoints * |MatchingNameRules(rules, lowerName)|
  {
    if rules != [] {
      var init := rules[..|rules| - 1];
      NameSignalCount(init, lowerName);
      var before := MatchingNameRules(init, lowerName);
      var after := MatchingNameRules(rules, lowerName);
      var last := |rules| - 1;
      forall k | 0 <= k < last ensures rules[k] == init[k] { }
      assert last !in before;
      if NameRuleMatches(rules[last], lowerName) {
        assert after == before + {last};
      } else {
        assert after == before;
      }
    }
  }

  /** The five filename rules add between 0 and 125 points, 25 per matching rule. */
  lemma NameStageBounds(name: string)
    ensures NameSignal(RansomwareSignatures, Lower(name)).points <= 5 * NameRulePoints
    ensures NameSignal(RansomwareSignatures, Lower(name)).points % NameRulePoints == 0
  {
    NameSignalMatches(RansomwareSignatures, Lower(name));
  }

  // ---------------------------------------------------------------- stage 4

  function Sum(counts: seq<nat>): nat
  {
    if counts == [] then 0 else counts[0] + Sum(counts[1..])
  }

  lemma {:induction false} SumUpdate(counts: seq<nat>, v: int, n: nat)
    requires 0 <= v < |counts|
    ensures Sum(counts[v := n]) == Sum(counts) - counts[v] + n
  {
    if v == 0 {
      assert counts[v := n][1..] == counts[1..];
    } else {
      assert counts[v := n][1..] == counts[1..][v - 1 := n];
      SumUpdate(counts[1..], v - 1, n);
    }
  }

  /** The frequency counts of a sample add up to its length. */
  lemma {:induction false} HistogramSum(sample: seq<byte>)
    ensures Sum(Histogram(sample)) == |sample|
  {
    if sample == [] {
      var h := Histogram(sample);
      assert forall v :: 0 <= v < 256 ==> h[v] == 0;
      ZeroSum(h);
    } else {
      var init, b := sample[..|sample| - 1], Last(sample);
      assert sample == init + [b];
      HistogramSum(init);
      assert Histogram(sample) == Histogram(init)[b := Histogram(init)[b] + 1];
      SumUpdate(Histogram(init), b, Histogram(init)[b] + 1);
    }
  }

  lemma {:induction false} ZeroSum(counts: seq<nat>)
    requires forall v :: 0 <= v < |counts| ==> counts[v] == 0
    ensures Sum(counts) == 0
  {
    if counts != [] {
      ZeroSum(counts[1..]);
    }
  }

  /**
   * The entropy sample is the first `min(4096, length)` bytes, its counts add up
   * to that length, and an empty file never fires the entropy stage.
   */
  lemma EntropySampleCounts(bytes: seq<byte>, entropyAbove: EntropyTest)
    ensures EntropySample(bytes) == bytes[..Min(EntropySampleLength, |bytes|)]
    ensures Sum(Histogram(EntropySample(bytes))) == Min(EntropySampleLength, |bytes|)
    ensures bytes == [] ==> EntropySignal(bytes, entropyAbove) == NoSignal
  {
    HistogramSum(EntropySample(bytes));
  }

  // ---------------------------------------------------------------- stage 5

  /**
   * The double-extension stage fires exactly when the name has at least two dots
   * and the text after the last one, with its case kept, is a dangerous extension.
   */
  lemma DoubleExtensionAfterLastDot(stem: string, ext: string)
    requires '.' !in ext
    ensures DoubleExtensionSignal(stem + "." + ext) ==
      if '.' in stem && "." + ext in DangerousExtensions
      then Signal(DoubleExtensionPoints, [DoubleExtensionLabel])
      else NoSignal
  {
    var name := stem + "." + ext;
    SplitLastAfterSeparator(stem, ext, '.');
    SplitLength(name, '.');
    CountCharConcat(stem + ".", ext, '.');
    CountCharConcat(stem, ".", '.');
    CountCharPositive(stem, '.');
    CountCharPositive(ext, '.');
  }

  /** A name with at most one dot never fires the double-extension stage. */
  lemma OneDotNeverDouble(name: string)
    requires CountChar(name, '.') <= 1
    ensures DoubleExtensionSignal(name) == NoSignal
  {
    SplitLength(name, '.');
  }

  /** The case of the last part is kept: `a.pdf.EXE` fires stage 1 but not stage 5. */
  lemma DoubleExtensionKeepsCase()
    ensures ExtensionSignal("a.pdf.EXE") == Signal(ExtensionPoints, [ExtensionLabel(".exe")])
    ensures DoubleExtensionSignal("a.pdf.EXE") == NoSignal
  {
    assert "a.pdf.EXE" == "a.pdf" + "." + "EXE";
    UpperCaseExeExtension();
    assert '.' in "a.pdf" by { assert "a.pdf"[1] == '.'; }
    DoubleExtensionAfterLastDot("a.pdf", "EXE");
    assert "." + "EXE" == ".EXE";
  }

  lemma UpperCaseExeExtension()
    ensures ExtensionSignal("a.pdf" + "." + "EXE") == Signal(ExtensionPoints, [ExtensionLabel(".exe")])
    ensures ".EXE" !in DangerousExtensions
  {
    ExtensionAfterLastDot("a.pdf", "EXE");
    var lower := Lower("EXE");
    assert lower == "exe" by {
      assert |lower| == 3 && lower[0] == 'e' && lower[1] == 'x' && lower[2] == 'e';
    }
    assert "." + lower == ".exe";
  }

  // ---------------------------------------------------------------- stage 6

  /** Each matching text rule scores 8 and pushes its label; non-matching rules add nothing. */
  lemma {:induction false} TextSignalMatches(rules: seq<TextRule>, snippet: seq<byte>, textTest: TextTest)
    ensures TextSignal(rules, snippet, textTest).points == TextRulePoints * |TextSignal(rules, snippet, textTest).labels|
    ensures |TextSignal(rules, snippet, textTest).labels| <= |rules|
    ensures forall k :: 0 <= k < |rules| && textTest(rules[k].pattern, snippet) ==>
      rules[k].name in TextSignal(rules, snippet, textTest).labels
    ensures forall l :: l in TextSignal(rules, snippet, textTest).labels ==>
      exists k :: 0 <= k < |rules| && rules[k].name == l && textTest(rules[k].pattern, snippet)
  {
    if rules != [] {
      var init := rules[..|rules| - 1];
      TextSignalMatches(init, snippet, textTest);
      forall k | 0 <= k < |rules| - 1 ensures rules[k] == init[k] { }
      forall l | l in TextSignal(init, snippet, textTest).labels
        ensures exists k :: 0 <= k < |rules| && rules[k].name == l && textTest(rules[k].pattern, snippet)
      {
        var k :| 0 <= k < |init| && init[k].name == l && textTest(init[k].pattern, snippet);
        assert rules[k] == init[k];
      }
    }
  }

  /** The positions of the text rules whose pattern matches the snippet. */
  ghost function MatchingTextRules(rules: seq<TextRule>, snippet: seq<byte>, textTest: TextTest): set<int>
  {
    set k | 0 <= k < |rules| && textTest(rules[k].pattern, snippet)
  }

  /** The text stage pushes one label and scores 8 for every matching rule. */
  lemma {:induction false} TextSignalCount(rules: seq<TextRule>, snippet: seq<byte>, textTest: TextTest)
    ensures |TextSignal(rules, snippet, textTest).labels| == |MatchingTextRules(rules, snippet, textTest)|
    ensures TextSignal(rules, snippet, textTest).points == TextRulePoints * |MatchingTextRules(rules, snippet, textTest)|
  {
    if rules != [] {
      var init := rules[..|rules| - 1];
      TextSignalCount(init, snippet, textTest);
      var before := MatchingTextRules(init, snippet, textTest);
      var after := MatchingTextRules(rules, snippet, textTest);
      var last := |rules| - 1;
      forall k | 0 <= k < last ensures rules[k] == init[k] { }
      assert last !in before;
      if textTest(rules[last].pattern, snippet) {
        assert after == before + {last};
      } else {
        assert after == before;
      }
    }
  }

  /**
   * The text stage runs in deep mode only and only appends: the deep score is the
   * quick score plus 8 per matching text rule, and the quick labels are a prefix of
   * the deep ones, before and after truncation.
   */
  lemma QuickNeverAboveDeep(name: string, size: int, bytes: seq<byte>,
                            entropyAbove: EntropyTest, textTest: TextTest)
    ensures ScanSignal(name, bytes, Deep, entropyAbove, textTest).points ==
      ScanSignal(name, bytes, Quick, entropyAbove, textTest).points +
      TextRulePoints * |MatchingTextRules(SuspiciousPatterns, TextSnippet(bytes), textTest)|
    ensures ScanSignal(name, bytes, Quick, entropyAbove, textTest).labels <=
      ScanSignal(name, bytes, Deep, entropyAbove, textTest).labels
    ensures Analyze(name, size, bytes, Quick, entropyAbove, textTest).riskScore <=
      Analyze(name, size, bytes, Deep, entropyAbove, textTest).riskScore
    ensures Analyze(name, size, bytes, Quick, entropyAbove, textTest).details <=
      Analyze(name, size, bytes, Deep, entropyAbove, textTest).details
    ensures Analyze(name, size, bytes, Quick, entropyAbove, textTest).threat ==>
      Analyze(name, size, bytes, Deep, entropyAbove, textTest).threat
  {
    TextSignalCount(SuspiciousPatterns, TextSnippet(bytes), textTest);
    var q := ScanSignal(name, bytes, Quick, entropyAbove, textTest).labels;
    var d := ScanSignal(name, bytes, Deep, entropyAbove, textTest).labels;
    assert q <= d;
    assert q[..Min(MaxDetails, |q|)] <= d[..Min(MaxDetails, |d|)];
  }
}
