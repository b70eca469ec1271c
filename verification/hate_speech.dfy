/** The hate-speech scorer: language-ambiguity detection, language-specific
    normalisation, the lexicon and sarcasm rule engine, the ensemble average
    that tolerates failing models, and the asymmetric fusion of the two. */
module HateSpeech {
  import opened Wrappers
  import opened Text
  import opened Sequences

  /** The top-1 fastText prediction for a text: `(label, confidence)`. */
  datatype Prediction = Prediction(rawLabel: string, confidence: real)

  /** `language` is `None` only for blank text. */
  datatype LanguageInfo = LanguageInfo(language: Option<string>, confidence: real, isAmbiguous: bool)

  /** What one model put in `model_scores`: its probability, or the error text. */
  datatype ModelScore = Probability(p: real) | ErrorMarker(message: string)

  datatype ModelEntry = ModelEntry(name: string, score: ModelScore)

  datatype RuleOutcome = RuleOutcome(scoreBoost: real, matchedRules: seq<string>)

  datatype Details = Details(language: Option<string>, rules: seq<string>)

  datatype Detection = Detection(score: real, details: Details)

  /** The process-wide models and text libraries, as uninterpreted functions:
      fastText's `predict`, `classify_text(text, model_name)`, `emoji.demojize`,
      the Indic normaliser and tokenizer (language first), and the Unicode
      word-character table behind `\w` for characters outside ASCII. */
  datatype Capabilities = Capabilities(
    predictLanguage: string -> Prediction,
    classify: (string, string) -> Outcome<real>,
    demojize: string -> string,
    indicNormalize: (string, string) -> string,
    indicTokenize: (string, string) -> seq<string>,
    isUnicodeWordChar: char -> bool)

  const AmbiguityThreshold: real := 0.9
  const LabelPrefix: string := "__label__"
  const ModelNames: seq<string> := ["muril", "indicbert", "xlmr", "distilbert", "mbert"]

  // ---------------------------------------------------------------------------
  // Language detection

  /** A language record as the scorer produces it: low confidence always means
      ambiguous, an ambiguous record names no language or "mixed", and a
      missing language comes with confidence 0. */
  predicate WellFormed(info: LanguageInfo) {
    (info.confidence < AmbiguityThreshold ==> info.isAmbiguous)
    && (info.isAmbiguous ==> info.language == None || info.language == Some("mixed"))
    && (info.language == None ==> info.confidence == 0.0 && info.isAmbiguous)
  }

  /** `detect_language`: blank text has no language; otherwise fastText is
      asked about the text with newlines turned into blanks, the record is
      ambiguous exactly when the confidence is below 0.9, and an ambiguous
      record is relabelled "mixed". */
  function DetectLanguage(text: string, caps: Capabilities): (info: LanguageInfo)
    ensures WellFormed(info)
    ensures info.language == None <==> IsBlank(text)
    ensures IsBlank(text) ==> info == LanguageInfo(None, 0.0, true)
    ensures !IsBlank(text) ==>
      info.confidence == caps.predictLanguage(ReplaceChar(text, '\n', ' ')).confidence
      && info.isAmbiguous == (info.confidence < AmbiguityThreshold)
    ensures !IsBlank(text) && !info.isAmbiguous ==>
      info.language == Some(RemoveAll(caps.predictLanguage(ReplaceChar(text, '\n', ' ')).rawLabel, LabelPrefix))
  {
    if IsBlank(text) then LanguageInfo(None, 0.0, true)
    else
      var prediction := caps.predictLanguage(ReplaceChar(text, '\n', ' '));
      var code := RemoveAll(prediction.rawLabel, LabelPrefix);
      var ambiguous := prediction.confidence < AmbiguityThreshold;
      LanguageInfo(Some(if ambiguous then "mixed" else code), prediction.confidence, ambiguous)
  }

  /** For a confident fastText label `__label__<code>` the detected language is
      exactly `<code>`. */
  lemma ConfidentLabelIsLanguageCode(text: string, caps: Capabilities, code: string)
    requires !IsBlank(text)
    requires caps.predictLanguage(ReplaceChar(text, '\n', ' ')).rawLabel == LabelPrefix + code
    requires caps.predictLanguage(ReplaceChar(text, '\n', ' ')).confidence >= AmbiguityThreshold
    requires !Contains(code, LabelPrefix)
    ensures DetectLanguage(text, caps) == LanguageInfo(Some(code), caps.predictLanguage(ReplaceChar(text, '\n', ' ')).confidence, false)
  {
    var full := LabelPrefix + code;
    assert full[..|LabelPrefix|] == LabelPrefix;
    assert full[|LabelPrefix|..] == code;
    RemoveAllAbsent(code, LabelPrefix);
  }

  // ---------------------------------------------------------------------------
  // Normalisation

  predicate IsAsciiWordChar(c: char) {
    ('a' <= c <= 'z') || ('A' <= c <= 'Z') || ('0' <= c <= '9') || c == '_'
  }

  /** The `\w` class of `re` on `str` patterns. */
  predicate IsWordChar(caps: Capabilities, c: char) {
    if c < '\U{80}' then IsAsciiWordChar(c) else caps.isUnicodeWordChar(c)
  }

  /** The characters `[^\w\s:]` does not match. */
  predicate Kept(caps: Capabilities, c: char) {
    IsWordChar(caps, c) || IsSpace(c) || c == ':'
  }

  predicate AllKept(caps: Capabilities, s: string) {
    forall i :: 0 <= i < |s| ==> Kept(caps, s[i])
  }

  /** `re.sub(r'[^\w\s:]+', '', s)`: the kept characters of `s`, in order. */
  function StripPunctuation(caps: Capabilities, s: string): (r: string)
    ensures AllKept(caps, r)
    ensures |r| <= |s|
  {
    if s == [] then []
    else (if Kept(caps, s[0]) then [s[0]] else []) + StripPunctuation(caps, s[1..])
  }

  /** Text that is already clean passes through unchanged, so stripping twice
      is stripping once. */
  lemma {:induction false} StripPunctuationKeepsClean(caps: Capabilities, s: string)
    requires AllKept(caps, s)
    ensures StripPunctuation(caps, s) == s
  {
    if s != [] {
      assert AllKept(caps, s[1..]) by {
        forall i | 0 <= i < |s[1..]| ensures Kept(caps, s[1..][i]) { assert s[1..][i] == s[i + 1]; }
      }
      StripPunctuationKeepsClean(caps, s[1..]);
    }
  }

  lemma StripPunctuationIdempotent(caps: Capabilities, s: string)
    ensures StripPunctuation(caps, StripPunctuation(caps, s)) == StripPunctuation(caps, s)
  {
    StripPunctuationKeepsClean(caps, StripPunctuation(caps, s));
  }

  predicate HasAsciiUpper(s: string) {
    exists i :: 0 <= i < |s| && IsAsciiUpper(s[i])
  }

  /** Punctuation stripping never removes a letter: an upper-case ASCII letter
      survives it, and none is introduced. */
  lemma {:induction false} StripPunctuationKeepsUpper(caps: Capabilities, s: string)
    ensures HasAsciiUpper(StripPunctuation(caps, s)) <==> HasAsciiUpper(s)
  {
    if s != [] {
      StripPunctuationKeepsUpper(caps, s[1..]);
      var head := if Kept(caps, s[0]) then [s[0]] else [];
      var tail := StripPunctuation(caps, s[1..]);
      assert StripPunctuation(caps, s) == head + tail;
      if HasAsciiUpper(s) {
        var i :| 0 <= i < |s| && IsAsciiUpper(s[i]);
        if i == 0 {
          assert (head + tail)[0] == s[0];
        } else {
          assert s[1..][i - 1] == s[i];
          var k :| 0 <= k < |tail| && IsAsciiUpper(tail[k]);
          assert (head + tail)[|head| + k] == tail[k];
        }
      }
      if HasAsciiUpper(head + tail) {
        var i :| 0 <= i < |head + tail| && IsAsciiUpper((head + tail)[i]);
        if i < |head| {
          assert s[0] == (head + tail)[i];
        } else {
          assert tail[i - |head|] == (head + tail)[i];
          var k :| 0 <= k < |s[1..]| && IsAsciiUpper(s[1..][k]);
          assert s[k + 1] == s[1..][k];
        }
      }
    }
  }

  /** Lower-casing is applied for English, for "mixed" and for ambiguous text. */
  predicate LowercasesFor(info: LanguageInfo) {
    info.language == Some("en") || info.language == Some("mixed") || info.isAmbiguous
  }

  /** The languages with their own normaliser and tokenizer. */
  predicate IsIndic(info: LanguageInfo) {
    info.language == Some("hi") || info.language == Some("bn")
  }

  function CaseStep(info: LanguageInfo, s: string): string {
    if LowercasesFor(info) then Lower(s) else s
  }

  /** Normalise, tokenize and join the tokens with single blanks. */
  function IndicPipeline(caps: Capabilities, language: string, s: string): string {
    Join(caps.indicTokenize(language, caps.indicNormalize(language, s)), " ")
  }

  function ScriptStep(caps: Capabilities, info: LanguageInfo, s: string): string {
    if info.language == Some("hi") then IndicPipeline(caps, "hi", s)
    else if info.language == Some("bn") then IndicPipeline(caps, "bn", s)
    else StripPunctuation(caps, s)
  }

  /** The text after whitespace collapsing and emoji replacement. */
  function Demojized(text: string, caps: Capabilities): string {
    caps.demojize(Collapse(text))
  }

  /** `preprocess_text`: `None` for blank text; otherwise collapse whitespace,
      replace emoji, lower-case when `LowercasesFor`, then the Indic pipeline for
      Hindi and Bengali and punctuation stripping for every other language. */
  function PreprocessText(text: string, info: LanguageInfo, caps: Capabilities): (r: Option<string>)
    ensures r == None <==> IsBlank(text)
    ensures r != None && !IsIndic(info) ==> AllKept(caps, r.value)
  {
    if IsBlank(text) then None
    else Some(ScriptStep(caps, info, CaseStep(info, Demojized(text, caps))))
  }

  /** Outside Hindi and Bengali the normalised text has an upper-case ASCII
      letter exactly when lower-casing was not applied and the demojized text
      had one. */
  lemma PreprocessCasing(text: string, info: LanguageInfo, caps: Capabilities)
    requires !IsBlank(text) && !IsIndic(info)
    ensures HasAsciiUpper(PreprocessText(text, info, caps).value)
            <==> !LowercasesFor(info) && HasAsciiUpper(Demojized(text, caps))
  {
    var d := Demojized(text, caps);
    StripPunctuationKeepsUpper(caps, CaseStep(info, d));
    if LowercasesFor(info) {
      assert !HasAsciiUpper(Lower(d));
    }
  }

  /** Outside Hindi and Bengali no `'!'` survives normalisation, so the
      `[!]{2,}` sarcasm pattern can never fire there. */
  lemma NoBangAfterPreprocess(text: string, info: LanguageInfo, caps: Capabilities)
    requires !IsBlank(text) && !IsIndic(info)
    ensures !Contains(Lower(PreprocessText(text, info, caps).value), "!!")
  {
    var r := PreprocessText(text, info, caps).value;
    var low := Lower(r);
    forall i | 0 <= i <= |low| ensures !OccursAt(low, "!!", i) {
      if i + 2 <= |low| {
        assert low[i..i + 2][0] == low[i] == LowerChar(r[i]);
        assert Kept(caps, r[i]);
      }
    }
  }

  // ---------------------------------------------------------------------------
  // Rule engine

  const EnglishLexicon: seq<string> := ["idiot", "stupid", "useless", "loser"]
  const HindiLexicon: seq<string> := ["बेवकूफ", "मूर्ख", "बकवास", "नालायक"]
  const BengaliLexicon: seq<string> := ["বোকা", "মূর্খ", "বাজে", "অযোগ্য"]
  const MixedLexicon: seq<string> := ["bakwas", "bhai", "useless"]
  const Lexicons: map<string, seq<string>> :=
    map["en" := EnglishLexicon, "hi" := HindiLexicon, "bn" := BengaliLexicon, "mixed" := MixedLexicon]

  /** `lexicons.get(language, lexicons['mixed'] if is_ambiguous else [])` */
  function SelectLexicon(info: LanguageInfo): (lexicon: seq<string>)
    ensures lexicon == [] || lexicon in Lexicons.Values
    ensures Distinct(lexicon)
  {
    LexiconsDistinct();
    assert MixedLexicon == Lexicons["mixed"];
    if info.language.Some? && info.language.value in Lexicons then Lexicons[info.language.value]
    else if info.isAmbiguous then MixedLexicon
    else []
  }

  /** The lexicon is the language's own when it has one; otherwise "mixed" for
      ambiguous text and nothing at all for confident text. */
  lemma SelectLexiconCases(info: LanguageInfo)
    ensures info.language == Some("en") ==> SelectLexicon(info) == EnglishLexicon
    ensures info.language == Some("hi") ==> SelectLexicon(info) == HindiLexicon
    ensures info.language == Some("bn") ==> SelectLexicon(info) == BengaliLexicon
    ensures info.language == Some("mixed") || (info.language == None && info.isAmbiguous)
            ==> SelectLexicon(info) == MixedLexicon
    ensures SelectLexicon(info) == [] <==>
            !info.isAmbiguous && (info.language == None || info.language.value !in {"en", "hi", "bn", "mixed"})
  {
  }

  /** Every lexicon lists each term once. */
  lemma LexiconsDistinct()
    ensures forall language :: language in Lexicons ==> Distinct(Lexicons[language])
  {
  }

  datatype SarcasmPattern = WowOrReally | RepeatedBang | FaceEmojiTag

  const SarcasmPatterns: seq<SarcasmPattern> := [WowOrReally, RepeatedBang, FaceEmojiTag]

  /** The regular expression as the rule list reports it. */
  function PatternSource(p: SarcasmPattern): string {
    match p
    case WowOrReally => "\\b(wow|really)\\b"
    case RepeatedBang => "[!]{2,}"
    case FaceEmojiTag => ":\\w+_face:"
  }

  /** `w` occurs at `i` with a word boundary on both sides (`w` is made of word
      characters). */
  predicate WholeWordAt(caps: Capabilities, s: string, w: string, i: int) {
    OccursAt(s, w, i)
    && (i == 0 || !IsWordChar(caps, s[i - 1]))
    && (i + |w| == |s| || !IsWordChar(caps, s[i + |w|]))
  }

  /** `s[i]` is `':'`, `s[i+1..j]` is one or more word characters and
      `"_face:"` starts at `j`. */
  predicate FaceTagAt(caps: Capabilities, s: string, i: int, j: int) {
    0 <= i && i + 2 <= j && OccursAt(s, "_face:", j) && s[i] == ':'
    && forall k :: i < k < j ==> IsWordChar(caps, s[k])
  }

  /** `re.search(pattern, s)` for the three sarcasm patterns. */
  predicate Searches(caps: Capabilities, p: SarcasmPattern, s: string)
    ensures p == WowOrReally && Searches(caps, p, s) ==> Contains(s, "wow") || Contains(s, "really")
    ensures p == FaceEmojiTag && Searches(caps, p, s) ==> Contains(s, "_face:") && ':' in s
  {
    match p
    case WowOrReally =>
      exists i | 0 <= i <= |s| :: WholeWordAt(caps, s, "wow", i) || WholeWordAt(caps, s, "really", i)
    case RepeatedBang => Contains(s, "!!")
    case FaceEmojiTag =>
      exists i, j | 0 <= i < j <= |s| :: FaceTagAt(caps, s, i, j)
  }

  const SlurPrefix: string := "Slur: "
  const SarcasmPrefix: string := "Sarcasm: "

  /** The positions of the lexicon whose term occurs in `lowered`. */
  function MatchingTerms(lexicon: seq<string>, lowered: string): set<int> {
    set k | 0 <= k < |lexicon| && Contains(lowered, lexicon[k])
  }

  /** The positions of the patterns that match `lowered`. */
  function MatchingPatterns(caps: Capabilities, patterns: seq<SarcasmPattern>, lowered: string): set<int> {
    set k | 0 <= k < |patterns| && Searches(caps, patterns[k], lowered)
  }

  /** `"Slur: <term>"` for each lexicon term found in `lowered`, in lexicon order. */
  function SlurRules(lexicon: seq<string>, lowered: string): (rules: seq<string>)
    ensures |rules| <= |lexicon|
  {
    if lexicon == [] then []
    else
      var term := lexicon[|lexicon| - 1];
      SlurRules(lexicon[..|lexicon| - 1], lowered)
      + (if Contains(lowered, term) then [SlurPrefix + term] else [])
  }

  /** `"Sarcasm: <pattern>"` for each pattern that matches `lowered`, in order. */
  function SarcasmRules(caps: Capabilities, patterns: seq<SarcasmPattern>, lowered: string): (rules: seq<string>)
    ensures |rules| <= |patterns|
  {
    if patterns == [] then []
    else
      var p := patterns[|patterns| - 1];
      SarcasmRules(caps, patterns[..|patterns| - 1], lowered)
      + (if Searches(caps, p, lowered) then [SarcasmPrefix + PatternSource(p)] else [])
  }

  lemma MatchingTermsStep(lexicon: seq<string>, lowered: string)
    requires lexicon != []
    ensures var n := |lexicon| - 1;
      |MatchingTerms(lexicon, lowered)|
      == |MatchingTerms(lexicon[..n], lowered)| + (if Contains(lowered, lexicon[n]) then 1 else 0)
  {
    var n := |lexicon| - 1;
    var init := lexicon[..n];
    assert forall k :: 0 <= k < n ==> init[k] == lexicon[k];
    assert MatchingTerms(lexicon, lowered)
        == MatchingTerms(init, lowered) + (if Contains(lowered, lexicon[n]) then {n} else {});
    assert n !in MatchingTerms(init, lowered);
  }

  /** One slur rule per lexicon position whose term occurs in `lowered`. */
  lemma {:induction false} SlurRulesCount(lexicon: seq<string>, lowered: string)
    ensures |SlurRules(lexicon, lowered)| == |MatchingTerms(lexicon, lowered)|
  {
    if lexicon == [] {
      assert MatchingTerms(lexicon, lowered) == {};
    } else {
      SlurRulesCount(lexicon[..|lexicon| - 1], lowered);
      MatchingTermsStep(lexicon, lowered);
    }
  }

  lemma MatchingPatternsStep(caps: Capabilities, patterns: seq<SarcasmPattern>, lowered: string)
    requires patterns != []
    ensures var n := |patterns| - 1;
      |MatchingPatterns(caps, patterns, lowered)|
      == |MatchingPatterns(caps, patterns[..n], lowered)| + (if Searches(caps, patterns[n], lowered) then 1 else 0)
  {
    var n := |patterns| - 1;
    var init := patterns[..n];
    assert forall k :: 0 <= k < n ==> init[k] == patterns[k];
    assert MatchingPatterns(caps, patterns, lowered)
        == MatchingPatterns(caps, init, lowered) + (if Searches(caps, patterns[n], lowered) then {n} else {});
    assert n !in MatchingPatterns(caps, init, lowered);
  }

  /** One sarcasm rule per pattern position that matches `lowered`. */
  lemma {:induction false} SarcasmRulesCount(caps: Capabilities, patterns: seq<SarcasmPattern>, lowered: string)
    ensures |SarcasmRules(caps, patterns, lowered)| == |MatchingPatterns(caps, patterns, lowered)|
  {
    if patterns == [] {
      assert MatchingPatterns(caps, patterns, lowered) == {};
    } else {
      SarcasmRulesCount(caps, patterns[..|patterns| - 1], lowered);
      MatchingPatternsStep(caps, patterns, lowered);
    }
  }

  function Min(a: real, b: real): real {
    if a <= b then a else b
  }

  function Max(a: real, b: real): real {
    if a >= b then a else b
  }

  /** What `rule_based_check` returns: nothing for empty text; otherwise the
      slur rules then the sarcasm rules found in the lower-cased text, and a
      boost of 0.2 per slur plus 0.1 per sarcasm pattern, capped at 0.5. */
  function RuleOutcomeOf(text: string, info: LanguageInfo, caps: Capabilities): (r: RuleOutcome)
    ensures 0.0 <= r.scoreBoost <= 0.5
    ensures |r.matchedRules| <= |SelectLexicon(info)| + |SarcasmPatterns|
    ensures text == [] ==> r == RuleOutcome(0.0, [])
  {
    if text == [] then RuleOutcome(0.0, [])
    else
      var lowered := Lower(text);
      var slurs := SlurRules(SelectLexicon(info), lowered);
      var sarcasm := SarcasmRules(caps, SarcasmPatterns, lowered);
      RuleOutcome(Min(0.2 * |slurs| as real + 0.1 * |sarcasm| as real, 0.5), slurs + sarcasm)
  }

  /** `rule_based_check` */
  method RuleBasedCheck(text: string, info: LanguageInfo, caps: Capabilities) returns (outcome: RuleOutcome)
    ensures outcome == RuleOutcomeOf(text, info, caps)
  {
    if text == [] {
      return RuleOutcome(0.0, []);
    }
    var lowered := Lower(text);
    var slurs, slurBoost := ScanLexicon(SelectLexicon(info), lowered);
    var matched, boost := ScanSarcasm(caps, lowered, slurs, slurBoost);
    outcome := RuleOutcome(Min(boost, 0.5), matched);
  }

  /** The loop over the lexicon: one rule and 0.2 of boost per term found. */
  method ScanLexicon(lexicon: seq<string>, lowered: string) returns (matched: seq<string>, boost: real)
    ensures matched == SlurRules(lexicon, lowered)
    ensures boost == 0.2 * |matched| as real
  {
    matched := [];
    boost := 0.0;
    for i := 0 to |lexicon|
      invariant matched == SlurRules(lexicon[..i], lowered)
      invariant boost == 0.2 * |matched| as real
    {
      assert lexicon[..i + 1][..i] == lexicon[..i];
      var term := lexicon[i];
      if Contains(lowered, term) {
        matched := matched + [SlurPrefix + term];
        boost := boost + 0.2;
      }
    }
    assert lexicon[..|lexicon|] == lexicon;
  }

  /** The loop over the sarcasm patterns, continuing the slur loop's rules
      and boost: one rule and 0.1 of boost per pattern that matches. */
  method ScanSarcasm(caps: Capabilities, lowered: string, slurs: seq<string>, slurBoost: real)
    returns (matched: seq<string>, boost: real)
    ensures matched == slurs + SarcasmRules(caps, SarcasmPatterns, lowered)
    ensures boost == slurBoost + 0.1 * |SarcasmRules(caps, SarcasmPatterns, lowered)| as real
  {
    matched := slurs;
    boost := slurBoost;
    var patterns := SarcasmPatterns;
    for i := 0 to |patterns|
      invariant matched == slurs + SarcasmRules(caps, patterns[..i], lowered)
      invariant boost == slurBoost + 0.1 * (|matched| - |slurs|) as real
    {
      assert patterns[..i + 1][..i] == patterns[..i];
      var pattern := patterns[i];
      if Searches(caps, pattern, lowered) {
        matched := matched + [SarcasmPrefix + PatternSource(pattern)];
        boost := boost + 0.1;
      }
    }
    assert patterns[..|patterns|] == patterns;
  }

  /** A string is a slur rule for `lowered` exactly when it is `"Slur: "`
      followed by a lexicon term that occurs in `lowered`. */
  lemma {:induction false} SlurRulesMembers(lexicon: seq<string>, lowered: string, rule: string)
    ensures rule in SlurRules(lexicon, lowered) <==>
            exists k :: 0 <= k < |lexicon| && Contains(lowered, lexicon[k]) && rule == SlurPrefix + lexicon[k]
  {
    if lexicon != [] {
      var init := lexicon[..|lexicon| - 1];
      SlurRulesMembers(init, lowered, rule);
      if exists k :: 0 <= k < |lexicon| && Contains(lowered, lexicon[k]) && rule == SlurPrefix + lexicon[k] {
        var k :| 0 <= k < |lexicon| && Contains(lowered, lexicon[k]) && rule == SlurPrefix + lexicon[k];
        if k < |init| { assert init[k] == lexicon[k]; }
      }
      if exists k :: 0 <= k < |init| && Contains(lowered, init[k]) && rule == SlurPrefix + init[k] {
        var k :| 0 <= k < |init| && Contains(lowered, init[k]) && rule == SlurPrefix + init[k];
        assert lexicon[k] == init[k];
      }
    }
  }

  function SlurLabels(lexicon: seq<string>): seq<string> {
    if lexicon == [] then [] else SlurLabels(lexicon[..|lexicon| - 1]) + [SlurPrefix + lexicon[|lexicon| - 1]]
  }

  /** The slur rules come in lexicon order. */
  lemma {:induction false} SlurRulesInLexiconOrder(lexicon: seq<string>, lowered: string)
    ensures IsSubsequence(SlurRules(lexicon, lowered), SlurLabels(lexicon))
  {
    if lexicon != [] {
      var init := lexicon[..|lexicon| - 1];
      var term := lexicon[|lexicon| - 1];
      SlurRulesInLexiconOrder(init, lowered);
      assert SlurLabels(lexicon) == SlurLabels(init) + [SlurPrefix + term];
      if Contains(lowered, term) {
        assert SlurRules(lexicon, lowered) == SlurRules(init, lowered) + [SlurPrefix + term];
        SubsequenceTake(SlurRules(init, lowered), SlurLabels(init), SlurPrefix + term);
      } else {
        assert SlurRules(lexicon, lowered) == SlurRules(init, lowered);
        SubsequenceSkip(SlurRules(init, lowered), SlurLabels(init), SlurPrefix + term);
      }
    }
  }

  lemma PrefixInjective(p: string, a: string, b: string)
    requires a != b
    ensures p + a != p + b
  {
    assert (p + a)[|p|..] == a;
    assert (p + b)[|p|..] == b;
  }

  /** A lexicon without repeated terms yields each matching term once. */
  lemma {:induction false} SlurRulesDistinct(lexicon: seq<string>, lowered: string)
    requires Distinct(lexicon)
    ensures Distinct(SlurRules(lexicon, lowered))
  {
    if lexicon != [] {
      var init := lexicon[..|lexicon| - 1];
      var term := lexicon[|lexicon| - 1];
      assert Distinct(init);
      SlurRulesDistinct(init, lowered);
      if Contains(lowered, term) {
        var rule := SlurPrefix + term;
        forall k | 0 <= k < |init| ensures rule != SlurPrefix + init[k] {
          assert init[k] == lexicon[k];
          PrefixInjective(SlurPrefix, term, init[k]);
        }
        SlurRulesMembers(init, lowered, rule);
        DistinctAppend(SlurRules(init, lowered), rule);
      }
    }
  }

  function SarcasmLabels(patterns: seq<SarcasmPattern>): seq<string> {
    if patterns == [] then []
    else SarcasmLabels(patterns[..|patterns| - 1]) + [SarcasmPrefix + PatternSource(patterns[|patterns| - 1])]
  }

  /** The sarcasm rules come in pattern order. */
  lemma {:induction false} SarcasmRulesInPatternOrder(caps: Capabilities, patterns: seq<SarcasmPattern>, lowered: string)
    ensures IsSubsequence(SarcasmRules(caps, patterns, lowered), SarcasmLabels(patterns))
  {
    if patterns != [] {
      var init := patterns[..|patterns| - 1];
      var entry := SarcasmPrefix + PatternSource(patterns[|patterns| - 1]);
      SarcasmRulesInPatternOrder(caps, init, lowered);
      assert SarcasmLabels(patterns) == SarcasmLabels(init) + [entry];
      if Searches(caps, patterns[|patterns| - 1], lowered) {
        assert SarcasmRules(caps, patterns, lowered) == SarcasmRules(caps, init, lowered) + [entry];
        SubsequenceTake(SarcasmRules(caps, init, lowered), SarcasmLabels(init), entry);
      } else {
        assert SarcasmRules(caps, patterns, lowered) == SarcasmRules(caps, init, lowered);
        SubsequenceSkip(SarcasmRules(caps, init, lowered), SarcasmLabels(init), entry);
      }
    }
  }

  /** A string is a sarcasm rule exactly when it is `"Sarcasm: "` followed by
      the source of a pattern that matches. */
  lemma {:induction false} SarcasmRulesMembers(caps: Capabilities, patterns: seq<SarcasmPattern>, lowered: string, rule: string)
    ensures rule in SarcasmRules(caps, patterns, lowered) <==>
            exists k :: 0 <= k < |patterns| && Searches(caps, patterns[k], lowered)
                        && rule == SarcasmPrefix + PatternSource(patterns[k])
  {
    if patterns != [] {
      var init := patterns[..|patterns| - 1];
      SarcasmRulesMembers(caps, init, lowered, rule);
      if exists k :: 0 <= k < |patterns| && Searches(caps, patterns[k], lowered)
                     && rule == SarcasmPrefix + PatternSource(patterns[k]) {
        var k :| 0 <= k < |patterns| && Searches(caps, patterns[k], lowered)
                 && rule == SarcasmPrefix + PatternSource(patterns[k]);
        if k < |init| { assert init[k] == patterns[k]; }
      }
      if exists k :: 0 <= k < |init| && Searches(caps, init[k], lowered)
                     && rule == SarcasmPrefix + PatternSource(init[k]) {
        var k :| 0 <= k < |init| && Searches(caps, init[k], lowered)
                 && rule == SarcasmPrefix + PatternSource(init[k]);
        assert patterns[k] == init[k];
      }
    }
  }

  /** The rule list is the slur rules (lexicon order) followed by the sarcasm
      rules (pattern order), every entry marked with its kind. */
  lemma MatchedRulesShape(text: string, info: LanguageInfo, caps: Capabilities)
    requires text != []
    ensures var rules := RuleOutcomeOf(text, info, caps).matchedRules;
            var n := |SlurRules(SelectLexicon(info), Lower(text))|;
            n <= |rules|
            && rules[..n] == SlurRules(SelectLexicon(info), Lower(text))
            && rules[n..] == SarcasmRules(caps, SarcasmPatterns, Lower(text))
            && (forall i :: 0 <= i < n ==> StartsWith(rules[i], SlurPrefix))
            && (forall i :: n <= i < |rules| ==> StartsWith(rules[i], SarcasmPrefix))
  {
    var lowered := Lower(text);
    var slurs := SlurRules(SelectLexicon(info), lowered);
    var sarcasm := SarcasmRules(caps, SarcasmPatterns, lowered);
    var rules := slurs + sarcasm;
    var lexicon := SelectLexicon(info);
    forall i | 0 <= i < |slurs| ensures StartsWith(rules[i], SlurPrefix) {
      assert rules[i] in slurs;
      SlurRulesMembers(lexicon, lowered, rules[i]);
      var k :| 0 <= k < |lexicon| && Contains(lowered, lexicon[k]) && rules[i] == SlurPrefix + lexicon[k];
      assert (SlurPrefix + lexicon[k])[..|SlurPrefix|] == SlurPrefix;
    }
    forall i | |slurs| <= i < |rules| ensures StartsWith(rules[i], SarcasmPrefix) {
      assert rules[i] == sarcasm[i - |slurs|];
      assert rules[i] in sarcasm;
      SarcasmRulesMembers(caps, SarcasmPatterns, lowered, rules[i]);
      var k :| 0 <= k < |SarcasmPatterns| && Searches(caps, SarcasmPatterns[k], lowered)
               && rules[i] == SarcasmPrefix + PatternSource(SarcasmPatterns[k]);
      assert (SarcasmPrefix + PatternSource(SarcasmPatterns[k]))[..|SarcasmPrefix|] == SarcasmPrefix;
    }
    assert rules[..|slurs|] == slurs;
    assert rules[|slurs|..] == sarcasm;
  }

  /** Different patterns have different sources. */
  lemma PatternSourceInjective(p: SarcasmPattern, q: SarcasmPattern)
    requires p != q
    ensures PatternSource(p) != PatternSource(q)
  {
    assert |PatternSource(WowOrReally)| == 16;
    assert |PatternSource(RepeatedBang)| == 7;
    assert |PatternSource(FaceEmojiTag)| == 10;
  }

  /** A pattern list without repeats reports each matching pattern once. */
  lemma {:induction false} SarcasmRulesDistinct(caps: Capabilities, patterns: seq<SarcasmPattern>, lowered: string)
    requires Distinct(patterns)
    ensures Distinct(SarcasmRules(caps, patterns, lowered))
  {
    if patterns != [] {
      var init := patterns[..|patterns| - 1];
      var p := patterns[|patterns| - 1];
      assert Distinct(init);
      SarcasmRulesDistinct(caps, init, lowered);
      if Searches(caps, p, lowered) {
        var rule := SarcasmPrefix + PatternSource(p);
        forall k | 0 <= k < |init| ensures rule != SarcasmPrefix + PatternSource(init[k]) {
          assert init[k] == patterns[k];
          PatternSourceInjective(p, init[k]);
          PrefixInjective(SarcasmPrefix, PatternSource(p), PatternSource(init[k]));
        }
        SarcasmRulesMembers(caps, init, lowered, rule);
        DistinctAppend(SarcasmRules(caps, init, lowered), rule);
      }
    }
  }

  /** Two lists without repeats, whose entries carry different prefixes, have
      no repeats together. */
  lemma DistinctByPrefix(a: seq<string>, b: seq<string>)
    requires Distinct(a) && Distinct(b)
    requires forall i :: 0 <= i < |a| ==> StartsWith(a[i], SlurPrefix)
    requires forall i :: 0 <= i < |b| ==> StartsWith(b[i], SarcasmPrefix)
    ensures Distinct(a + b)
  {
    var r := a + b;
    forall i, j | 0 <= i < j < |r| ensures r[i] != r[j] {
      if j < |a| {
        assert r[i] == a[i] && r[j] == a[j];
      } else if |a| <= i {
        assert r[i] == b[i - |a|] && r[j] == b[j - |a|];
      } else {
        assert r[i] == a[i] && r[j] == b[j - |a|];
        assert r[i][1] == SlurPrefix[1] && r[j][1] == SarcasmPrefix[1];
      }
    }
  }

  /** Every matched rule is reported once: no term twice, no pattern twice,
      and no slur rule equal to a sarcasm rule. */
  lemma MatchedRulesDistinct(text: string, info: LanguageInfo, caps: Capabilities)
    requires text != []
    ensures Distinct(RuleOutcomeOf(text, info, caps).matchedRules)
  {
    var lexicon := SelectLexicon(info);
    var lowered := Lower(text);
    SlurRulesDistinct(lexicon, lowered);
    SarcasmRulesDistinct(caps, SarcasmPatterns, lowered);
    MatchedRulesShape(text, info, caps);
    var slurs := SlurRules(lexicon, lowered);
    var sarcasm := SarcasmRules(caps, SarcasmPatterns, lowered);
    var rules := RuleOutcomeOf(text, info, caps).matchedRules;
    assert rules == slurs + sarcasm;
    forall i | 0 <= i < |slurs| ensures StartsWith(slurs[i], SlurPrefix) {
      assert slurs[i] == rules[i];
    }
    forall i | 0 <= i < |sarcasm| ensures StartsWith(sarcasm[i], SarcasmPrefix) {
      assert sarcasm[i] == rules[|slurs| + i];
    }
    DistinctByPrefix(slurs, sarcasm);
  }

  /** The boost is 0.2 per lexicon term that occurs in the lower-cased text
      plus 0.1 per sarcasm pattern that matches it, capped at 0.5. */
  lemma BoostFormula(text: string, info: LanguageInfo, caps: Capabilities)
    requires text != []
    ensures var lowered := Lower(text);
            var slurCount := |MatchingTerms(SelectLexicon(info), lowered)|;
            var sarcasmCount := |MatchingPatterns(caps, SarcasmPatterns, lowered)|;
            RuleOutcomeOf(text, info, caps).scoreBoost
              == Min(0.2 * slurCount as real + 0.1 * sarcasmCount as real, 0.5)
  {
    SlurRulesCount(SelectLexicon(info), Lower(text));
    SarcasmRulesCount(caps, SarcasmPatterns, Lower(text));
  }

  /** The distinct terms of `lexicon` that occur in `lowered`. */
  function FoundTerms(lexicon: seq<string>, lowered: string): set<string> {
    set t | t in lexicon && Contains(lowered, t)
  }

  lemma FoundTermsStep(lexicon: seq<string>, lowered: string)
    requires lexicon != [] && Distinct(lexicon)
    ensures var n := |lexicon| - 1;
      |FoundTerms(lexicon, lowered)|
      == |FoundTerms(lexicon[..n], lowered)| + (if Contains(lowered, lexicon[n]) then 1 else 0)
  {
    var n := |lexicon| - 1;
    var init := lexicon[..n];
    var term := lexicon[n];
    assert lexicon == init + [term];
    assert term !in init by {
      forall k | 0 <= k < n ensures init[k] != term { assert init[k] == lexicon[k]; }
    }
    assert FoundTerms(lexicon, lowered)
        == FoundTerms(init, lowered) + (if Contains(lowered, term) then {term} else {});
  }

  /** A lexicon without repeats: the positions found are as many as the
      distinct terms found. */
  lemma {:induction false} MatchingTermsAreTerms(lexicon: seq<string>, lowered: string)
    requires Distinct(lexicon)
    ensures |MatchingTerms(lexicon, lowered)| == |FoundTerms(lexicon, lowered)|
  {
    if lexicon == [] {
      assert MatchingTerms(lexicon, lowered) == {};
      assert FoundTerms(lexicon, lowered) == {};
    } else {
      var init := lexicon[..|lexicon| - 1];
      assert Distinct(init);
      MatchingTermsAreTerms(init, lowered);
      MatchingTermsStep(lexicon, lowered);
      FoundTermsStep(lexicon, lowered);
    }
  }

  // ---------------------------------------------------------------------------
  // Ensemble

  /** The slot `model_scores[name]` gets: the probability, or `"Error: <e>"`. */
  function ToModelScore(o: Outcome<real>): ModelScore {
    match o
    case Returned(p) => Probability(p)
    case Raised(message) => ErrorMarker("Error: " + message)
  }

  /** `model_scores`, in the insertion order of `MODEL_CONFIG`. */
  function EnsembleScores(caps: Capabilities, text: string): (entries: seq<ModelEntry>)
    ensures |entries| == |ModelNames|
  {
    seq(|ModelNames|, i requires 0 <= i < |ModelNames| =>
      ModelEntry(ModelNames[i], ToModelScore(caps.classify(text, ModelNames[i]))))
  }

  /** The model loop of `detect_hate_speech`: every model is run once, and a
      failing model fills only its own slot. */
  method RunEnsemble(text: string, caps: Capabilities) returns (entries: seq<ModelEntry>)
    ensures |entries| == |ModelNames|
    ensures forall i :: 0 <= i < |ModelNames| ==>
      entries[i] == ModelEntry(ModelNames[i], ToModelScore(caps.classify(text, ModelNames[i])))
    ensures entries == EnsembleScores(caps, text)
  {
    entries := [];
    for i := 0 to |ModelNames|
      invariant |entries| == i
      invariant forall k :: 0 <= k < i ==>
        entries[k] == ModelEntry(ModelNames[k], ToModelScore(caps.classify(text, ModelNames[k])))
    {
      var name := ModelNames[i];
      var score := ToModelScore(caps.classify(text, name));
      entries := entries + [ModelEntry(name, score)];
    }
  }

  /** `valid_scores`: the probabilities, with error markers left out. */
  function ValidScores(entries: seq<ModelEntry>): (scores: seq<real>)
    ensures |scores| <= |entries|
  {
    if entries == [] then []
    else
      var last := entries[|entries| - 1];
      ValidScores(entries[..|entries| - 1]) + (if last.score.Probability? then [last.score.p] else [])
  }

  /** A value is averaged exactly when some model reported it as its
      probability; error markers never are. */
  lemma {:induction false} ValidScoresMembers(entries: seq<ModelEntry>, x: real)
    ensures x in ValidScores(entries) <==> exists i :: 0 <= i < |entries| && entries[i].score == Probability(x)
  {
    if entries != [] {
      var init := entries[..|entries| - 1];
      ValidScoresMembers(init, x);
      if exists i :: 0 <= i < |entries| && entries[i].score == Probability(x) {
        var i :| 0 <= i < |entries| && entries[i].score == Probability(x);
        if i < |init| { assert init[i] == entries[i]; }
      }
      if exists i :: 0 <= i < |init| && init[i].score == Probability(x) {
        var i :| 0 <= i < |init| && init[i].score == Probability(x);
        assert entries[i] == init[i];
      }
    }
  }

  /** The models that reported `x` as their probability. */
  function Reporting(entries: seq<ModelEntry>, x: real): set<int> {
    set i | 0 <= i < |entries| && entries[i].score == Probability(x)
  }

  lemma ReportingStep(entries: seq<ModelEntry>, x: real)
    requires entries != []
    ensures var n := |entries| - 1;
      |Reporting(entries, x)| == |Reporting(entries[..n], x)| + (if entries[n].score == Probability(x) then 1 else 0)
  {
    var n := |entries| - 1;
    var init := entries[..n];
    assert forall i :: 0 <= i < n ==> init[i] == entries[i];
    assert Reporting(entries, x) == Reporting(init, x) + (if entries[n].score == Probability(x) then {n} else {});
    assert n !in Reporting(init, x);
  }

  /** Each probability is averaged as many times as models reported it. */
  lemma {:induction false} ValidScoresMultiplicity(entries: seq<ModelEntry>, x: real)
    ensures multiset(ValidScores(entries))[x] == |Reporting(entries, x)|
  {
    if entries == [] {
      assert Reporting(entries, x) == {};
    } else {
      var n := |entries| - 1;
      var init := entries[..n];
      ValidScoresMultiplicity(init, x);
      ReportingStep(entries, x);
      var tail: seq<real> := if entries[n].score.Probability? then [entries[n].score.p] else [];
      assert ValidScores(entries) == ValidScores(init) + tail;
      assert multiset(ValidScores(entries)) == multiset(ValidScores(init)) + multiset(tail);
    }
  }

  function ProbabilityCount(entries: seq<ModelEntry>): nat {
    if entries == [] then 0
    else ProbabilityCount(entries[..|entries| - 1]) + (if entries[|entries| - 1].score.Probability? then 1 else 0)
  }

  /** The average is taken over exactly the models that did not fail. */
  lemma {:induction false} ValidScoresCount(entries: seq<ModelEntry>)
    ensures |ValidScores(entries)| == ProbabilityCount(entries)
  {
    if entries != [] { ValidScoresCount(entries[..|entries| - 1]); }
  }

  function Sum(xs: seq<real>): real {
    if xs == [] then 0.0 else Sum(xs[..|xs| - 1]) + xs[|xs| - 1]
  }

  /** `np.mean(valid_scores) if valid_scores else 0.0`: the value whose
      `|xs|`-fold is the sum, and 0 for no scores. */
  function Mean(xs: seq<real>): (m: real)
    ensures xs == [] ==> m == 0.0
    ensures xs != [] ==> m * |xs| as real == Sum(xs)
  {
    if xs == [] then 0.0 else Sum(xs) / |xs| as real
  }

  lemma {:induction false} SumBounds(xs: seq<real>, lo: real, hi: real)
    requires forall i :: 0 <= i < |xs| ==> lo <= xs[i] <= hi
    ensures |xs| as real * lo <= Sum(xs) <= |xs| as real * hi
  {
    if xs != [] {
      SumBounds(xs[..|xs| - 1], lo, hi);
    }
  }

  /** The mean of scores in `[lo, hi]` is in `[lo, hi]`. */
  lemma MeanBounds(xs: seq<real>, lo: real, hi: real)
    requires xs != []
    requires forall i :: 0 <= i < |xs| ==> lo <= xs[i] <= hi
    ensures lo <= Mean(xs) <= hi
  {
    SumBounds(xs, lo, hi);
    var n := |xs| as real;
    assert n * lo <= Sum(xs) <= n * hi;
    assert Mean(xs) == Sum(xs) / n;
    assert lo == (n * lo) / n && hi == (n * hi) / n;
  }

  /** With no successful model the average is 0. */
  lemma MeanOfNoScores(entries: seq<ModelEntry>)
    requires forall i :: 0 <= i < |entries| ==> entries[i].score.ErrorMarker?
    ensures Mean(ValidScores(entries)) == 0.0
  {
    ValidScoresCount(entries);
    assert ProbabilityCount(entries) == 0 by {
      NoProbabilityCount(entries);
    }
  }

  lemma {:induction false} NoProbabilityCount(entries: seq<ModelEntry>)
    requires forall i :: 0 <= i < |entries| ==> entries[i].score.ErrorMarker?
    ensures ProbabilityCount(entries) == 0
  {
    if entries != [] {
      var init := entries[..|entries| - 1];
      assert forall i :: 0 <= i < |init| ==> init[i] == entries[i];
      NoProbabilityCount(init);
    }
  }

  // ---------------------------------------------------------------------------
  // Fusion

  /** The asymmetric fusion rule: above 0.5 the boost raises the average
      (capped at 1), at or below 0.5 it lowers it (floored at 0). */
  function Fuse(avg: real, boost: real): (r: real)
    ensures 0.0 <= avg <= 1.0 && 0.0 <= boost ==> 0.0 <= r <= 1.0
    ensures 0.5 < avg <= 1.0 && 0.0 <= boost ==> avg <= r
    ensures 0.0 <= avg <= 0.5 && 0.0 <= boost ==> r <= avg
  {
    if avg > 0.5 then Min(avg + boost, 1.0) else Max(avg - boost, 0.0)
  }

  /** Above 0.5 a larger boost never lowers the score; at or below 0.5 it
      never raises it. */
  lemma FuseMonotoneInBoost(avg: real, b1: real, b2: real)
    requires b1 <= b2
    ensures avg > 0.5 ==> Fuse(avg, b1) <= Fuse(avg, b2)
    ensures avg <= 0.5 ==> Fuse(avg, b1) >= Fuse(avg, b2)
  {
  }

  /** The classifier capabilities return probabilities. */
  ghost predicate ClassifierInRange(caps: Capabilities) {
    forall text, name :: caps.classify(text, name).Returned? ==>
      0.0 <= caps.classify(text, name).value <= 1.0
  }

  /** The fused score of `detect_hate_speech` for normalised text. */
  function FusedScore(normalized: string, info: LanguageInfo, caps: Capabilities): real {
    Fuse(Mean(ValidScores(EnsembleScores(caps, normalized))), RuleOutcomeOf(normalized, info, caps).scoreBoost)
  }

  /** With every model probability in `[0, 1]` the fused score is in `[0, 1]`. */
  lemma FusedScoreInRange(normalized: string, info: LanguageInfo, caps: Capabilities)
    requires ClassifierInRange(caps)
    ensures 0.0 <= FusedScore(normalized, info, caps) <= 1.0
  {
    var entries := EnsembleScores(caps, normalized);
    var valid := ValidScores(entries);
    if valid != [] {
      forall i | 0 <= i < |valid| ensures 0.0 <= valid[i] <= 1.0 {
        ValidScoresMembers(entries, valid[i]);
        var k :| 0 <= k < |entries| && entries[k].score == Probability(valid[i]);
        assert caps.classify(normalized, ModelNames[k]).Returned?;
      }
      MeanBounds(valid, 0.0, 1.0);
    }
  }

  /** `detect_hate_speech` */
  method DetectHateSpeech(text: string, caps: Capabilities) returns (result: Detection)
    ensures var info := DetectLanguage(text, caps);
            info.language == None ==> result == Detection(0.0, Details(None, []))
    ensures var info := DetectLanguage(text, caps);
            var normalized := PreprocessText(text, info, caps);
            info.language != None && (normalized == None || normalized.value == []) ==>
              result == Detection(0.0, Details(info.language, []))
    ensures var info := DetectLanguage(text, caps);
            var normalized := PreprocessText(text, info, caps);
            info.language != None && normalized != None && normalized.value != [] ==>
              result == Detection(FusedScore(normalized.value, info, caps),
                                  Details(info.language, RuleOutcomeOf(normalized.value, info, caps).matchedRules))
    ensures ClassifierInRange(caps) ==> 0.0 <= result.score <= 1.0
  {
    var info := DetectLanguage(text, caps);
    if info.language == None {
      return Detection(0.0, Details(None, []));
    }
    var normalized := PreprocessText(text, info, caps);
    if normalized == None || normalized.value == [] {
      return Detection(0.0, Details(info.language, []));
    }
    var entries := RunEnsemble(normalized.value, caps);
    var valid := ValidScores(entries);
    var avg := Mean(valid);
    var rules := RuleBasedCheck(normalized.value, info, caps);
    var score := Fuse(avg, rules.scoreBoost);
    assert ClassifierInRange(caps) ==> 0.0 <= score <= 1.0 by {
      if ClassifierInRange(caps) {
        FusedScoreInRange(normalized.value, info, caps);
      }
    }
    result := Detection(score, Details(info.language, rules.matchedRules));
  }
}
