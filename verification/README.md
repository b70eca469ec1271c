# Content-moderation pipeline: scoring, tagging and gateway decisions

This project is a Dafny model of the decision logic of a multilingual
content-moderation pipeline. It models three pieces:

- **Hate-speech scorer** (`hate_speech_service/hate_speech.py`):
  - the language-ambiguity rule applied to fastText's top prediction;
  - language-specific normalisation: whitespace collapse, conditional lower-casing, and punctuation stripping or the Indic pipeline;
  - the lexicon and sarcasm rule engine, which builds an ordered rule list and a boost capped at 0.5;
  - the ensemble average, which skips models that raised;
  - the asymmetric fusion rule: it adds the boost above 0.5 and subtracts it at or below;
  - the two short circuits that return a zero score.
- **Tag selector** (`tagging_service/tagging.py`):
  - the word-count step function that picks the candidate count, capped by `max_keywords`;
  - the clamped similarity times the extraction confidence;
  - the stable descending sort, done in place on an array;
  - the `seen`/`unique_tags` loop that deduplicates case-insensitively and filters buzzwords;
  - the fallback to the best candidate;
  - the `try`/`except` that turns any failure into no tags.
- **Gateway handler** (`api_gateway/app.py`, `process_text`):
  - request validation;
  - the chain translation → hate speech → tagging;
  - the log record and the threshold decision;
  - passing back service results that mention `"error"`;
  - turning every exception into the internal-error reply.

  The downstream services are one uninterpreted function `post` from a request to its reply. The handler's result is the reply it sends plus the requests it made, in order.

Machine-learning calls are uninterpreted functions bundled in a capabilities value: fastText, the five classifiers, KeyBERT, the sentence embeddings, `emoji.demojize`, and the Indic normaliser and tokenizer.

Python's exceptions are an `Outcome` datatype (`Returned(value)` or `Raised(message)`).

Modules, in dependency order:

- `wrappers.dfy`: `Option`, `Outcome`.
- `text.dfy`: the Python string built-ins the core uses, namely `isspace` / `\s`, `strip`, `re.sub(r'\s+', ' ', ...)`, `lower`, `in`, `replace`, `split` and `join`.
- `sequences.dfy`: subsequences and distinctness.
- `hate_speech.dfy`
- `tagging.dfy`
- `gateway.dfy`

The loops of the source are methods proved against specification functions:

- `RuleBasedCheck` and its two loops (`ScanLexicon`, `ScanSarcasm`);
- the model loop `RunEnsemble`;
- the in-place sort `SortInPlace`, an insertion sort on an `array`, and its step `InsertAt`;
- the dedup loop `DedupLoop`;
- `SelectTags` and `GenerateTags`.

The properties the source promises are proved as lemmas about those functions.

`"You are so useless!!"` in English gets a boost of 0.2, not 0.3: hate_speech_service/hate_speech.py:60 removes every `'!'` before the rule check runs on the normalised text (line 119), so only the slur matches. `HateSpeech.NoBangAfterPreprocess` proves that outside Hindi and Bengali the `[!]{2,}` pattern can never fire.

## Model

| member | source | states |
|---|---|---|
| Text.Strip | api_gateway/app.py:19 | `str.strip()`: empty exactly when the input is blank; no whitespace at either end; the result is a contiguous slice of the input with only whitespace around it |
| Text.StripKeepsNonSpace | api_gateway/app.py:19 | stripping removes no character other than whitespace |
| Text.Collapse | hate_speech_service/hate_speech.py:44 | `re.sub(r'\s+', ' ', text.strip())`: empty exactly for blank text; no whitespace at either end; no two adjacent whitespace characters, and every remaining whitespace is a single blank; the non-whitespace characters are kept, in order |
| Text.SquashSpacesSquashed | hate_speech_service/hate_speech.py:44 | after `\s+` → `' '` every whitespace run is one blank |
| Text.SquashSpacesKeepsNonSpace | hate_speech_service/hate_speech.py:44 | the `\s+` substitution keeps every non-whitespace character, in order |
| Text.LowerChar | hate_speech_service/hate_speech.py:47 | `lower()` on one character: never upper-case ASCII afterwards; `A`–`Z` move by 32; everything else is unchanged |
| Text.Lower | hate_speech_service/hate_speech.py:47 | `lower()` keeps the length and lowers each character in place |
| Text.ReplaceChar | hate_speech_service/hate_speech.py:28 | `text.replace("\n", " ")` keeps the length and changes exactly the newlines |
| Text.RemoveAll | hate_speech_service/hate_speech.py:30 | `.replace("__label__", "")` never lengthens the label |
| Text.RemoveAllAbsent | hate_speech_service/hate_speech.py:30 | a label without `"__label__"` is unchanged |
| Text.WordCount | tagging_service/tagging.py:32 | `len(text.split())`: zero exactly for blank text, and at most the length |
| Text.DropWord | tagging_service/tagging.py:32 | `split()` consumes one word: a run of non-whitespace characters, up to the next whitespace or the end |
| Text.WordStartsConcat | tagging_service/tagging.py:32 | two texts joined where one of them has whitespace at the seam have as many word starts as the two apart |
| Text.WordCountIsWordStarts | tagging_service/tagging.py:32 | `len(text.split())` is the number of positions holding a non-whitespace character at the start of the text or right after whitespace |
| Text.Join | hate_speech_service/hate_speech.py:53 | `' '.join(tokens)`: empty for no tokens, the token itself for one |
| HateSpeech.DetectLanguage | hate_speech_service/hate_speech.py:25-37 | blank text gives `(None, 0.0, True)`; otherwise the confidence is fastText's on the text with newlines replaced, the result is ambiguous exactly when the confidence is below 0.9, an ambiguous result is "mixed", and a confident one is the label with `__label__` removed |
| HateSpeech.ConfidentLabelIsLanguageCode | hate_speech_service/hate_speech.py:30-36 | a confident prediction `__label__<code>` yields exactly language `<code>`, not ambiguous |
| HateSpeech.StripPunctuation | hate_speech_service/hate_speech.py:60 | `re.sub(r'[^\w\s:]+', '', text)` leaves only word characters, whitespace and `:` |
| HateSpeech.StripPunctuationKeepsClean | hate_speech_service/hate_speech.py:60 | text made only of kept characters passes through unchanged |
| HateSpeech.StripPunctuationIdempotent | hate_speech_service/hate_speech.py:60 | stripping twice is stripping once |
| HateSpeech.StripPunctuationKeepsUpper | hate_speech_service/hate_speech.py:60 | the stripped text has an upper-case ASCII letter exactly when the input had one |
| HateSpeech.PreprocessText | hate_speech_service/hate_speech.py:39-61 | `None` exactly for blank text; outside Hindi and Bengali the result holds only word characters, whitespace and `:` |
| HateSpeech.PreprocessCasing | hate_speech_service/hate_speech.py:46-47 | outside Hindi and Bengali the result has an upper-case ASCII letter exactly when lower-casing was not applied (language neither "en" nor "mixed", not ambiguous) and the demojized text had one |
| HateSpeech.NoBangAfterPreprocess | hate_speech_service/hate_speech.py:59-60 | outside Hindi and Bengali the normalised, lower-cased text never contains `!!` |
| HateSpeech.SelectLexicon | hate_speech_service/hate_speech.py:68-77 | the lexicon in use is one of the four lexicons or empty, and lists no term twice |
| HateSpeech.SelectLexiconCases | hate_speech_service/hate_speech.py:77 | the language's own lexicon when it has one; "mixed" for ambiguous text without one; empty exactly when the text is confident and its language has no lexicon |
| HateSpeech.LexiconsDistinct | hate_speech_service/hate_speech.py:68-73 | no lexicon lists a term twice |
| HateSpeech.Searches | hate_speech_service/hate_speech.py:74-83 | `\b(wow\|really)\b` only matches text containing `wow` or `really`; `:\w+_face:` only text containing `:` and `_face:` |
| HateSpeech.SlurRules | hate_speech_service/hate_speech.py:78-80 | at most one slur rule per lexicon term |
| HateSpeech.SarcasmRules | hate_speech_service/hate_speech.py:82-84 | at most one sarcasm rule per pattern |
| HateSpeech.SlurRulesCount | hate_speech_service/hate_speech.py:78-80 | there are exactly as many slur rules as lexicon positions whose term occurs in the lowered text |
| HateSpeech.SarcasmRulesCount | hate_speech_service/hate_speech.py:82-84 | there are exactly as many sarcasm rules as pattern positions that match the lowered text |
| HateSpeech.MatchingTermsAreTerms | hate_speech_service/hate_speech.py:68-80 | for a lexicon without repeats, the matching positions are as many as the distinct terms that occur |
| HateSpeech.SlurRulesMembers | hate_speech_service/hate_speech.py:78-80 | a string is a slur rule exactly when it is `"Slur: "` followed by a lexicon term that occurs in the lowered text |
| HateSpeech.SlurRulesInLexiconOrder | hate_speech_service/hate_speech.py:78-80 | the slur rules come in lexicon order: a subsequence of the labels of all terms |
| HateSpeech.SlurRulesDistinct | hate_speech_service/hate_speech.py:78-80 | each matching term is reported once |
| HateSpeech.SarcasmRulesMembers | hate_speech_service/hate_speech.py:82-84 | a string is a sarcasm rule exactly when it is `"Sarcasm: "` followed by the source of a pattern that matches |
| HateSpeech.SarcasmRulesInPatternOrder | hate_speech_service/hate_speech.py:82-84 | the sarcasm rules come in pattern order: a subsequence of the labels of all patterns |
| HateSpeech.PatternSourceInjective | hate_speech_service/hate_speech.py:74 | the three pattern sources are different strings |
| HateSpeech.SarcasmRulesDistinct | hate_speech_service/hate_speech.py:82-84 | each matching pattern is reported once |
| HateSpeech.DistinctByPrefix | hate_speech_service/hate_speech.py:80-84 | slur rules and sarcasm rules can never coincide, so two repeat-free lists of them are repeat-free together |
| HateSpeech.MatchedRulesDistinct | hate_speech_service/hate_speech.py:75-85 | no rule appears twice in `matched_rules` |
| HateSpeech.RuleOutcomeOf | hate_speech_service/hate_speech.py:63-86 | the boost is in `[0, 0.5]`; there are at most lexicon size + 3 rules; empty text gives boost 0 and no rules |
| HateSpeech.RuleBasedCheck | hate_speech_service/hate_speech.py:63-86 | the method with the two loops computes exactly `RuleOutcomeOf` |
| HateSpeech.ScanLexicon | hate_speech_service/hate_speech.py:78-81 | the lexicon loop's rules are the slur rules and its boost is 0.2 per rule |
| HateSpeech.ScanSarcasm | hate_speech_service/hate_speech.py:82-85 | the pattern loop appends the sarcasm rules to the slur rules and adds 0.1 per pattern matched |
| HateSpeech.MatchedRulesShape | hate_speech_service/hate_speech.py:75-85 | the rules are the slur rules, then the sarcasm rules; each starts with its kind's prefix |
| HateSpeech.BoostFormula | hate_speech_service/hate_speech.py:76-86 | the boost is min(0.2 × the number of lexicon terms occurring in the lowered text + 0.1 × the number of patterns matching it, 0.5) |
| HateSpeech.EnsembleScores | hate_speech_service/hate_speech.py:108-114 | `model_scores` has one entry per model of `MODEL_CONFIG` |
| HateSpeech.RunEnsemble | hate_speech_service/hate_speech.py:108-114 | every model runs once, in `MODEL_CONFIG` order; a raising model fills only its own slot with `"Error: ..."` |
| HateSpeech.ValidScores | hate_speech_service/hate_speech.py:117 | there are never more valid scores than entries |
| HateSpeech.ValidScoresMembers | hate_speech_service/hate_speech.py:117 | a value is averaged exactly when some model returned it as its probability |
| HateSpeech.ValidScoresCount | hate_speech_service/hate_speech.py:117 | the number of averaged values is the number of models that did not raise |
| HateSpeech.ValidScoresMultiplicity | hate_speech_service/hate_speech.py:108-117 | each value is averaged exactly as many times as there are models that returned it |
| HateSpeech.Mean | hate_speech_service/hate_speech.py:118 | `np.mean(valid_scores) if valid_scores else 0.0`: 0.0 for no scores; otherwise the value whose count-fold is the sum |
| HateSpeech.MeanBounds | hate_speech_service/hate_speech.py:118 | the mean of values in `[lo, hi]` is in `[lo, hi]` |
| HateSpeech.MeanOfNoScores | hate_speech_service/hate_speech.py:118 | when every model raised the average is 0.0 |
| HateSpeech.Fuse | hate_speech_service/hate_speech.py:120 | for an average in `[0, 1]` and a non-negative boost, the result is in `[0, 1]`; above 0.5 it is at least the average; at or below 0.5 it is at most the average |
| HateSpeech.FuseMonotoneInBoost | hate_speech_service/hate_speech.py:120 | above 0.5 the result is non-decreasing in the boost; at or below 0.5 it is non-increasing |
| HateSpeech.FusedScoreInRange | hate_speech_service/hate_speech.py:117-120 | with every model probability in `[0, 1]` the final score is in `[0, 1]` |
| HateSpeech.DetectHateSpeech | hate_speech_service/hate_speech.py:99-126 | no language gives score 0 with no rules; an empty normalised text gives score 0 with the language and no rules; otherwise the result is the fused score with the rule list; with probabilities in `[0, 1]` the score is in `[0, 1]` |
| Tagging.DynamicTopN | tagging_service/tagging.py:35-47 | between 1 and 20, and 20 exactly when there are more than 50 words |
| Tagging.TopN | tagging_service/tagging.py:49 | the smaller of `dynamic_top_n` and `max_keywords`, which defaults to 5 |
| Tagging.Clamp | tagging_service/tagging.py:24 | the result is in `[0, 1]`; values in range are unchanged; values below go to 0 and values above go to 1 |
| Tagging.EvaluateTagQuality | tagging_service/tagging.py:20-24 | one clamped similarity per input similarity, in order |
| Tagging.Phrases | tagging_service/tagging.py:22 | the candidates' phrases, in order |
| Tagging.ScoreKeywords | tagging_service/tagging.py:54 | `zip` stops at the shorter list; each score is confidence × clamped similarity |
| Tagging.SortByScore | tagging_service/tagging.py:57 | sorting keeps the length; its order, permutation and stability are `SortByScoreCorrect` |
| Tagging.InsertByScoreMultiset | tagging_service/tagging.py:57 | one insertion step keeps every element |
| Tagging.InsertByScoreSorted | tagging_service/tagging.py:57 | one insertion step keeps the list sorted in descending order |
| Tagging.InsertByScoreStable | tagging_service/tagging.py:57 | one insertion step keeps ties in input order |
| Tagging.SortByScoreCorrect | tagging_service/tagging.py:57 | `sort(key=score, reverse=True)` gives non-increasing scores and a permutation of the input, and is stable: for every score the elements with that score keep their order |
| Tagging.SortedHeadIsMax | tagging_service/tagging.py:70 | the first element of the sorted list has the highest score |
| Tagging.InsertByScoreAt | tagging_service/tagging.py:57 | the insertion step places the new element right after the last element scoring at least as much |
| Tagging.InsertAt | tagging_service/tagging.py:57 | inserting `a[i]` into the sorted prefix in place yields the insertion step on that prefix and leaves the rest of the array unchanged |
| Tagging.SortInPlace | tagging_service/tagging.py:57 | the in-place sort turns the array into the stable descending sort of its old contents |
| Tagging.RankedPhrases | tagging_service/tagging.py:62 | the phrases of the sorted candidates, in order |
| Tagging.KeySetAppend | tagging_service/tagging.py:66 | `seen.add(kw_clean)` adds exactly the new cleaned form |
| Tagging.AdmissibleAppend | tagging_service/tagging.py:64 | one more candidate adds its cleaned form to the admissible ones exactly when that form is not a buzzword |
| Tagging.DedupCleans | tagging_service/tagging.py:60-66 | the kept tags' cleaned forms are exactly the cleaned forms of the candidates that are not buzzwords |
| Tagging.Dedup | tagging_service/tagging.py:60-66 | never more tags than candidates, and no kept tag's key is a buzzword |
| Tagging.DedupDistinctForms | tagging_service/tagging.py:61-66 | no two kept tags have the same cleaned form |
| Tagging.DedupKeepsFirstVariant | tagging_service/tagging.py:62-66 | every kept tag is the first (best-ranked) candidate with its cleaned form, in its original casing |
| Tagging.FirstOfItsFormExtends | tagging_service/tagging.py:62 | a phrase that is first of its cleaned form stays first when more candidates follow |
| Tagging.DedupIsSubsequence | tagging_service/tagging.py:60-66 | the kept tags are a subsequence of the ranked phrases, so never more than the candidates |
| Tagging.DedupEmpty | tagging_service/tagging.py:60-69 | filtering leaves nothing exactly when every candidate's cleaned form is a buzzword |
| Tagging.Finalize | tagging_service/tagging.py:60-72 | there is a tag exactly when there is a candidate, and never more tags than candidates |
| Tagging.FinalizeProperties | tagging_service/tagging.py:60-72 | the result is a subsequence of the ranked phrases with distinct cleaned forms; when filtering left nothing it is the best candidate alone, even if that is a buzzword; otherwise it has no buzzword, and it holds the first variant of each admissible cleaned form, each exactly once |
| Tagging.TagsOf | tagging_service/tagging.py:26-76 | a tag is only ever produced for non-blank text whose keyword extraction returned, and there are never more tags than extracted keywords |
| Tagging.GenerateTags | tagging_service/tagging.py:26-76 | the method computes `TagsOf`: `[]` for blank text and whenever a model call raises, otherwise the finalised tags of the sorted, scored candidates |
| Tagging.SelectTags | tagging_service/tagging.py:57-72 | sorting an array of the scored candidates, the dedup loop and the fallback compute the finalised tags of the stable descending sort |
| Tagging.DedupLoop | tagging_service/tagging.py:60-66 | the loop with its `seen` set computes the dedup of the array's contents |
| Tagging.TagsOfShape | tagging_service/tagging.py:26-76 | blank text and raising models give no tags; otherwise there are never more tags than extracted candidates, and there is a tag exactly when some candidate was scored |
| Gateway.In | api_gateway/app.py:17 | `key in data`: dict keys, str substrings or list elements; any other value raises |
| Gateway.Subscript | api_gateway/app.py:33-35 | `j[key]` returns exactly when `j` is a dict holding the key, and then returns its value |
| Gateway.Lookups | api_gateway/app.py:33-35 | consecutive subscripts return all values in order, or raise with the first failing key's exception after the earlier keys succeeded |
| Gateway.StripValue | api_gateway/app.py:19 | `.strip()` works exactly on a str, giving its stripped text |
| Gateway.AtLeast | api_gateway/app.py:79 | `score >= threshold` compares bools and numbers by value and raises for anything else |
| Gateway.Fetch | api_gateway/app.py:24-30 | post, `raise_for_status` and `.json()`: a missing reply raises its exception; a 4xx/5xx raises the `HTTPError` message; the call returns exactly for a reply outside 400..599 with a decodable body, and then returns that body |
| Gateway.CallService | api_gateway/app.py:24-32 | a service stage goes on exactly when the call returned and its result does not mention `"error"`; an exception gives the internal-error reply; a result mentioning `"error"` is passed back with status 500 |
| Gateway.ProcessText | api_gateway/app.py:13-98 | a reply without any service call is a 400 or a 500; a service is called only for a validated text, and the first call is the translation service with the stripped text |
| Gateway.Chain | api_gateway/app.py:23-28 | the chain's first call is the translation service with `{"text": text}` and timeout 10 |
| Gateway.Detect | api_gateway/app.py:37-42 | the detection stage keeps the earlier calls and then calls the hate speech service with the translated text |
| Gateway.Tag | api_gateway/app.py:50-55 | the tagging stage keeps the earlier calls and then calls the tagging service with the translated text |
| Gateway.Decide | api_gateway/app.py:72-86 | the decision keeps the earlier calls and then logs the record (timeout 5); at most one more call follows, the flagged log of the record with `flagged` set |
| Gateway.ValidatedText | api_gateway/app.py:19-21 | a validated text is never empty |
| Gateway.ValidationGate | api_gateway/app.py:16-21 | a request that does not validate gets a 400 or 500 reply and makes no call; one that does is the chain on its stripped text |
| Gateway.BadRequests | api_gateway/app.py:17-21 | a falsy body or one without `"text"` gets `Missing 'text' in JSON input` with status 400; blank text gets `Empty text input` with status 400; no 400 reply makes any call |
| Gateway.ChainShape | api_gateway/app.py:23-95 | the chain calls the services in order with their timeouts, starting with translation; it answers 200 or 500, and 200 only after the log call |
| Gateway.CallOrder | api_gateway/app.py:13-98 | every reply is 200, 400 or 500; the calls are a prefix of translation, hate speech, tagging, log, flagged log; a 200 reply comes after at least four calls |
| Gateway.ChainPayloads | api_gateway/app.py:33-54 | hate speech and tagging both receive `{"text": translated_text}` taken from the translation result, not the original text |
| Gateway.LogRecordKeys | api_gateway/app.py:63-95 | the log record has exactly the seven keys the handler writes, and the result rebuilt from it is the one the handler returns from the same values |
| Gateway.TagRecord | api_gateway/app.py:60-71 | the tagging stage logs the record built from its inputs and the tagging result's `"tags"` |
| Gateway.DetectRecord | api_gateway/app.py:47-71 | the detection stage passes the result's `"score"` and `"details"` into the log record |
| Gateway.ChainRecord | api_gateway/app.py:33-76 | the logged record holds the original text and the values of the three services' results under their seven keys |
| Gateway.DecideFlag | api_gateway/app.py:79-95 | after logging, a 200 reply makes one more call exactly when the score reaches the threshold; then the reply is the flag, otherwise it is the result |
| Gateway.TagDecides | api_gateway/app.py:62-95 | once the tagging stage has logged, the rest is the decision on exactly the seven-key logged record |
| Gateway.DetectDecides | api_gateway/app.py:62-95 | once the detection stage has logged, the rest is the decision on exactly the seven-key logged record |
| Gateway.ChainDecides | api_gateway/app.py:62-95 | once the chain has logged, the rest is the decision on exactly the seven-key logged record |
| Gateway.FlagDecision | api_gateway/app.py:79-86 | a 200 reply follows a logged record with exactly seven keys; it is `{flagged: True, reason: ...}` exactly when the score reaches the threshold (equality flags), and exactly when the flagged log was called |
| Gateway.FlaggedRecord | api_gateway/app.py:80-85 | the flagged log receives the logged record plus `"flagged": True`, with every other field unchanged |
| Gateway.UnflaggedReply | api_gateway/app.py:88-95 | a 200 reply that is not the flag has a score below the threshold and is the six-key result built from the logged values |
| Gateway.InternalErrorShape | api_gateway/app.py:97-98 | the `except` reply is status 500 with the single field `error`, which starts with `Internal server error: ` |
| Gateway.StoppedReply | api_gateway/app.py:29-32 | a stopped stage answers with the internal-error reply, or with the service's own result mentioning `"error"` and status 500 |
| Gateway.DecideErrors | api_gateway/app.py:72-86 | a 500 reply after logging is always the internal-error reply |
| Gateway.TagErrors | api_gateway/app.py:56-60 | a 500 reply from the tagging stage on is the internal-error reply, or the tagging result passed back as the last call |
| Gateway.DetectErrors | api_gateway/app.py:43-48 | a 500 reply from the detection stage on is the internal-error reply, or the last service's result passed back |
| Gateway.ServerErrors | api_gateway/app.py:29-98 | every 500 reply is the internal-error reply, or the verbatim result of the last service called because it mentions `"error"`; a translation result mentioning `"error"` ends the chain after the translation call |
| Gateway.ChainStops | api_gateway/app.py:24-35 | the translation stage stops with the internal-error reply when the call raises, when `"error" in` the result raises, or when a key is missing; a result mentioning `"error"` is the 500 reply; nothing else is called |
| Gateway.DetectStops | api_gateway/app.py:38-48 | the same four stops for the hate speech stage, after which nothing else is called |
| Gateway.TagStops | api_gateway/app.py:51-60 | the same four stops for the tagging stage, after which nothing else is called |
| Gateway.DecideFailures | api_gateway/app.py:72-98 | no reply to the log call, a score that cannot be compared with the threshold, or no reply to the flagged-log call each ends the handler with the internal-error reply carrying that exception |
| Gateway.DetectForwardsTagError | api_gateway/app.py:51-59 | after the hate speech stage, a tagging result mentioning `"error"` is the 500 reply and nothing else is called |
| Gateway.ForwardedErrors | api_gateway/app.py:38-59 | a hate speech or tagging result mentioning `"error"` ends the chain with that result as the 500 reply, and no later service is called |
| Gateway.LogFailures | api_gateway/app.py:72-98 | no reply to the log call ends the chain after that call with the internal-error reply; the same for the flagged-log call |
| Gateway.DecideIgnoresLogReplies | api_gateway/app.py:72-86 | the decision does not depend on what the log endpoints reply, only on whether they reply |
| Gateway.TagIgnoresLogReplies | api_gateway/app.py:50-86 | the same, from the tagging stage on |
| Gateway.DetectIgnoresLogReplies | api_gateway/app.py:37-86 | the same, from the detection stage on |
| Gateway.LogRepliesIgnored | api_gateway/app.py:72-86 | the log services' replies are never inspected: two services that differ only in what the log endpoints reply give the same reply and the same calls |

## Left out

- Machine-learning inference is not modelled. The `predict`, `classify_text`, KeyBERT and embedding/cosine calls are uninterpreted functions; model loading and device placement are left out (hate_speech_service/hate_speech.py:10-23, 88-97; tagging_service/tagging.py:1-24).
- `emoji.demojize`, `IndicNormalizerFactory` and `indic_tokenize.trivial_tokenize` are uninterpreted string functions.
- For characters outside ASCII, the Unicode word-character table behind `\w` is an uninterpreted predicate. ASCII `\w`, `\s`, `\b` and the three sarcasm patterns are modelled concretely.
- `Text.Lower` and `Text.LowerChar` lower ASCII letters only. Python's `str.lower` also lowers non-ASCII letters, and can change the length for a few characters. No Unicode case table is modelled.
- Scores are `real`. IEEE rounding of the 0.2/0.1 sums and of `np.mean`, and NaN from the classifiers or the cosine similarity, are not modelled. The threshold and the JSON floats are `real`.
- HTTP transport, timeouts, Flask request parsing and the `requests` library are not modelled. A service is a function from a call (URL, payload, timeout) to a reply or a transport failure. `request.get_json()` is its decoded body or the exception Flask raises.
- Python exception messages (`KeyError`, `TypeError`, `AttributeError`) are given in their CPython wording. The exact wording inside the `Internal server error: ` reply is not a property of the model.
- JSON objects are maps, so the key order of the log record and of the replies is not modelled. The lemmas state the key sets instead.
- The `print` in the tagging `except` branch and the logging service's file I/O are left out (tagging_service/tagging.py:75). The other services' Flask handlers, the translation service and the logging service are not part of this model: the gateway sees them only through `post`.
- Configuration loading is not modelled. The threshold is a parameter of the handler. `buzzwords` and `max_keywords` are optional configuration fields, with defaults `[]` and 5.
- Tagging.Dedup: the deduplication lemmas hold for any key function; `generate_tags` uses `lower().strip()`. The properties are stated for that generic key and then used with `Tagging.Clean`.
- HateSpeech.SlurRules and HateSpeech.SarcasmRules state only a length bound in their own contracts. Their exact counts, members and order are stated by `SlurRulesCount`, `SarcasmRulesCount`, `SlurRulesMembers`, `SarcasmRulesMembers`, `SlurRulesInLexiconOrder`, `SarcasmRulesInPatternOrder` and `MatchedRulesShape`.
- Tagging.SortByScore states only the length in its own contract, because the permutation fact in scope makes the in-place sort's proof too costly. `SortByScoreCorrect` states sortedness, permutation and stability.
- HateSpeech.Searches states only what each pattern needs in the text. The pattern semantics are its body.
- Gateway.Chain, Gateway.Detect, Gateway.Tag and Gateway.Decide state only their call prefixes in their own contracts. How each of them stops is stated by `ChainStops`, `DetectStops`, `TagStops` and `DecideFailures`, and at the level of the whole chain by `ServerErrors`, `ForwardedErrors`, `LogFailures` and `FlagDecision`.
