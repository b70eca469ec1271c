/** The tag selector: how many candidates to ask for, how each candidate is
    scored, the stable descending sort, case-insensitive deduplication with
    the buzzword filter, and the fallback that keeps the best candidate. */
module Tagging {
  import opened Wrappers
  import opened Text
  import opened Sequences

  /** A KeyBERT candidate: `(phrase, confidence)`. */
  datatype Keyword = Keyword(phrase: string, confidence: real)

  datatype ScoredKeyword = ScoredKeyword(phrase: string, score: real)

  /** The `tagging` section of the configuration; an absent key is `None`. */
  datatype TaggingConfig = TaggingConfig(buzzwords: Option<seq<string>>, maxKeywords: Option<int>)

  /** KeyBERT's `extract_keywords(text, top_n)` and the raw cosine similarities
      between the text's embedding and each phrase's, as uninterpreted
      functions; either may raise. */
  datatype TaggingModels = TaggingModels(
    extractKeywords: (string, int) -> Outcome<seq<Keyword>>,
    similarities: (string, seq<string>) -> Outcome<seq<real>>)

  const DefaultMaxKeywords: int := 5

  // ---------------------------------------------------------------------------
  // How many candidates

  /** `dynamic_top_n`: about one candidate per 2 to 6 words, at least one,
      and 20 for long texts. */
  function DynamicTopN(wordCount: nat): (n: int)
    ensures 1 <= n <= 20
    ensures n == 20 <==> wordCount > 50
  {
    if wordCount <= 10 then MaxInt(1, wordCount / 2)
    else if wordCount <= 20 then MaxInt(1, wordCount / 3)
    else if wordCount <= 30 then MaxInt(1, wordCount / 4)
    else if wordCount <= 40 then MaxInt(1, wordCount / 5)
    else if wordCount <= 50 then MaxInt(1, wordCount / 6)
    else 20
  }

  function MaxInt(a: int, b: int): int {
    if a >= b then a else b
  }

  /** `top_n = min(dynamic_top_n(word_count), config.get("max_keywords", 5))` */
  function TopN(text: string, config: TaggingConfig): (n: int)
    ensures n <= DynamicTopN(WordCount(text))
    ensures n <= config.maxKeywords.GetOr(DefaultMaxKeywords)
    ensures n == DynamicTopN(WordCount(text)) || n == config.maxKeywords.GetOr(DefaultMaxKeywords)
  {
    var dynamic := DynamicTopN(WordCount(text));
    var cap := config.maxKeywords.GetOr(DefaultMaxKeywords);
    if dynamic <= cap then dynamic else cap
  }

  // ---------------------------------------------------------------------------
  // Scoring

  /** `min(max(sim, 0.0), 1.0)` */
  function Clamp(sim: real): (r: real)
    ensures 0.0 <= r <= 1.0
    ensures 0.0 <= sim <= 1.0 ==> r == sim
    ensures sim < 0.0 ==> r == 0.0
    ensures sim > 1.0 ==> r == 1.0
  {
    if sim < 0.0 then 0.0 else if sim > 1.0 then 1.0 else sim
  }

  /** The list `evaluate_tag_quality` returns: every similarity clamped. */
  function EvaluateTagQuality(similarities: seq<real>): (r: seq<real>)
    ensures |r| == |similarities|
    ensures forall i :: 0 <= i < |r| ==> 0.0 <= r[i] <= 1.0 && r[i] == Clamp(similarities[i])
  {
    seq(|similarities|, i requires 0 <= i < |similarities| => Clamp(similarities[i]))
  }

  function Phrases(keywords: seq<Keyword>): (r: seq<string>)
    ensures |r| == |keywords|
    ensures forall i :: 0 <= i < |r| ==> r[i] == keywords[i].phrase
  {
    seq(|keywords|, i requires 0 <= i < |keywords| => keywords[i].phrase)
  }

  /** `[(kw[0], kw[1] * score) for kw, score in zip(keywords, scores)]`: `zip`
      stops at the shorter list. */
  function ScoreKeywords(keywords: seq<Keyword>, scores: seq<real>): (r: seq<ScoredKeyword>)
    ensures |r| == if |keywords| <= |scores| then |keywords| else |scores|
    ensures forall i :: 0 <= i < |r| ==>
      r[i] == ScoredKeyword(keywords[i].phrase, keywords[i].confidence * scores[i])
  {
    var n := if |keywords| <= |scores| then |keywords| else |scores|;
    seq(n, i requires 0 <= i < n => ScoredKeyword(keywords[i].phrase, keywords[i].confidence * scores[i]))
  }

  // ---------------------------------------------------------------------------
  // Stable descending sort

  /** Insert `x`, which comes after every element of `t` in the input, behind
      every element scoring at least as much: ties keep input order. */
  function InsertByScore(t: seq<ScoredKeyword>, x: ScoredKeyword): (r: seq<ScoredKeyword>)
    ensures |r| == |t| + 1
  {
    if t == [] || t[|t| - 1].score >= x.score then t + [x]
    else InsertByScore(t[..|t| - 1], x) + [t[|t| - 1]]
  }

  /** `scored_keywords.sort(key=lambda x: x[1], reverse=True)` as a function. */
  function SortByScore(s: seq<ScoredKeyword>): (r: seq<ScoredKeyword>)
    ensures |r| == |s|
  {
    if s == [] then [] else InsertByScore(SortByScore(s[..|s| - 1]), s[|s| - 1])
  }

  predicate SortedDesc(s: seq<ScoredKeyword>) {
    forall i, j :: 0 <= i < j < |s| ==> s[i].score >= s[j].score
  }

  /** The elements of `s` with score exactly `v`, in order. */
  function WithScore(s: seq<ScoredKeyword>, v: real): seq<ScoredKeyword> {
    if s == [] then []
    else WithScore(s[..|s| - 1], v) + (if s[|s| - 1].score == v then [s[|s| - 1]] else [])
  }

  lemma {:induction false} InsertByScoreMultiset(t: seq<ScoredKeyword>, x: ScoredKeyword)
    ensures multiset(InsertByScore(t, x)) == multiset(t) + multiset{x}
  {
    if !(t == [] || t[|t| - 1].score >= x.score) {
      InsertByScoreMultiset(t[..|t| - 1], x);
      assert t == t[..|t| - 1] + [t[|t| - 1]];
    }
  }

  lemma {:induction false} InsertByScoreSorted(t: seq<ScoredKeyword>, x: ScoredKeyword)
    requires SortedDesc(t)
    ensures SortedDesc(InsertByScore(t, x))
  {
    if !(t == [] || t[|t| - 1].score >= x.score) {
      var init, last := t[..|t| - 1], t[|t| - 1];
      InsertByScoreSorted(init, x);
      InsertByScoreMultiset(init, x);
      var u := InsertByScore(init, x);
      forall i | 0 <= i < |u| ensures u[i].score >= last.score {
        assert u[i] in multiset(u);
        assert u[i] in multiset(init) || u[i] == x;
        if u[i] != x {
          var k :| 0 <= k < |init| && init[k] == u[i];
          assert t[k] == init[k];
        }
      }
    }
  }

  lemma {:induction false} InsertByScoreStable(t: seq<ScoredKeyword>, x: ScoredKeyword, v: real)
    ensures WithScore(InsertByScore(t, x), v) == WithScore(t, v) + (if x.score == v then [x] else [])
  {
    if t == [] || t[|t| - 1].score >= x.score {
      assert (t + [x])[..|t|] == t;
    } else {
      var init, last := t[..|t| - 1], t[|t| - 1];
      InsertByScoreStable(init, x, v);
      var u := InsertByScore(init, x);
      assert (u + [last])[..|u|] == u;
      var fx := if x.score == v then [x] else [];
      var fl := if last.score == v then [last] else [];
      assert fx == [] || fl == [];
      calc {
        WithScore(InsertByScore(t, x), v);
        WithScore(u + [last], v);
        WithScore(u, v) + fl;
        WithScore(init, v) + fx + fl;
        WithScore(init, v) + fl + fx;
        WithScore(t, v) + fx;
      }
    }
  }

  /** The sort yields a non-increasing order that is a permutation of its
      input and keeps equal scores in input order (stability): for every
      score, the elements with that score appear as they did before. */
  lemma {:induction false} SortByScoreCorrect(s: seq<ScoredKeyword>)
    ensures SortedDesc(SortByScore(s))
    ensures multiset(SortByScore(s)) == multiset(s)
    ensures forall v :: WithScore(SortByScore(s), v) == WithScore(s, v)
  {
    if s != [] {
      var init, last := s[..|s| - 1], s[|s| - 1];
      SortByScoreCorrect(init);
      InsertByScoreSorted(SortByScore(init), last);
      InsertByScoreMultiset(SortByScore(init), last);
      assert s == init + [last];
      forall v ensures WithScore(SortByScore(s), v) == WithScore(s, v) {
        InsertByScoreStable(SortByScore(init), last, v);
      }
    }
  }

  /** The first element of a sorted list has the highest score. */
  lemma SortedHeadIsMax(s: seq<ScoredKeyword>)
    requires SortedDesc(s) && s != []
    ensures forall i :: 0 <= i < |s| ==> s[i].score <= s[0].score
  {
  }

  /** Inserting `x` puts it right after the last element scoring at least as
      much: behind position `j` every element scores less than `x`. */
  lemma {:induction false} InsertByScoreAt(sorted: seq<ScoredKeyword>, x: ScoredKeyword, j: int)
    requires 0 <= j <= |sorted|
    requires j == 0 || sorted[j - 1].score >= x.score
    requires forall k :: j <= k < |sorted| ==> sorted[k].score < x.score
    ensures InsertByScore(sorted, x) == sorted[..j] + [x] + sorted[j..]
    decreases |sorted|
  {
    if j == |sorted| {
      assert sorted[..j] == sorted && sorted[j..] == [];
    } else {
      var init, last := sorted[..|sorted| - 1], sorted[|sorted| - 1];
      InsertByScoreAt(init, x, j);
      assert init[..j] == sorted[..j];
      assert sorted[j..] == init[j..] + [last];
    }
  }

  lemma SortPrefixStep(s: seq<ScoredKeyword>, i: int)
    requires 0 <= i < |s|
    ensures SortByScore(s[..i + 1]) == InsertByScore(SortByScore(s[..i]), s[i])
  {
    assert s[..i + 1][..i] == s[..i];
  }

  /** Insert `a[i]` into the sorted prefix `a[..i]`. */
  method InsertAt(a: array<ScoredKeyword>, i: int)
    requires 0 <= i < a.Length
    modifies a
    ensures a[..i + 1] == InsertByScore(old(a[..i]), old(a[i]))
    ensures a[i + 1..] == old(a[i + 1..])
  {
    ghost var sorted := a[..i];
    ghost var rest := a[i + 1..];
    var x := a[i];
    var j := i;
    while j > 0 && a[j - 1].score < x.score
      invariant 0 <= j <= i
      invariant forall k :: 0 <= k < j ==> a[k] == sorted[k]
      invariant forall k :: j < k <= i ==> a[k] == sorted[k - 1]
      invariant forall k :: i < k < a.Length ==> a[k] == rest[k - i - 1]
      invariant forall k :: j <= k < i ==> sorted[k].score < x.score
      decreases j
    {
      a[j] := a[j - 1];
      j := j - 1;
    }
    a[j] := x;
    InsertByScoreAt(sorted, x, j);
    ghost var inserted := sorted[..j] + [x] + sorted[j..];
    forall k | 0 <= k <= i ensures a[k] == inserted[k] {
      if k < j {
        assert inserted[k] == sorted[k];
      } else if j < k {
        assert inserted[k] == sorted[k - 1];
      }
    }
    assert a[..i + 1] == inserted;
    forall k | 0 <= k < |rest| ensures a[i + 1..][k] == rest[k] {
      assert a[i + 1..][k] == a[i + 1 + k];
    }
    assert a[i + 1..] == rest;
  }

  /** The in-place sort, as insertion sort on the list's array. */
  method SortInPlace(a: array<ScoredKeyword>)
    modifies a
    ensures a[..] == SortByScore(old(a[..]))
  {
    ghost var original := a[..];
    for i := 0 to a.Length
      invariant a[..i] == SortByScore(original[..i])
      invariant a[i..] == original[i..]
    {
      assert a[i] == original[i];
      InsertAt(a, i);
      SortPrefixStep(original, i);
      assert a[i + 1..] == original[i + 1..];
    }
    assert original[..a.Length] == original;
  }

  // ---------------------------------------------------------------------------
  // Deduplication, buzzword filter and fallback

  /** `kw.lower().strip()` */
  function Clean(phrase: string): string {
    Strip(Lower(phrase))
  }

  /** The keys of the tags kept so far: the loop's `seen` set. */
  function KeySet(tags: seq<string>, key: string -> string): set<string> {
    set t | t in tags :: key(t)
  }

  /** The dedup loop: a phrase is kept when its key has not been kept before
      and is not a buzzword. `generate_tags` keys phrases by `Clean`; the
      definition and its lemmas hold for any key function. */
  function Dedup(ranked: seq<ScoredKeyword>, buzzwords: seq<string>, key: string -> string): (tags: seq<string>)
    ensures |tags| <= |ranked|
    ensures NoBuzzword(tags, buzzwords, key)
  {
    if ranked == [] then []
    else
      var kept := Dedup(ranked[..|ranked| - 1], buzzwords, key);
      var phrase := ranked[|ranked| - 1].phrase;
      assert forall i :: 0 <= i < |kept| ==> (kept + [phrase])[i] == kept[i];
      if key(phrase) !in KeySet(kept, key) && key(phrase) !in buzzwords then kept + [phrase] else kept
  }

  /** The cleaned forms of the candidates that are not buzzwords. */
  function AdmissibleKeys(ranked: seq<ScoredKeyword>, buzzwords: seq<string>, key: string -> string): set<string> {
    set i | 0 <= i < |ranked| && key(ranked[i].phrase) !in buzzwords :: key(ranked[i].phrase)
  }

  /** The phrase at `i` is the first candidate with its cleaned form. */
  predicate FirstOfItsForm(ranked: seq<ScoredKeyword>, i: int, key: string -> string)
    requires 0 <= i < |ranked|
  {
    forall j :: 0 <= j < i ==> key(ranked[j].phrase) != key(ranked[i].phrase)
  }

  function RankedPhrases(ranked: seq<ScoredKeyword>): (r: seq<string>)
    ensures |r| == |ranked|
    ensures forall i :: 0 <= i < |r| ==> r[i] == ranked[i].phrase
  {
    if ranked == [] then [] else RankedPhrases(ranked[..|ranked| - 1]) + [ranked[|ranked| - 1].phrase]
  }

  lemma KeySetAppend(tags: seq<string>, t: string, key: string -> string)
    ensures KeySet(tags + [t], key) == KeySet(tags, key) + {key(t)}
  {
    assert forall u :: u in tags + [t] <==> u in tags || u == t;
  }

  lemma AdmissibleAppend(init: seq<ScoredKeyword>, last: ScoredKeyword, buzzwords: seq<string>, key: string -> string)
    ensures AdmissibleKeys(init + [last], buzzwords, key) ==
            AdmissibleKeys(init, buzzwords, key) + (if key(last.phrase) !in buzzwords then {key(last.phrase)} else {})
  {
    var ranked := init + [last];
    var admissible := AdmissibleKeys(ranked, buzzwords, key);
    var before := AdmissibleKeys(init, buzzwords, key);
    forall c | c in admissible ensures c in before || (c == key(last.phrase) && c !in buzzwords) {
      var i :| 0 <= i < |ranked| && key(ranked[i].phrase) !in buzzwords && c == key(ranked[i].phrase);
      if i < |init| { assert ranked[i] == init[i]; }
    }
    forall c | c in before ensures c in admissible {
      var i :| 0 <= i < |init| && key(init[i].phrase) !in buzzwords && c == key(init[i].phrase);
      assert ranked[i] == init[i];
    }
    if key(last.phrase) !in buzzwords {
      assert ranked[|init|] == last;
    }
  }

  /** The kept tags cover exactly the cleaned forms that are not buzzwords. */
  lemma {:induction false} DedupCleans(ranked: seq<ScoredKeyword>, buzzwords: seq<string>, key: string -> string)
    ensures KeySet(Dedup(ranked, buzzwords, key), key) == AdmissibleKeys(ranked, buzzwords, key)
  {
    if ranked != [] {
      var init := ranked[..|ranked| - 1];
      var last := ranked[|ranked| - 1];
      assert ranked == init + [last];
      DedupCleans(init, buzzwords, key);
      KeySetAppend(Dedup(init, buzzwords, key), last.phrase, key);
      AdmissibleAppend(init, last, buzzwords, key);
    }
  }

  predicate NoBuzzword(tags: seq<string>, buzzwords: seq<string>, key: string -> string) {
    forall i :: 0 <= i < |tags| ==> key(tags[i]) !in buzzwords
  }

  predicate DistinctKeys(tags: seq<string>, key: string -> string) {
    forall i, j :: 0 <= i < j < |tags| ==> key(tags[i]) != key(tags[j])
  }

  /** No two kept tags have the same key. */
  lemma {:induction false} DedupDistinctForms(ranked: seq<ScoredKeyword>, buzzwords: seq<string>, key: string -> string)
    ensures DistinctKeys(Dedup(ranked, buzzwords, key), key)
  {
    if ranked != [] {
      var init := ranked[..|ranked| - 1];
      var phrase := ranked[|ranked| - 1].phrase;
      var kept := Dedup(init, buzzwords, key);
      DedupDistinctForms(init, buzzwords, key);
      if key(phrase) !in KeySet(kept, key) && key(phrase) !in buzzwords {
        var r := kept + [phrase];
        forall i | 0 <= i < |kept| ensures key(r[i]) != key(phrase) {
          assert r[i] == kept[i];
          assert key(kept[i]) in KeySet(kept, key);
        }
        forall i, j | 0 <= i < j < |kept| ensures key(r[i]) != key(r[j]) {
          assert r[i] == kept[i] && r[j] == kept[j];
        }
        assert r[|kept|] == phrase;
      }
    }
  }

  /** `t` is the phrase of a candidate that no better-ranked candidate shares
      a cleaned form with. */
  predicate IsFirstVariant(ranked: seq<ScoredKeyword>, t: string, key: string -> string) {
    exists i :: 0 <= i < |ranked| && ranked[i].phrase == t && FirstOfItsForm(ranked, i, key)
  }

  predicate AllFirstVariants(tags: seq<string>, ranked: seq<ScoredKeyword>, key: string -> string) {
    forall k :: 0 <= k < |tags| ==> IsFirstVariant(ranked, tags[k], key)
  }

  /** Every kept tag is, with its original casing, the first (hence the best
      ranked) candidate with its cleaned form. */
  lemma {:induction false} DedupKeepsFirstVariant(ranked: seq<ScoredKeyword>, buzzwords: seq<string>, key: string -> string)
    ensures AllFirstVariants(Dedup(ranked, buzzwords, key), ranked, key)
  {
    if ranked != [] {
      var init := ranked[..|ranked| - 1];
      var n := |ranked| - 1;
      var phrase := ranked[n].phrase;
      var kept := Dedup(init, buzzwords, key);
      DedupKeepsFirstVariant(init, buzzwords, key);
      forall k | 0 <= k < |kept| ensures IsFirstVariant(ranked, kept[k], key) {
        assert IsFirstVariant(init, kept[k], key);
        var i :| 0 <= i < |init| && init[i].phrase == kept[k] && FirstOfItsForm(init, i, key);
        FirstOfItsFormExtends(init, ranked, i, key);
      }
      if key(phrase) !in KeySet(kept, key) && key(phrase) !in buzzwords {
        DedupCleans(init, buzzwords, key);
        forall j | 0 <= j < n ensures key(ranked[j].phrase) != key(phrase) {
          assert ranked[j] == init[j];
          if key(init[j].phrase) !in buzzwords {
            assert key(init[j].phrase) in AdmissibleKeys(init, buzzwords, key);
          }
        }
        assert FirstOfItsForm(ranked, n, key);
        var r := kept + [phrase];
        assert r[|kept|] == phrase;
        assert IsFirstVariant(ranked, phrase, key);
        forall k | 0 <= k < |r| ensures IsFirstVariant(ranked, r[k], key) {
          if k < |kept| { assert r[k] == kept[k]; }
        }
      }
    }
  }

  lemma FirstOfItsFormExtends(init: seq<ScoredKeyword>, ranked: seq<ScoredKeyword>, i: int, key: string -> string)
    requires init <= ranked
    requires 0 <= i < |init| && FirstOfItsForm(init, i, key)
    ensures FirstOfItsForm(ranked, i, key)
  {
    forall j | 0 <= j < i ensures key(ranked[j].phrase) != key(ranked[i].phrase) {
      assert ranked[j] == init[j];
    }
  }

  /** The kept tags are a subsequence of the ranked phrases. */
  lemma {:induction false} DedupIsSubsequence(ranked: seq<ScoredKeyword>, buzzwords: seq<string>, key: string -> string)
    ensures IsSubsequence(Dedup(ranked, buzzwords, key), RankedPhrases(ranked))
    ensures |Dedup(ranked, buzzwords, key)| <= |ranked|
  {
    if ranked != [] {
      var init := ranked[..|ranked| - 1];
      var phrase := ranked[|ranked| - 1].phrase;
      DedupIsSubsequence(init, buzzwords, key);
      if key(phrase) !in KeySet(Dedup(init, buzzwords, key), key) && key(phrase) !in buzzwords {
        SubsequenceTake(Dedup(init, buzzwords, key), RankedPhrases(init), phrase);
      } else {
        SubsequenceSkip(Dedup(init, buzzwords, key), RankedPhrases(init), phrase);
      }
    }
    SubsequenceLength(Dedup(ranked, buzzwords, key), RankedPhrases(ranked));
  }

  /** Filtering leaves something exactly when some candidate is not a buzzword. */
  lemma DedupEmpty(ranked: seq<ScoredKeyword>, buzzwords: seq<string>, key: string -> string)
    ensures Dedup(ranked, buzzwords, key) == [] <==>
            forall i :: 0 <= i < |ranked| ==> key(ranked[i].phrase) in buzzwords
  {
    DedupCleans(ranked, buzzwords, key);
    var kept := Dedup(ranked, buzzwords, key);
    forall i | 0 <= i < |ranked| && key(ranked[i].phrase) !in buzzwords
      ensures key(ranked[i].phrase) in KeySet(kept, key)
    {
      assert key(ranked[i].phrase) in AdmissibleKeys(ranked, buzzwords, key);
    }
    if kept != [] {
      assert key(kept[0]) in KeySet(kept, key);
      var i :| 0 <= i < |ranked| && key(ranked[i].phrase) !in buzzwords && key(ranked[i].phrase) == key(kept[0]);
    }
  }

  /** `unique_tags` after the fallback: the best candidate is forced in when
      filtering removed everything. */
  function Finalize(ranked: seq<ScoredKeyword>, buzzwords: seq<string>): (tags: seq<string>)
    ensures tags != [] <==> ranked != []
    ensures |tags| <= |ranked|
  {
    var kept := Dedup(ranked, buzzwords, Clean);
    if kept == [] && ranked != [] then [ranked[0].phrase] else kept
  }

  /** The final tags, in rank order: when some candidate survives the filter
      they are exactly the first variants of the distinct admissible cleaned
      forms; otherwise the single best candidate. */
  lemma FinalizeProperties(ranked: seq<ScoredKeyword>, buzzwords: seq<string>)
    ensures IsSubsequence(Finalize(ranked, buzzwords), RankedPhrases(ranked))
    ensures DistinctKeys(Finalize(ranked, buzzwords), Clean)
    ensures Dedup(ranked, buzzwords, Clean) == [] && ranked != [] ==> Finalize(ranked, buzzwords) == [ranked[0].phrase]
    ensures Dedup(ranked, buzzwords, Clean) != [] ==>
      NoBuzzword(Finalize(ranked, buzzwords), buzzwords, Clean)
      && AllFirstVariants(Finalize(ranked, buzzwords), ranked, Clean)
      && KeySet(Finalize(ranked, buzzwords), Clean) == AdmissibleKeys(ranked, buzzwords, Clean)
  {
    DedupIsSubsequence(ranked, buzzwords, Clean);
    DedupDistinctForms(ranked, buzzwords, Clean);
    DedupKeepsFirstVariant(ranked, buzzwords, Clean);
    DedupCleans(ranked, buzzwords, Clean);
    if Dedup(ranked, buzzwords, Clean) == [] && ranked != [] {
      SingletonSubsequence(RankedPhrases(ranked), 0);
    }
  }

  // ---------------------------------------------------------------------------
  // generate_tags

  /** What `generate_tags` returns: nothing for blank text or when a model
      call raises; otherwise the deduplicated, filtered tags of the sorted
      scored candidates, with the fallback. */
  function TagsOf(text: string, config: TaggingConfig, models: TaggingModels): (tags: seq<string>)
    ensures tags != [] ==>
      !IsBlank(text) && models.extractKeywords(text, TopN(text, config)).Returned?
      && |tags| <= |models.extractKeywords(text, TopN(text, config)).value|
  {
    if IsBlank(text) then []
    else
      match models.extractKeywords(text, TopN(text, config))
      case Raised(_) => []
      case Returned(keywords) =>
        match models.similarities(text, Phrases(keywords))
        case Raised(_) => []
        case Returned(similarities) =>
          Finalize(SortByScore(ScoreKeywords(keywords, EvaluateTagQuality(similarities))),
                   config.buzzwords.GetOr([]))
  }

  /** `generate_tags` */
  method GenerateTags(text: string, config: TaggingConfig, models: TaggingModels) returns (tags: seq<string>)
    ensures tags == TagsOf(text, config, models)
  {
    if IsBlank(text) {
      return [];
    }
    var buzzwords := config.buzzwords.GetOr([]);
    var topN := TopN(text, config);
    var extracted := models.extractKeywords(text, topN);
    if extracted.Raised? {
      return [];
    }
    var keywords := extracted.value;
    var similarities := models.similarities(text, Phrases(keywords));
    if similarities.Raised? {
      return [];
    }
    var scored := ScoreKeywords(keywords, EvaluateTagQuality(similarities.value));
    tags := SelectTags(scored, buzzwords);
  }

  /** Sort the scored candidates, deduplicate and filter them, and fall back
      to the best candidate when nothing is left. */
  method SelectTags(scored: seq<ScoredKeyword>, buzzwords: seq<string>) returns (tags: seq<string>)
    ensures tags == Finalize(SortByScore(scored), buzzwords)
  {
    var a := new ScoredKeyword[|scored|](i requires 0 <= i < |scored| => scored[i]);
    assert a[..] == scored;
    SortInPlace(a);
    tags := DedupLoop(a, buzzwords);
    if tags == [] && a.Length > 0 {
      tags := tags + [a[0].phrase];
    }
  }

  /** The `seen`/`unique_tags` loop of `generate_tags` over the sorted list. */
  method DedupLoop(a: array<ScoredKeyword>, buzzwords: seq<string>) returns (tags: seq<string>)
    ensures tags == Dedup(a[..], buzzwords, Clean)
  {
    tags := [];
    var seen: set<string> := {};
    for i := 0 to a.Length
      invariant tags == Dedup(a[..i], buzzwords, Clean)
      invariant seen == KeySet(tags, Clean)
    {
      assert a[..i + 1][..i] == a[..i];
      var phrase := a[i].phrase;
      var clean := Clean(phrase);
      if clean !in seen && clean !in buzzwords {
        KeySetAppend(tags, phrase, Clean);
        tags := tags + [phrase];
        seen := seen + {clean};
      }
    }
    assert a[..a.Length] == a[..];
  }

  /** Blank text and failing models give no tags; otherwise there is a tag
      exactly when some candidate was scored, and never more tags than
      candidates. */
  lemma TagsOfShape(text: string, config: TaggingConfig, models: TaggingModels)
    ensures IsBlank(text) ==> TagsOf(text, config, models) == []
    ensures !IsBlank(text) && models.extractKeywords(text, TopN(text, config)).Raised? ==> TagsOf(text, config, models) == []
    ensures !IsBlank(text) && models.extractKeywords(text, TopN(text, config)).Returned? ==>
      var keywords := models.extractKeywords(text, TopN(text, config)).value;
      |TagsOf(text, config, models)| <= |keywords|
      && (models.similarities(text, Phrases(keywords)).Raised? ==> TagsOf(text, config, models) == [])
      && (models.similarities(text, Phrases(keywords)).Returned? ==>
            var scored := ScoreKeywords(keywords, EvaluateTagQuality(models.similarities(text, Phrases(keywords)).value));
            (TagsOf(text, config, models) != [] <==> scored != []))
  {
    if !IsBlank(text) && models.extractKeywords(text, TopN(text, config)).Returned? {
      var keywords := models.extractKeywords(text, TopN(text, config)).value;
      if models.similarities(text, Phrases(keywords)).Returned? {
        var scored := ScoreKeywords(keywords, EvaluateTagQuality(models.similarities(text, Phrases(keywords)).value));
        assert |SortByScore(scored)| == |scored|;
      }
    }
  }
}
