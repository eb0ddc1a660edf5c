/** `top_sentences` (questions.py:147-206): score every sentence by the
    IDFs of the query words it contains, then repeatedly move the best
    remaining sentence from the tracker to the ranking, breaking score ties
    by query term density. */
module SentenceRanker {
  import opened Corpus
  import opened Sums
  import opened Selection

  /** The score of a sentence: the sum of `idfs[w]` over the query words
      `w` that occur in it (presence; repetitions do not count). */
  ghost function SentenceScore(query: set<Token>, tokens: seq<Token>, idfs: map<Token, real>): real
  {
    QuerySum(Presence, query, tokens, idfs)
  }

  /** The tracker `sentence_value_tracker` once every sentence is scored. */
  ghost function SentenceScores(query: set<Token>, sentences: Collection, idfs: map<Token, real>): (s: seq<Scored>)
    ensures IdsOf(s) == Keys(sentences)
  {
    seq(|sentences|, j requires 0 <= j < |sentences| => Scored(sentences[j].id, SentenceScore(query, sentences[j].tokens, idfs)))
  }

  /** Query term density: the occurrences of query words in the sentence,
      repeats counted, over the length of the sentence. */
  ghost function Density(query: set<Token>, tokens: seq<Token>): real
    requires |tokens| > 0
  {
    QuerySum(Occurrences, query, tokens, map[]) / |tokens| as real
  }

  /** The density of every sentence, in iteration order. */
  ghost function Densities(query: set<Token>, sentences: Collection): seq<real>
    requires AllNonEmpty(sentences)
  {
    seq(|sentences|, j requires 0 <= j < |sentences| => Density(query, sentences[j].tokens))
  }

  /** Every query word that occurs in some sentence has an IDF entry, so
      the lookup `idfs[word]` of the scoring loop never fails. */
  ghost predicate PresentTermsKnown(query: set<Token>, sentences: Collection, idfs: map<Token, real>)
  {
    forall j, w :: 0 <= j < |sentences| && w in query && w in sentences[j].tokens ==> w in idfs
  }

  /** The inner loop over the query for one sentence; the IDF of a word is
      looked up only when the word occurs in the sentence. */
  method ScoreSentence(query: set<Token>, tokens: seq<Token>, idfs: map<Token, real>) returns (r: Result<real>)
    ensures r.Success? <==> forall w :: w in query && w in tokens ==> w in idfs
    ensures r.Failure? ==> r.error.UnknownTerm? && r.error.word in query && r.error.word in tokens && r.error.word !in idfs
    ensures r.Success? ==> r.value == SentenceScore(query, tokens, idfs)
  {
    var score := 0.0;
    var rest := query;
    while rest != {}
      invariant rest <= query
      invariant forall w :: w in query - rest && w in tokens ==> w in idfs
      invariant score + QuerySum(Presence, rest, tokens, idfs) == SentenceScore(query, tokens, idfs)
      decreases rest
    {
      var word :| word in rest;
      if word in tokens {
        if word !in idfs {
          return Failure(UnknownTerm(word));
        }
        var wordIdf := idfs[word];
        assert Term(Presence, word, tokens, idfs) == wordIdf;
        QuerySumRemove(Presence, rest, word, tokens, idfs);
        score := score + wordIdf;
      } else {
        assert Term(Presence, word, tokens, idfs) == 0.0;
        QuerySumRemove(Presence, rest, word, tokens, idfs);
      }
      rest := rest - {word};
    }
    return Success(score);
  }

  /** The scoring loop over all sentences, in iteration order. */
  method ScoreSentences(query: set<Token>, sentences: Collection, idfs: map<Token, real>) returns (r: Result<seq<Scored>>)
    ensures r.Success? <==> PresentTermsKnown(query, sentences, idfs)
    ensures r.Failure? ==> r.error.UnknownTerm? && r.error.word in query && r.error.word !in idfs
    ensures r.Failure? ==> exists j :: 0 <= j < |sentences| && r.error.word in sentences[j].tokens
    ensures r.Success? ==> r.value == SentenceScores(query, sentences, idfs)
  {
    var tracker: seq<Scored> := [];
    var i := 0;
    while i < |sentences|
      invariant 0 <= i <= |sentences|
      invariant |tracker| == i
      invariant forall j :: 0 <= j < i ==> tracker[j] == Scored(sentences[j].id, SentenceScore(query, sentences[j].tokens, idfs))
      invariant forall j, w :: 0 <= j < i && w in query && w in sentences[j].tokens ==> w in idfs
    {
      var score := ScoreSentence(query, sentences[i].tokens, idfs);
      if score.Failure? {
        return Failure(score.error);
      }
      tracker := tracker + [Scored(sentences[i].id, score.value)];
      i := i + 1;
    }
    return Success(tracker);
  }

  /** The density computation of the tie-break: `query_word_count` over
      `len(tokens)` (the source calls the length `non_query_word_count`). */
  method QueryDensity(query: set<Token>, tokens: seq<Token>) returns (d: real)
    requires |tokens| > 0
    ensures d == Density(query, tokens)
  {
    var length := |tokens|;
    var queryWordCount := 0;
    var rest := query;
    while rest != {}
      invariant rest <= query
      invariant queryWordCount as real + QuerySum(Occurrences, rest, tokens, map[]) == QuerySum(Occurrences, query, tokens, map[])
      decreases rest
    {
      var word :| word in rest;
      QuerySumRemove(Occurrences, rest, word, tokens, map[]);
      queryWordCount := queryWordCount + Count(word, tokens);
      rest := rest - {word};
    }
    d := queryWordCount as real / length as real;
  }

  /** Every tracker entry names a sentence. */
  ghost predicate Named(sentences: Collection, tracker: seq<Scored>)
  {
    forall t :: 0 <= t < |tracker| ==> tracker[t].id in Keys(sentences)
  }

  /** The density of the sentence that tracker entry `t` names. */
  ghost function TrackedDensity(query: set<Token>, sentences: Collection, tracker: seq<Scored>, t: nat): real
    requires AllNonEmpty(sentences) && Named(sentences, tracker) && t < |tracker|
  {
    Density(query, Lookup(sentences, tracker[t].id))
  }

  /** Entry `t` does not displace candidate `c`: it scores less, or as
      much with a lower density, or as much with the same density and comes
      later. */
  ghost predicate Outranked(query: set<Token>, sentences: Collection, tracker: seq<Scored>, t: nat, c: nat)
    requires AllNonEmpty(sentences) && Named(sentences, tracker) && t < |tracker| && c < |tracker|
  {
    || tracker[t].score < tracker[c].score
    || (&& tracker[t].score == tracker[c].score
        && (|| TrackedDensity(query, sentences, tracker, t) < TrackedDensity(query, sentences, tracker, c)
            || (TrackedDensity(query, sentences, tracker, t) == TrackedDensity(query, sentences, tracker, c) && c <= t)))
  }

  /** Entry `c` is what one scan of the tracker selects: a positive score
      that every other entry is outranked by. */
  ghost predicate DensestHighestFirst(query: set<Token>, sentences: Collection, tracker: seq<Scored>, c: nat)
    requires AllNonEmpty(sentences) && Named(sentences, tracker)
  {
    && c < |tracker|
    && tracker[c].score > 0.0
    && forall t :: 0 <= t < |tracker| ==> Outranked(query, sentences, tracker, t, c)
  }

  /** One scan for the running maximum with the density tie-break. An
      entry scoring as much as the candidate replaces it only with a
      strictly higher density; ties at `highest_score == 0` are skipped, so
      a candidate is always positive. */
  method ScanSentences(query: set<Token>, sentences: Collection, tracker: seq<Scored>) returns (best: Option<nat>)
    requires AllNonEmpty(sentences) && Named(sentences, tracker)
    ensures best.None? <==> forall t :: 0 <= t < |tracker| ==> tracker[t].score <= 0.0
    ensures best.Some? ==> DensestHighestFirst(query, sentences, tracker, best.value)
  {
    var highest := 0.0;
    best := None;
    var i := 0;
    while i < |tracker|
      invariant 0 <= i <= |tracker|
      invariant best.None? ==> highest == 0.0 && forall t :: 0 <= t < i ==> tracker[t].score <= 0.0
      invariant best.Some? ==> best.value < i && highest == tracker[best.value].score > 0.0
      invariant best.Some? ==> forall t :: 0 <= t < i ==> Outranked(query, sentences, tracker, t, best.value)
    {
      var score := tracker[i].score;
      if score > highest {
        forall t | 0 <= t < i
          ensures tracker[t].score < score
        {
          if best.Some? {
            assert Outranked(query, sentences, tracker, t, best.value);
          }
        }
        highest := score;
        best := Some(i);
      } else if score == highest {
        if highest == 0.0 {
          i := i + 1;
          continue;
        }
        var c := best.value;
        var oldDensity := QueryDensity(query, Lookup(sentences, tracker[c].id));
        var newDensity := QueryDensity(query, Lookup(sentences, tracker[i].id));
        assert oldDensity == TrackedDensity(query, sentences, tracker, c);
        assert newDensity == TrackedDensity(query, sentences, tracker, i);
        if newDensity > oldDensity {
          forall t | 0 <= t < i + 1
            ensures Outranked(query, sentences, tracker, t, i)
          {
            if t < i {
              assert Outranked(query, sentences, tracker, t, c);
            }
          }
          best := Some(i);
        } else {
          assert Outranked(query, sentences, tracker, i, c);
        }
      }
      i := i + 1;
    }
  }

  /** The `p`-th ranked identifier is an entry of `s` not ranked before
      it, with a positive score, and among the entries not ranked before it
      the one with the highest score, then the highest density `d`, then
      the first in iteration order. */
  ghost predicate PickedByScoreThenDensity(s: seq<Scored>, d: seq<real>, r: seq<Id>, p: nat)
    requires p < |r| && |d| == |s|
  {
    var k := IndexOf(IdsOf(s), r[p]);
    && k < |s|
    && r[p] !in r[..p]
    && s[k].score > 0.0
    && forall j :: 0 <= j < |s| && s[j].id !in r[..p] ==>
         || s[j].score < s[k].score
         || (s[j].score == s[k].score && (d[j] < d[k] || (d[j] == d[k] && k <= j)))
  }

  /** `r` is what the greedy selection of `top_sentences` produces from
      the tracker `s` with densities `d`, one pick after another. */
  ghost predicate RanksByScoreThenDensity(s: seq<Scored>, d: seq<real>, r: seq<Id>)
  {
    && |d| == |s|
    && forall p :: 0 <= p < |r| ==> PickedByScoreThenDensity(s, d, r, p)
  }

  /** A ranking holds distinct identifiers of the tracker, all with
      positive scores, in non-increasing score order; sentences of equal
      score come in non-increasing density order. */
  lemma RanksByScoreThenDensityOrdered(s: seq<Scored>, d: seq<real>, r: seq<Id>, p: nat, q: nat)
    requires RanksByScoreThenDensity(s, d, r) && p < q < |r|
    ensures r[p] in IdsOf(s) && r[q] in IdsOf(s)
    ensures r[p] != r[q]
    ensures ScoreOf(s, r[p]) >= ScoreOf(s, r[q]) > 0.0
    ensures ScoreOf(s, r[p]) == ScoreOf(s, r[q]) ==> d[IndexOf(IdsOf(s), r[p])] >= d[IndexOf(IdsOf(s), r[q])]
  {
    assert PickedByScoreThenDensity(s, d, r, p) && PickedByScoreThenDensity(s, d, r, q);
    var kq := IndexOf(IdsOf(s), r[q]);
    assert s[kq].id == r[q];
    assert r[q] !in r[..p] by {
      assert r[..p] == r[..q][..p];
    }
    assert r[p] in r[..q];
  }

  /** Two rankings of the same length that both follow the selection rule
      are equal: the output of `top_sentences` is determined by its inputs. */
  lemma RanksByScoreThenDensityUnique(s: seq<Scored>, d: seq<real>, r1: seq<Id>, r2: seq<Id>)
    requires RanksByScoreThenDensity(s, d, r1) && RanksByScoreThenDensity(s, d, r2) && |r1| == |r2|
    ensures r1 == r2
  {
    RanksByScoreThenDensityAgree(s, d, r1, r2, |r1|);
    assert r1 == r1[..|r1|] && r2 == r2[..|r2|];
  }

  lemma {:induction false} RanksByScoreThenDensityAgree(s: seq<Scored>, d: seq<real>, r1: seq<Id>, r2: seq<Id>, p: nat)
    requires RanksByScoreThenDensity(s, d, r1) && RanksByScoreThenDensity(s, d, r2) && |r1| == |r2| && p <= |r1|
    ensures r1[..p] == r2[..p]
  {
    if p > 0 {
      var q := p - 1;
      RanksByScoreThenDensityAgree(s, d, r1, r2, q);
      assert PickedByScoreThenDensity(s, d, r1, q) && PickedByScoreThenDensity(s, d, r2, q);
      var k1, k2 := IndexOf(IdsOf(s), r1[q]), IndexOf(IdsOf(s), r2[q]);
      assert s[k1].id == r1[q] && s[k2].id == r2[q];
      assert k1 == k2;
      assert r1[..p] == r1[..q] + [r1[q]] && r2[..p] == r2[..q] + [r2[q]];
    }
  }

  /** The density of the sentence named by a tracker entry is the density
      of the corresponding sentence. */
  lemma TrackedDensityAt(query: set<Token>, sentences: Collection, scored: seq<Scored>, tracker: seq<Scored>, t: nat, j: nat)
    requires AllNonEmpty(sentences) && Distinct(Keys(sentences)) && IdsOf(scored) == Keys(sentences)
    requires Named(sentences, tracker) && t < |tracker| && j < |scored| && tracker[t] == scored[j]
    ensures TrackedDensity(query, sentences, tracker, t) == Densities(query, sentences)[j]
  {
    assert tracker[t].id == sentences[j].id by {
      assert IdsOf(scored)[j] == Keys(sentences)[j];
    }
    LookupAt(sentences, j);
  }

  /** Every tracker entry derived from the score table names a sentence. */
  lemma TrackerNamed(sentences: Collection, scored: seq<Scored>, ranked: seq<Id>, tracker: seq<Scored>, pos: seq<nat>)
    requires IdsOf(scored) == Keys(sentences) && Tracks(scored, ranked, tracker, pos)
    ensures Named(sentences, tracker)
  {
    forall t | 0 <= t < |tracker|
      ensures tracker[t].id in Keys(sentences)
    {
      assert tracker[t] == scored[pos[t]];
      assert IdsOf(scored)[pos[t]] == tracker[t].id;
    }
  }

  /** Appending the scan's winner keeps the ranking faithful to the
      selection rule. */
  lemma PickSentence(query: set<Token>, sentences: Collection, scored: seq<Scored>, ranked: seq<Id>, tracker: seq<Scored>, pos: seq<nat>, c: nat)
    requires AllNonEmpty(sentences) && Distinct(Keys(sentences)) && IdsOf(scored) == Keys(sentences)
    requires Tracks(scored, ranked, tracker, pos) && Named(sentences, tracker)
    requires RanksByScoreThenDensity(scored, Densities(query, sentences), ranked)
    requires DensestHighestFirst(query, sentences, tracker, c)
    ensures RanksByScoreThenDensity(scored, Densities(query, sentences), ranked + [tracker[c].id])
  {
    var d := Densities(query, sentences);
    TracksStep(scored, ranked, tracker, pos, c);
    var r := ranked + [tracker[c].id];
    forall p | 0 <= p < |r|
      ensures PickedByScoreThenDensity(scored, d, r, p)
    {
      if p < |ranked| {
        assert r[..p] == ranked[..p] && r[p] == ranked[p];
        assert PickedByScoreThenDensity(scored, d, ranked, p);
      } else {
        assert r[..p] == ranked;
        var k := pos[c];
        TrackedDensityAt(query, sentences, scored, tracker, c, k);
        forall j | 0 <= j < |scored| && scored[j].id !in ranked
          ensures || scored[j].score < scored[k].score
                  || (scored[j].score == scored[k].score && (d[j] < d[k] || (d[j] == d[k] && k <= j)))
        {
          var t := Remaining(scored, ranked, tracker, pos, j);
          TrackedDensityAt(query, sentences, scored, tracker, t, j);
          assert Outranked(query, sentences, tracker, t, c);
          if c < t {
            assert pos[c] < pos[t];
          }
        }
      }
    }
  }

  /** The selection loop of `top_sentences`; as in `top_files`, a scan
      without a candidate ends in `del tracker[None]`, a KeyError. */
  method SelectSentences(query: set<Token>, sentences: Collection, scored: seq<Scored>, n: int) returns (r: Result<seq<Id>>)
    requires AllNonEmpty(sentences) && Distinct(Keys(sentences)) && IdsOf(scored) == Keys(sentences)
    ensures r.Failure? ==> r.error == NoCandidate
    ensures r.Failure? <==> CountPositive(scored) < Quota(n, |scored|)
    ensures r.Success? ==> |r.value| == Quota(n, |scored|) && RanksByScoreThenDensity(scored, Densities(query, sentences), r.value)
  {
    var tracker := scored;
    var ranked: seq<Id> := [];
    ghost var pos: seq<nat> := seq(|scored|, j => j);
    TracksInit(scored);
    while |tracker| != 0
      invariant Tracks(scored, ranked, tracker, pos)
      invariant RanksByScoreThenDensity(scored, Densities(query, sentences), ranked)
      invariant |ranked| <= Quota(n, |scored|)
      decreases |tracker|
    {
      if |ranked| == n {
        break;
      }
      TrackerNamed(sentences, scored, ranked, tracker, pos);
      var best := ScanSentences(query, sentences, tracker);
      if best.None? {
        NoPositiveLeft(tracker);
        return Failure(NoCandidate);
      }
      var c := best.value;
      PickSentence(query, sentences, scored, ranked, tracker, pos, c);
      TracksStep(scored, ranked, tracker, pos, c);
      ranked := ranked + [tracker[c].id];
      tracker := tracker[..c] + tracker[c + 1..];
      pos := pos[..c] + pos[c + 1..];
    }
    return Success(ranked);
  }

  /** The selection loop of `top_sentences` as its docstring describes it:
      only as many sentences as score above 0 when fewer than the quota do. */
  method SelectMatchingSentences(query: set<Token>, sentences: Collection, scored: seq<Scored>, n: int) returns (r: seq<Id>)
    requires AllNonEmpty(sentences) && Distinct(Keys(sentences)) && IdsOf(scored) == Keys(sentences)
    ensures |r| == MatchQuota(n, scored)
    ensures RanksByScoreThenDensity(scored, Densities(query, sentences), r)
  {
    var cap := MatchQuota(n, scored);
    var result := SelectSentences(query, sentences, scored, cap);
    r := result.value;
  }

  /** Where the loop as written succeeds it returns exactly the matching
      list; where it raises, the matching list falls short of the quota. */
  method CompareSentenceSelections(query: set<Token>, sentences: Collection, scored: seq<Scored>, n: int)
    returns (asWritten: Result<seq<Id>>, matching: seq<Id>)
    requires AllNonEmpty(sentences) && Distinct(Keys(sentences)) && IdsOf(scored) == Keys(sentences)
    ensures asWritten.Success? ==> asWritten.value == matching
    ensures asWritten.Failure? <==> |matching| < Quota(n, |scored|)
  {
    asWritten := SelectSentences(query, sentences, scored, n);
    matching := SelectMatchingSentences(query, sentences, scored, n);
    if asWritten.Success? {
      RanksByScoreThenDensityUnique(scored, Densities(query, sentences), asWritten.value, matching);
    }
  }

  /** top_sentences: the `n` best sentences by summed IDF, ties broken by
      query term density and then by iteration order. */
  method TopSentences(query: set<Token>, sentences: Collection, idfs: map<Token, real>, n: int) returns (r: Result<seq<Id>>)
    requires Distinct(Keys(sentences)) && AllNonEmpty(sentences)
    ensures (r.Failure? && r.error.UnknownTerm?) <==> !PresentTermsKnown(query, sentences, idfs)
    ensures r.Failure? && r.error.UnknownTerm? ==>
      && r.error.word in query && r.error.word !in idfs
      && exists j :: 0 <= j < |sentences| && r.error.word in sentences[j].tokens
    ensures PresentTermsKnown(query, sentences, idfs) ==>
      && (r.Failure? <==> CountPositive(SentenceScores(query, sentences, idfs)) < Quota(n, |sentences|))
      && (r.Success? ==> |r.value| == Quota(n, |sentences|)
                         && RanksByScoreThenDensity(SentenceScores(query, sentences, idfs), Densities(query, sentences), r.value))
  {
    var scores := ScoreSentences(query, sentences, idfs);
    if scores.Failure? {
      return Failure(scores.error);
    }
    r := SelectSentences(query, sentences, scores.value, n);
  }
}
