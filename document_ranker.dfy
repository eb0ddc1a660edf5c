/** `top_files` (questions.py:107-144): score every document by TF-IDF,
    then repeatedly move the best remaining document from the tracker to
    the ranking. */
module DocumentRanker {
  import opened Corpus
  import opened Sums
  import opened Selection

  /** The TF-IDF score of a document: the sum over the query words `w` of
      `idfs[w] * tokens.count(w)`. */
  ghost function FileScore(query: set<Token>, tokens: seq<Token>, idfs: map<Token, real>): real
  {
    QuerySum(TfIdf, query, tokens, idfs)
  }

  /** The tracker `doc_value_tracker` once every document is scored. */
  ghost function FileScores(query: set<Token>, files: Collection, idfs: map<Token, real>): (s: seq<Scored>)
    ensures IdsOf(s) == Keys(files)
  {
    seq(|files|, j requires 0 <= j < |files| => Scored(files[j].id, FileScore(query, files[j].tokens, idfs)))
  }

  /** The inner loop over the query for one document. A query word without
      an IDF entry raises KeyError (`idfs[word]`). */
  method ScoreFile(query: set<Token>, tokens: seq<Token>, idfs: map<Token, real>) returns (r: Result<real>)
    ensures r.Success? <==> query <= idfs.Keys
    ensures r.Failure? ==> r.error.UnknownTerm? && r.error.word in query && r.error.word !in idfs
    ensures r.Success? ==> r.value == FileScore(query, tokens, idfs)
  {
    var score := 0.0;
    var rest := query;
    while rest != {}
      invariant rest <= query
      invariant query - rest <= idfs.Keys
      invariant score + QuerySum(TfIdf, rest, tokens, idfs) == FileScore(query, tokens, idfs)
      decreases rest
    {
      var word :| word in rest;
      if word !in idfs {
        return Failure(UnknownTerm(word));
      }
      var occurrences := Count(word, tokens);
      var tfIdf := idfs[word] * occurrences as real;
      assert tfIdf == Term(TfIdf, word, tokens, idfs);
      QuerySumRemove(TfIdf, rest, word, tokens, idfs);
      score := score + tfIdf;
      rest := rest - {word};
    }
    return Success(score);
  }

  /** The scoring loop over all documents, in iteration order. */
  method ScoreFiles(query: set<Token>, files: Collection, idfs: map<Token, real>) returns (r: Result<seq<Scored>>)
    ensures r.Success? <==> |files| == 0 || query <= idfs.Keys
    ensures r.Failure? ==> r.error.UnknownTerm? && r.error.word in query && r.error.word !in idfs
    ensures r.Success? ==> r.value == FileScores(query, files, idfs)
  {
    var tracker: seq<Scored> := [];
    var i := 0;
    while i < |files|
      invariant 0 <= i <= |files|
      invariant |tracker| == i
      invariant forall j :: 0 <= j < i ==> tracker[j] == Scored(files[j].id, FileScore(query, files[j].tokens, idfs))
      invariant i > 0 ==> query <= idfs.Keys
    {
      var score := ScoreFile(query, files[i].tokens, idfs);
      if score.Failure? {
        return Failure(score.error);
      }
      tracker := tracker + [Scored(files[i].id, score.value)];
      i := i + 1;
    }
    return Success(tracker);
  }

  /** Entry `c` is what one scan of the tracker selects: its score is
      positive (it beat the initial `highest_score = 0`), no entry scores
      higher, and every earlier entry scores strictly lower (only a strict
      `>` replaces the candidate). */
  ghost predicate HighestFirst(tracker: seq<Scored>, c: nat)
  {
    && c < |tracker|
    && tracker[c].score > 0.0
    && (forall t :: 0 <= t < |tracker| ==> tracker[t].score <= tracker[c].score)
    && (forall t :: 0 <= t < c ==> tracker[t].score < tracker[c].score)
  }

  /** One scan for the running maximum; `None` is the candidate left at
      `None` when no score exceeds 0. */
  method ScanFiles(tracker: seq<Scored>) returns (best: Option<nat>)
    ensures best.None? <==> forall t :: 0 <= t < |tracker| ==> tracker[t].score <= 0.0
    ensures best.Some? ==> HighestFirst(tracker, best.value)
  {
    var highest := 0.0;
    best := None;
    var i := 0;
    while i < |tracker|
      invariant 0 <= i <= |tracker|
      invariant best.None? ==> highest == 0.0 && forall t :: 0 <= t < i ==> tracker[t].score <= 0.0
      invariant best.Some? ==> best.value < i && highest == tracker[best.value].score > 0.0
      invariant best.Some? ==> forall t :: 0 <= t < i ==> tracker[t].score <= highest
      invariant best.Some? ==> forall t :: 0 <= t < best.value ==> tracker[t].score < highest
    {
      if tracker[i].score > highest {
        highest := tracker[i].score;
        best := Some(i);
      }
      i := i + 1;
    }
  }

  /** The `p`-th ranked identifier is an entry of `s` not ranked before
      it, with a positive score, the highest score among the entries not
      ranked before it, and the first such entry in iteration order. */
  ghost predicate PickedByScore(s: seq<Scored>, r: seq<Id>, p: nat)
    requires p < |r|
  {
    var k := IndexOf(IdsOf(s), r[p]);
    && k < |s|
    && r[p] !in r[..p]
    && s[k].score > 0.0
    && forall j :: 0 <= j < |s| && s[j].id !in r[..p] ==>
         s[j].score < s[k].score || (s[j].score == s[k].score && k <= j)
  }

  /** `r` is what the greedy selection of `top_files` produces from the
      tracker `s`, one pick after another. */
  ghost predicate RanksByScore(s: seq<Scored>, r: seq<Id>)
  {
    forall p :: 0 <= p < |r| ==> PickedByScore(s, r, p)
  }

  /** A ranking holds distinct identifiers of the tracker, all with
      positive scores, in non-increasing score order. */
  lemma RanksByScoreNonIncreasing(s: seq<Scored>, r: seq<Id>, p: nat, q: nat)
    requires RanksByScore(s, r) && p < q < |r|
    ensures r[p] in IdsOf(s) && r[q] in IdsOf(s)
    ensures r[p] != r[q]
    ensures ScoreOf(s, r[p]) >= ScoreOf(s, r[q]) > 0.0
  {
    assert PickedByScore(s, r, p) && PickedByScore(s, r, q);
    var kq := IndexOf(IdsOf(s), r[q]);
    assert s[kq].id == r[q];
    assert r[q] !in r[..p] by {
      assert r[..p] == r[..q][..p];
    }
    assert r[p] in r[..q];
  }

  /** Two rankings of the same length that both follow the selection rule
      are equal: the rule leaves no choice, so the output of `top_files` is
      determined by its inputs. */
  lemma RanksByScoreUnique(s: seq<Scored>, r1: seq<Id>, r2: seq<Id>)
    requires RanksByScore(s, r1) && RanksByScore(s, r2) && |r1| == |r2|
    ensures r1 == r2
  {
    RanksByScoreAgree(s, r1, r2, |r1|);
    assert r1 == r1[..|r1|] && r2 == r2[..|r2|];
  }

  lemma {:induction false} RanksByScoreAgree(s: seq<Scored>, r1: seq<Id>, r2: seq<Id>, p: nat)
    requires RanksByScore(s, r1) && RanksByScore(s, r2) && |r1| == |r2| && p <= |r1|
    ensures r1[..p] == r2[..p]
  {
    if p > 0 {
      var q := p - 1;
      RanksByScoreAgree(s, r1, r2, q);
      assert PickedByScore(s, r1, q) && PickedByScore(s, r2, q);
      var k1, k2 := IndexOf(IdsOf(s), r1[q]), IndexOf(IdsOf(s), r2[q]);
      assert s[k1].id == r1[q] && s[k2].id == r2[q];
      assert k1 == k2;
      assert r1[..p] == r1[..q] + [r1[q]] && r2[..p] == r2[..q] + [r2[q]];
    }
  }

  /** Appending the scan's winner keeps the ranking faithful to the
      selection rule. */
  lemma PickFile(scored: seq<Scored>, ranked: seq<Id>, tracker: seq<Scored>, pos: seq<nat>, c: nat)
    requires Distinct(IdsOf(scored))
    requires Tracks(scored, ranked, tracker, pos)
    requires RanksByScore(scored, ranked)
    requires HighestFirst(tracker, c)
    ensures RanksByScore(scored, ranked + [tracker[c].id])
  {
    TracksStep(scored, ranked, tracker, pos, c);
    var r := ranked + [tracker[c].id];
    forall p | 0 <= p < |r|
      ensures PickedByScore(scored, r, p)
    {
      if p < |ranked| {
        assert r[..p] == ranked[..p] && r[p] == ranked[p];
        assert PickedByScore(scored, ranked, p);
      } else {
        assert r[..p] == ranked;
        var k := pos[c];
        forall j | 0 <= j < |scored| && scored[j].id !in ranked
          ensures scored[j].score < scored[k].score || (scored[j].score == scored[k].score && k <= j)
        {
          var t := Remaining(scored, ranked, tracker, pos, j);
          if t > c {
            assert pos[c] < pos[t];
          }
        }
      }
    }
  }

  /** The selection loop: while entries remain and fewer than `n` are
      ranked, scan for the best remaining entry, append it and delete it.
      When the scan finds no candidate the source appends `None` and
      `del tracker[None]` raises KeyError: the result is
      `Failure(NoCandidate)`. */
  method SelectFiles(scored: seq<Scored>, n: int) returns (r: Result<seq<Id>>)
    requires Distinct(IdsOf(scored))
    ensures r.Failure? ==> r.error == NoCandidate
    ensures r.Failure? <==> CountPositive(scored) < Quota(n, |scored|)
    ensures r.Success? ==> |r.value| == Quota(n, |scored|) && RanksByScore(scored, r.value)
  {
    var tracker := scored;
    var ranked: seq<Id> := [];
    ghost var pos: seq<nat> := seq(|scored|, j => j);
    TracksInit(scored);
    while |tracker| != 0
      invariant Tracks(scored, ranked, tracker, pos)
      invariant RanksByScore(scored, ranked)
      invariant |ranked| <= Quota(n, |scored|)
      decreases |tracker|
    {
      if |ranked| == n {
        break;
      }
      var best := ScanFiles(tracker);
      if best.None? {
        NoPositiveLeft(tracker);
        return Failure(NoCandidate);
      }
      var c := best.value;
      PickFile(scored, ranked, tracker, pos, c);
      TracksStep(scored, ranked, tracker, pos, c);
      ranked := ranked + [tracker[c].id];
      tracker := tracker[..c] + tracker[c + 1..];
      pos := pos[..c] + pos[c + 1..];
    }
    return Success(ranked);
  }

  /** The selection loop as its docstring describes it: the `n` top files
      that match the query, so only as many as score above 0 when fewer do.
      It runs the loop as written with `n` capped at that number, where the
      scan always finds a candidate. */
  method SelectMatchingFiles(scored: seq<Scored>, n: int) returns (r: seq<Id>)
    requires Distinct(IdsOf(scored))
    ensures |r| == MatchQuota(n, scored)
    ensures RanksByScore(scored, r)
  {
    var cap := MatchQuota(n, scored);
    var result := SelectFiles(scored, cap);
    r := result.value;
  }

  /** Where the loop as written succeeds it returns exactly the matching
      list; where it raises, the matching list falls short of the quota. */
  method CompareFileSelections(scored: seq<Scored>, n: int) returns (asWritten: Result<seq<Id>>, matching: seq<Id>)
    requires Distinct(IdsOf(scored))
    ensures asWritten.Success? ==> asWritten.value == matching
    ensures asWritten.Failure? <==> |matching| < Quota(n, |scored|)
  {
    asWritten := SelectFiles(scored, n);
    matching := SelectMatchingFiles(scored, n);
    if asWritten.Success? {
      RanksByScoreUnique(scored, asWritten.value, matching);
    }
  }

  /** top_files: the `n` best documents by TF-IDF, best first. */
  method TopFiles(query: set<Token>, files: Collection, idfs: map<Token, real>, n: int) returns (r: Result<seq<Id>>)
    requires Distinct(Keys(files))
    ensures (r.Failure? && r.error.UnknownTerm?) <==> |files| > 0 && !(query <= idfs.Keys)
    ensures r.Failure? && r.error.UnknownTerm? ==> r.error.word in query && r.error.word !in idfs
    ensures |files| == 0 || query <= idfs.Keys ==>
      && (r.Failure? <==> CountPositive(FileScores(query, files, idfs)) < Quota(n, |files|))
      && (r.Success? ==> |r.value| == Quota(n, |files|) && RanksByScore(FileScores(query, files, idfs), r.value))
  {
    var scores := ScoreFiles(query, files, idfs);
    if scores.Failure? {
      return Failure(scores.error);
    }
    r := SelectFiles(scores.value, n);
  }
}
