/** How `main` (questions.py:12-47) feeds the IDF calculator into the two
    rankers, and what that guarantees: the IDF table of the sentences makes
    every sentence lookup succeed, IDFs computed by `compute_idfs` make
    every score non-negative, and two worked examples. */
module Pipeline {
  import opened Corpus
  import opened Sums
  import opened Idf
  import opened Selection
  import opened DocumentRanker
  import opened SentenceRanker

  /** With the IDF table of the documents themselves, `top_files` fails on
      an unknown term exactly when some query word occurs in no document. */
  lemma FileLookupsFromOwnTable(query: set<Token>, files: Collection, ln: real -> real, idfs: map<Token, real>)
    requires IsIdfTable(idfs, files, ln)
    ensures query <= idfs.Keys <==> forall w :: w in query ==> exists j :: 0 <= j < |files| && w in files[j].tokens
  {
    forall w | w in query && (exists j :: 0 <= j < |files| && w in files[j].tokens)
      ensures w in idfs
    {
      var j :| 0 <= j < |files| && w in files[j].tokens;
      assert w in Vocabulary(files);
    }
    forall w | w in query && w in idfs
      ensures exists j :: 0 <= j < |files| && w in files[j].tokens
    {
      assert w in Vocabulary(files);
      var j, v :| 0 <= j < |files| && v in files[j].tokens && v == w;
    }
  }

  /** `main` computes the IDF table of the very sentences it ranks, so the
      lookups of `top_sentences` never fail. */
  lemma SentenceLookupsFromOwnTable(query: set<Token>, sentences: Collection, ln: real -> real, idfs: map<Token, real>)
    requires IsIdfTable(idfs, sentences, ln)
    ensures PresentTermsKnown(query, sentences, idfs)
  {
    forall j, w | 0 <= j < |sentences| && w in query && w in sentences[j].tokens
      ensures w in idfs
    {
      assert w in Vocabulary(sentences);
    }
  }

  /** Under a logarithm that is 0 at 1 and positive above 1, the scores
      built from an IDF table are never negative. */
  lemma ScoresNonNegative(c: Collection, ln: real -> real, idfs: map<Token, real>, query: set<Token>, tokens: seq<Token>)
    requires ln(1.0) == 0.0
    requires forall x: real :: x > 1.0 ==> ln(x) > 0.0
    requires IsIdfTable(idfs, c, ln)
    ensures FileScore(query, tokens, idfs) >= 0.0
    ensures SentenceScore(query, tokens, idfs) >= 0.0
  {
    forall w | w in idfs
      ensures idfs[w] >= 0.0
    {
      IdfRange(idfs, c, ln, w);
    }
    QuerySumNonNegative(TfIdf, query, tokens, idfs);
    QuerySumNonNegative(Presence, query, tokens, idfs);
  }

  /** A query of one word sums to that word's term. */
  lemma QuerySumSingle(k: Weighting, w: Token, tokens: seq<Token>, idfs: map<Token, real>)
    ensures QuerySum(k, {w}, tokens, idfs) == Term(k, w, tokens, idfs)
  {
    QuerySumRemove(k, {w}, w, tokens, idfs);
    assert {w} - {w} == {};
  }

  /** A query of two words sums to the two terms. */
  lemma QuerySumPair(k: Weighting, v: Token, w: Token, tokens: seq<Token>, idfs: map<Token, real>)
    requires v != w
    ensures QuerySum(k, {v, w}, tokens, idfs) == Term(k, v, tokens, idfs) + Term(k, w, tokens, idfs)
  {
    QuerySumRemove(k, {v, w}, v, tokens, idfs);
    assert {v, w} - {v} == {w};
    QuerySumSingle(k, w, tokens, idfs);
  }

  const CatFiles: Collection := [Member("a", ["cat", "sat"]), Member("b", ["cat", "cat", "mat"])]

  /** Documents "a" = [cat, sat] and "b" = [cat, cat, mat], query {cat}:
      "cat" occurs in both documents, its IDF is ln(2/2) = 0, and no
      document scores above 0. With n = 1 the quota is 1, so `top_files`
      ends in the KeyError of `del tracker[None]` where the list of matching
      files would be empty. */
  lemma WordInEveryDocumentExample(ln: real -> real, idfs: map<Token, real>)
    requires ln(1.0) == 0.0
    requires IsIdfTable(idfs, CatFiles, ln)
    ensures "cat" in idfs && idfs["cat"] == 0.0
    ensures CountPositive(FileScores({"cat"}, CatFiles, idfs)) == 0
    ensures Quota(1, |CatFiles|) == 1
    ensures MatchQuota(1, FileScores({"cat"}, CatFiles, idfs)) == 0
  {
    var files := CatFiles;
    assert "cat" == files[0].tokens[0];
    InVocabulary(files, 0, "cat");
    assert DocFreq("cat", files) == 2 by {
      assert files[..1][..0] == [];
      assert files[..|files| - 1] == files[..1];
    }
    assert idfs["cat"] == ln(2.0 / 2.0);
    var scores := FileScores({"cat"}, files, idfs);
    QuerySumSingle(TfIdf, "cat", files[0].tokens, idfs);
    QuerySumSingle(TfIdf, "cat", files[1].tokens, idfs);
    assert scores[0].score == 0.0 && scores[1].score == 0.0;
    assert scores[1..][1..] == [];
  }

  const DogSentences: Collection := [Member("s1", ["dog", "barks"])]

  /** A single sentence [dog, barks] and the query {cat}: the sentence
      scores 0 whatever the IDFs, and the quota for `n = 1` is 1, so
      `top_sentences` ends in the KeyError of `del tracker[None]` where a
      list of the matching sentences would be empty. */
  lemma NoMatchingSentenceExample(idfs: map<Token, real>)
    ensures CountPositive(SentenceScores({"cat"}, DogSentences, idfs)) == 0
    ensures Quota(1, |DogSentences|) == 1
    ensures MatchQuota(1, SentenceScores({"cat"}, DogSentences, idfs)) == 0
  {
    var tokens := DogSentences[0].tokens;
    QuerySumSingle(Presence, "cat", tokens, idfs);
    assert "cat" !in tokens;
    var scores := SentenceScores({"cat"}, DogSentences, idfs);
    assert scores[0].score == 0.0;
    assert scores[1..] == [];
  }

  const TieQuery: set<Token> := {"cat", "runs"}
  const TieSentences: Collection := [Member("s1", ["cat", "runs"]), Member("s2", ["cat", "cat", "slowly", "runs"])]
  const TieIdfs: map<Token, real> := map["cat" := 0.4, "runs" := 0.4]

  /** Both example sentences score 0.4 + 0.4. */
  lemma TieScores()
    ensures SentenceScores(TieQuery, TieSentences, TieIdfs) == [Scored("s1", 0.8), Scored("s2", 0.8)]
  {
    QuerySumPair(Presence, "cat", "runs", TieSentences[0].tokens, TieIdfs);
    QuerySumPair(Presence, "cat", "runs", TieSentences[1].tokens, TieIdfs);
  }

  /** The occurrences of the query words in the example sentences. */
  lemma TieCounts()
    ensures Count("cat", TieSentences[0].tokens) == 1 && Count("runs", TieSentences[0].tokens) == 1
    ensures Count("cat", TieSentences[1].tokens) == 2 && Count("runs", TieSentences[1].tokens) == 1
  {
    var t1 := TieSentences[1].tokens;
    assert t1[1..][1..][1..] == ["runs"];
  }

  /** The density of "s1" is 2/2. */
  lemma TieDensityFirst()
    ensures Density(TieQuery, TieSentences[0].tokens) == 1.0
  {
    QuerySumPair(Occurrences, "cat", "runs", TieSentences[0].tokens, map[]);
    TieCounts();
  }

  /** The density of "s2" is 3/4. */
  lemma TieDensitySecond()
    ensures Density(TieQuery, TieSentences[1].tokens) == 0.75
  {
    QuerySumPair(Occurrences, "cat", "runs", TieSentences[1].tokens, map[]);
    TieCounts();
  }

  /** Sentences "s1" = [cat, runs] and "s2" = [cat, cat, slowly, runs],
      query {cat, runs}, both IDFs 0.4: both sentences score 0.8, the
      densities are 2/2 and 3/4, and the only ranking of length 1 that the
      selection rule admits is ["s1"]. */
  lemma DensityTieExample(r: seq<Id>)
    requires AllNonEmpty(TieSentences)
    requires RanksByScoreThenDensity(SentenceScores(TieQuery, TieSentences, TieIdfs), Densities(TieQuery, TieSentences), r)
    requires |r| == 1
    ensures r == ["s1"]
  {
    TieScores();
    TieDensityFirst();
    TieDensitySecond();
    var s := SentenceScores(TieQuery, TieSentences, TieIdfs);
    var d := Densities(TieQuery, TieSentences);
    assert d[0] == 1.0 && d[1] == 0.75;
    assert PickedByScoreThenDensity(s, d, r, 0);
    var k := IndexOf(IdsOf(s), r[0]);
    assert r[..0] == [];
    assert k == 0;
    assert r[0] == IdsOf(s)[0] == "s1";
    assert r == [r[0]];
  }
}
