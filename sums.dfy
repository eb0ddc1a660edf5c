/** Sums over the words of a query. The source iterates a Python set,
    whose order is unspecified; `QuerySum` adds the terms in an arbitrary
    order and `QuerySumRemove` shows that any word may be taken first, so
    the sum does not depend on the order. */
module Sums {
  import opened Corpus

  /** The three per-word quantities the rankers add up over a query. */
  datatype Weighting =
    | TfIdf        // idfs[w] * tokens.count(w): the document score
    | Presence     // idfs[w] if w occurs in the tokens: the sentence score
    | Occurrences  // tokens.count(w): the numerator of the query term density

  /** The contribution of word `w`; a word without an IDF entry contributes
      nothing here and is reported as an error by the rankers before any
      sum that would need it. */
  function Term(k: Weighting, w: Token, tokens: seq<Token>, idfs: map<Token, real>): real
  {
    match k
    case TfIdf => if w in idfs then idfs[w] * Count(w, tokens) as real else 0.0
    case Presence => if w in tokens && w in idfs then idfs[w] else 0.0
    case Occurrences => Count(w, tokens) as real
  }

  /** The sum of `Term(k, w, tokens, idfs)` over the words `w` of `query`. */
  ghost function QuerySum(k: Weighting, query: set<Token>, tokens: seq<Token>, idfs: map<Token, real>): real
    decreases query
  {
    if query == {} then 0.0
    else
      var w :| w in query;
      Term(k, w, tokens, idfs) + QuerySum(k, query - {w}, tokens, idfs)
  }

  /** Any word of the query can be split off the sum first. */
  lemma {:induction false} QuerySumRemove(k: Weighting, query: set<Token>, w: Token, tokens: seq<Token>, idfs: map<Token, real>)
    requires w in query
    ensures QuerySum(k, query, tokens, idfs) == Term(k, w, tokens, idfs) + QuerySum(k, query - {w}, tokens, idfs)
    decreases query
  {
    var v :| v in query && QuerySum(k, query, tokens, idfs) == Term(k, v, tokens, idfs) + QuerySum(k, query - {v}, tokens, idfs);
    if v != w {
      QuerySumRemove(k, query - {v}, w, tokens, idfs);
      QuerySumRemove(k, query - {w}, v, tokens, idfs);
      assert query - {v} - {w} == query - {w} - {v};
    }
  }

  /** A sum of non-negative terms is non-negative. */
  lemma {:induction false} QuerySumNonNegative(k: Weighting, query: set<Token>, tokens: seq<Token>, idfs: map<Token, real>)
    requires forall w :: w in query ==> Term(k, w, tokens, idfs) >= 0.0
    ensures QuerySum(k, query, tokens, idfs) >= 0.0
    decreases query
  {
    if query != {} {
      var w :| w in query;
      QuerySumRemove(k, query, w, tokens, idfs);
      QuerySumNonNegative(k, query - {w}, tokens, idfs);
    }
  }
}
