/** The data model shared by the IDF calculator and the two rankers:
    tokens, identifiers, and the dictionaries "identifier -> token list"
    that every operation of the ranking engine reads. A dictionary is a
    sequence of members in insertion order (the order in which Python
    iterates it). */
module Corpus {

  /** A normalised word; produced by the tokenizer, which is not modelled. */
  type Token = string

  /** A document file name, or the literal text of a sentence. */
  type Id = string

  /** One key/value pair of a dictionary identifier -> token list. */
  datatype Member = Member(id: Id, tokens: seq<Token>)

  /** A dictionary identifier -> token list, in insertion order. */
  type Collection = seq<Member>

  datatype Option<T> = None | Some(value: T)

  /** Why a ranking attempt fails: a KeyError on the IDF lookup of a
      query word, or a KeyError on `del tracker[None]` when a scan of the
      remaining entries found no candidate. */
  datatype RankError = UnknownTerm(word: Token) | NoCandidate

  datatype Result<T> = Success(value: T) | Failure(error: RankError)

  /** The keys of a dictionary, in iteration order. */
  function Keys(c: Collection): (ks: seq<Id>)
    ensures |ks| == |c|
    ensures forall j :: 0 <= j < |c| ==> ks[j] == c[j].id
  {
    seq(|c|, j requires 0 <= j < |c| => c[j].id)
  }

  /** No identifier occurs twice, as for the keys of a dictionary. */
  ghost predicate Distinct(ids: seq<Id>)
  {
    forall i, j :: 0 <= i < j < |ids| ==> ids[i] != ids[j]
  }

  /** Every member has at least one token. */
  ghost predicate AllNonEmpty(c: Collection)
  {
    forall j :: 0 <= j < |c| ==> |c[j].tokens| > 0
  }

  /** The position of the first occurrence of `id` in `ids`, or `|ids|`. */
  function IndexOf(ids: seq<Id>, id: Id): (k: nat)
    ensures k <= |ids|
    ensures k < |ids| <==> id in ids
    ensures k < |ids| ==> ids[k] == id
    ensures forall i :: 0 <= i < k ==> ids[i] != id
  {
    if |ids| == 0 then 0
    else if ids[0] == id then 0
    else 1 + IndexOf(ids[1..], id)
  }

  /** With distinct identifiers, the position of the identifier at `j` is `j`. */
  lemma IndexOfDistinct(ids: seq<Id>, j: nat)
    requires Distinct(ids) && j < |ids|
    ensures IndexOf(ids, ids[j]) == j
  {
  }

  /** The dictionary lookup `c[id]`. */
  function Lookup(c: Collection, id: Id): (tokens: seq<Token>)
    requires id in Keys(c)
  {
    c[IndexOf(Keys(c), id)].tokens
  }

  /** With distinct keys, looking up the key of member `j` yields member `j`'s tokens. */
  lemma LookupAt(c: Collection, j: nat)
    requires Distinct(Keys(c)) && j < |c|
    ensures c[j].id in Keys(c) && Lookup(c, c[j].id) == c[j].tokens
  {
    assert Keys(c)[j] == c[j].id;
    IndexOfDistinct(Keys(c), j);
  }

  /** Python's `tokens.count(w)`. */
  function Count(w: Token, tokens: seq<Token>): (k: nat)
    ensures k <= |tokens|
    ensures k == 0 <==> w !in tokens
  {
    if |tokens| == 0 then 0
    else (if tokens[0] == w then 1 else 0) + Count(w, tokens[1..])
  }

  /** The words that occur in at least one member of `c`. */
  ghost function Vocabulary(c: Collection): set<Token>
  {
    set j, w | 0 <= j < |c| && w in c[j].tokens :: w
  }

  lemma InVocabulary(c: Collection, j: nat, w: Token)
    requires j < |c| && w in c[j].tokens
    ensures w in Vocabulary(c)
  {
  }
}
