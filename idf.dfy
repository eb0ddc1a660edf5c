/** `compute_idfs` (questions.py:78-104): the IDF table of a collection.
    The natural logarithm is not modelled; it is the parameter `ln`. */
module Idf {
  import opened Corpus

  /** The number of members of `c` whose token list contains `w`
      (presence, not count). */
  function DocFreq(w: Token, c: Collection): nat
  {
    if |c| == 0 then 0
    else DocFreq(w, c[..|c| - 1]) + (if w in c[|c| - 1].tokens then 1 else 0)
  }

  /** The document frequency of a word lies between 1 and `|c|` exactly
      for the words of the vocabulary, and is `|c|` exactly when every
      member contains the word. */
  lemma {:induction false} DocFreqBounds(w: Token, c: Collection)
    ensures DocFreq(w, c) <= |c|
    ensures DocFreq(w, c) > 0 <==> w in Vocabulary(c)
    ensures DocFreq(w, c) == |c| <==> forall j :: 0 <= j < |c| ==> w in c[j].tokens
  {
    if |c| > 0 {
      var init := c[..|c| - 1];
      DocFreqBounds(w, init);
      assert forall j :: 0 <= j < |init| ==> init[j] == c[j];
      if w in c[|c| - 1].tokens {
        assert w in Vocabulary(c);
      }
      if w in Vocabulary(c) && w !in c[|c| - 1].tokens {
        var j, v :| 0 <= j < |c| && v in c[j].tokens && v == w;
        assert w in Vocabulary(init);
      }
      if w in Vocabulary(init) {
        var j, v :| 0 <= j < |init| && v in init[j].tokens && v == w;
        assert w in c[j].tokens;
      }
    }
  }

  /** The count over a concatenation is the sum of the counts. */
  lemma {:induction false} DocFreqAppend(w: Token, a: Collection, b: Collection)
    ensures DocFreq(w, a + b) == DocFreq(w, a) + DocFreq(w, b)
    decreases |b|
  {
    if |b| == 0 {
      assert a + b == a;
    } else {
      assert (a + b)[..|a + b| - 1] == a + b[..|b| - 1];
      assert (a + b)[|a + b| - 1] == b[|b| - 1];
      DocFreqAppend(w, a, b[..|b| - 1]);
    }
  }

  /** Taking member `k` out lowers the count by its own contribution. */
  lemma DocFreqRemoveAt(w: Token, b: Collection, k: nat)
    requires k < |b|
    ensures DocFreq(w, b) == DocFreq(w, b[..k] + b[k + 1..]) + (if w in b[k].tokens then 1 else 0)
  {
    assert b == b[..k] + ([b[k]] + b[k + 1..]);
    DocFreqAppend(w, b[..k], [b[k]] + b[k + 1..]);
    DocFreqAppend(w, [b[k]], b[k + 1..]);
    DocFreqAppend(w, b[..k], b[k + 1..]);
    assert [b[k]][..0] == [];
  }

  /** Taking member `k` out takes one copy of it out of the multiset. */
  lemma MultisetRemoveAt(b: Collection, k: nat)
    requires k < |b|
    ensures multiset(b[..k] + b[k + 1..]) == multiset(b) - multiset{b[k]}
  {
    assert b == b[..k] + [b[k]] + b[k + 1..];
  }

  /** The document frequency does not depend on the order of the members. */
  lemma {:induction false} DocFreqPermutation(w: Token, a: Collection, b: Collection)
    requires multiset(a) == multiset(b)
    ensures DocFreq(w, a) == DocFreq(w, b)
    decreases |a|
  {
    if |a| == 0 {
      assert |b| == |multiset(b)| == 0;
    } else {
      var last := a[|a| - 1];
      var init := a[..|a| - 1];
      MultisetRemoveAt(a, |a| - 1);
      assert a[..|a| - 1] + a[|a|..] == init;
      assert last in multiset(b);
      var k :| 0 <= k < |b| && b[k] == last;
      var rest := b[..k] + b[k + 1..];
      MultisetRemoveAt(b, k);
      DocFreqPermutation(w, init, rest);
      DocFreqRemoveAt(w, b, k);
    }
  }

  /** The document frequency of `w` only depends on which members contain
      `w`, not on how often. */
  lemma {:induction false} DocFreqPresence(w: Token, a: Collection, b: Collection)
    requires |a| == |b|
    requires forall j :: 0 <= j < |a| ==> (w in a[j].tokens <==> w in b[j].tokens)
    ensures DocFreq(w, a) == DocFreq(w, b)
  {
    if |a| > 0 {
      DocFreqPresence(w, a[..|a| - 1], b[..|b| - 1]);
    }
  }

  /** `idfs` is the IDF table of `c`: one entry per word of the vocabulary,
      valued `ln(N / df)` with `N` the number of members and `df` the
      document frequency of the word. */
  ghost predicate IsIdfTable(idfs: map<Token, real>, c: Collection, ln: real -> real)
  {
    idfs.Keys == Vocabulary(c) && IdfValues(idfs, c, ln)
  }

  /** Every entry of `idfs` is `ln(N / df)` for a positive `df`. */
  ghost predicate IdfValues(idfs: map<Token, real>, c: Collection, ln: real -> real)
  {
    forall w :: w in idfs ==> DocFreq(w, c) > 0 && idfs[w] == ln(|c| as real / DocFreq(w, c) as real)
  }

  /** compute_idfs: for every word of every member, in iteration order,
      unless the word already has an entry, count the members containing it
      and store `ln(N / count)`. */
  method ComputeIdfs(documents: Collection, ln: real -> real) returns (idfs: map<Token, real>)
    ensures IsIdfTable(idfs, documents, ln)
    ensures |documents| == 0 ==> idfs == map[]
  {
    var total := |documents|;
    idfs := map[];
    var i := 0;
    while i < |documents|
      invariant 0 <= i <= |documents|
      invariant forall v :: v in idfs <==> v in Vocabulary(documents[..i])
      invariant IdfValues(idfs, documents, ln)
    {
      var words := documents[i].tokens;
      var j := 0;
      while j < |words|
        invariant 0 <= j <= |words|
        invariant forall v :: v in idfs <==> v in Vocabulary(documents[..i]) || v in words[..j]
        invariant IdfValues(idfs, documents, ln)
      {
        var word := words[j];
        assert words[..j + 1] == words[..j] + [word];
        if word in idfs {
          j := j + 1;
          continue;
        }
        var appearances := DocumentAppearances(word, documents);
        DocFreqBounds(word, documents);
        InVocabulary(documents, i, word);
        idfs := idfs[word := ln(total as real / appearances as real)];
        j := j + 1;
      }
      assert words[..|words|] == words;
      VocabularyExtend(documents, i);
      i := i + 1;
    }
    assert documents[..|documents|] == documents;
    assert idfs.Keys == Vocabulary(documents);
  }

  /** The loop of `compute_idfs` that counts the members containing `word`. */
  method DocumentAppearances(word: Token, documents: Collection) returns (appearances: nat)
    ensures appearances == DocFreq(word, documents)
  {
    appearances := 0;
    var k := 0;
    while k < |documents|
      invariant 0 <= k <= |documents|
      invariant appearances == DocFreq(word, documents[..k])
    {
      assert documents[..k + 1][..k] == documents[..k];
      if word in documents[k].tokens {
        appearances := appearances + 1;
      }
      k := k + 1;
    }
    assert documents[..|documents|] == documents;
  }

  /** The vocabulary of a prefix grows by the words of the next member. */
  lemma VocabularyExtend(c: Collection, i: nat)
    requires i < |c|
    ensures forall v :: v in Vocabulary(c[..i + 1]) <==> v in Vocabulary(c[..i]) || v in c[i].tokens
  {
    var pre, ext := c[..i], c[..i + 1];
    forall v | v in Vocabulary(ext)
      ensures v in Vocabulary(pre) || v in c[i].tokens
    {
      var j, u :| 0 <= j < |ext| && u in ext[j].tokens && u == v;
      if j < i {
        assert pre[j] == ext[j];
      }
    }
    forall v | v in Vocabulary(pre)
      ensures v in Vocabulary(ext)
    {
      var j, u :| 0 <= j < |pre| && u in pre[j].tokens && u == v;
      assert ext[j] == pre[j];
    }
    forall v | v in c[i].tokens
      ensures v in Vocabulary(ext)
    {
      assert ext[i] == c[i];
    }
  }

  /** The IDF table does not depend on the order in which the collection is
      iterated. */
  lemma IdfOrderIndependent(a: Collection, b: Collection, ln: real -> real, ia: map<Token, real>, ib: map<Token, real>)
    requires multiset(a) == multiset(b)
    requires IsIdfTable(ia, a, ln) && IsIdfTable(ib, b, ln)
    ensures ia == ib
  {
    assert |a| == |multiset(a)| == |multiset(b)| == |b|;
    forall v | v in Vocabulary(a)
      ensures v in Vocabulary(b)
    {
      var j, u :| 0 <= j < |a| && u in a[j].tokens && u == v;
      assert a[j] in multiset(b);
      var k :| 0 <= k < |b| && b[k] == a[j];
    }
    forall v | v in Vocabulary(b)
      ensures v in Vocabulary(a)
    {
      var j, u :| 0 <= j < |b| && u in b[j].tokens && u == v;
      assert b[j] in multiset(a);
      var k :| 0 <= k < |a| && a[k] == b[j];
    }
    forall v | v in ia
      ensures ia[v] == ib[v]
    {
      DocFreqPermutation(v, a, b);
    }
  }

  /** Repeating words inside a member does not change the IDF table. */
  lemma IdfRepetitionIndependent(a: Collection, b: Collection, ln: real -> real, ia: map<Token, real>, ib: map<Token, real>)
    requires |a| == |b|
    requires forall j, v :: 0 <= j < |a| ==> (v in a[j].tokens <==> v in b[j].tokens)
    requires IsIdfTable(ia, a, ln) && IsIdfTable(ib, b, ln)
    ensures ia == ib
  {
    assert Vocabulary(a) == Vocabulary(b) by {
      forall v | v in Vocabulary(a)
        ensures v in Vocabulary(b)
      {
        var j, u :| 0 <= j < |a| && u in a[j].tokens && u == v;
        assert v in b[j].tokens;
      }
      forall v | v in Vocabulary(b)
        ensures v in Vocabulary(a)
      {
        var j, u :| 0 <= j < |b| && u in b[j].tokens && u == v;
        assert v in a[j].tokens;
      }
    }
    forall v | v in ia
      ensures ia[v] == ib[v]
    {
      DocFreqPresence(v, a, b);
    }
  }

  /** The argument `N / df` of the logarithm is at least 1, and exactly 1
      when the word is in every member. */
  lemma RatioAtLeastOne(n: nat, df: nat)
    requires 0 < df <= n
    ensures n as real / df as real >= 1.0
    ensures n as real / df as real == 1.0 <==> df == n
  {
    var q := n as real / df as real;
    assert q * df as real == n as real;
    assert (q - 1.0) * df as real == (n - df) as real;
  }

  /** With a logarithm that is 0 at 1 and positive above 1, every IDF is
      non-negative, and it is 0 exactly for the words that occur in every
      member. */
  lemma IdfRange(idfs: map<Token, real>, c: Collection, ln: real -> real, w: Token)
    requires ln(1.0) == 0.0
    requires forall x: real :: x > 1.0 ==> ln(x) > 0.0
    requires IsIdfTable(idfs, c, ln)
    requires w in idfs
    ensures idfs[w] >= 0.0
    ensures idfs[w] == 0.0 <==> forall j :: 0 <= j < |c| ==> w in c[j].tokens
  {
    DocFreqBounds(w, c);
    RatioAtLeastOne(|c|, DocFreq(w, c));
  }
}
