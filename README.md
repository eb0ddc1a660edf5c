# Ranking engine of the question-answering program

`questions.py` answers a query against a corpus in two stages:

1. It ranks the documents of the corpus by TF-IDF (`top_files`).
2. It ranks the sentences of the best documents by summed IDF, breaking ties by query term density (`top_sentences`).

Both stages read an IDF table built by `compute_idfs`. This project models those three functions in Dafny and proves what they compute.

## Representation

- **Dictionaries.** A Python dictionary from identifiers to token lists is a `Corpus.Collection`: a sequence of `Member(id, tokens)` in insertion order. Insertion order is the order Python iterates it.
- **Score trackers.** A tracker is a `seq<Selection.Scored>`. `del tracker[id]` keeps the order of the other entries, and the model removes entries the same way.
- **Keys.** Distinct keys are a precondition wherever the source relies on them.
- **Logarithm.** `math.log` is the parameter `ln: real -> real` of `Idf.ComputeIdfs`.
- **Query order.** The query is a Python `set`, whose iteration order is unspecified. The query loops pick an arbitrary remaining word (`:|`). `Sums.QuerySum` is the sum over the query, and `Sums.QuerySumRemove` proves that the order does not change it.

## Structure

- `Corpus` holds the shared data model.
- `Sums` holds the query sums.
- `Idf` models `compute_idfs`.
- `Selection` holds the bookkeeping shared by both greedy selection loops. The ghost sequence `pos` maps tracker positions back to positions in the full score table.
- `DocumentRanker` models `top_files`.
- `SentenceRanker` models `top_sentences`.
- `Pipeline` relates the stages the way `main` chains them, and contains two worked examples.

## Specification of the selection loops

One scan of the selection loop picks the entry that no other remaining entry beats under three rules:

- Only a strictly greater score replaces the candidate.
- The baseline score is 0.
- In `top_sentences`, an equal positive score replaces the candidate only if its density is strictly higher.

`RanksByScore` and `RanksByScoreThenDensity` state these rules for every position of the output. The `...Unique` lemmas show that the rules leave no choice.

## When too few entries match the query

The docstrings of `top_files` and `top_sentences` (questions.py:108-113, 148-154) promise "the `n` top" files or sentences "that match the query". They do not say what happens when fewer than `n` entries match. Both selection loops read "match" as "scores above 0": the scan's baseline is 0, and only a strictly greater score becomes a candidate.

When no remaining entry scores above 0 and the quota is not yet met, the scan leaves the candidate at `None`. The loop then appends `None` and runs `del tracker[None]`, which raises `KeyError` because every key is a string. The model follows the code here: `SelectFiles` and `SelectSentences` return `Failure(NoCandidate)` exactly when fewer than `min(n, #entries)` entries score above 0.

The evident intent is to return the matching entries only, fewer than `n` when fewer match. `SelectMatchingFiles` and `SelectMatchingSentences` model that reading. `CompareFileSelections` and `CompareSentenceSelections` prove two facts:

- Wherever the code as written succeeds, the two selections agree.
- The code raises exactly when the matching list is shorter than the quota.

`Pipeline.WordInEveryDocumentExample` and `Pipeline.NoMatchingSentenceExample` are inputs of the model's own on which the code raises.

## Model

| member | source | states |
|---|---|---|
| Corpus.Count | questions.py:123 | `tokens.count(w)` is at most the length and is 0 exactly when `w` does not occur |
| Corpus.IndexOf | questions.py:136-142 | position of a dictionary key: below the length iff the key is present, the key found there, no earlier match |
| Corpus.IndexOfDistinct | questions.py:117 | with distinct keys, the key at position `j` is found at `j` |
| Corpus.LookupAt | questions.py:162 | with distinct keys, `sentences[id]` yields the tokens of that member |
| Corpus.InVocabulary | questions.py:91 | a word of any member belongs to the vocabulary |
| Sums.QuerySumRemove | questions.py:120-127 | any word may be summed first: the query sum does not depend on set iteration order |
| Sums.QuerySumNonNegative | questions.py:120-127 | a query sum of non-negative terms is non-negative |
| Idf.DocFreqBounds | questions.py:95-99 | the document frequency is at most N, positive iff the word is in the vocabulary, and N iff the word is in every member |
| Idf.DocFreqAppend | questions.py:97-99 | the document frequency of a concatenation is the sum of the two frequencies |
| Idf.DocFreqRemoveAt | questions.py:97-99 | removing a member lowers the frequency by one exactly when the member contains the word |
| Idf.DocFreqPermutation | questions.py:97-99 | reordering the members does not change a document frequency |
| Idf.DocFreqPresence | questions.py:98 | only presence in each member counts, not repetitions |
| Idf.ComputeIdfs | questions.py:78-104 | the table's keys are exactly the vocabulary, each value is `ln(N/df)` with `df > 0`, and no members give an empty table |
| Idf.DocumentAppearances | questions.py:95-99 | the counting loop yields the number of members that contain the word |
| Idf.MultisetRemoveAt | questions.py:88-102 | helper of the order-independence proof: taking one member out of a collection takes one copy of it out of its multiset |
| Idf.VocabularyExtend | questions.py:88-91 | the vocabulary of one more member adds exactly that member's words |
| Idf.IdfOrderIndependent | questions.py:88-102 | collections that are permutations of each other have the same IDF table |
| Idf.IdfRepetitionIndependent | questions.py:92-99 | collections whose members contain the same words (repeats aside) have the same IDF table |
| Idf.RatioAtLeastOne | questions.py:101 | `N/df >= 1` for `0 < df <= N`, with equality iff `df == N` |
| Idf.IdfRange | questions.py:95-102 | with `ln(1) = 0` and `ln` positive above 1, every IDF is `>= 0`, and it is 0 iff the word is in every member |
| Selection.Quota | questions.py:130-132 | the length of a full ranking is at most the number of entries, at most `n` when `n >= 0`, and one of the two |
| Selection.MatchQuota | questions.py:108-113 | the length of the list of matching entries: at most the quota and at most the number of positive entries, and equal to one of the two |
| Selection.CountPositive | questions.py:136 | the count of positive entries is at most the tracker length |
| Selection.NoPositiveLeft | questions.py:133-138 | a tracker without positive scores counts none |
| Selection.TracksInit | questions.py:129 | before the first pick, the tracker state relates to nothing ranked and the full score table |
| Selection.AlignedRemove | questions.py:142 | `del` keeps the rest of the tracker aligned with its original positions |
| Selection.PartitionedRemove | questions.py:140-142 | after append-and-delete, an entry is still tracked iff its id is not ranked |
| Selection.RemoveAtMembership | questions.py:142 | deleting one position of the strictly increasing position map removes exactly the value at that position |
| Selection.PartitionedRemoveAt | questions.py:140-142 | the same fact for one entry of the score table |
| Selection.CountPositiveRemove | questions.py:142 | deleting an entry lowers the positive count by one exactly when its score is positive |
| Selection.TracksStep | questions.py:140-142 | appending a positive winner and deleting it keeps the loop state; the winner was not ranked before |
| Selection.Remaining | questions.py:135 | every unranked entry of the score table is still at some tracker position |
| DocumentRanker.ScoreFile | questions.py:118-127 | succeeds iff every query word has an IDF; on failure names a query word without one; otherwise the score is the sum of `idf * count` |
| DocumentRanker.ScoreFiles | questions.py:115-127 | fails iff there are documents and some query word has no IDF; otherwise gives the score of every document, in order |
| DocumentRanker.ScanFiles | questions.py:133-138 | no candidate iff no score is positive; otherwise a positive maximum that every earlier entry undercuts strictly |
| DocumentRanker.RanksByScoreNonIncreasing | questions.py:129-144 | a ranking holds distinct tracked ids with positive scores, in non-increasing score order |
| DocumentRanker.RanksByScoreUnique | questions.py:133-142 | two rankings of equal length that follow the selection rule are equal |
| DocumentRanker.RanksByScoreAgree | questions.py:133-142 | such rankings agree on every prefix |
| DocumentRanker.PickFile | questions.py:133-140 | appending the scan's winner keeps the ranking faithful to the selection rule |
| DocumentRanker.SelectFiles | questions.py:129-144 | fails (the `del tracker[None]` KeyError) iff fewer than `min(n, #entries)` scores are positive; otherwise returns exactly that many ids ranked by the selection rule |
| DocumentRanker.SelectMatchingFiles | questions.py:108-113 | the docstring's reading of the selection: exactly `MatchQuota` ids, ranked by the selection rule, with no failure |
| DocumentRanker.CompareFileSelections | questions.py:129-144 | where the loop as written succeeds it returns the matching list; it raises iff the matching list is shorter than the quota |
| DocumentRanker.TopFiles | questions.py:107-144 | KeyError on an IDF lookup iff there are documents and an unknown query word; otherwise the failure condition and ranking of `SelectFiles` over the TF-IDF scores |
| SentenceRanker.ScoreSentence | questions.py:159-166 | succeeds iff every query word present in the sentence has an IDF; otherwise the score is the sum of those IDFs |
| SentenceRanker.ScoreSentences | questions.py:156-166 | fails iff some query word occurring in some sentence has no IDF; otherwise gives every sentence's score, in order |
| SentenceRanker.QueryDensity | questions.py:185-197 | the density is the occurrences of query words over the sentence length |
| SentenceRanker.ScanSentences | questions.py:172-200 | no candidate iff no score is positive; otherwise a positive entry that every entry is outranked by (lower score, or equal score and lower density, or equal both and later) |
| SentenceRanker.RanksByScoreThenDensityOrdered | questions.py:168-206 | a ranking holds distinct tracked ids with positive scores, in non-increasing score order, and non-increasing density among equal scores |
| SentenceRanker.RanksByScoreThenDensityUnique | questions.py:172-204 | two rankings of equal length that follow the selection rule are equal |
| SentenceRanker.RanksByScoreThenDensityAgree | questions.py:172-204 | such rankings agree on every prefix |
| SentenceRanker.TrackedDensityAt | questions.py:185-197 | the density looked up through a tracker entry is that sentence's density |
| SentenceRanker.TrackerNamed | questions.py:185 | every tracker entry names a sentence, so `sentences[...]` succeeds |
| SentenceRanker.PickSentence | questions.py:172-202 | appending the scan's winner keeps the ranking faithful to the selection rule |
| SentenceRanker.SelectSentences | questions.py:168-206 | fails (the `del tracker[None]` KeyError) iff fewer than `min(n, #entries)` scores are positive; otherwise returns exactly that many ids ranked by score, then density, then order |
| SentenceRanker.SelectMatchingSentences | questions.py:148-154 | the docstring's reading of the selection: exactly `MatchQuota` ids, ranked by score, then density, then order, with no failure |
| SentenceRanker.CompareSentenceSelections | questions.py:168-206 | where the loop as written succeeds it returns the matching list; it raises iff the matching list is shorter than the quota |
| SentenceRanker.TopSentences | questions.py:147-206 | KeyError on an IDF lookup iff a query word present in some sentence has no IDF; otherwise the failure condition and ranking of `SelectSentences` |
| Pipeline.FileLookupsFromOwnTable | questions.py:24-30 | with the documents' own IDF table, a query word is known iff it occurs in some document |
| Pipeline.SentenceLookupsFromOwnTable | questions.py:42-45 | with the sentences' own IDF table, no lookup of `top_sentences` fails |
| Pipeline.ScoresNonNegative | questions.py:24-45 | with IDFs from `compute_idfs`, document and sentence scores are `>= 0` |
| Pipeline.QuerySumSingle | questions.py:120-127 | a one-word query sums to that word's term |
| Pipeline.QuerySumPair | questions.py:120-127 | a two-word query sums to the two terms |
| Pipeline.WordInEveryDocumentExample | questions.py:101-142 | a word that occurs in every document has IDF 0, no document scores above 0, the quota for `n = 1` is 1 and the matching list is empty, so `top_files` takes the KeyError path |
| Pipeline.NoMatchingSentenceExample | questions.py:158-204 | a sentence without query words scores 0, the quota for `n = 1` is 1 and the matching list is empty, so `top_sentences` takes the KeyError path |
| Pipeline.TieScores | questions.py:158-166 | the two example sentences both score 0.8 |
| Pipeline.TieCounts | questions.py:187-188 | `count` of each query word in the two example sentences |
| Pipeline.TieDensityFirst | questions.py:184-190 | the density of the first example sentence is 2/2 |
| Pipeline.TieDensitySecond | questions.py:191-197 | the density of the second example sentence is 3/4 |
| Pipeline.DensityTieExample | questions.py:179-200 | with tied scores, the denser sentence is the only admissible first pick |

`n = 0` is covered by `SelectFiles` and `SelectSentences`: the quota is 0, no failure is possible, and the result is empty.

## Findings

| source | as written | input that shows it | evidently intended | confidence | as-written member | corrected member |
|---|---|---|---|---|---|---|
| questions.py:133-142 | a scan without a candidate appends `None`, and `del doc_value_tracker[None]` raises `KeyError` | documents a = [cat, sat] and b = [cat, cat, mat], query {cat}, n = 1: both score 0 | return the matching documents, fewer than `n` when fewer score above 0 | medium, not executed | DocumentRanker.SelectFiles, Pipeline.WordInEveryDocumentExample | DocumentRanker.SelectMatchingFiles, DocumentRanker.CompareFileSelections |
| questions.py:172-204 | a scan without a candidate appends `None`, and `del sentence_value_tracker[None]` raises `KeyError` | one sentence [dog, barks], query {cat}, n = 1: it scores 0 | return the matching sentences, fewer than `n` when fewer score above 0 | medium, not executed | SentenceRanker.SelectSentences, Pipeline.NoMatchingSentenceExample | SentenceRanker.SelectMatchingSentences, SentenceRanker.CompareSentenceSelections |

`TopFiles` and `TopSentences` model the code as written, so they use the as-written selections.

## Left out

- `main` (questions.py:12-47): argument checking, `input`, `print` and extracting sentences from the chosen files are I/O. `Pipeline` keeps only how the stages feed each other. The non-empty-token filter at line 38 becomes the `AllNonEmpty` precondition of `TopSentences`.
- `load_files` (questions.py:50-62): directory listing and file reads are I/O.
- `tokenize` (questions.py:65-75) and `nltk.sent_tokenize`: they call into NLTK, whose word lists and tokenizer are not part of this model. Tokens arrive already tokenized.
- `math.log`, and IEEE floating point in general: scores, IDFs and densities are exact `real`s, and the logarithm is the parameter `ln`. Rounding, and float `==` in the tie test at line 179, are not modelled. Lemmas that need facts about the logarithm take them as preconditions.
- The Python integer `0` that starts every score is modelled as `0.0`.
- DocumentRanker.ScanFiles and SentenceRanker.ScanSentences hold the candidate as a tracker position (`Option<nat>`), not as the key. With distinct keys the two are interchangeable, and the key appended is the key at that position.
- Iteration order of the query set: the model leaves it arbitrary and proves the sums independent of it. The order Python happens to use is not modelled.
