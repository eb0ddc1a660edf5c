/** What the two rankers share: the score tracker (the dictionary
    `doc_value_tracker` / `sentence_value_tracker`, identifier -> score, in
    insertion order), how many entries a ranking must contain, and the
    bookkeeping that relates the shrinking tracker to the scores it
    started from. */
module Selection {
  import opened Corpus

  /** One entry of a score tracker. */
  datatype Scored = Scored(id: Id, score: real)

  /** The identifiers of a tracker, in iteration order. */
  function IdsOf(s: seq<Scored>): (ids: seq<Id>)
    ensures |ids| == |s|
    ensures forall j :: 0 <= j < |s| ==> ids[j] == s[j].id
  {
    seq(|s|, j requires 0 <= j < |s| => s[j].id)
  }

  /** The score of the entry that carries identifier `id`. */
  ghost function ScoreOf(s: seq<Scored>, id: Id): real
    requires id in IdsOf(s)
  {
    s[IndexOf(IdsOf(s), id)].score
  }

  /** How many identifiers a successful ranking holds: the selection loop
      stops when `len(ranked) == n` or when the tracker is empty, so a
      negative `n`, or one above the number of entries, means "all of them". */
  function Quota(n: int, entries: nat): (k: nat)
    ensures k <= entries
    ensures 0 <= n ==> k <= n
    ensures k == entries || k == n
  {
    if 0 <= n <= entries then n else entries
  }

  /** The length of the list of matching entries: the quota, or the number
      of positive entries when fewer than that score above 0. */
  function MatchQuota(n: int, s: seq<Scored>): (k: nat)
    ensures k <= Quota(n, |s|) && k <= CountPositive(s)
    ensures k == Quota(n, |s|) || k == CountPositive(s)
  {
    if CountPositive(s) < Quota(n, |s|) then CountPositive(s) else Quota(n, |s|)
  }

  /** The number of entries whose score is strictly positive. */
  function CountPositive(s: seq<Scored>): (k: nat)
    ensures k <= |s|
  {
    if |s| == 0 then 0
    else (if s[0].score > 0.0 then 1 else 0) + CountPositive(s[1..])
  }

  /** A tracker without positive scores counts none. */
  lemma {:induction false} NoPositiveLeft(s: seq<Scored>)
    requires forall t :: 0 <= t < |s| ==> s[t].score <= 0.0
    ensures CountPositive(s) == 0
  {
    if |s| > 0 {
      NoPositiveLeft(s[1..]);
    }
  }

  /** `tracker[t]` is entry `pos[t]` of `scored`, in increasing order. */
  ghost predicate Aligned(scored: seq<Scored>, tracker: seq<Scored>, pos: seq<nat>)
  {
    && |tracker| == |pos|
    && (forall t :: 0 <= t < |pos| ==> pos[t] < |scored| && tracker[t] == scored[pos[t]])
    && (forall s, t :: 0 <= s < t < |pos| ==> pos[s] < pos[t])
  }

  /** An entry of `scored` is still in the tracker exactly when its
      identifier has not been ranked. */
  ghost predicate Partitioned(scored: seq<Scored>, ranked: seq<Id>, pos: seq<nat>)
  {
    forall j :: 0 <= j < |scored| ==> (j in pos <==> scored[j].id !in ranked)
  }

  /** The state of a selection loop: `ranked` holds the identifiers chosen
      so far and `tracker` the entries of `scored` not yet chosen, in their
      original order; `pos[t]` is the position in `scored` of `tracker[t]`. */
  ghost predicate Tracks(scored: seq<Scored>, ranked: seq<Id>, tracker: seq<Scored>, pos: seq<nat>)
  {
    && Aligned(scored, tracker, pos)
    && Partitioned(scored, ranked, pos)
    && |ranked| + |tracker| == |scored|
    && CountPositive(scored) == |ranked| + CountPositive(tracker)
  }

  /** Before the first selection nothing is ranked and the tracker is the
      whole score table. */
  lemma TracksInit(scored: seq<Scored>)
    ensures Tracks(scored, [], scored, seq(|scored|, j => j))
  {
    var pos := seq(|scored|, j => j);
    forall j | 0 <= j < |scored|
      ensures j in pos
    {
      assert pos[j] == j;
    }
  }

  lemma AlignedRemove(scored: seq<Scored>, tracker: seq<Scored>, pos: seq<nat>, c: nat)
    requires Aligned(scored, tracker, pos) && c < |tracker|
    ensures Aligned(scored, tracker[..c] + tracker[c + 1..], pos[..c] + pos[c + 1..])
  {
    var tracker', pos' := tracker[..c] + tracker[c + 1..], pos[..c] + pos[c + 1..];
    forall t | 0 <= t < |pos'|
      ensures pos'[t] == (if t < c then pos[t] else pos[t + 1])
      ensures tracker'[t] == (if t < c then tracker[t] else tracker[t + 1])
    {
    }
  }

  lemma PartitionedRemove(scored: seq<Scored>, ranked: seq<Id>, tracker: seq<Scored>, pos: seq<nat>, c: nat)
    requires Distinct(IdsOf(scored))
    requires Aligned(scored, tracker, pos) && Partitioned(scored, ranked, pos) && c < |tracker|
    ensures Partitioned(scored, ranked + [tracker[c].id], pos[..c] + pos[c + 1..])
  {
    forall j | 0 <= j < |scored|
      ensures j in pos[..c] + pos[c + 1..] <==> scored[j].id !in ranked + [tracker[c].id]
    {
      PartitionedRemoveAt(scored, ranked, tracker, pos, c, j);
    }
  }

  /** Deleting position `c` of an increasing sequence removes exactly the
      value at `c`. */
  lemma RemoveAtMembership(pos: seq<nat>, c: nat, j: nat)
    requires c < |pos|
    requires forall s, t :: 0 <= s < t < |pos| ==> pos[s] < pos[t]
    ensures j in pos[..c] + pos[c + 1..] <==> j in pos && j != pos[c]
  {
    var pos' := pos[..c] + pos[c + 1..];
    assert forall t :: 0 <= t < |pos'| ==> pos'[t] == (if t < c then pos[t] else pos[t + 1]);
    if j in pos' {
      var t :| 0 <= t < |pos'| && pos'[t] == j;
      assert t < c ==> pos[t] < pos[c];
      assert t >= c ==> pos[c] < pos[t + 1];
    }
    if j in pos && j != pos[c] {
      var t :| 0 <= t < |pos| && pos[t] == j;
      assert t < c ==> pos'[t] == j;
      assert t > c ==> pos'[t - 1] == j;
    }
  }

  lemma PartitionedRemoveAt(scored: seq<Scored>, ranked: seq<Id>, tracker: seq<Scored>, pos: seq<nat>, c: nat, j: nat)
    requires Distinct(IdsOf(scored))
    requires Aligned(scored, tracker, pos) && Partitioned(scored, ranked, pos) && c < |tracker| && j < |scored|
    ensures j in pos[..c] + pos[c + 1..] <==> scored[j].id !in ranked + [tracker[c].id]
  {
    var p := pos[c];
    RemoveAtMembership(pos, c, j);
    assert j != p <==> scored[j].id != tracker[c].id by {
      assert IdsOf(scored)[j] == scored[j].id && IdsOf(scored)[p] == tracker[c].id;
    }
  }

  lemma {:induction false} CountPositiveRemove(s: seq<Scored>, c: nat)
    requires c < |s|
    ensures CountPositive(s) == CountPositive(s[..c] + s[c + 1..]) + (if s[c].score > 0.0 then 1 else 0)
    decreases c
  {
    var t := s[..c] + s[c + 1..];
    if c == 0 {
      assert t == s[1..];
    } else {
      var tail := s[1..];
      CountPositiveRemove(tail, c - 1);
      assert t[0] == s[0];
      assert t[1..] == tail[..c - 1] + tail[c..];
    }
  }

  /** Appending the identifier of a positive entry `tracker[c]` to the
      ranking and deleting that entry (`del tracker[id]`, which keeps the
      order of the others) preserves `Tracks`. */
  lemma TracksStep(scored: seq<Scored>, ranked: seq<Id>, tracker: seq<Scored>, pos: seq<nat>, c: nat)
    requires Distinct(IdsOf(scored))
    requires Tracks(scored, ranked, tracker, pos)
    requires c < |tracker| && tracker[c].score > 0.0
    ensures tracker[c].id !in ranked
    ensures IndexOf(IdsOf(scored), tracker[c].id) == pos[c]
    ensures Tracks(scored, ranked + [tracker[c].id], tracker[..c] + tracker[c + 1..], pos[..c] + pos[c + 1..])
  {
    assert pos[c] in pos;
    IndexOfDistinct(IdsOf(scored), pos[c]);
    AlignedRemove(scored, tracker, pos, c);
    PartitionedRemove(scored, ranked, tracker, pos, c);
    CountPositiveRemove(tracker, c);
  }

  /** Converts "not yet chosen" from a tracker position `t` to positions
      of `scored`: `tracker[t]` is entry `pos[t]`, and every entry of
      `scored` outside `ranked` sits in the tracker. */
  lemma Remaining(scored: seq<Scored>, ranked: seq<Id>, tracker: seq<Scored>, pos: seq<nat>, j: nat)
    returns (t: nat)
    requires Tracks(scored, ranked, tracker, pos)
    requires j < |scored| && scored[j].id !in ranked
    ensures t < |tracker| && pos[t] == j && tracker[t] == scored[j]
  {
    assert j in pos;
    t :| 0 <= t < |pos| && pos[t] == j;
  }
}
