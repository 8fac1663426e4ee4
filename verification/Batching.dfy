/**
 Two ways of cutting an id list into requests of at most 100: a loop that steps
 through the list (frontend/shared/api/file.ts and conversation.ts) and a list of
 slices of known length (frontend/shared/api/knowledge-bases.ts).
 */
module Batching {
  import opened Text

  const LIMIT := 100

  /** `slice(from, to)` for bounds in order; bounds past the end are the end. */
  function Slice<T>(s: seq<T>, from: nat, to: nat): seq<T>
    requires from <= to
  {
    if from >= |s| then [] else if to >= |s| then s[from..] else s[from..to]
  }

  /** The batches, one by one from the front. */
  function Batches<T>(s: seq<T>): seq<seq<T>>
    decreases |s|
  {
    if s == [] then [] else if |s| <= LIMIT then [s] else [s[..LIMIT]] + Batches(s[LIMIT..])
  }

  function Ceil(n: nat): nat {
    (n + LIMIT - 1) / LIMIT
  }

  /** Nothing is lost, repeated or reordered; no request is empty or over the limit. */
  lemma {:induction false} BatchesPartition<T>(s: seq<T>)
    ensures Concat(Batches(s)) == s
    ensures forall i | 0 <= i < |Batches(s)| :: 1 <= |Batches(s)[i]| <= 100
    ensures forall i | 0 <= i < |Batches(s)| - 1 :: |Batches(s)[i]| == 100
    ensures |Batches(s)| == Ceil(|s|)
    decreases |s|
  {
    if |s| > LIMIT {
      BatchesPartition(s[LIMIT..]);
      var b := Batches(s);
      assert b[1..] == Batches(s[LIMIT..]) && s == s[..LIMIT] + s[LIMIT..];
    } else if s != [] {
      assert Batches(s)[1..] == [];
    }
  }

  /** knowledge-bases.ts: as many slices as the ceiling says. */
  function CeilBatches<T>(s: seq<T>): seq<seq<T>> {
    seq(Ceil(|s|), i requires 0 <= i < Ceil(|s|) => Slice(s, i * LIMIT, (i + 1) * LIMIT))
  }

  lemma SliceOfRest<T>(s: seq<T>, from: nat, to: nat)
    requires |s| > LIMIT && from <= to
    ensures Slice(s[LIMIT..], from, to) == Slice(s, from + LIMIT, to + LIMIT)
  {
    var t := s[LIMIT..];
    if from < |t| {
      DropThenTake(s, LIMIT, from, if to < |t| then to else |t|);
    }
  }

  lemma DropThenTake<T>(s: seq<T>, k: nat, from: nat, to: nat)
    requires k + to <= |s| && from <= to
    ensures s[k..][from..to] == s[k + from..k + to]
  {
    var a, b := s[k..][from..to], s[k + from..k + to];
    forall i | 0 <= i < to - from
      ensures a[i] == b[i]
    {
    }
  }

  lemma FirstBatch<T>(s: seq<T>)
    requires s != []
    ensures |Batches(s)| > 0 && Batches(s)[0] == Slice(s, 0, LIMIT)
  {
  }

  lemma LaterBatch<T>(s: seq<T>, i: nat)
    requires |s| > LIMIT && i < |Batches(s[LIMIT..])|
    ensures |Batches(s)| == |Batches(s[LIMIT..])| + 1 && Batches(s)[i + 1] == Batches(s[LIMIT..])[i]
  {
  }

  lemma {:induction false} BatchAt<T>(s: seq<T>, i: nat)
    requires i < Ceil(|s|)
    ensures |Batches(s)| == Ceil(|s|) && Batches(s)[i] == Slice(s, i * LIMIT, (i + 1) * LIMIT)
    decreases |s|
  {
    BatchesCount(s);
    if i == 0 {
      FirstBatch(s);
    } else {
      BatchesCount(s[LIMIT..]);
      BatchAt(s[LIMIT..], i - 1);
      LaterBatch(s, i - 1);
      SliceOfRest(s, (i - 1) * LIMIT, i * LIMIT);
    }
  }

  lemma BatchesCount<T>(s: seq<T>)
    ensures |Batches(s)| == Ceil(|s|)
  {
    BatchesPartition(s);
  }

  /** Both forms give the same batches for every list. */
  lemma CeilBatchesAreBatches<T>(s: seq<T>)
    ensures CeilBatches(s) == Batches(s)
  {
    BatchesPartition(s);
    forall i | 0 <= i < Ceil(|s|)
      ensures CeilBatches(s)[i] == Batches(s)[i]
    {
      BatchAt(s, i);
    }
  }

  /** file.ts: the stepping loop. */
  method SteppingBatches<T>(ids: seq<T>) returns (requests: seq<seq<T>>)
    ensures requests == Batches(ids)
  {
    requests := [];
    var index := 0;
    assert ids[0..] == ids;
    while index < |ids|
      invariant 0 <= index
      invariant requests + Batches(if index <= |ids| then ids[index..] else []) == Batches(ids)
    {
      var rest := ids[index..];
      assert Slice(ids, index, index + LIMIT) == if |rest| <= LIMIT then rest else rest[..LIMIT];
      assert index + LIMIT <= |ids| ==> rest[LIMIT..] == ids[index + LIMIT..];
      assert Batches(rest) == [Slice(ids, index, index + LIMIT)]
                              + Batches(if index + LIMIT <= |ids| then ids[index + LIMIT..] else []);
      requests := requests + [Slice(ids, index, index + LIMIT)];
      index := index + LIMIT;
    }
  }

  // Run ids are trimmed, and blank and repeated ones dropped, before batching

  function Trimmed(ids: seq<string>): seq<string> {
    if ids == [] then []
    else (if Trim(ids[0]) == "" then [] else [Trim(ids[0])]) + Trimmed(ids[1..])
  }

  /** A Set keeps the first of each value, in order. */
  function Distinct(ids: seq<string>): seq<string> {
    if ids == [] then []
    else
      var front, last := Distinct(ids[..|ids| - 1]), ids[|ids| - 1];
      if last in front then front else front + [last]
  }

  function Normalize(ids: seq<string>): seq<string> {
    Distinct(Trimmed(ids))
  }

  predicate NoRepeats(ids: seq<string>) {
    forall i, j | 0 <= i < j < |ids| :: ids[i] != ids[j]
  }

  /** Where a value first occurs. */
  ghost predicate FirstAt(ids: seq<string>, i: nat) {
    i < |ids| && forall j | 0 <= j < i :: ids[j] != ids[i]
  }

  lemma {:induction false} DistinctKeepsFirsts(ids: seq<string>)
    ensures NoRepeats(Distinct(ids))
    ensures forall x :: x in Distinct(ids) <==> x in ids
  {
    if ids != [] {
      var front := ids[..|ids| - 1];
      DistinctKeepsFirsts(front);
      assert ids == front + [ids[|ids| - 1]];
    }
  }

  /** Two first occurrences keep their order. */
  lemma {:induction false} DistinctKeepsOrder(ids: seq<string>, i: nat, j: nat) returns (a: nat, b: nat)
    requires FirstAt(ids, i) && FirstAt(ids, j) && i < j
    ensures a < b < |Distinct(ids)| && Distinct(ids)[a] == ids[i] && Distinct(ids)[b] == ids[j]
  {
    var n := |ids| - 1;
    var front := ids[..n];
    DistinctKeepsFirsts(front);
    assert FirstAt(front, i) by {
      assert front[i] == ids[i];
    }
    if j < n {
      assert FirstAt(front, j);
      a, b := DistinctKeepsOrder(front, i, j);
    } else {
      assert front[i] in Distinct(front);
      a :| 0 <= a < |Distinct(front)| && Distinct(front)[a] == ids[i];
      b := |Distinct(front)|;
      assert ids[j] !in front;
    }
  }

  lemma {:induction false} TrimmedMembers(ids: seq<string>, x: string)
    ensures x in Trimmed(ids) <==> x != "" && exists i | 0 <= i < |ids| :: Trim(ids[i]) == x
  {
    if ids != [] {
      TrimmedMembers(ids[1..], x);
      if x in Trimmed(ids[1..]) {
        var i :| 0 <= i < |ids[1..]| && Trim(ids[1..][i]) == x;
        assert ids[i + 1] == ids[1..][i];
      }
      if i :| 0 <= i < |ids| && Trim(ids[i]) == x {
        if i > 0 {
          assert ids[1..][i - 1] == ids[i];
        }
      }
    }
  }

  lemma {:induction false} TrimmedAppend(a: seq<string>, b: seq<string>)
    ensures Trimmed(a + b) == Trimmed(a) + Trimmed(b)
  {
    if a == [] {
      assert a + b == b;
    } else {
      assert (a + b)[1..] == a[1..] + b;
      TrimmedAppend(a[1..], b);
    }
  }

  /** Where a non-blank id goes. */
  lemma PlaceOf(ids: seq<string>, i: nat)
    requires i < |ids| && Trim(ids[i]) != ""
    ensures |Trimmed(ids[..i])| < |Trimmed(ids[..i + 1])| <= |Trimmed(ids)|
    ensures Trimmed(ids)[..|Trimmed(ids[..i])|] == Trimmed(ids[..i])
    ensures Trimmed(ids)[|Trimmed(ids[..i])|] == Trim(ids[i])
  {
    assert ids[..i + 1] == ids[..i] + [ids[i]] && ids == ids[..i + 1] + ids[i + 1..];
    TrimmedAppend(ids[..i], [ids[i]]);
    TrimmedAppend(ids[..i + 1], ids[i + 1..]);
    assert [ids[i]][1..] == [] && Trimmed([ids[i]]) == [Trim(ids[i])];
  }

  lemma PlaceIsFirst(ids: seq<string>, i: nat)
    requires i < |ids| && Trim(ids[i]) != "" && forall k | 0 <= k < i :: Trim(ids[k]) != Trim(ids[i])
    ensures FirstAt(Trimmed(ids), |Trimmed(ids[..i])|)
  {
    PlaceOf(ids, i);
    TrimmedMembers(ids[..i], Trim(ids[i]));
    forall p | 0 <= p < |Trimmed(ids[..i])|
      ensures Trimmed(ids)[p] != Trim(ids[i])
    {
      assert Trimmed(ids)[p] == Trimmed(ids[..i])[p];
    }
  }

  /** Ids are asked for in the order in which they first occur. */
  lemma AskedInOrder(ids: seq<string>, i: nat, j: nat) returns (a: nat, b: nat)
    requires i < j < |ids| && Trim(ids[i]) != "" && Trim(ids[j]) != ""
    requires forall k | 0 <= k < i :: Trim(ids[k]) != Trim(ids[i])
    requires forall k | 0 <= k < j :: Trim(ids[k]) != Trim(ids[j])
    ensures a < b < |Concat(Batches(Normalize(ids)))|
    ensures Concat(Batches(Normalize(ids)))[a] == Trim(ids[i]) && Concat(Batches(Normalize(ids)))[b] == Trim(ids[j])
  {
    PlaceIsFirst(ids, i);
    PlaceIsFirst(ids, j);
    PlaceOf(ids, i);
    PlaceOf(ids, j);
    PlacesGrow(ids, i, j);
    a, b := DistinctKeepsOrder(Trimmed(ids), |Trimmed(ids[..i])|, |Trimmed(ids[..j])|);
    BatchesPartition(Normalize(ids));
  }

  lemma PlacesGrow(ids: seq<string>, i: nat, j: nat)
    requires i < j <= |ids| && Trim(ids[i]) != ""
    ensures |Trimmed(ids[..i])| < |Trimmed(ids[..j])|
  {
    PlaceOf(ids, i);
    assert ids[..j] == ids[..i + 1] + ids[i + 1..j];
    TrimmedAppend(ids[..i + 1], ids[i + 1..j]);
  }

  /** getConversationRunStatuses: each asked-for id goes out exactly once, in requests of 1 to 100. */
  method RunStatusBatches(runIDs: seq<string>) returns (requests: seq<seq<string>>)
    ensures requests == Batches(Normalize(runIDs))
    ensures NoRepeats(Concat(requests))
    ensures forall x :: x in Concat(requests) <==> x != "" && exists i | 0 <= i < |runIDs| :: Trim(runIDs[i]) == x
    ensures forall i | 0 <= i < |requests| :: 1 <= |requests[i]| <= 100
  {
    var ids := Normalize(runIDs);
    DistinctKeepsFirsts(Trimmed(runIDs));
    BatchesPartition(ids);
    forall x
      ensures x in ids <==> x != "" && exists i | 0 <= i < |runIDs| :: Trim(runIDs[i]) == x
    {
      TrimmedMembers(runIDs, x);
    }
    if |ids| == 0 {
      return [];
    }
    requests := SteppingBatches(ids);
  }
}
