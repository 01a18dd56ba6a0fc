// Pruning one session of the legacy message log (prune-legacy-message-log.py).
module Prune {
  import opened Common

  /** Creation times of the messages that are left, by sequence. */
  type Rows = map<int, int>

  /** The log of a session with sequences up to `last`: a prefix may have been pruned already, and time only grows. */
  ghost predicate IsLog(rows: Rows, last: int) {
    && (forall s | s in rows :: 1 <= s <= last)
    && (forall s, t | s in rows && s <= t <= last :: t in rows)
    && (forall s, t | s in rows && t in rows && s <= t :: rows[s] <= rows[t])
  }

  /** `b` parts the messages before a moment from those at or after it. */
  ghost predicate IsBoundary(rows: Rows, last: int, cutoff: int, b: int) {
    && 1 <= b <= last + 1
    && (forall s | s in rows :: rows[s] >= cutoff <==> s >= b)
    && (b <= last ==> b in rows)
  }

  /** `boundary_seq`. */
  method BoundarySeq(rows: Rows, last: int, cutoff: int) returns (b: int)
    requires last >= 0 && IsLog(rows, last)
    ensures IsBoundary(rows, last, cutoff, b)
  {
    var lo, hi := 1, last + 1;
    while lo < hi
      invariant 1 <= lo <= hi <= last + 1
      invariant forall s | s in rows && s < lo :: rows[s] < cutoff
      invariant forall s | s in rows && s >= hi :: rows[s] >= cutoff
      invariant hi <= last ==> hi in rows
    {
      var mid := (lo + hi) / 2;
      if mid !in rows {
        lo := mid + 1;
      } else if rows[mid] >= cutoff {
        hi := mid;
      } else {
        lo := mid + 1;
      }
    }
    b := lo;
  }

  /** `cutoff` and `safety` are moments: nothing from before them is within the retention or the safety window. */
  datatype Limits = Limits(cutoff: int, safety: int, maxMsgs: int, minKeep: int)

  /** What is to go: whatever has `maxMsgs` newer sequences, and whatever is outside both windows and outside the
      tail that is always kept. A session that is all tail is left alone. */
  ghost predicate Doomed(rows: Rows, last: int, limits: Limits, s: int) {
    && s in rows && last > limits.minKeep
    && (s <= last - limits.maxMsgs
        || (rows[s] < limits.cutoff && rows[s] < limits.safety && s <= last - limits.minKeep))
  }

  /** `plan`, for one session: the first sequence to keep, or none where nothing is to be deleted. */
  method Plan(rows: Rows, last: int, limits: Limits) returns (keep: Option<int>)
    requires last > 0 && IsLog(rows, last)
    ensures forall s | s in rows :: Doomed(rows, last, limits, s) <==> keep.Some? && s < keep.value
  {
    if last <= limits.minKeep {
      return None;
    }
    var cutoffSeq := BoundarySeq(rows, last, limits.cutoff);
    var safetySeq := BoundarySeq(rows, last, limits.safety);
    var keepSeq := Min(last - limits.minKeep + 1, Min(cutoffSeq, safetySeq));
    keepSeq := Max(keepSeq, Max(last - limits.maxMsgs + 1, 1));
    keep := if keepSeq > 1 then Some(keepSeq) else None;
  }

  lemma SomeElement<T>(keys: set<T>) returns (k: T)
    requires keys != {}
    ensures k in keys
  {
    k :| k in keys;
  }

  method Lowest(rows: Rows) returns (lowest: Option<int>)
    ensures rows == map[] ==> lowest == None
    ensures rows != map[] ==> lowest.Some? && lowest.value in rows && forall s | s in rows :: lowest.value <= s
  {
    var left := rows.Keys;
    lowest := None;
    while left != {}
      invariant left <= rows.Keys
      invariant lowest == None ==> left == rows.Keys
      invariant rows == map[] ==> lowest == None
      invariant lowest.Some? ==> lowest.value in rows && forall s | s in rows && s !in left :: lowest.value <= s
      decreases |left|
    {
      ghost var some := SomeElement(left);
      var k :| k in left;
      left := left - {k};
      lowest := if lowest == None || k < lowest.value then Some(k) else lowest;
    }
  }

  /** The rows from `first` on. */
  function From(rows: Rows, first: int): Rows {
    map s | s in rows && s >= first :: rows[s]
  }

  /** The deletes of `run` for one session, in batches, each of them a range of the rows there were before. */
  method Delete(rows: Rows, keepSeq: int, batchRows: int) returns (left: Rows)
    requires batchRows >= 1
    ensures left == From(rows, keepSeq)
  {
    var lowest := Lowest(rows);
    left := rows;
    if lowest == None || lowest.value >= keepSeq {
      return;
    }
    var start := lowest.value;
    while start < keepSeq
      invariant lowest.value <= start <= keepSeq
      invariant left == From(rows, start)
      decreases keepSeq - start
    {
      var end := Min(start + batchRows - 1, keepSeq - 1);
      left := map s | s in left && !(start <= s <= end) :: left[s];
      start := end + 1;
    }
  }

  /** A whole run on one session deletes exactly what is doomed and changes nothing else: an old message outside the
      tail, and one with `maxMsgs` newer sequences, and nothing of a session that is all tail. */
  method PruneSession(rows: Rows, last: int, limits: Limits, batchRows: int) returns (left: Rows)
    requires last > 0 && IsLog(rows, last) && batchRows >= 1
    ensures forall s :: s in left <==> s in rows && !Doomed(rows, last, limits, s)
    ensures forall s | s in left :: left[s] == rows[s]
    ensures last <= limits.minKeep ==> forall s | s in rows :: s in left
    ensures last > limits.minKeep ==>
              && (forall s | s in rows && s <= last - limits.maxMsgs :: s !in left)
              && (forall s | s in rows && rows[s] < limits.cutoff && rows[s] < limits.safety
                             && s <= last - limits.minKeep :: s !in left)
    ensures forall s | s in rows && s > last - limits.maxMsgs
                       && (rows[s] >= limits.cutoff || rows[s] >= limits.safety || s > last - limits.minKeep) ::
              s in left
  {
    var keep := Plan(rows, last, limits);
    left := rows;
    if keep.Some? {
      left := Delete(rows, keep.value, batchRows);
    }
  }

  lemma {:induction false} AtMost(keys: set<int>, low: int, n: nat)
    requires forall s | s in keys :: low < s <= low + n
    ensures |keys| <= n
  {
    if n == 0 {
      assert forall s :: s !in keys;
    } else {
      var rest := keys - {low + n};
      AtMost(rest, low, n - 1);
      SubsetSize(keys, rest + {low + n});
    }
  }

  lemma SubsetSize(a: set<int>, b: set<int>)
    requires a <= b
    ensures |a| <= |b|
  {
    assert b == a + (b - a);
  }

  /** At most `maxMsgs` messages are left. */
  lemma SizeCeiling(rows: Rows, last: int, limits: Limits, left: Rows)
    requires last > 0 && IsLog(rows, last) && 0 <= limits.minKeep <= limits.maxMsgs
    requires forall s :: s in left <==> s in rows && !Doomed(rows, last, limits, s)
    ensures |left| <= limits.maxMsgs
  {
    if last <= limits.minKeep {
      AtMost(left.Keys, 0, last);
    } else {
      AtMost(left.Keys, last - limits.maxMsgs, limits.maxMsgs);
    }
    assert |left.Keys| == |left|;
  }

  /** A message that is within a window, or in the tail, goes only if `maxMsgs` newer ones stay. */
  lemma NewerOnesStay(rows: Rows, last: int, limits: Limits, s: int)
    requires last > 0 && IsLog(rows, last)
    requires Doomed(rows, last, limits, s)
    requires rows[s] >= limits.cutoff || rows[s] >= limits.safety || s > last - limits.minKeep
    ensures s <= last - limits.maxMsgs
    ensures forall t | last - limits.maxMsgs < t <= last :: t in rows && !Doomed(rows, last, limits, t)
  {
    forall t | last - limits.maxMsgs < t <= last
      ensures t in rows && !Doomed(rows, last, limits, t)
    {
      assert t in rows && rows[s] <= rows[t];
    }
  }

  /** The tool's description says that nothing newer than the safety line is deleted. That holds exactly where the
      newest `maxMsgs` sequences reach back to that line, or the session is all tail. */
  lemma SafetyHolds(rows: Rows, last: int, limits: Limits)
    requires last > 0 && IsLog(rows, last)
    ensures var m := Min(last, last - limits.maxMsgs);
            (forall s | s in rows && rows[s] >= limits.safety :: !Doomed(rows, last, limits, s))
            <==> (last <= limits.minKeep || m !in rows || rows[m] < limits.safety)
  {
    var m := Min(last, last - limits.maxMsgs);
    if last > limits.minKeep && m in rows && rows[m] >= limits.safety {
      assert Doomed(rows, last, limits, m);
    }
    forall s | s in rows && s <= m
      ensures m in rows && rows[s] <= rows[m]
    {
    }
  }

  /** It does not hold of two new messages with room for one. */
  lemma SafetyFails()
    ensures var rows: Rows, limits := map[1 := 10, 2 := 11], Limits(10, 10, 1, 1);
            IsLog(rows, 2) && rows[1] >= limits.safety && Doomed(rows, 2, limits, 1)
  {
  }

  /** It also says that every session always keeps its newest `minKeep` messages. That holds exactly where the size
      ceiling does not reach into that tail, or what it would reach there is gone already, or the session is all
      tail. */
  lemma TailIsKept(rows: Rows, last: int, limits: Limits)
    requires last > 0 && IsLog(rows, last)
    ensures var m := Min(last, last - limits.maxMsgs);
            (forall s | s in rows && s > last - limits.minKeep :: !Doomed(rows, last, limits, s))
            <==> (last <= limits.minKeep || m <= last - limits.minKeep || m !in rows)
  {
    var m := Min(last, last - limits.maxMsgs);
    if last > limits.minKeep && m > last - limits.minKeep && m in rows {
      assert Doomed(rows, last, limits, m);
    }
    forall s | s in rows && s <= m
      ensures m in rows
    {
    }
  }

  /** It does not hold of three messages with room for one where two are to be kept. */
  lemma TailFails()
    ensures var rows: Rows, limits := map[1 := 10, 2 := 11, 3 := 12], Limits(10, 10, 1, 2);
            IsLog(rows, 3) && 2 > 3 - limits.minKeep && Doomed(rows, 3, limits, 2)
  {
  }
}
