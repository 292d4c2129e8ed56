/** Inspection of a list's spine by two pointers over possibly cyclic cells. */
module Spine {

  /** A dereferenced term word. Elements of a list are not looked at, so only the tails of cells matter. */
  datatype Word = Unbound | ListAt(cell: nat) | NilAtom | OtherTerm

  /** The tail of every list cell. */
  type Heap = seq<Word>

  predicate WellFormed(h: Heap, w: Word) {
    (w.ListAt? ==> w.cell < |h|) && forall i :: 0 <= i < |h| && h[i].ListAt? ==> h[i].cell < |h|
  }

  datatype Kind = Open | Proper | Improper | Cyclic

  function Terminal(w: Word): Kind
    requires !w.ListAt?
  {
    match w
    case Unbound => Open
    case NilAtom => Proper
    case OtherTerm => Improper
  }

  /** The word reached after n tails; the final tail is not left. */
  function Walk(h: Heap, w: Word, n: nat): (r: Word)
    requires WellFormed(h, w)
    ensures WellFormed(h, r)
    decreases n
  {
    if n == 0 || !w.ListAt? then w else Walk(h, h[w.cell], n - 1)
  }

  lemma {:induction false} WalkAdd(h: Heap, w: Word, a: nat, b: nat)
    requires WellFormed(h, w)
    ensures Walk(h, w, a + b) == Walk(h, Walk(h, w, a), b)
    decreases a
  {
    if a > 0 && w.ListAt? {
      WalkAdd(h, h[w.cell], a - 1, b);
    } else if !w.ListAt? {
      Stays(h, w, b);
    }
  }

  lemma {:induction false} Stays(h: Heap, w: Word, n: nat)
    requires WellFormed(h, w) && !w.ListAt?
    ensures Walk(h, w, n) == w
  {
  }

  /** The tail chain never leaves the list cells: it has entered a cycle. */
  ghost predicate NeverEnds(h: Heap, w: Word)
    requires WellFormed(h, w)
  {
    forall n: nat :: Walk(h, w, n).ListAt?
  }

  /** The cells visited by the first n tails. */
  function Visited(h: Heap, w: Word, n: nat): (r: seq<nat>)
    requires WellFormed(h, w)
    ensures |r| == n
  {
    if n == 0 then []
    else Visited(h, w, n - 1) + [if Walk(h, w, n - 1).ListAt? then Walk(h, w, n - 1).cell else 0]
  }

  lemma {:induction false} VisitedAt(h: Heap, w: Word, n: nat, i: nat)
    requires WellFormed(h, w) && NeverEnds(h, w) && i < n
    ensures Walk(h, w, i) == ListAt(Visited(h, w, n)[i])
  {
    if i < n - 1 {
      VisitedAt(h, w, n - 1, i);
    } else {
      assert Walk(h, w, i).ListAt?;
    }
  }

  /** Among more entries than there are values, two coincide. */
  lemma {:induction false} Pigeonhole(s: seq<nat>, bound: nat) returns (i: nat, j: nat)
    requires |s| > bound && forall k :: 0 <= k < |s| ==> s[k] < bound
    ensures i < j < |s| && s[i] == s[j]
    decreases bound
  {
    var last := |s| - 1;
    if k :| 0 <= k < last && s[k] == s[last] {
      i, j := k, last;
    } else {
      // rename the largest value to the value of the last entry and drop that entry
      var t := seq(last, (k: int) => if 0 <= k < last && s[k] == bound - 1 then s[last] else if 0 <= k < last then s[k] else 0);
      forall k | 0 <= k < last ensures t[k] < bound - 1 {
        assert s[k] != s[last];
      }
      i, j := Pigeonhole(t, bound - 1);
      assert s[i] != s[last] && s[j] != s[last];
    }
  }

  /** On a cyclic chain, some number m of rounds brings both pointers to the same cell. */
  lemma Meeting(h: Heap, w: Word) returns (m: nat)
    requires WellFormed(h, w) && NeverEnds(h, w)
    ensures 1 <= m && Walk(h, w, m) == Walk(h, w, 2 * m)
  {
    var n := |h| + 1;
    forall k | 0 <= k < n ensures Visited(h, w, n)[k] < |h| {
      VisitedAt(h, w, n, k);
      assert WellFormed(h, Walk(h, w, k));
    }
    var i, j := Pigeonhole(Visited(h, w, n), |h|);
    VisitedAt(h, w, n, i);
    VisitedAt(h, w, n, j);
    var period := j - i;
    var rounds := i + 1;
    m := period * rounds;
    assert m >= rounds by {
      Product(period, rounds);
    }
    Repeats(h, w, i, period, m - i, rounds);
    assert i + (m - i) == m && i + (m - i) + rounds * period == 2 * m;
  }

  lemma Product(period: nat, rounds: nat)
    requires period >= 1
    ensures period * rounds >= rounds
  {
  }

  lemma {:induction false} Repeats(h: Heap, w: Word, i: nat, period: nat, k: nat, times: nat)
    requires WellFormed(h, w) && Walk(h, w, i) == Walk(h, w, i + period)
    ensures Walk(h, w, i + k) == Walk(h, w, i + k + times * period)
  {
    if times > 0 {
      Repeats(h, w, i, period, k, times - 1);
      var d := k + (times - 1) * period;
      WalkAdd(h, w, i, d);
      WalkAdd(h, w, i + period, d);
      assert i + period + d == i + k + times * period;
      assert i + d == i + k + (times - 1) * period;
    }
  }

  /** `iso_native_spine_kind`. Terminates on every finite cell graph, and reports a cycle exactly when the chain of
      tails never ends; otherwise it reports the class of the final tail. */
  method SpineKind(h: Heap, list: Word) returns (kind: Kind)
    requires WellFormed(h, list)
    ensures kind == Cyclic <==> NeverEnds(h, list)
    ensures kind != Cyclic ==> exists n: nat :: !Walk(h, list, n).ListAt? && kind == Terminal(Walk(h, list, n))
  {
    ghost var meet: nat := 0;
    ghost var end: nat := 0;
    if NeverEnds(h, list) {
      meet := Meeting(h, list);
    } else {
      end :| !Walk(h, list, end).ListAt?;
    }
    ghost var bound := meet + end;
    var fast, slow := list, list;
    ghost var k: nat := 0;
    while true
      invariant WellFormed(h, fast) && WellFormed(h, slow)
      invariant fast == Walk(h, list, 2 * k) && slow == Walk(h, list, k)
      invariant NeverEnds(h, list) ==> k < meet
      invariant !NeverEnds(h, list) ==> k <= end
      decreases bound - k
    {
      ghost var from := fast;
      if !fast.ListAt? {
        return Terminal(fast);
      }
      fast := h[fast.cell];
      StepFrom(h, list, 2 * k);
      if !fast.ListAt? {
        return Terminal(fast);
      }
      fast := h[fast.cell];
      StepFrom(h, list, 2 * k + 1);
      EarlierIsList(h, list, k, 2 * k);
      if !NeverEnds(h, list) {
        ListsComeFirst(h, list, k, end);
      }
      slow := h[slow.cell];
      StepFrom(h, list, k);
      k := k + 1;
      if fast.ListAt? && slow.ListAt? && fast.cell == slow.cell {
        SamePlaceCycles(h, list, k);
        return Cyclic;
      }
    }
  }

  lemma StepFrom(h: Heap, w: Word, n: nat)
    requires WellFormed(h, w) && Walk(h, w, n).ListAt?
    ensures Walk(h, w, n + 1) == h[Walk(h, w, n).cell]
  {
    WalkAdd(h, w, n, 1);
    assert Walk(h, h[Walk(h, w, n).cell], 0) == h[Walk(h, w, n).cell];
  }

  lemma LaterIsFinal(h: Heap, w: Word, n: nat, later: nat)
    requires WellFormed(h, w) && !Walk(h, w, n).ListAt? && n <= later
    ensures Walk(h, w, later) == Walk(h, w, n)
  {
    WalkAdd(h, w, n, later - n);
    Stays(h, Walk(h, w, n), later - n);
  }

  lemma EarlierIsList(h: Heap, w: Word, n: nat, later: nat)
    requires WellFormed(h, w) && Walk(h, w, later).ListAt? && n <= later
    ensures Walk(h, w, n).ListAt?
  {
    if !Walk(h, w, n).ListAt? {
      LaterIsFinal(h, w, n, later);
    }
  }

  lemma ListsComeFirst(h: Heap, w: Word, n: nat, end: nat)
    requires WellFormed(h, w) && Walk(h, w, n).ListAt? && !Walk(h, w, end).ListAt?
    ensures n < end
  {
    if end <= n {
      LaterIsFinal(h, w, end, n);
    }
  }

  /** Two different positions in the same cell: the chain goes round for ever. */
  lemma SamePlaceCycles(h: Heap, w: Word, k: nat)
    requires WellFormed(h, w) && k >= 1 && Walk(h, w, k) == Walk(h, w, 2 * k) && Walk(h, w, k).ListAt?
    ensures NeverEnds(h, w)
  {
    forall n: nat ensures Walk(h, w, n).ListAt? {
      RoundAndRound(h, w, k, n);
    }
  }

  lemma RoundAndRound(h: Heap, w: Word, k: nat, n: nat)
    requires WellFormed(h, w) && k >= 1 && Walk(h, w, k) == Walk(h, w, 2 * k) && Walk(h, w, k).ListAt?
    ensures Walk(h, w, n).ListAt?
  {
    Repeats(h, w, k, k, 0, n);
    var rounds := n * k;
    Product(k, n);
    assert rounds == k * n;
    EarlierIsList(h, w, n, k + 0 + rounds);
  }

  /** A chain has one class: the final tail does not depend on how far one walks. */
  lemma KindUnique(h: Heap, w: Word, m: nat, n: nat)
    requires WellFormed(h, w) && !Walk(h, w, m).ListAt? && !Walk(h, w, n).ListAt?
    ensures Walk(h, w, m) == Walk(h, w, n)
  {
    LaterIsFinal(h, w, m, m + n);
    LaterIsFinal(h, w, n, m + n);
  }
}
