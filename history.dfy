/** Linear undo/redo over whole-canvas snapshots, as pure functions of the
    canvas and the two stacks (most recent entry last). */
module History {

  /** Capacity of the undo stack. */
  const MaxHistory: nat := 50

  /** The canvas together with the undo and redo stacks. */
  datatype Hist<S> = Hist(canvas: S, undo: seq<S>, redo: seq<S>)

  /** The capacity invariant: both stacks together hold at most MaxHistory
      entries. */
  ghost predicate Bounded<S>(h: Hist<S>)
  {
    |h.undo| + |h.redo| <= MaxHistory
  }

  /** The newest `k` entries of `t` (all of `t` when it has no more). */
  function Newest<S>(t: seq<S>, k: nat): (r: seq<S>)
    ensures |r| == if |t| <= k then |t| else k
  {
    if |t| <= k then t else t[|t| - k..]
  }

  /** Push onto a stack, then drop the oldest entry once the stack holds more
      than MaxHistory. */
  function PushCapped<S>(stack: seq<S>, s: S): (r: seq<S>)
    ensures |stack| <= MaxHistory ==> r == Newest(stack + [s], MaxHistory)
    ensures |r| >= 1 && r[|r| - 1] == s
  {
    var t := stack + [s];
    if |t| > MaxHistory then t[1..] else t
  }

  /** pushHistory: when the canvas could be encoded, push it onto the undo
      stack and clear the redo stack; when encoding throws, nothing changes. */
  function Commit<S>(h: Hist<S>, encoded: bool): (r: Hist<S>)
    ensures r.canvas == h.canvas
    ensures encoded ==> r.redo == [] && |r.undo| >= 1 && r.undo[|r.undo| - 1] == h.canvas
    ensures encoded && |h.undo| < MaxHistory ==> r.undo == h.undo + [h.canvas]
    ensures encoded && |h.undo| >= MaxHistory ==> r.undo == h.undo[1..] + [h.canvas]
    ensures !encoded ==> r == h
  {
    if encoded then Hist(h.canvas, PushCapped(h.undo, h.canvas), []) else h
  }

  /** undo: with an entry to undo (and the current canvas encodable), move the
      current canvas onto the redo stack and restore the popped undo entry. */
  function Undo<S>(h: Hist<S>, encoded: bool): (r: Hist<S>)
    ensures |h.undo| == 0 || !encoded ==> r == h
    ensures |h.undo| > 0 && encoded ==> r.undo + [r.canvas] == h.undo && r.redo == h.redo + [h.canvas]
  {
    if |h.undo| == 0 || !encoded then h
    else Hist(h.undo[|h.undo| - 1], h.undo[..|h.undo| - 1], h.redo + [h.canvas])
  }

  /** redo: the mirror image of undo. */
  function Redo<S>(h: Hist<S>, encoded: bool): (r: Hist<S>)
    ensures |h.redo| == 0 || !encoded ==> r == h
    ensures |h.redo| > 0 && encoded ==> r.redo + [r.canvas] == h.redo && r.undo == h.undo + [h.canvas]
  {
    if |h.redo| == 0 || !encoded then h
    else Hist(h.redo[|h.redo| - 1], h.undo + [h.canvas], h.redo[..|h.redo| - 1])
  }

  /** The snapshots held by a history: the canvas and both stacks. */
  ghost function Held<S>(h: Hist<S>): multiset<S>
  {
    multiset(h.undo) + multiset(h.redo) + multiset{h.canvas}
  }

  /** Undo only moves snapshots around: the canvas and the two stacks
      together hold the same snapshots before and after. */
  lemma UndoKeepsSnapshots<S>(h: Hist<S>, encoded: bool)
    ensures Held(Undo(h, encoded)) == Held(h)
  {
    if |h.undo| > 0 && encoded {
      var r := Undo(h, encoded);
      assert h.undo == r.undo + [r.canvas];
      assert multiset(h.undo) == multiset(r.undo) + multiset{r.canvas};
      assert multiset(r.redo) == multiset(h.redo) + multiset{h.canvas};
    }
  }

  /** Redo only moves snapshots around, too. */
  lemma RedoKeepsSnapshots<S>(h: Hist<S>, encoded: bool)
    ensures Held(Redo(h, encoded)) == Held(h)
  {
    if |h.redo| > 0 && encoded {
      var r := Redo(h, encoded);
      assert h.redo == r.redo + [r.canvas];
      assert multiset(h.redo) == multiset(r.redo) + multiset{r.canvas};
      assert multiset(r.undo) == multiset(h.undo) + multiset{h.canvas};
    }
  }

  /** Undo and redo with an empty source stack change nothing. */
  lemma EmptyStacksAreNoOps<S>(h: Hist<S>, encoded: bool)
    ensures |h.undo| == 0 ==> Undo(h, encoded) == h
    ensures |h.redo| == 0 ==> Redo(h, encoded) == h
  {
  }

  /** A commit leaves exactly the committed canvas on top of the undo stack,
      keeps the newest earlier entries up to capacity, and leaves nothing to
      redo, so a redo right after a commit is a no-op. */
  lemma CommitSpec<S>(h: Hist<S>, encoded: bool)
    requires |h.undo| <= MaxHistory
    ensures var c := Commit(h, encoded);
      c.canvas == h.canvas &&
      (encoded ==> c.undo == Newest(h.undo + [h.canvas], MaxHistory) && c.redo == []) &&
      (encoded ==> forall e :: Redo(c, e) == c) &&
      (!encoded ==> c == h)
  {
  }

  /** Commit, undo and redo keep the capacity invariant; in particular the undo
      stack never holds more than MaxHistory entries, although redo pushes onto
      it without a capacity check. */
  lemma StepsKeepBounded<S>(h: Hist<S>, encoded: bool)
    requires Bounded(h)
    ensures Bounded(Commit(h, encoded)) && Bounded(Undo(h, encoded)) && Bounded(Redo(h, encoded))
    ensures |Redo(h, encoded).undo| <= MaxHistory
  {
  }

  /** Undo followed by redo returns to the very same state, and so does redo
      followed by undo. */
  lemma UndoRedoInverse<S>(h: Hist<S>)
    ensures |h.undo| > 0 ==> Redo(Undo(h, true), true) == h
    ensures |h.redo| > 0 ==> Undo(Redo(h, true), true) == h
  {
    if |h.undo| > 0 {
      assert h.undo[..|h.undo| - 1] + [h.undo[|h.undo| - 1]] == h.undo;
    }
    if |h.redo| > 0 {
      assert h.redo[..|h.redo| - 1] + [h.redo[|h.redo| - 1]] == h.redo;
    }
  }

  /** An undo straight after a commit restores the canvas that was just
      committed: the canvas shows no change, and the undo entry is spent. */
  lemma UndoAfterCommitKeepsCanvas<S>(h: Hist<S>)
    ensures Undo(Commit(h, true), true).canvas == h.canvas
    ensures Undo(Commit(h, true), true).redo == [h.canvas]
  {
  }

  /** Commit, then draw: undo brings back the canvas as it was at the commit
      and leaves the drawing alone on the redo stack; redo brings the drawing
      back. A commit at full capacity has evicted the oldest entry for good. */
  lemma CommitDrawUndoRedo<S>(h: Hist<S>, drawn: S)
    requires |h.undo| <= MaxHistory
    ensures var c := Commit(h, true).(canvas := drawn);
      var u := Undo(c, true);
      u.canvas == h.canvas && u.redo == [drawn] &&
      u.undo == Newest(h.undo, MaxHistory - 1) &&
      Redo(u, true) == c
  {
    var c := Commit(h, true).(canvas := drawn);
    UndoRedoInverse(c);
    var t := h.undo + [h.canvas];
    if |t| > MaxHistory {
      assert t[1..][..|t| - 2] == h.undo[1..];
    } else {
      assert t[..|t| - 1] == h.undo;
    }
  }

  /** Pushing a whole sequence of snapshots, one commit each. */
  function PushAll<S>(stack: seq<S>, ss: seq<S>): seq<S>
    decreases |ss|
  {
    if |ss| == 0 then stack else PushAll(PushCapped(stack, ss[0]), ss[1..])
  }

  /** Keeping the newest `k` entries and then appending and keeping the newest
      `k` again is the same as keeping the newest `k` of the whole. */
  lemma NewestAppend<S>(t: seq<S>, u: seq<S>, k: nat)
    ensures Newest(Newest(t, k) + u, k) == Newest(t + u, k)
  {
    if |t| > k {
      var t' := t[|t| - k..];
      if |t' + u| > k {
        assert (t' + u)[|t' + u| - k..] == (t + u)[|t + u| - k..];
      }
    }
  }

  /** A run of commits keeps exactly the newest MaxHistory snapshots, oldest
      evicted first: from an empty stack, N commits leave min(N, MaxHistory)
      entries, the last ones committed, in order. */
  lemma {:induction false} PushAllKeepsNewest<S>(stack: seq<S>, ss: seq<S>)
    requires |stack| <= MaxHistory
    ensures PushAll(stack, ss) == Newest(stack + ss, MaxHistory)
    decreases |ss|
  {
    if |ss| == 0 {
      assert stack + ss == stack;
    } else {
      var next := PushCapped(stack, ss[0]);
      PushAllKeepsNewest(next, ss[1..]);
      NewestAppend(stack + [ss[0]], ss[1..], MaxHistory);
      assert stack + [ss[0]] + ss[1..] == stack + ss;
    }
  }

  /** `k` undos in a row, and `k` redos in a row. */
  function UndoN<S>(h: Hist<S>, k: nat): Hist<S>
  {
    if k == 0 then h else Undo(UndoN(h, k - 1), true)
  }

  function RedoN<S>(h: Hist<S>, k: nat): Hist<S>
    decreases k
  {
    if k == 0 then h else RedoN(Redo(h, true), k - 1)
  }

  /** `k` undos in a row pop the newest `k` undo entries: the undo stack keeps
      its older entries, the canvas becomes the `k`-th entry from the top of
      undo + [canvas], and the redo stack gains the entries above it, newest
      first, on top of what it held. */
  lemma {:induction false} UndoNMovesEntries<S>(h: Hist<S>, k: nat)
    requires k <= |h.undo|
    ensures var u := UndoN(h, k);
      var w := h.undo + [h.canvas];
      u.undo == h.undo[..|h.undo| - k] &&
      u.canvas == w[|h.undo| - k] &&
      |u.redo| == |h.redo| + k && u.redo[..|h.redo|] == h.redo &&
      forall j :: |h.redo| <= j < |h.redo| + k ==> u.redo[j] == w[|h.undo| + |h.redo| - j]
  {
    var n, m, w := |h.undo|, |h.redo|, h.undo + [h.canvas];
    if k == 0 {
      assert h.undo[..n] == h.undo;
    } else {
      UndoNMovesEntries(h, k - 1);
      var s := UndoN(h, k - 1);
      assert |s.undo| == n - k + 1;
      assert s.undo[n - k] == h.undo[n - k];
      assert s.undo[..n - k] == h.undo[..n - k];
      var u := Undo(s, true);
      assert u == UndoN(h, k);
      assert u.redo == s.redo + [s.canvas];
      forall j | m <= j < m + k
        ensures u.redo[j] == w[n + m - j]
      {
        if j < m + k - 1 {
          assert u.redo[j] == s.redo[j];
        }
      }
      assert u.redo[..m] == s.redo[..m];
    }
  }

  /** Undoing `k` steps and redoing `k` steps returns to the same canvas and
      the same stacks. */
  lemma {:induction false} UndoNRedoN<S>(h: Hist<S>, k: nat)
    requires k <= |h.undo|
    ensures RedoN(UndoN(h, k), k) == h
  {
    if k > 0 {
      var before := UndoN(h, k - 1);
      assert |before.undo| > 0 by {
        UndoNMovesEntries(h, k - 1);
      }
      UndoRedoInverse(before);
      assert Redo(UndoN(h, k), true) == before;
      assert RedoN(UndoN(h, k), k) == RedoN(before, k - 1);
      UndoNRedoN(h, k - 1);
    }
  }

  /** Every way the application changes the canvas or its history: the three
      history operations, and any drawing, which replaces the canvas and
      leaves both stacks alone. */
  datatype Action<S> =
    | DoCommit(encoded: bool)
    | DoUndo(encoded: bool)
    | DoRedo(encoded: bool)
    | DoDraw(canvas: S)

  function Step<S>(h: Hist<S>, a: Action<S>): Hist<S>
  {
    match a
    case DoCommit(e) => Commit(h, e)
    case DoUndo(e) => Undo(h, e)
    case DoRedo(e) => Redo(h, e)
    case DoDraw(c) => h.(canvas := c)
  }

  function Run<S>(h: Hist<S>, actions: seq<Action<S>>): Hist<S>
    decreases |actions|
  {
    if |actions| == 0 then h else Run(Step(h, actions[0]), actions[1..])
  }

  /** Whatever the user does, starting from a bounded history (such as the
      empty one), neither stack ever exceeds MaxHistory entries. */
  lemma {:induction false} RunKeepsBounded<S>(h: Hist<S>, actions: seq<Action<S>>)
    requires Bounded(h)
    ensures Bounded(Run(h, actions))
    ensures |Run(h, actions).undo| <= MaxHistory && |Run(h, actions).redo| <= MaxHistory
    decreases |actions|
  {
    if |actions| > 0 {
      match actions[0] {
        case DoCommit(e) => StepsKeepBounded(h, e);
        case DoUndo(e) => StepsKeepBounded(h, e);
        case DoRedo(e) => StepsKeepBounded(h, e);
        case DoDraw(_) =>
      }
      RunKeepsBounded(Step(h, actions[0]), actions[1..]);
    }
  }
}
