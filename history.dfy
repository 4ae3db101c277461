/**
 * The undo/redo history manager (scripts/history.js).
 *
 * The history is a bounded linear stack of opaque scene snapshots with a
 * cursor.  The pure functions below give the meaning of each operation on a
 * `State` value; the class `HistoryManager` is the mutable object of the
 * source, and every one of its methods is proved to act on its fields as the
 * corresponding function does.
 */
module History {
  import opened Wrappers

  /** Number of snapshots kept before the oldest is evicted (history.js:8). */
  const Limit: nat := 20

  /** The fields of the manager: snapshot stack, cursor, and the restore-in-flight flag. */
  datatype State<S> = State(stack: seq<S>, index: int, processing: bool)

  /** The result of undo/redo: the new state, and the snapshot handed to the canvas to restore, if any. */
  datatype Step<S> = Step(state: State<S>, restore: Option<S>)

  /**
   * The invariant every reachable state satisfies: the cursor is -1 exactly
   * when the stack is empty and otherwise points into the stack, and the stack
   * never holds more than `Limit` snapshots.
   */
  predicate Invariant<S>(h: State<S>) {
    -1 <= h.index < |h.stack| && (h.index == -1 <==> h.stack == []) && |h.stack| <= Limit
  }

  /** The state the manager starts in (history.js:6-9). */
  function Initial<S>(): (r: State<S>)
    ensures Invariant(r)
  {
    State([], -1, false)
  }

  /** Undo is offered when the cursor is past the first entry (history.js:65). */
  predicate CanUndo<S>(h: State<S>)
    ensures Invariant(h) ==> (CanUndo(h) <==> 0 <= h.index - 1 < |h.stack|)
  {
    h.index > 0
  }

  /** Redo is offered when the cursor is before the last entry (history.js:66). */
  predicate CanRedo<S>(h: State<S>)
    ensures Invariant(h) ==> (CanRedo(h) <==> 0 <= h.index + 1 < |h.stack|)
  {
    h.index < |h.stack| - 1
  }

  /**
   * `push` (history.js:11-29): ignored while a restore is in flight; otherwise
   * the redo branch is dropped, the snapshot appended, and the oldest entry
   * evicted once the stack outgrows the limit.
   */
  function Pushed<S>(h: State<S>, s: S): (r: State<S>)
    requires Invariant(h)
    ensures Invariant(r)
    ensures h.processing ==> r == h
    ensures !h.processing ==> |r.stack| >= 1 && r.index == |r.stack| - 1 && r.stack[r.index] == s && !r.processing
    ensures !h.processing ==> !CanRedo(r)
  {
    if h.processing then h
    else
      var kept := if h.index < |h.stack| - 1 then h.stack[..h.index + 1] else h.stack;
      var appended := kept + [s];
      if |appended| > Limit then State(appended[1..], h.index, false)
      else State(appended, h.index + 1, false)
  }

  /** `undo` (history.js:31-37) together with the first half of `loadState` (history.js:47-48). */
  function Undone<S>(h: State<S>): (r: Step<S>)
    requires Invariant(h)
    ensures Invariant(r.state) && r.state.stack == h.stack
    ensures CanUndo(h) ==> r.state.index == h.index - 1 && r.state.processing && r.restore == Some(h.stack[h.index - 1])
    ensures !CanUndo(h) ==> r == Step(h, None)
  {
    if h.index > 0 then Step(State(h.stack, h.index - 1, true), Some(h.stack[h.index - 1]))
    else Step(h, None)
  }

  /** `redo` (history.js:39-45) together with the first half of `loadState` (history.js:47-48). */
  function Redone<S>(h: State<S>): (r: Step<S>)
    requires Invariant(h)
    ensures Invariant(r.state) && r.state.stack == h.stack
    ensures CanRedo(h) ==> r.state.index == h.index + 1 && r.state.processing && r.restore == Some(h.stack[h.index + 1])
    ensures !CanRedo(h) ==> r == Step(h, None)
  {
    if h.index < |h.stack| - 1 then Step(State(h.stack, h.index + 1, true), Some(h.stack[h.index + 1]))
    else Step(h, None)
  }

  /** The completion callback of `loadFromJSON` in `loadState` (history.js:49-53). */
  function Finished<S>(h: State<S>): (r: State<S>)
    requires Invariant(h)
    ensures Invariant(r) && r.stack == h.stack && r.index == h.index && !r.processing
  {
    h.(processing := false)
  }

  /** `clear` (history.js:56-60); note that it leaves the restore flag as it was. */
  function Cleared<S>(h: State<S>): (r: State<S>)
    ensures Invariant(r) && !CanUndo(r) && !CanRedo(r)
  {
    State([], -1, h.processing)
  }

  /** A run of pushes, in order. */
  function PushAll<S>(h: State<S>, xs: seq<S>): (r: State<S>)
    requires Invariant(h)
    ensures Invariant(r)
    ensures h.processing ==> r == h
    ensures !h.processing && xs != [] ==>
              0 <= r.index == |r.stack| - 1 && r.stack[r.index] == xs[|xs| - 1] && !r.processing
    decreases |xs|
  {
    if xs == [] then h else PushAll(Pushed(h, xs[0]), xs[1..])
  }

  /** The last `n` elements of `xs` (all of them when there are fewer). */
  function LastN<S>(xs: seq<S>, n: nat): (r: seq<S>)
    ensures |r| == if |xs| <= n then |xs| else n
  {
    if |xs| <= n then xs else xs[|xs| - n..]
  }

  /** `k` undo steps in a row (each one only moves the cursor). */
  function UndoTimes<S>(h: State<S>, k: nat): (r: State<S>)
    requires Invariant(h)
    ensures Invariant(r) && r.stack == h.stack
    decreases k
  {
    if k == 0 then h else UndoTimes(Undone(h).state, k - 1)
  }

  /** `k` redo steps in a row. */
  function RedoTimes<S>(h: State<S>, k: nat): (r: State<S>)
    requires Invariant(h)
    ensures Invariant(r) && r.stack == h.stack
    decreases k
  {
    if k == 0 then h else RedoTimes(Redone(h).state, k - 1)
  }

  /**
   * What an accepted push does, in one law: the stack is cut back to the
   * entries up to the cursor, the snapshot is appended, and if that leaves the
   * stack over the limit its oldest entry is gone and the cursor stays put.
   * Every entry up to the cursor survives unchanged (except an evicted first one).
   */
  lemma {:induction false} PushShape<S>(h: State<S>, s: S)
    requires Invariant(h) && !h.processing
    ensures var kept := h.stack[..h.index + 1];
            if |kept| < Limit then Pushed(h, s) == State(kept + [s], h.index + 1, false)
            else Pushed(h, s) == State(kept[1..] + [s], h.index, false)
  {
    var kept := h.stack[..h.index + 1];
    if h.index == |h.stack| - 1 {
      assert kept == h.stack;
    }
    if |kept| >= Limit {
      assert (kept + [s])[1..] == kept[1..] + [s];
    }
  }

  /** A push made from inside the history (cursor before the end) discards the redo branch (history.js:17-19). */
  lemma {:induction false} PushDiscardsRedoBranch<S>(h: State<S>, s: S)
    requires Invariant(h) && !h.processing && CanRedo(h)
    ensures Pushed(h, s).stack == h.stack[..h.index + 1] + [s]
    ensures Pushed(h, s).index == h.index + 1
  {
    PushShape(h, s);
  }

  /** A push onto a full stack at its end evicts the oldest entry and keeps the cursor (history.js:22-26). */
  lemma {:induction false} PushEvictsOldest<S>(h: State<S>, s: S)
    requires Invariant(h) && !h.processing && |h.stack| == Limit && !CanRedo(h)
    ensures Pushed(h, s).stack == h.stack[1..] + [s]
    ensures Pushed(h, s).index == h.index == Limit - 1
  {
    PushShape(h, s);
    assert h.stack[..h.index + 1] == h.stack;
  }

  /**
   * Pushing the snapshots `xs` into a cleared history keeps exactly the last
   * `Limit` of them, with the cursor on the newest: once full, the oldest
   * history is lost for good.
   */
  lemma {:induction false} PushAllFromEmpty<S>(xs: seq<S>)
    ensures PushAll(Initial(), xs) == State(LastN(xs, Limit), |LastN(xs, Limit)| - 1, false)
  {
    PushAllFrom(Initial(), [], xs);
  }

  /**
   * After a run of pushes into a cleared history, undo is offered exactly
   * when at least two snapshots were pushed (the first one is the floor
   * the cursor cannot go below), and redo is not offered.
   */
  lemma {:induction false} UndoOfferedAfterPushes<S>(xs: seq<S>)
    ensures CanUndo(PushAll(Initial(), xs)) <==> |xs| >= 2
    ensures !CanRedo(PushAll(Initial(), xs))
  {
    PushAllFromEmpty(xs);
  }

  /**
   * More pushes than the limit keep only the newest `Limit` snapshots, and
   * undoing as far as possible reaches the oldest one kept, not the first
   * one pushed.
   */
  lemma {:induction false} OverflowForgetsOldest<S>(xs: seq<S>)
    requires |xs| >= Limit
    ensures var r := PushAll(Initial(), xs);
            r.stack == xs[|xs| - Limit..] && r.index == Limit - 1 &&
            var u := UndoTimes(r, Limit - 1);
            u.index == 0 && u.stack[u.index] == xs[|xs| - Limit] && !CanUndo(u)
  {
    PushAllFromEmpty(xs);
    var r := PushAll(Initial(), xs);
    UndoTimesIndex(r, Limit - 1);
  }

  /** The generalisation used to prove `PushAllFromEmpty`: start from any state that is the tail of a run. */
  lemma {:induction false} PushAllFrom<S>(h: State<S>, done: seq<S>, xs: seq<S>)
    requires h == State(LastN(done, Limit), |LastN(done, Limit)| - 1, false)
    ensures PushAll(h, xs) == State(LastN(done + xs, Limit), |LastN(done + xs, Limit)| - 1, false)
    decreases |xs|
  {
    if xs == [] {
      assert done + xs == done;
    } else {
      var h' := Pushed(h, xs[0]);
      PushOneMore(h, done, xs[0]);
      assert done + xs == (done + [xs[0]]) + xs[1..];
      PushAllFrom(h', done + [xs[0]], xs[1..]);
    }
  }

  /** One step of `PushAllFrom`. */
  lemma {:induction false} PushOneMore<S>(h: State<S>, done: seq<S>, x: S)
    requires h == State(LastN(done, Limit), |LastN(done, Limit)| - 1, false)
    ensures Pushed(h, x) == State(LastN(done + [x], Limit), |LastN(done + [x], Limit)| - 1, false)
  {
    var kept := LastN(done, Limit);
    PushShape(h, x);
    assert h.stack[..h.index + 1] == kept;
    var all := done + [x];
    if |done| < Limit {
      assert LastN(all, Limit) == kept + [x];
    } else {
      assert LastN(all, Limit) == kept[1..] + [x];
    }
  }

  /** From a state with nothing to redo, a run of pushes keeps the last `Limit` of the old stack followed by the run. */
  lemma {:induction false} PushAllAtEnd<S>(h: State<S>, xs: seq<S>)
    requires Invariant(h) && !h.processing && h.index == |h.stack| - 1
    ensures PushAll(h, xs) == State(LastN(h.stack + xs, Limit), |LastN(h.stack + xs, Limit)| - 1, false)
  {
    assert LastN(h.stack, Limit) == h.stack;
    PushAllFrom(h, h.stack, xs);
  }

  /**
   * After a run of at most `Limit` accepted pushes, the run itself is the
   * top of the stack, newest at the cursor, and nothing is left to redo.
   */
  lemma {:induction false} PushAllTop<S>(h: State<S>, xs: seq<S>)
    requires Invariant(h) && !h.processing && 1 <= |xs| <= Limit
    ensures var r := PushAll(h, xs);
            |xs| - 1 <= r.index == |r.stack| - 1 && r.stack[r.index + 1 - |xs|..] == xs
  {
    var h1 := Pushed(h, xs[0]);
    assert PushAll(h, xs) == PushAll(h1, xs[1..]);
    PushAllAtEnd(h1, xs[1..]);
    var all := h1.stack + xs[1..];
    EndsWith(h1.stack, xs);
    LastNSuffix(all, Limit, |xs|);
  }

  /** A sequence ending in the first element of `xs`, extended by the rest of `xs`, ends in `xs`. */
  lemma EndsWith<S>(p: seq<S>, xs: seq<S>)
    requires |p| >= 1 && |xs| >= 1 && p[|p| - 1] == xs[0]
    ensures var all := p + xs[1..]; |xs| <= |all| && all[|all| - |xs|..] == xs
  {
    var all := p + xs[1..];
    assert forall k :: 0 <= k < |xs| ==> all[|all| - |xs| + k] == xs[k];
  }

  /** Keeping the last `n` entries keeps any shorter suffix. */
  lemma LastNSuffix<S>(all: seq<S>, n: nat, k: nat)
    requires k <= n && k <= |all|
    ensures var top := LastN(all, n); k <= |top| && top[|top| - k..] == all[|all| - k..]
  {
  }

  /**
   * Undo followed by redo comes back to the same cursor and hands the canvas
   * exactly the snapshot that was current before the undo, whether or not the
   * undo's restore has completed in between.
   */
  lemma {:induction false} UndoThenRedo<S>(h: State<S>)
    requires Invariant(h) && CanUndo(h)
    ensures var u := Undone(h);
            u.restore == Some(h.stack[h.index - 1]) &&
            Redone(u.state).state.index == h.index &&
            Redone(u.state).restore == Some(h.stack[h.index]) &&
            Redone(Finished(u.state)).state.index == h.index &&
            Redone(Finished(u.state)).restore == Some(h.stack[h.index])
  {
  }

  /** `k` undos move the cursor back by `k` when there is that much history. */
  lemma {:induction false} UndoTimesIndex<S>(h: State<S>, k: nat)
    requires Invariant(h) && k <= h.index
    ensures UndoTimes(h, k).index == h.index - k
    decreases k
  {
    if k > 0 {
      UndoTimesIndex(Undone(h).state, k - 1);
    }
  }

  /** `k` redos move the cursor forward by `k` when there is that much redo history. */
  lemma {:induction false} RedoTimesIndex<S>(h: State<S>, k: nat)
    requires Invariant(h) && h.index + k <= |h.stack| - 1
    ensures RedoTimes(h, k).index == h.index + k
    decreases k
  {
    if k > 0 {
      RedoTimesIndex(Redone(h).state, k - 1);
    }
  }

  /**
   * Undoing `k` times and then redoing `k` times restores the cursor, hence
   * the very snapshot that was current at the start.
   */
  lemma {:induction false} UndoRedoTimes<S>(h: State<S>, k: nat)
    requires Invariant(h) && k <= h.index
    ensures var r := RedoTimes(UndoTimes(h, k), k);
            r.stack == h.stack && r.index == h.index && r.stack[r.index] == h.stack[h.index]
  {
    UndoTimesIndex(h, k);
    RedoTimesIndex(UndoTimes(h, k), k);
  }

  /**
   * Undo does something exactly when it is offered, and so does redo: the
   * button state of `updateButtons` (history.js:62-67) matches the guards of
   * `undo` and `redo`.
   */
  lemma {:induction false} OfferedIffEffective<S>(h: State<S>)
    requires Invariant(h)
    ensures CanUndo(h) <==> Undone(h).restore.Some?
    ensures CanUndo(h) <==> Undone(h).state != h
    ensures CanRedo(h) <==> Redone(h).restore.Some?
    ensures CanRedo(h) <==> Redone(h).state != h
  {
  }

  /** Clearing and then pushing one snapshot leaves a one-entry history with nothing to undo or redo. */
  lemma {:induction false} ClearThenPush<S>(h: State<S>, s: S)
    requires !h.processing
    ensures Pushed(Cleared(h), s) == State([s], 0, false)
    ensures !CanUndo(Pushed(Cleared(h), s)) && !CanRedo(Pushed(Cleared(h), s))
  {
  }

  /** A run of pushes extended by one more push. */
  lemma {:induction false} PushAllSnoc<S>(h: State<S>, xs: seq<S>, x: S)
    requires Invariant(h)
    ensures PushAll(h, xs + [x]) == Pushed(PushAll(h, xs), x)
    decreases |xs|
  {
    if xs == [] {
      assert [] + [x] == [x] && [x][1..] == [];
    } else {
      assert (xs + [x])[0] == xs[0] && (xs + [x])[1..] == xs[1..] + [x];
      PushAllSnoc(Pushed(h, xs[0]), xs[1..], x);
    }
  }

  /**
   * Pushing the same snapshot twice, as a crop commit does, leaves an undo
   * step that hands back that very snapshot: the first undo after it changes
   * nothing the user can see.
   */
  /** An undo that restores a snapshot mutes pushes until the restore completes. */
  lemma UndoMutesPushes<S>(h: State<S>, s: S)
    requires Invariant(h) && CanUndo(h)
    ensures Undone(h).state.processing && Pushed(Undone(h).state, s) == Undone(h).state
    ensures Pushed(Finished(Undone(h).state), s) != Undone(h).state
  {
  }

  /** A redo that restores a snapshot mutes pushes until the restore completes. */
  lemma RedoMutesPushes<S>(h: State<S>, s: S)
    requires Invariant(h) && CanRedo(h)
    ensures Redone(h).state.processing && Pushed(Redone(h).state, s) == Redone(h).state
    ensures Pushed(Finished(Redone(h).state), s) != Redone(h).state
  {
  }

  lemma {:induction false} DoublePushUndo<S>(h: State<S>, s: S)
    requires Invariant(h) && !h.processing
    ensures var r := PushAll(h, [s, s]);
            CanUndo(r) && r.stack[r.index] == s && Undone(r).restore == Some(s)
  {
    var r := PushAll(h, [s, s]);
    PushAllTop(h, [s, s]);
    assert r.stack[r.index - 1..] == [s, s];
    assert r.stack[r.index - 1] == s && r.stack[r.index] == s;
  }

  /** The mutable history manager object of history.js:5-68. */
  class HistoryManager<S> {
    var stack: seq<S>
    var index: int
    var isProcessing: bool

    /** The manager's fields as a `State` value. */
    function Model(): State<S>
      reads this
    {
      State(stack, index, isProcessing)
    }

    ghost predicate Valid()
      reads this
    {
      Invariant(Model())
    }

    constructor ()
      ensures Valid() && Model() == Initial()
    {
      stack := [];
      index := -1;
      isProcessing := false;
    }

    /** history.js:11-29; the caller passes the serialized scene. */
    method Push(s: S)
      requires Valid()
      modifies this
      ensures Valid() && Model() == Pushed(old(Model()), s)
    {
      if isProcessing {
        return;
      }
      if index < |stack| - 1 {
        stack := stack[..index + 1];
      }
      stack := stack + [s];
      if |stack| > Limit {
        stack := stack[1..];
      } else {
        index := index + 1;
      }
    }

    /** history.js:31-37 with history.js:47-48: returns the snapshot `loadState` hands to the canvas. */
    method Undo() returns (restore: Option<S>)
      requires Valid()
      modifies this
      ensures Valid() && Step(Model(), restore) == Undone(old(Model()))
    {
      restore := None;
      if index > 0 {
        isProcessing := true;
        index := index - 1;
        restore := Some(stack[index]);
      }
    }

    /** history.js:39-45 with history.js:47-48. */
    method Redo() returns (restore: Option<S>)
      requires Valid()
      modifies this
      ensures Valid() && Step(Model(), restore) == Redone(old(Model()))
    {
      restore := None;
      if index < |stack| - 1 {
        isProcessing := true;
        index := index + 1;
        restore := Some(stack[index]);
      }
    }

    /** The `loadFromJSON` completion callback (history.js:49-53). */
    method FinishLoad()
      requires Valid()
      modifies this
      ensures Valid() && Model() == Finished(old(Model()))
    {
      isProcessing := false;
    }

    /** history.js:56-60. */
    method Clear()
      requires Valid()
      modifies this
      ensures Valid() && Model() == Cleared(old(Model()))
    {
      stack := [];
      index := -1;
    }

    /** Whether the undo button is enabled (history.js:65). */
    method CanUndoNow() returns (b: bool)
      requires Valid()
      ensures b <==> Undone(Model()).restore.Some?
    {
      b := index > 0;
    }

    /** Whether the redo button is enabled (history.js:66). */
    method CanRedoNow() returns (b: bool)
      requires Valid()
      ensures b <==> Redone(Model()).restore.Some?
    {
      b := index < |stack| - 1;
    }
  }
}
