/**
 * The undo/redo plugin of the store: a stack of snapshots with a cursor,
 * and a one-shot flag that keeps the change notification caused by the
 * plugin's own patch (after an undo or a redo) out of the history.
 *
 * Snapshots are opaque values `S`; cloning the store's state is the
 * identity on values.
 */
module UndoRedo {

  /** `UndoRedoData` plus the plugin's `preventUpdateOnSubscribe` flag. */
  datatype History<S> = History(stack: seq<S>, index: int, suppress: bool)
  {
    /** The cursor points into the stack. */
    predicate Valid() {
      0 <= index < |stack|
    }

    predicate UndoPossible() {
      index > 0
    }

    predicate RedoPossible() {
      index < |stack| - 1
    }
  }

  /** The store's current state together with the plugin's history. */
  datatype Editor<S> = Editor(state: S, history: History<S>)
  {
    /** The snapshot under the cursor is the store's state. */
    ghost predicate InSync() {
      history.Valid() && history.stack[history.index] == state
    }
  }

  /** Installing the plugin: the current state is the only snapshot. */
  function Init<S>(state: S): (e: Editor<S>)
    ensures e.history.Valid() && e.InSync()
    ensures !e.history.UndoPossible() && !e.history.RedoPossible() && !e.history.suppress
  {
    Editor(state, History([state], 0, false))
  }

  /**
   * `store.undo`: when possible, step the cursor back, raise the flag and
   * patch the store with the snapshot under the cursor; otherwise nothing.
   */
  function Undo<S>(e: Editor<S>): (r: Editor<S>)
    requires e.history.Valid()
    ensures r.history.Valid()
    ensures r.history.stack == e.history.stack
    ensures e.history.UndoPossible() ==> r.history.index == e.history.index - 1 && r.history.suppress && r.InSync()
    ensures !e.history.UndoPossible() ==> r == e
  {
    var h := e.history;
    if h.UndoPossible() then Editor(h.stack[h.index - 1], History(h.stack, h.index - 1, true))
    else e
  }

  /** `store.redo`: the mirror image of `Undo`. */
  function Redo<S>(e: Editor<S>): (r: Editor<S>)
    requires e.history.Valid()
    ensures r.history.Valid()
    ensures r.history.stack == e.history.stack
    ensures e.history.RedoPossible() ==> r.history.index == e.history.index + 1 && r.history.suppress && r.InSync()
    ensures !e.history.RedoPossible() ==> r == e
  {
    var h := e.history;
    if h.RedoPossible() then Editor(h.stack[h.index + 1], History(h.stack, h.index + 1, true))
    else e
  }

  /** `store.clearUndoRedo`: the current state becomes the only snapshot, and the flag is raised. */
  function Clear<S>(e: Editor<S>): (r: Editor<S>)
    ensures r.history.stack == [e.state] && r.history.index == 0 && r.history.suppress
    ensures r.state == e.state && r.InSync()
  {
    Editor(e.state, History([e.state], 0, true))
  }

  /**
   * The change notification for a store now in state `s`: with the flag
   * raised it only lowers the flag; otherwise the snapshots after the
   * cursor are dropped, `s` is pushed and the cursor moves onto it.
   */
  function Notify<S>(e: Editor<S>, s: S): (r: Editor<S>)
    requires e.history.Valid()
    ensures r.history.Valid() && r.state == s && !r.history.suppress
    ensures e.history.suppress ==> r.history == e.history.(suppress := false)
    ensures !e.history.suppress ==>
              && |r.history.stack| == e.history.index + 2
              && r.history.stack[..e.history.index + 1] == e.history.stack[..e.history.index + 1]
              && r.history.stack[e.history.index + 1] == s
              && r.history.index == e.history.index + 1
  {
    var h := e.history;
    if h.suppress then Editor(s, h.(suppress := false))
    else
      var kept := h.stack[..h.index + 1];
      Editor(s, History(kept + [s], |kept|, false))
  }

  // ---------------------------------------------------------------------
  // Properties of the transitions

  /** Every transition keeps the cursor inside the stack. */
  lemma TransitionsKeepValid<S>(e: Editor<S>, s: S)
    requires e.history.Valid()
    ensures Undo(e).history.Valid() && Redo(e).history.Valid()
    ensures Clear(e).history.Valid() && Notify(e, s).history.Valid()
  {
  }

  /** A recorded change makes redo impossible and undo possible. */
  lemma RecordedChangeEndsRedo<S>(e: Editor<S>, s: S)
    requires e.history.Valid() && !e.history.suppress
    ensures !Notify(e, s).history.RedoPossible()
    ensures Notify(e, s).history.UndoPossible()
    ensures Notify(e, s).InSync()
  {
  }

  /** Undo after a recorded change gives back the state before the change. */
  lemma UndoRevertsChange<S>(e: Editor<S>, s: S)
    requires e.InSync() && !e.history.suppress
    ensures Undo(Notify(e, s)).state == e.state
    ensures Undo(Notify(e, s)).history.index == e.history.index
    ensures Redo(Undo(Notify(e, s))).state == s
  {
    var n := Notify(e, s);
    assert n.history.stack[e.history.index] == n.history.stack[..e.history.index + 1][e.history.index];
  }

  /** An undo that was possible is reverted by a redo: same cursor, same stack, same state when in sync. */
  lemma RedoAfterUndo<S>(e: Editor<S>)
    requires e.history.Valid() && e.history.UndoPossible()
    ensures Redo(Undo(e)).history.index == e.history.index
    ensures Redo(Undo(e)).history.stack == e.history.stack
    ensures e.InSync() ==> Redo(Undo(e)).state == e.state
  {
  }

  /** A redo that was possible is reverted by an undo. */
  lemma UndoAfterRedo<S>(e: Editor<S>)
    requires e.history.Valid() && e.history.RedoPossible()
    ensures Undo(Redo(e)).history.index == e.history.index
    ensures Undo(Redo(e)).history.stack == e.history.stack
    ensures e.InSync() ==> Undo(Redo(e)).state == e.state
  {
  }

  /**
   * The patch an undo or redo applies notifies once; the raised flag
   * swallows that notification, so the history is as the undo or redo left
   * it and the next change is recorded again.
   */
  lemma OwnPatchIsNotRecorded<S>(e: Editor<S>)
    requires e.history.Valid()
    ensures e.history.UndoPossible() ==>
              var u := Undo(e);
              Notify(u, u.state).history == u.history.(suppress := false) && Notify(u, u.state).InSync()
    ensures e.history.RedoPossible() ==>
              var u := Redo(e);
              Notify(u, u.state).history == u.history.(suppress := false) && Notify(u, u.state).InSync()
  {
  }

  /**
   * Clearing raises the flag without patching the store, so the next
   * change notification is swallowed: the history keeps only the state at
   * the time of clearing.
   */
  lemma ClearSwallowsNextChange<S>(e: Editor<S>, s: S)
    ensures Notify(Clear(e), s).history.stack == [e.state]
    ensures Notify(Clear(e), s).history.index == 0
    ensures !Notify(Clear(e), s).history.UndoPossible()
  {
  }

  /** A run of notifications, in order. */
  function NotifyAll<S>(e: Editor<S>, ss: seq<S>): (r: Editor<S>)
    requires e.history.Valid()
    ensures r.history.Valid()
    decreases |ss|
  {
    if ss == [] then e else Notify(NotifyAll(e, ss[..|ss| - 1]), ss[|ss| - 1])
  }

  /** From a fresh plugin, unsuppressed changes are recorded one snapshot each, in order. */
  lemma {:induction false} HistoryRecordsChanges<S>(init: S, ss: seq<S>)
    ensures NotifyAll(Init(init), ss).history.stack == [init] + ss
    ensures NotifyAll(Init(init), ss).history.index == |ss|
    ensures !NotifyAll(Init(init), ss).history.suppress
    decreases |ss|
  {
    if ss != [] {
      var n := |ss| - 1;
      HistoryRecordsChanges(init, ss[..n]);
      var prev := NotifyAll(Init(init), ss[..n]);
      assert prev.history.stack[..prev.history.index + 1] == prev.history.stack;
      assert [init] + ss == ([init] + ss[..n]) + [ss[n]];
    }
  }
}
