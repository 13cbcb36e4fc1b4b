/** The undo/redo history of the layer-editor commands: two stacks of
    snapshots. Every successful command pushes the state it started from
    onto the undo stack and forgets what could be redone; undo and redo
    swap the current state with the top of one stack, pushing it onto the
    other. */
module EditHistory {
  import opened Wrappers

  datatype History<T> = History(undo: seq<T>, redo: seq<T>)

  function Record<T>(h: History<T>, pre: T): (r: History<T>)
    ensures r.undo == h.undo + [pre] && r.redo == []
  {
    History(h.undo + [pre], [])
  }

  /** The state undo restores and the history after it; None when there
      is nothing to undo. */
  function UndoStep<T>(cur: T, h: History<T>): (r: Option<(T, History<T>)>)
    ensures r.None? <==> h.undo == []
    ensures r.Some? ==> r.value.0 == h.undo[|h.undo| - 1]
                        && r.value.1.redo == h.redo + [cur]
                        && |r.value.1.undo| == |h.undo| - 1
  {
    if h.undo == [] then None
    else Some((h.undo[|h.undo| - 1], History(h.undo[..|h.undo| - 1], h.redo + [cur])))
  }

  function RedoStep<T>(cur: T, h: History<T>): (r: Option<(T, History<T>)>)
    ensures r.None? <==> h.redo == []
    ensures r.Some? ==> r.value.0 == h.redo[|h.redo| - 1]
                        && r.value.1.undo == h.undo + [cur]
                        && |r.value.1.redo| == |h.redo| - 1
  {
    if h.redo == [] then None
    else Some((h.redo[|h.redo| - 1], History(h.undo + [cur], h.redo[..|h.redo| - 1])))
  }

  /** Undoing a command restores the state it started from; redoing it
      then brings back the state it produced, with the history as it was
      right after the command. */
  lemma UndoRedoCommand<T>(h: History<T>, pre: T, post: T)
    ensures UndoStep(post, Record(h, pre)) == Some((pre, History(h.undo, [post])))
    ensures RedoStep(pre, History(h.undo, [post])) == Some((post, Record(h, pre)))
  {
    assert (h.undo + [pre])[..|h.undo|] == h.undo;
    assert [] + [post] == [post];
  }

  /** The state and history after `n` undo steps (None when the undo
      stack runs out). */
  function Undos<T>(cur: T, h: History<T>, n: nat): Option<(T, History<T>)>
    decreases n
  {
    if n == 0 then Some((cur, h))
    else match UndoStep(cur, h)
      case None => None
      case Some(s) => Undos(s.0, s.1, n - 1)
  }

  function Redos<T>(cur: T, h: History<T>, n: nat): Option<(T, History<T>)>
    decreases n
  {
    if n == 0 then Some((cur, h))
    else match RedoStep(cur, h)
      case None => None
      case Some(s) => Redos(s.0, s.1, n - 1)
  }

  /** Any number of undos that succeed, followed by as many redos, give
      back exactly the state and history they started from. */
  lemma {:induction false} UndosThenRedos<T>(cur: T, h: History<T>, n: nat)
    requires n <= |h.undo|
    decreases n
    ensures Undos(cur, h, n).Some?
    ensures var u := Undos(cur, h, n).value;
            Redos(u.0, u.1, n) == Some((cur, h))
  {
    if n > 0 {
      var s := UndoStep(cur, h).value;
      assert h.undo[..|h.undo| - 1] + [h.undo[|h.undo| - 1]] == h.undo;
      UndosThenRedos(s.0, s.1, n - 1);
      var u := Undos(s.0, s.1, n - 1).value;
      RedosLast(u.0, u.1, n - 1, s.0, s.1, cur, h);
    }
  }

  /** Redoing `n + 1` steps is redoing `n` steps and then the last one. */
  lemma {:induction false} RedosLast<T>(c0: T, h0: History<T>, n: nat, c1: T, h1: History<T>, c2: T, h2: History<T>)
    requires Redos(c0, h0, n) == Some((c1, h1))
    requires RedoStep(c1, h1) == Some((c2, h2))
    decreases n
    ensures Redos(c0, h0, n + 1) == Some((c2, h2))
  {
    if n > 0 {
      var s := RedoStep(c0, h0).value;
      RedosLast(s.0, s.1, n - 1, c1, h1, c2, h2);
    }
  }
}
