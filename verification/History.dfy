/** The editor's undo and redo. */
module History {

  datatype HistoryState<T> = HistoryState(past: seq<T>, present: T, future: seq<T>)

  function ClampPast<T>(past: seq<T>, limit: nat): seq<T> {
    if |past| <= limit then past else past[|past| - limit..]
  }

  function CreateHistoryState<T>(initial: T): HistoryState<T> { HistoryState([], initial, []) }

  predicate CanUndo<T>(s: HistoryState<T>) { |s.past| > 0 }

  predicate CanRedo<T>(s: HistoryState<T>) { |s.future| > 0 }

  function Push<T>(s: HistoryState<T>, next: T, equals: (T, T) -> bool, limit: nat): HistoryState<T> {
    if equals(s.present, next) then s else HistoryState(ClampPast(s.past + [s.present], limit), next, [])
  }

  function Undo<T>(s: HistoryState<T>): HistoryState<T> {
    if !CanUndo(s) then s else HistoryState(s.past[..|s.past| - 1], s.past[|s.past| - 1], [s.present] + s.future)
  }

  function Redo<T>(s: HistoryState<T>): HistoryState<T> {
    if !CanRedo(s) then s else HistoryState(s.past + [s.present], s.future[0], s.future[1..])
  }

  // ----- the three lists in plain terms

  /**
   * A change becomes the present state, forgets the future, and keeps as many of the latest states as the limit allows;
   * a change to an equal state is none.
   */
  lemma PushExactly<T>(s: HistoryState<T>, next: T, equals: (T, T) -> bool, limit: nat)
    ensures var r := Push(s, next, equals, limit);
      if equals(s.present, next) then r == s
      else
        && r.present == next && r.future == []
        && |r.past| == (if |s.past| + 1 <= limit then |s.past| + 1 else limit)
        && forall k :: 0 <= k < |r.past| ==>
          r.past[k] == (s.past + [s.present])[|s.past| + 1 - |r.past| + k]
  {}

  /** Undo and redo move one state across the present, and do nothing when there is none. */
  lemma UndoRedoExactly<T>(past: seq<T>, x: T, y: T, future: seq<T>)
    ensures Undo(HistoryState(past + [x], y, future)) == HistoryState(past, x, [y] + future)
    ensures Redo(HistoryState(past, x, [y] + future)) == HistoryState(past + [x], y, future)
    ensures Undo(HistoryState([], y, future)) == HistoryState([], y, future)
    ensures Redo(HistoryState(past, x, [])) == HistoryState(past, x, [])
  {
    assert (past + [x])[..|past|] == past && ([y] + future)[1..] == future;
  }

  /** After a change undo brings the state before it back. */
  lemma PushThenUndo<T>(s: HistoryState<T>, next: T, equals: (T, T) -> bool, limit: nat)
    requires limit > 0 && !equals(s.present, next)
    ensures var r := Undo(Push(s, next, equals, limit)); r.present == s.present && r.future == [next]
  {
    PushExactly(s, next, equals, limit);
  }

  // ----- a timeline with a cursor

  datatype Timeline<T> = Timeline(entries: seq<T>, cursor: nat)

  function View<T>(s: HistoryState<T>): Timeline<T> {
    Timeline(s.past + [s.present] + s.future, |s.past|)
  }

  datatype Command<T> = PushEntry(next: T) | UndoOne | RedoOne

  /** A push forgets what lies after the cursor and, beyond the limit, the oldest entry. */
  function Move<T>(t: Timeline<T>, c: Command<T>, equals: (T, T) -> bool, limit: nat): Timeline<T>
    requires t.cursor < |t.entries|
  {
    match c
    case UndoOne => if t.cursor == 0 then t else t.(cursor := t.cursor - 1)
    case RedoOne => if t.cursor + 1 == |t.entries| then t else t.(cursor := t.cursor + 1)
    case PushEntry(next) =>
      if equals(t.entries[t.cursor], next) then t
      else
        var entries := t.entries[..t.cursor + 1] + [next];
        var kept := if |entries| <= limit + 1 then entries else entries[|entries| - (limit + 1)..];
        Timeline(kept, |kept| - 1)
  }

  function Step<T>(s: HistoryState<T>, c: Command<T>, equals: (T, T) -> bool, limit: nat): HistoryState<T> {
    match c
    case PushEntry(next) => Push(s, next, equals, limit)
    case UndoOne => Undo(s)
    case RedoOne => Redo(s)
  }

  /** The three lists are a timeline with a cursor: every operation does what the command does to the timeline. */
  lemma StepRefines<T>(s: HistoryState<T>, c: Command<T>, equals: (T, T) -> bool, limit: nat)
    ensures View(s).cursor < |View(s).entries|
    ensures View(Step(s, c, equals, limit)) == Move(View(s), c, equals, limit)
  {
    var t := View(s);
    match c
    case UndoOne =>
      if CanUndo(s) { assert View(Undo(s)).entries == t.entries; }
    case RedoOne =>
      if CanRedo(s) { assert View(Redo(s)).entries == t.entries; }
    case PushEntry(next) =>
      assert t.entries[t.cursor] == s.present && t.entries[..t.cursor + 1] == s.past + [s.present];
      if !equals(s.present, next) {
        var whole := s.past + [s.present] + [next];
        assert View(Push(s, next, equals, limit)).entries == Move(t, c, equals, limit).entries;
      }
  }

  /** Undo and redo undo each other. */
  lemma UndoRedo<T>(s: HistoryState<T>)
    ensures CanUndo(s) ==> CanRedo(Undo(s)) && Redo(Undo(s)) == s
    ensures CanRedo(s) ==> CanUndo(Redo(s)) && Undo(Redo(s)) == s
  {
    if CanUndo(s) {
      assert s.past[..|s.past| - 1] + [s.past[|s.past| - 1]] == s.past;
    }
    if CanRedo(s) {
      assert [s.future[0]] + s.future[1..] == s.future;
      assert (s.past + [s.present])[..|s.past|] == s.past;
    }
  }

  function Run<T>(s: HistoryState<T>, commands: seq<Command<T>>, equals: (T, T) -> bool, limit: nat): HistoryState<T>
    decreases commands
  {
    if commands == [] then s else Run(Step(s, commands[0], equals, limit), commands[1..], equals, limit)
  }

  /** Neighbours on the timeline differ. */
  predicate Changing<T>(entries: seq<T>, equals: (T, T) -> bool) {
    forall i :: 0 <= i < |entries| - 1 ==> !equals(entries[i], entries[i + 1])
  }

  predicate Bounded<T>(s: HistoryState<T>, limit: nat) { |s.past| + |s.future| <= limit }

  lemma StepBounded<T>(s: HistoryState<T>, c: Command<T>, equals: (T, T) -> bool, limit: nat)
    requires Bounded(s, limit) && Changing(View(s).entries, equals)
    ensures Bounded(Step(s, c, equals, limit), limit) && Changing(View(Step(s, c, equals, limit)).entries, equals)
  {
    hide View, Changing, Move;
    StepRefines(s, c, equals, limit);
    MoveChanges(View(s), c, equals, limit);
  }

  lemma MoveChanges<T>(t: Timeline<T>, c: Command<T>, equals: (T, T) -> bool, limit: nat)
    requires t.cursor < |t.entries| && Changing(t.entries, equals)
    ensures Changing(Move(t, c, equals, limit).entries, equals)
  {
    if c.PushEntry? && !equals(t.entries[t.cursor], c.next) {
      var entries := t.entries[..t.cursor + 1] + [c.next];
      forall i | 0 <= i < |entries| - 1 ensures !equals(entries[i], entries[i + 1]) {}
      var kept := Move(t, c, equals, limit).entries;
      forall i | 0 <= i < |kept| - 1 ensures !equals(kept[i], kept[i + 1]) {
        var d := |entries| - |kept|;
        assert kept[i] == entries[d + i] && kept[i + 1] == entries[d + i + 1];
        assert !equals(entries[d + i], entries[d + i + 1]);
      }
    }
  }

  /** In every reachable state the limit holds, although redo never clamps, and no step of the timeline is idle. */
  lemma {:induction false} RunBounded<T>(s: HistoryState<T>, commands: seq<Command<T>>, equals: (T, T) -> bool,
                                         limit: nat)
    requires Bounded(s, limit) && Changing(View(s).entries, equals)
    ensures var end := Run(s, commands, equals, limit); Bounded(end, limit) && Changing(View(end).entries, equals)
    decreases commands
  {
    if commands != [] {
      StepBounded(s, commands[0], equals, limit);
      RunBounded(Step(s, commands[0], equals, limit), commands[1..], equals, limit);
    }
  }

  lemma Reachable<T>(initial: T, commands: seq<Command<T>>, equals: (T, T) -> bool, limit: nat)
    ensures var end := Run(CreateHistoryState(initial), commands, equals, limit);
      Bounded(end, limit) && Changing(View(end).entries, equals)
  {
    RunBounded(CreateHistoryState(initial), commands, equals, limit);
  }

  function Repeat<T>(c: Command<T>, n: nat): seq<Command<T>> {
    if n == 0 then [] else [c] + Repeat(c, n - 1)
  }

  /** As many redos as undos lead back, whenever that many undos are possible. */
  lemma {:induction false} UndoManyRedoMany<T>(s: HistoryState<T>, n: nat, equals: (T, T) -> bool, limit: nat)
    requires n <= |s.past|
    ensures Run(Run(s, Repeat(UndoOne, n), equals, limit), Repeat(RedoOne, n), equals, limit) == s
    decreases n
  {
    if n != 0 {
      var undone := Undo(s);
      assert Repeat<T>(UndoOne, n)[1..] == Repeat<T>(UndoOne, n - 1);
      UndoManyRedoMany(undone, n - 1, equals, limit);
      var low := Run(undone, Repeat(UndoOne, n - 1), equals, limit);
      RepeatSnoc<T>(RedoOne, n - 1);
      RunConcat(low, Repeat(RedoOne, n - 1), [RedoOne], equals, limit);
      UndoRedo(s);
      var one: seq<Command<T>> := [RedoOne];
      assert one[1..] == [];
    }
  }

  lemma {:induction false} RepeatSnoc<T>(c: Command<T>, n: nat)
    ensures Repeat(c, n + 1) == Repeat(c, n) + [c]
  {
    if n == 0 {
      assert Repeat(c, 1) == [c] + Repeat(c, 0);
    } else {
      RepeatSnoc(c, n - 1);
      assert Repeat(c, n + 1) == [c] + Repeat(c, n);
    }
  }

  lemma {:induction false} RunConcat<T>(s: HistoryState<T>, a: seq<Command<T>>, b: seq<Command<T>>,
                                        equals: (T, T) -> bool, limit: nat)
    ensures Run(s, a + b, equals, limit) == Run(Run(s, a, equals, limit), b, equals, limit)
    decreases a
  {
    hide Step;
    if a == [] {
      assert a + b == b;
    } else {
      assert (a + b)[1..] == a[1..] + b;
      RunConcat(Step(s, a[0], equals, limit), a[1..], b, equals, limit);
    }
  }
}
