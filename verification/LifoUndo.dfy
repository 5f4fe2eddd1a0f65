/** Undoing a series of updates, newest first, under retention. */
module LifoUndo {
  import opened Dataset
  import opened ChangelogModel
  import opened ServerRuns

  datatype Change = Change(before: Quads, after: Quads, inserted: seq<Quad>, removed: seq<Quad>, timestamp: string)

  /** A diffed update that changes something, with a delta small enough to be undone. */
  predicate IsReal(c: Change) {
    IsDiff(c.before, c.after, c.inserted, c.removed) && 0 < |c.inserted| + |c.removed| <= MAX_UNDOABLE_QUADS
  }

  function UserAfter(user: Quads, changes: seq<Change>): Quads {
    if changes == [] then user else changes[|changes| - 1].after
  }

  /** Each change starts from where the previous one left the user data. */
  predicate Chain(user: Quads, changes: seq<Change>) {
    changes == [] || (var c, earlier := changes[|changes| - 1], changes[..|changes| - 1];
                      Chain(user, earlier) && IsReal(c) && c.before == UserAfter(user, earlier))
  }

  function Apply(retain: nat, s: Server, changes: seq<Change>): Server {
    if changes == [] then s
    else
      var c := changes[|changes| - 1];
      Update(retain, Apply(retain, s, changes[..|changes| - 1]), c.after, c.inserted, c.removed, c.timestamp)
  }

  /** Undo `n` entries from `newest` downwards. */
  function UndoDown(retain: nat, s: Server, newest: nat, n: nat, timestamp: string): Server
    requires n <= newest
    decreases n
  {
    if n == 0 then s else UndoDown(retain, Undo(retain, s, newest, timestamp), newest - 1, n - 1, timestamp)
  }

  /** Every one of those undos finds its entry. */
  predicate AllUndone(retain: nat, s: Server, newest: nat, n: nat, timestamp: string)
    requires n <= newest
    decreases n
  {
    n == 0
    || (CanUndo(s, newest) && AllUndone(retain, Undo(retain, s, newest, timestamp), newest - 1, n - 1, timestamp))
  }

  /** The entry of a change is stored exactly as long as retention allows, with the change's delta. */
  predicate Held(retain: nat, s: Server, id: nat, c: Change) {
    && (id in s.log <==> retain == 0 || s.counter <= id + retain)
    && (id in s.log ==> s.log[id].inserted == c.inserted && s.log[id].removed == c.removed && s.log[id].undoable)
  }

  lemma {:induction false} RecordKeepsHeld(retain: nat, s: Server, ops: seq<BufferedOp>, operation: string,
                                           timestamp: string, id: nat, c: Change)
    requires WellNumbered(s) && Held(retain, s, id, c) && id < s.counter
    ensures Held(retain, Record(retain, s, ops, operation, timestamp), id, c)
  {
    RecordKeepsNumbering(retain, s, ops, operation, timestamp);
  }

  ghost predicate AllHeld(retain: nat, s: Server, first: nat, changes: seq<Change>) {
    && WellNumbered(s) && 1 <= first && first + |changes| <= s.counter
    && forall i | 0 <= i < |changes| :: Held(retain, s, first + i, changes[i])
  }

  lemma {:induction false} RecordKeepsAllHeld(retain: nat, s: Server, ops: seq<BufferedOp>, operation: string,
                                              timestamp: string, first: nat, changes: seq<Change>)
    requires AllHeld(retain, s, first, changes)
    ensures AllHeld(retain, Record(retain, s, ops, operation, timestamp), first, changes)
  {
    RecordKeepsNumbering(retain, s, ops, operation, timestamp);
    forall i | 0 <= i < |changes|
      ensures Held(retain, Record(retain, s, ops, operation, timestamp), first + i, changes[i])
    {
      RecordKeepsHeld(retain, s, ops, operation, timestamp, first + i, changes[i]);
    }
  }

  lemma {:induction false} UpdateHeld(retain: nat, s: Server, c: Change)
    requires WellNumbered(s) && IsReal(c)
    ensures var s' := Update(retain, s, c.after, c.inserted, c.removed, c.timestamp);
            && WellNumbered(s') && s'.counter == s.counter + 1 && s'.user == c.after
            && s' == Record(retain, s.(user := c.after), DiffOps(c.inserted, c.removed), "update", c.timestamp)
            && Held(retain, s', s.counter, c)
  {
    DiffOpsLists(c.inserted, c.removed);
    RecordKeepsNumbering(retain, s.(user := c.after), DiffOps(c.inserted, c.removed), "update", c.timestamp);
  }

  lemma {:induction false} OneMoreHeld(retain: nat, s: Server, first: nat, earlier: seq<Change>, c: Change)
    requires AllHeld(retain, s, first, earlier) && first + |earlier| == s.counter && IsReal(c)
    ensures AllHeld(retain, Update(retain, s, c.after, c.inserted, c.removed, c.timestamp), first, earlier + [c])
  {
    var s0, s' := s.(user := c.after), Update(retain, s, c.after, c.inserted, c.removed, c.timestamp);
    UpdateHeld(retain, s, c);
    forall i | 0 <= i < |earlier| ensures Held(retain, s0, first + i, earlier[i]) {
      assert Held(retain, s, first + i, earlier[i]);
    }
    RecordKeepsAllHeld(retain, s0, DiffOps(c.inserted, c.removed), "update", c.timestamp, first, earlier);
    var all := earlier + [c];
    forall i | 0 <= i < |all| ensures Held(retain, s', first + i, all[i]) {
      if i < |earlier| { assert Held(retain, s', first + i, earlier[i]); }
    }
  }

  lemma {:induction false} ChangesHeld(retain: nat, s: Server, changes: seq<Change>)
    requires WellNumbered(s) && Chain(s.user, changes)
    ensures var s' := Apply(retain, s, changes);
            AllHeld(retain, s', s.counter, changes) && s'.counter == s.counter + |changes|
            && s'.user == UserAfter(s.user, changes)
    decreases |changes|
  {
    if changes != [] {
      var n := |changes| - 1;
      var earlier, c := changes[..n], changes[n];
      assert changes == earlier + [c];
      ChangesHeld(retain, s, earlier);
      var s1 := Apply(retain, s, earlier);
      var s' := Update(retain, s1, c.after, c.inserted, c.removed, c.timestamp);
      assert s' == Apply(retain, s, changes);
      assert s'.counter == s1.counter + 1 && s'.user == c.after by { UpdateHeld(retain, s1, c); }
      OneMoreHeld(retain, s1, s.counter, earlier, c);
    }
  }

  /** Undoing a change restores the user data before it. */
  lemma {:induction false} UndoRestores(c: Change)
    requires IsReal(c)
    ensures c.after + Elements(c.removed) - Elements(c.inserted) == c.before
  {
  }

  /** Undoing the newest change leaves the earlier ones held. */
  lemma {:induction false} UndoNewest(retain: nat, s: Server, user: Quads, first: nat, changes: seq<Change>,
                                      timestamp: string)
    requires changes != [] && AllHeld(retain, s, first, changes) && Chain(user, changes)
    requires s.user == UserAfter(user, changes)
    requires CanUndo(s, first + |changes| - 1)
    ensures var s', earlier := Undo(retain, s, first + |changes| - 1, timestamp), changes[..|changes| - 1];
            AllHeld(retain, s', first, earlier) && s'.counter == s.counter + 1 && s'.user == UserAfter(user, earlier)
  {
    var n := |changes| - 1;
    var c, earlier := changes[n], changes[..n];
    assert Held(retain, s, first + n, c);
    var e := s.log[first + n];
    UndoRestores(c);
    forall i | 0 <= i < n ensures Held(retain, s, first + i, earlier[i]) { assert earlier[i] == changes[i]; }
    RecordKeepsAllHeld(retain, s.(user := c.before), InverseOps(e), UndoName(first + n), timestamp, first, earlier);
  }

  /**
   Undoing the `n` entries from `first` on succeeds exactly when the first entry outlives the records of
   the other undos, and then gives `user` back.
   */
  predicate UndoesAll(retain: nat, s: Server, user: Quads, first: nat, n: nat, timestamp: string)
    requires first >= 1
  {
    var done := AllUndone(retain, s, first + n - 1, n, timestamp);
    && (n > 0 ==> (done <==> retain == 0 || s.counter + n - 1 <= first + retain))
    && (done ==> UndoDown(retain, s, first + n - 1, n, timestamp).user == user)
  }

  lemma UndoesOneMore(retain: nat, s: Server, s': Server, user: Quads, first: nat, n: nat, timestamp: string)
    requires first >= 1 && CanUndo(s, first + n) && s' == Undo(retain, s, first + n, timestamp)
    requires s'.counter == s.counter + 1 && UndoesAll(retain, s', user, first, n, timestamp)
    requires retain == 0 || s.counter <= first + n + retain
    ensures UndoesAll(retain, s, user, first, n + 1, timestamp)
  {
    assert AllUndone(retain, s, first + n, n + 1, timestamp) == AllUndone(retain, s', first + n - 1, n, timestamp);
  }

  /** Undoing the newest change is a step towards undoing all. */
  lemma UndoStep(retain: nat, s: Server, user: Quads, first: nat, changes: seq<Change>, timestamp: string)
      returns (s': Server)
    requires changes != [] && AllHeld(retain, s, first, changes) && Chain(user, changes)
    requires s.user == UserAfter(user, changes) && CanUndo(s, first + |changes| - 1)
    ensures AllHeld(retain, s', first, changes[..|changes| - 1])
    ensures s'.user == UserAfter(user, changes[..|changes| - 1])
    ensures UndoesAll(retain, s', user, first, |changes| - 1, timestamp)
        ==> UndoesAll(retain, s, user, first, |changes|, timestamp)
  {
    var n := |changes| - 1;
    s' := Undo(retain, s, first + n, timestamp);
    UndoNewest(retain, s, user, first, changes, timestamp);
    assert Held(retain, s, first + n, changes[n]);
    if UndoesAll(retain, s', user, first, n, timestamp) {
      UndoesOneMore(retain, s, s', user, first, n, timestamp);
    }
  }

  lemma NewestGone(retain: nat, s: Server, user: Quads, first: nat, changes: seq<Change>, timestamp: string)
    requires changes != [] && AllHeld(retain, s, first, changes) && !CanUndo(s, first + |changes| - 1)
    ensures UndoesAll(retain, s, user, first, |changes|, timestamp)
  {
    assert Held(retain, s, first + |changes| - 1, changes[|changes| - 1]);
  }

  /** From a server that holds the changes, undoing all of them. */
  lemma {:induction false} UndoAll(retain: nat, s: Server, user: Quads, first: nat, changes: seq<Change>,
                                   timestamp: string)
    requires AllHeld(retain, s, first, changes) && Chain(user, changes) && s.user == UserAfter(user, changes)
    ensures UndoesAll(retain, s, user, first, |changes|, timestamp)
    decreases |changes|
  {
    if changes != [] {
      if CanUndo(s, first + |changes| - 1) {
        var s' := UndoStep(retain, s, user, first, changes, timestamp);
        UndoAll(retain, s', user, first, changes[..|changes| - 1], timestamp);
      } else {
        NewestGone(retain, s, user, first, changes, timestamp);
      }
    }
  }

  /** The same right after the last of the changes was recorded. */
  lemma {:induction false} UndoAllAtOnce(retain: nat, s: Server, user: Quads, first: nat, changes: seq<Change>,
                                         timestamp: string)
    requires AllHeld(retain, s, first, changes) && Chain(user, changes) && s.user == UserAfter(user, changes)
    requires changes != [] && s.counter == first + |changes|
    ensures LifoExact(retain, s, user, first, |changes|, timestamp)
  {
    UndoAll(retain, s, user, first, changes, timestamp);
  }

  /**
   Undoing the `n` entries from `first` on, newest to oldest, finds every one of them exactly when
   `retain` is 0 or at least 2n - 1, and then restores `user`.
   */
  predicate LifoExact(retain: nat, s: Server, user: Quads, first: nat, n: nat, timestamp: string)
    requires first >= 1
  {
    && (AllUndone(retain, s, first + n - 1, n, timestamp) <==> retain == 0 || retain >= 2 * n - 1)
    && (retain == 0 || retain >= 2 * n - 1 ==> UndoDown(retain, s, first + n - 1, n, timestamp).user == user)
  }

  /** LIFO undo: after `n` updates that change something, undo them newest to oldest. */
  lemma {:induction false} NewestFirst(retain: nat, s: Server, changes: seq<Change>, timestamp: string)
    requires WellNumbered(s) && Chain(s.user, changes) && changes != []
    ensures LifoExact(retain, Apply(retain, s, changes), s.user, s.counter, |changes|, timestamp)
  {
    ChangesHeld(retain, s, changes);
    UndoAllAtOnce(retain, Apply(retain, s, changes), s.user, s.counter, changes, timestamp);
  }
}
