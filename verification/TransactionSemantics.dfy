/** What nested transactions mean (src/connection.rs): programs of writes, transactions, errors,
    panics and handlers, and the store they leave behind. */
module TransactionSemantics {
  import opened Prelude

  /** How a closure ends. */
  datatype Outcome = Done | Failed | Panicked

  /** Which of a transaction's own statements fail: the one that opens it (BEGIN, SAVEPOINT),
      the one that closes it (COMMIT, RELEASE), the one that undoes it (ROLLBACK, ROLLBACK TO). */
  datatype Faults = Faults(open: bool, close: bool, undo: bool)

  /** A closure's behaviour.  `Then` continues according to how the first part ended, so it
      covers sequencing, `?`, swallowed errors and caught panics. */
  datatype Prog =
    | Return(outcome: Outcome)
    | Write(id: int, ok: bool)
    | Then(first: Prog, onDone: Prog, onFailed: Prog, onPanicked: Prog)
    | Transaction(body: Prog, faults: Faults)

  /** Committed writes, and the view of the SQL transaction that is open, if any. */
  datatype Store = Store(committed: seq<int>, work: Option<seq<int>>)

  function Append(s: Store, id: int): Store {
    if s.work.Some? then s.(work := Some(s.work.value + [id])) else s.(committed := s.committed + [id])
  }

  /** The store after running `p`, statement failures included; `active` means inside
      `Connection::transaction` on this thread. */
  function Denote(p: Prog, active: bool, s: Store): (Outcome, Store)
    decreases p
  {
    match p
    case Return(o) => (o, s)
    case Write(id, ok) => if ok then (Done, Append(s, id)) else (Failed, s)
    case Then(first, _, _, _) =>
      var (o, mid) := Denote(first, active, s);
      if o.Done? then Denote(p.onDone, active, mid)
      else if o.Failed? then Denote(p.onFailed, active, mid)
      else Denote(p.onPanicked, active, mid)
    case Transaction(body, f) =>
      if active then
        if f.open then (Failed, s)
        else
          var (o, inner) := Denote(body, true, s);
          if o.Done? then (if f.close then (Failed, inner) else (Done, inner))
          else (o, if f.undo then inner else inner.(work := s.work))
      else
        if f.open || s.work.Some? then (Failed, s)
        else
          var (o, inner) := Denote(body, true, s.(work := Some(s.committed)));
          if o.Done? && !f.close then
            (Done, Store(if inner.work.Some? then inner.work.value else inner.committed, None))
          else (if o.Done? then Failed else o, if f.undo then inner else inner.(work := None))
  }

  /* ---------- The promise ---------- */

  /** A write that was executed, with the results of the transactions around it, innermost
      first. */
  datatype Event = Event(id: int, enclosing: seq<bool>)

  function Enclose(events: seq<Event>, succeeded: bool): seq<Event> {
    if events == [] then []
    else [events[0].(enclosing := events[0].enclosing + [succeeded])] + Enclose(events[1..], succeeded)
  }

  /** How `p` ends when no undoing statement fails. */
  function ResultOf(p: Prog, active: bool): Outcome
    decreases p
  {
    match p
    case Return(o) => o
    case Write(_, ok) => if ok then Done else Failed
    case Then(first, _, _, _) =>
      var o := ResultOf(first, active);
      if o.Done? then ResultOf(p.onDone, active)
      else if o.Failed? then ResultOf(p.onFailed, active)
      else ResultOf(p.onPanicked, active)
    case Transaction(body, f) =>
      if f.open then Failed
      else
        var o := ResultOf(body, true);
        if o.Done? && f.close then Failed else o
  }

  /** Every write that was executed, in order, whatever became of it. */
  function Executed(p: Prog, active: bool): seq<Event>
    decreases p
  {
    match p
    case Return(_) => []
    case Write(id, ok) => if ok then [Event(id, [])] else []
    case Then(first, _, _, _) =>
      var o := ResultOf(first, active);
      Executed(first, active)
      + (if o.Done? then Executed(p.onDone, active)
         else if o.Failed? then Executed(p.onFailed, active)
         else Executed(p.onPanicked, active))
    case Transaction(body, f) =>
      if f.open then [] else Enclose(Executed(body, true), ResultOf(p, active).Done?)
  }

  predicate AllTrue(bs: seq<bool>) {
    forall i :: 0 <= i < |bs| ==> bs[i]
  }

  /** The writes whose every enclosing transaction succeeded. */
  function Kept(events: seq<Event>): seq<int> {
    if events == [] then []
    else if AllTrue(events[0].enclosing) then [events[0].id] + Kept(events[1..])
    else Kept(events[1..])
  }

  /** The statements whose results the promise depends on work, as far as they are executed: the
      undo of a transaction that fails, and the release of a nested one that succeeds. */
  predicate Reliable(p: Prog, active: bool)
    decreases p
  {
    match p
    case Return(_) => true
    case Write(_, _) => true
    case Then(first, _, _, _) =>
      var o := ResultOf(first, active);
      && Reliable(first, active)
      && (if o.Done? then Reliable(p.onDone, active)
          else if o.Failed? then Reliable(p.onFailed, active)
          else Reliable(p.onPanicked, active))
    case Transaction(body, f) =>
      || f.open
      || (&& Reliable(body, true)
          && (if ResultOf(body, true).Done? then f.close ==> !active && !f.undo else !f.undo))
  }

  /** Every executed release of a nested transaction works. */
  predicate Released(p: Prog)
    decreases p
  {
    match p
    case Return(_) => true
    case Write(_, _) => true
    case Then(first, _, _, _) =>
      var o := ResultOf(first, true);
      && Released(first)
      && (if o.Done? then Released(p.onDone) else if o.Failed? then Released(p.onFailed) else Released(p.onPanicked))
    case Transaction(body, f) => f.open || (!f.close && Released(body))
  }

  /** The writes `p` leaves in the store, whether it should or not. */
  function LeftBehind(p: Prog, active: bool): seq<int>
    decreases p
  {
    match p
    case Return(_) => []
    case Write(id, ok) => if ok then [id] else []
    case Then(first, _, _, _) =>
      var o := ResultOf(first, active);
      LeftBehind(first, active)
      + (if o.Done? then LeftBehind(p.onDone, active)
         else if o.Failed? then LeftBehind(p.onFailed, active)
         else LeftBehind(p.onPanicked, active))
    case Transaction(body, f) =>
      var done := ResultOf(body, true).Done?;
      if f.open then []
      else if active then (if done || f.undo then LeftBehind(body, true) else [])
      else if done && !f.close then LeftBehind(body, true)
      else []
  }

  /** An executed outer transaction can neither be committed nor rolled back. */
  predicate Wedged(p: Prog)
    decreases p
  {
    match p
    case Return(_) => false
    case Write(_, _) => false
    case Then(first, _, _, _) =>
      var o := ResultOf(first, false);
      || Wedged(first)
      || (if o.Done? then Wedged(p.onDone) else if o.Failed? then Wedged(p.onFailed) else Wedged(p.onPanicked))
    case Transaction(body, f) => !f.open && f.undo && (f.close || !ResultOf(body, true).Done?)
  }

  /** No failing statement does harm: where a nested transaction is neither released nor undone as it
      should be, its body left nothing behind, and an outer one is always committed or rolled back.
      What is undone may have gone wrong in any way. */
  predicate Harmless(p: Prog, active: bool)
    decreases p
  {
    match p
    case Return(_) => true
    case Write(_, _) => true
    case Then(first, _, _, _) =>
      var o := ResultOf(first, active);
      && Harmless(first, active)
      && (if o.Done? then Harmless(p.onDone, active)
          else if o.Failed? then Harmless(p.onFailed, active)
          else Harmless(p.onPanicked, active))
    case Transaction(body, f) =>
      if f.open then true
      else if ResultOf(body, true).Done? && !f.close then Harmless(body, true)
      else if active then (f.close && ResultOf(body, true).Done?) || f.undo ==> LeftBehind(body, true) == []
      else !f.undo
  }

  lemma {:induction false} KeptAppend(a: seq<Event>, b: seq<Event>)
    ensures Kept(a + b) == Kept(a) + Kept(b)
  {
    hide AllTrue;
    if a == [] {
      assert a + b == b;
    } else {
      assert (a + b)[1..] == a[1..] + b && (a + b)[0] == a[0];
      KeptAppend(a[1..], b);
      assert [a[0].id] + (Kept(a[1..]) + Kept(b)) == [a[0].id] + Kept(a[1..]) + Kept(b);
    }
  }

  lemma {:induction false} KeptEnclosed(events: seq<Event>, succeeded: bool)
    ensures Kept(Enclose(events, succeeded)) == if succeeded then Kept(events) else []
  {
    if events != [] {
      KeptEnclosed(events[1..], succeeded);
      var bs := events[0].enclosing;
      assert AllTrue(bs + [succeeded]) <==> AllTrue(bs) && succeeded by {
        assert (bs + [succeeded])[|bs|] == succeeded;
        if AllTrue(bs + [succeeded]) {
          forall i | 0 <= i < |bs| ensures bs[i] { assert (bs + [succeeded])[i]; }
        }
      }
    }
  }

  function AppendAll(s: Store, ids: seq<int>): Store {
    if s.work.Some? then s.(work := Some(s.work.value + ids)) else s.(committed := s.committed + ids)
  }

  lemma AppendAllTwice(s: Store, a: seq<int>, b: seq<int>)
    ensures AppendAll(AppendAll(s, a), b) == AppendAll(s, a + b)
  {
    if s.work.Some? {
      assert s.work.value + a + b == s.work.value + (a + b);
    } else {
      assert s.committed + a + b == s.committed + (a + b);
    }
  }

  lemma AppendNothing(s: Store)
    ensures AppendAll(s, []) == s
  {
    if s.work.Some? { assert s.work.value + [] == s.work.value; } else { assert s.committed + [] == s.committed; }
  }

  /** Inside an open transaction the committed writes do not move. */
  lemma {:induction false} ActiveKeepsCommitted(p: Prog, s: Store)
    requires s.work.Some?
    ensures Denote(p, true, s).1.work.Some? && Denote(p, true, s).1.committed == s.committed
    decreases p
  {
    match p {
      case Return(_) =>
      case Write(_, _) =>
      case Then(first, _, _, _) =>
        ActiveKeepsCommitted(first, s);
        var (o, mid) := Denote(first, true, s);
        ActiveKeepsCommitted(if o.Done? then p.onDone else if o.Failed? then p.onFailed else p.onPanicked, mid);
      case Transaction(body, _) => ActiveKeepsCommitted(body, s);
    }
  }

  /** Inside a transaction, how a program ends does not depend on the store. */
  lemma {:induction false} OutcomeInside(p: Prog, s: Store)
    ensures Denote(p, true, s).0 == ResultOf(p, true)
    decreases p
  {
    match p {
      case Return(_) =>
      case Write(_, _) =>
      case Then(first, _, _, _) =>
        OutcomeInside(first, s);
        var (o, mid) := Denote(first, true, s);
        OutcomeInside(if o.Done? then p.onDone else if o.Failed? then p.onFailed else p.onPanicked, mid);
      case Transaction(body, _) => OutcomeInside(body, s);
    }
  }

  /** Inside a transaction a program leaves exactly what it leaves behind. */
  lemma {:induction false} LeavesBehind(p: Prog, s: Store)
    requires s.work.Some?
    ensures Denote(p, true, s) == (ResultOf(p, true), AppendAll(s, LeftBehind(p, true)))
    decreases p
  {
    match p {
      case Return(_) => AppendNothing(s);
      case Write(_, _) => AppendNothing(s);
      case Then(first, _, _, _) =>
        LeavesBehind(first, s);
        var o, mid := ResultOf(first, true), AppendAll(s, LeftBehind(first, true));
        var next := if o.Done? then p.onDone else if o.Failed? then p.onFailed else p.onPanicked;
        LeavesBehind(next, mid);
        AppendAllTwice(s, LeftBehind(first, true), LeftBehind(next, true));
      case Transaction(body, _) =>
        AppendNothing(s);
        LeavesBehind(body, s);
    }
  }

  /** A transaction nobody closes stays open. */
  lemma {:induction false} StaysOpen(p: Prog, s: Store)
    requires s.work.Some?
    ensures Denote(p, false, s).1.work.Some?
    decreases p
  {
    match p {
      case Return(_) =>
      case Write(_, _) =>
      case Then(first, _, _, _) =>
        StaysOpen(first, s);
        var (o, mid) := Denote(first, false, s);
        StaysOpen(if o.Done? then p.onDone else if o.Failed? then p.onFailed else p.onPanicked, mid);
      case Transaction(_, _) =>
    }
  }

  /** Outside a transaction a program leaves exactly what it leaves behind, unless it wedges the
      connection in an open transaction. */
  lemma {:induction false} LeavesBehindOutside(p: Prog, s: Store)
    requires s.work.None?
    ensures if Wedged(p) then Denote(p, false, s).1.work.Some?
            else Denote(p, false, s) == (ResultOf(p, false), AppendAll(s, LeftBehind(p, false)))
    decreases p
  {
    match p {
      case Return(_) => AppendNothing(s);
      case Write(_, _) => AppendNothing(s);
      case Then(first, _, _, _) =>
        LeavesBehindOutside(first, s);
        var (o, mid) := Denote(first, false, s);
        var next := if o.Done? then p.onDone else if o.Failed? then p.onFailed else p.onPanicked;
        if Wedged(first) {
          StaysOpen(next, mid);
        } else {
          LeavesBehindOutside(next, mid);
          AppendAllTwice(s, LeftBehind(first, false), LeftBehind(next, false));
        }
      case Transaction(body, _) =>
        AppendNothing(s);
        LeavesBehind(body, s.(work := Some(s.committed)));
    }
  }

  /** What should be kept is part of what is left behind, and is all of it exactly without harm. */
  lemma {:induction false} HarmlessKeepsExactly(p: Prog, active: bool)
    ensures |Kept(Executed(p, active))| <= |LeftBehind(p, active)|
    ensures active || !Wedged(p) ==> (Kept(Executed(p, active)) == LeftBehind(p, active) <==> Harmless(p, active))
    ensures !active && Wedged(p) ==> !Harmless(p, active)
    decreases p
  {
    match p {
      case Return(_) =>
      case Write(id, ok) =>
        assert Kept([Event(id, [])]) == [id];
      case Then(first, _, _, _) =>
        var o := ResultOf(first, active);
        var next := if o.Done? then p.onDone else if o.Failed? then p.onFailed else p.onPanicked;
        HarmlessKeepsExactly(first, active);
        HarmlessKeepsExactly(next, active);
        KeptAppend(Executed(first, active), Executed(next, active));
        EqualParts(Kept(Executed(first, active)), Kept(Executed(next, active)),
                   LeftBehind(first, active), LeftBehind(next, active));
      case Transaction(body, f) =>
        KeptEnclosed(Executed(body, true), ResultOf(p, active).Done?);
        HarmlessKeepsExactly(body, true);
    }
  }

  lemma EqualParts(a: seq<int>, b: seq<int>, x: seq<int>, y: seq<int>)
    requires |a| <= |x| && |b| <= |y|
    ensures a + b == x + y <==> a == x && b == y
  {
    if a + b == x + y {
      assert |a| == |x|;
      assert a == (a + b)[..|a|] && x == (x + y)[..|x|];
      assert b == (a + b)[|a|..] && y == (x + y)[|x|..];
    }
  }

  lemma AppendAllInjective(s: Store, a: seq<int>, b: seq<int>)
    ensures AppendAll(s, a) == AppendAll(s, b) <==> a == b
  {
    var base := if s.work.Some? then s.work.value else s.committed;
    assert (base + a)[|base|..] == a && (base + b)[|base|..] == b;
  }

  /** Exactly when a program leaves the executed writes whose every enclosing transaction succeeded,
      and no SQL transaction of its own: when no failing statement does harm. */
  lemma ExactlyTheKeptWrites(p: Prog, active: bool, s: Store)
    requires active <==> s.work.Some?
    ensures Denote(p, active, s).1 == AppendAll(s, Kept(Executed(p, active))) <==> Harmless(p, active)
    ensures Harmless(p, active) ==> Denote(p, active, s).0 == ResultOf(p, active)
  {
    HarmlessKeepsExactly(p, active);
    AppendAllInjective(s, Kept(Executed(p, active)), LeftBehind(p, active));
    if active {
      LeavesBehind(p, s);
    } else {
      LeavesBehindOutside(p, s);
    }
  }

  /** In particular when the statements the promise depends on work, as far as they are executed. */
  lemma {:induction false} ReliableIsHarmless(p: Prog, active: bool)
    requires Reliable(p, active)
    ensures Harmless(p, active)
    decreases p
  {
    match p {
      case Return(_) =>
      case Write(_, _) =>
      case Then(first, _, _, _) =>
        var o := ResultOf(first, active);
        ReliableIsHarmless(first, active);
        ReliableIsHarmless(if o.Done? then p.onDone else if o.Failed? then p.onFailed else p.onPanicked, active);
      case Transaction(body, f) =>
        if !f.open { ReliableIsHarmless(body, true); }
    }
  }

  /* ---------- When a statement fails: the exact condition ---------- */

  /** A nested transaction that reports failure leaves the store as it was exactly when its body left
      nothing behind, or the body failed and `ROLLBACK TO` worked. */
  lemma NestedFailureRestores(body: Prog, f: Faults, s: Store)
    requires s.work.Some? && !f.open
    requires Denote(Transaction(body, f), true, s).0 != Done
    ensures Denote(Transaction(body, f), true, s).1 == s
       <==> LeftBehind(body, true) == [] || (ResultOf(body, true) != Done && !f.undo)
  {
    LeavesBehind(body, s);
    AppendNothing(s);
    AppendAllInjective(s, LeftBehind(body, true), []);
  }

  /** An input on which the promise breaks: the savepoint release fails after the write, the
      caller swallows the reported error, and the outer commit keeps the write. */
  lemma FailedReleaseKeepsTheWrite()
    ensures var inner := Transaction(Write(7, true), Faults(false, true, false));
            var outer := Transaction(Then(inner, Return(Done), Return(Done), Return(Done)),
                Faults(false, false, false));
            && Denote(inner, true, Store([], Some([]))).0 == Failed
            && Denote(outer, false, Store([], None)) == (Done, Store([7], None))
  {
    var inner := Transaction(Write(7, true), Faults(false, true, false));
    assert [] + [7] == [7];
    assert Append(Store([], Some([])), 7) == Store([], Some([7]));
    assert Denote(inner, true, Store([], Some([]))) == (Failed, Store([], Some([7])));
  }
}
