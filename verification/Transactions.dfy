/** The savepoint machine behind `Connection::transaction` (src/connection.rs): thread-local
    TX_STATE and one SQLite connection with its SAVEPOINT stack, driven statement by statement. */
module Transactions {
  import opened Prelude
  import Decimal
  import opened TransactionSemantics

  const SAVEPOINT_PREFIX := "__seekwel_savepoint_"

  function SavepointName(n: nat): string {
    SAVEPOINT_PREFIX + Decimal.Print(n)
  }

  lemma SavepointNameInjective(a: nat, b: nat)
    requires SavepointName(a) == SavepointName(b)
    ensures a == b
  {
    assert SavepointName(a)[|SAVEPOINT_PREFIX|..] == Decimal.Print(a);
    assert SavepointName(b)[|SAVEPOINT_PREFIX|..] == Decimal.Print(b);
    Decimal.PrintInjective(a, b);
  }

  datatype TransactionState = TransactionState(depth: nat, nextSavepoint: nat)

  datatype Savepoint = Savepoint(name: string, snapshot: seq<int>)

  /** The most recent savepoint of a name. */
  function FindSavepoint(saves: seq<Savepoint>, name: string): Option<nat> {
    if saves == [] then None
    else if saves[|saves| - 1].name == name then Some(|saves| - 1)
    else FindSavepoint(saves[..|saves| - 1], name)
  }

  lemma {:induction false} FindSavepointAt(saves: seq<Savepoint>, i: nat)
    requires i < |saves|
    requires forall j :: i < j < |saves| ==> saves[j].name != saves[i].name
    ensures FindSavepoint(saves, saves[i].name) == Some(i)
  {
    if i < |saves| - 1 {
      assert saves[..|saves| - 1][i] == saves[i];
      FindSavepointAt(saves[..|saves| - 1], i);
    }
  }

  lemma {:induction false} FindSavepointBounds(saves: seq<Savepoint>, name: string)
    ensures FindSavepoint(saves, name).Some? ==> FindSavepoint(saves, name).value < |saves|
  {
    if saves != [] { FindSavepointBounds(saves[..|saves| - 1], name); }
  }

  /** Names handed out by one outer transaction: in order, each number at most once. */
  ghost predicate Issued(names: seq<string>, next: nat) {
    && (forall i :: 0 <= i < |names| ==> exists k :: 1 <= k <= next && names[i] == SavepointName(k))
    && (forall i, j :: 0 <= i < j < |names| ==> names[i] != names[j])
  }

  class Session {
    var committed: seq<int>
    var work: Option<seq<int>>
    var saves: seq<Savepoint>
    var tx: Option<TransactionState>
    ghost var issued: seq<string>

    constructor ()
      ensures Valid() && tx == None && Store() == TransactionSemantics.Store([], None) && saves == []
    {
      committed, work, saves, tx, issued := [], None, [], None, [];
    }

    function Store(): TransactionSemantics.Store
      reads this
    {
      TransactionSemantics.Store(committed, work)
    }

    /** Every savepoint on the stack was issued by the current outer transaction, and no name
        twice. */
    ghost predicate Valid()
      reads this
    {
      && (work.None? ==> saves == [])
      && (forall i, j :: 0 <= i < j < |saves| ==> saves[i].name != saves[j].name)
      && (forall i :: 0 <= i < |saves| ==> saves[i].name in issued)
      && (tx.Some? ==> work.Some? && tx.value.depth >= 1 && Issued(issued, tx.value.nextSavepoint))
    }

    /* ---------- SQL statements ---------- */

    method BeginImmediate(fault: bool) returns (ok: bool)
      requires Valid() && tx.None?
      modifies this
      ensures Valid() && tx.None? && committed == old(committed)
      ensures ok == (!fault && old(work).None?)
      ensures if ok then work == Some(committed) && saves == [] && issued == []
              else work == old(work) && saves == old(saves) && issued == old(issued)
    {
      ok := !fault && work.None?;
      if ok {
        work, saves, issued := Some(committed), [], [];
      }
    }

    method Commit(fault: bool) returns (ok: bool)
      requires Valid() && tx.None? && work.Some?
      modifies this
      ensures Valid() && tx.None? && ok == !fault
      ensures if ok then committed == old(work).value && work == None && saves == []
              else committed == old(committed) && work == old(work) && saves == old(saves)
    {
      ok := !fault;
      if ok {
        committed, work, saves := work.value, None, [];
      }
    }

    method Rollback(fault: bool) returns (ok: bool)
      requires Valid() && tx.None? && work.Some?
      modifies this
      ensures Valid() && tx.None? && ok == !fault && committed == old(committed)
      ensures if ok then work == None && saves == [] else work == old(work) && saves == old(saves)
    {
      ok := !fault;
      if ok {
        work, saves := None, [];
      }
    }

    method ExecuteSavepoint(name: string, fault: bool) returns (ok: bool)
      requires Valid() && tx.Some? && name !in issued
      requires exists k :: 1 <= k <= tx.value.nextSavepoint && name == SavepointName(k)
      modifies this
      ensures Valid() && ok == !fault && tx == old(tx) && committed == old(committed) && work == old(work)
      ensures if ok then saves == old(saves) + [Savepoint(name, work.value)] && issued == old(issued) + [name]
              else saves == old(saves) && issued == old(issued)
    {
      ok := !fault;
      if ok {
        saves := saves + [Savepoint(name, work.value)];
        issued := issued + [name];
      }
    }

    /** Restores the snapshot and keeps the savepoint, dropping the ones above it. */
    method RollbackTo(name: string, fault: bool) returns (ok: bool)
      requires Valid() && tx.Some?
      modifies this
      ensures Valid() && tx == old(tx) && committed == old(committed) && issued == old(issued)
      ensures ok == (!fault && FindSavepoint(old(saves), name).Some?)
      ensures if ok then FindSavepoint(old(saves), name).value < |old(saves)|
                         && saves == old(saves)[..FindSavepoint(old(saves), name).value + 1]
                         && work == Some(old(saves)[FindSavepoint(old(saves), name).value].snapshot)
              else saves == old(saves) && work == old(work)
    {
      var found := FindSavepoint(saves, name);
      FindSavepointBounds(saves, name);
      ok := !fault && found.Some?;
      if ok {
        work := Some(saves[found.value].snapshot);
        saves := saves[..found.value + 1];
      }
    }

    /** Forgets the savepoint and the ones above it; the work stays. */
    method Release(name: string, fault: bool) returns (ok: bool)
      requires Valid() && tx.Some?
      modifies this
      ensures Valid() && tx == old(tx) && committed == old(committed) && issued == old(issued) && work == old(work)
      ensures ok == (!fault && FindSavepoint(old(saves), name).Some?)
      ensures if ok then FindSavepoint(old(saves), name).value < |old(saves)|
                         && saves == old(saves)[..FindSavepoint(old(saves), name).value]
              else saves == old(saves)
    {
      var found := FindSavepoint(saves, name);
      FindSavepointBounds(saves, name);
      ok := !fault && found.Some?;
      if ok {
        saves := saves[..found.value];
      }
    }

    /* ---------- Connection::transaction ---------- */

    /** What a closure inside a transaction leaves alone: the depth, the savepoints below it. */
    twostate predicate Nested()
      reads this
    {
      && old(tx).Some? && tx.Some?
      && tx.value.depth == old(tx).value.depth
      && tx.value.nextSavepoint >= old(tx).value.nextSavepoint
      && |saves| >= |old(saves)| && saves[..|old(saves)|] == old(saves)
      && |issued| >= |old(issued)| && issued[..|old(issued)|] == old(issued)
    }

    /** Runs a closure.  The store ends as `Denote` says; TX_STATE is as before, except that
        inside a transaction the savepoint counter may have moved on; and if no savepoint
        release failed the SAVEPOINT stack is as before too. */
    method Run(p: Prog) returns (o: Outcome)
      requires Valid()
      modifies this
      ensures Valid()
      ensures (o, Store()) == Denote(p, old(tx).Some?, old(Store()))
      ensures if old(tx).Some? then Nested() else tx.None?
      ensures old(tx).Some? && Released(p) ==> saves == old(saves)
      decreases p, 1
    {
      match p {
        case Return(outcome) =>
          o := outcome;
        case Write(id, ok) =>
          if !ok {
            return Failed;
          }
          if work.Some? {
            work := Some(work.value + [id]);
          } else {
            committed := committed + [id];
          }
          o := Done;
        case Then(first, _, _, _) =>
          OutcomeInside(first, Store());
          o := Run(first);
          match o {
            case Done => o := Run(p.onDone);
            case Failed => o := Run(p.onFailed);
            case Panicked => o := Run(p.onPanicked);
          }
        case Transaction(body, faults) =>
          if tx.Some? {
            o := NestedTransaction(body, faults);
          } else {
            o := OuterTransaction(body, faults);
          }
      }
    }

    /** `outer_transaction`. */
    method OuterTransaction(body: Prog, faults: Faults) returns (o: Outcome)
      requires Valid() && tx.None?
      modifies this
      ensures Valid() && tx.None?
      ensures (o, Store()) == Denote(Transaction(body, faults), false, old(Store()))
      ensures old(work).None? ==>
                ((work == None && committed == old(committed) + Kept(Executed(Transaction(body, faults), false)))
                  <==> Harmless(Transaction(body, faults), false))
      decreases body, 2
    {
      if work.None? {
        ExactlyTheKeptWrites(Transaction(body, faults), false, Store());
      }
      var begun := BeginImmediate(faults.open);
      if !begun {
        return Failed;
      }
      tx := Some(TransactionState(1, 0));
      o := Run(body);
      tx := None;
      if o.Done? {
        var ok := Commit(faults.close);
        if !ok {
          ok := Rollback(faults.undo);
          return Failed;
        }
      } else {
        var _ := Rollback(faults.undo);
      }
    }

    /** `begin_savepoint`: the counter moves even if the statement fails. */
    method BeginSavepoint(fault: bool) returns (name: Option<string>)
      requires Valid() && tx.Some?
      modifies this
      ensures Valid() && Store() == old(Store()) && (name.None? <==> fault)
      ensures tx.Some? && tx.value.nextSavepoint == old(tx).value.nextSavepoint + 1
      ensures tx.value.depth == old(tx).value.depth + (if fault then 0 else 1)
      ensures if fault then saves == old(saves) && issued == old(issued)
              else name.value !in old(issued)
                   && saves == old(saves) + [Savepoint(name.value, work.value)]
                   && issued == old(issued) + [name.value]
    {
      tx := Some(TransactionState(tx.value.depth + 1, tx.value.nextSavepoint + 1));
      var next := SavepointName(tx.value.nextSavepoint);
      FreshName(issued, tx.value.nextSavepoint - 1);
      var begun := ExecuteSavepoint(next, fault);
      if !begun {
        FinishSavepoint();
        return None;
      }
      return Some(next);
    }

    /** `finish_savepoint`. */
    method FinishSavepoint()
      requires Valid() && tx.Some? && tx.value.depth > 1
      modifies this`tx
      ensures Valid() && tx == Some(old(tx).value.(depth := old(tx).value.depth - 1))
    {
      tx := Some(tx.value.(depth := tx.value.depth - 1));
    }

    /** The savepoint `name` sits at position `n` of the stack. */
    ghost predicate SavepointAt(name: string, n: nat)
      reads this
    {
      n < |saves| && saves[n].name == name
    }

    /** The end of a nested transaction whose closure succeeded. */
    method KeepNested(name: string, fault: bool, ghost n: nat) returns (ok: bool)
      requires Valid() && tx.Some? && tx.value.depth > 1 && SavepointAt(name, n)
      modifies this
      ensures Valid() && Store() == old(Store()) && issued == old(issued) && ok == !fault
      ensures tx == Some(old(tx).value.(depth := old(tx).value.depth - 1))
      ensures saves == if fault then old(saves) else old(saves)[..n]
    {
      FindSavepointAt(saves, n);
      ok := Release(name, fault);
      FinishSavepoint();
    }

    /** The end of a nested transaction whose closure failed or panicked: both statements'
        own results are ignored. */
    method UndoNested(name: string, faults: Faults, ghost n: nat)
      requires Valid() && tx.Some? && tx.value.depth > 1 && SavepointAt(name, n)
      modifies this
      ensures Valid() && committed == old(committed) && issued == old(issued)
      ensures tx == Some(old(tx).value.(depth := old(tx).value.depth - 1))
      ensures work == if faults.undo then old(work) else Some(old(saves)[n].snapshot)
      ensures |saves| >= n && saves[..n] == old(saves)[..n]
      ensures !faults.close ==> saves == old(saves)[..n]
    {
      FindSavepointAt(saves, n);
      var undone := RollbackTo(name, faults.undo);
      FindSavepointAt(saves, n);
      var released := Release(name, faults.close);
      FinishSavepoint();
    }

    lemma DenoteNested(body: Prog, f: Faults, s: TransactionSemantics.Store)
      ensures Released(Transaction(body, f)) && !f.open ==> !f.close && Released(body)
      ensures f.open ==> Denote(Transaction(body, f), true, s) == (Failed, s)
      ensures !f.open ==>
                var (o, inner) := Denote(body, true, s);
                Denote(Transaction(body, f), true, s)
                == if o.Done? then (if f.close then (Failed, inner) else (Done, inner))
                   else (o, if f.undo then inner else inner.(work := s.work))
    {
    }

    /** `nested_transaction`. */
    method NestedTransaction(body: Prog, faults: Faults) returns (o: Outcome)
      requires Valid() && tx.Some?
      modifies this
      ensures Valid() && Nested()
      ensures (o, Store()) == Denote(Transaction(body, faults), true, old(Store()))
      ensures Released(Transaction(body, faults)) ==> saves == old(saves)
      decreases body, 2
    {
      hide Denote, Released, Issued, FindSavepoint;
      DenoteNested(body, faults, Store());
      ghost var n := |saves|;
      var name := BeginSavepoint(faults.open);
      if name.None? {
        return Failed;
      }
      ghost var below := saves;
      o := Run(body);
      assert saves[n] == below[n] by { assert saves[..n + 1][n] == below[n]; }
      assert saves[..n] == old(saves) by { assert saves[..n] == saves[..n + 1][..n]; }
      if o.Done? {
        var kept := KeepNested(name.value, faults.close, n);
        if !kept {
          return Failed;
        }
      } else {
        UndoNested(name.value, faults, n);
      }
    }
  }

  /** The counter makes the next name new. */
  lemma FreshName(issued: seq<string>, next: nat)
    requires Issued(issued, next)
    ensures SavepointName(next + 1) !in issued
    ensures Issued(issued, next + 1)
  {
    if SavepointName(next + 1) in issued {
      var i :| 0 <= i < |issued| && issued[i] == SavepointName(next + 1);
      var k :| 1 <= k <= next && issued[i] == SavepointName(k);
      SavepointNameInjective(k, next + 1);
    }
  }
}
