/**
 Model of internal/repository/unitofwork/unit_of_work_impl.go. A unit of work
 sends every repository call to its open transaction, or straight to the
 database when it has none. `T` is the content of the tables it works on.
 */
module UnitOfWork {

  /** The `tx` field: nil, a usable transaction, or one that could not be started. */
  datatype Tx<+T> = NoTx | Open(view: T) | Broken

  /** A unit of work as a value: what is committed, and the transaction. */
  datatype Work<T> = Work(db: T, tx: Tx<T>) {

    /** What repository calls read: `getDB`. */
    function Current(): T {
      if tx.Open? then tx.view else db
    }

    /** A repository write. It fails on a broken transaction or when the database says so, and then changes nothing. */
    function Exec(f: T -> T, fault: bool): Work<T> {
      if fault || tx.Broken? then this
      else if tx.Open? then Work(db, Open(f(tx.view)))
      else Work(f(db), tx)
    }

    function Begin(fault: bool): Work<T> {
      if !tx.NoTx? then this else Work(db, if fault then Broken else Open(db))
    }

    function Commit(fault: bool): Work<T> {
      Work(if tx.Open? && !fault then tx.view else db, NoTx)
    }

    function Rollback(): Work<T> {
      Work(db, NoTx)
    }
  }

  class Unit<T> {
    var db: T
    var tx: Tx<T>

    function View(): Work<T>
      reads this
    {
      Work(db, tx)
    }

    constructor (db: T)
      ensures View() == Work(db, NoTx)
    {
      this.db, this.tx := db, NoTx;
    }

    /** Fails when a transaction is already started; a failed start leaves the field set. */
    method Begin(fault: bool) returns (err: bool)
      modifies this`tx
      ensures View() == old(View()).Begin(fault)
      ensures err <==> old(tx) != NoTx || fault
    {
      if !tx.NoTx? {
        return true;
      }
      tx := if fault then Broken else Open(db);
      err := tx.Broken?;
    }

    method Commit(fault: bool) returns (err: bool)
      modifies this
      ensures View() == old(View()).Commit(fault)
      ensures err <==> !old(tx).Open? || fault
    {
      if tx.NoTx? {
        return true;
      }
      err := tx.Broken? || fault;
      if !err {
        db := tx.view;
      }
      tx := NoTx;
    }

    method Rollback() returns (err: bool)
      modifies this`tx
      ensures View() == old(View()).Rollback()
      ensures err <==> !old(tx).Open?
    {
      if tx.NoTx? {
        return true;
      }
      err := tx.Broken?;
      tx := NoTx;
    }

    /** One repository write. */
    method Exec(f: T -> T, fault: bool) returns (err: bool)
      modifies this
      ensures View() == old(View()).Exec(f, fault)
      ensures err <==> fault || old(tx).Broken?
      ensures old(tx).Open? ==> db == old(db)
    {
      err := fault || tx.Broken?;
      if !err {
        if tx.Open? {
          tx := Open(f(tx.view));
        } else {
          db := f(db);
        }
      }
    }
  }

  /** A request reads its own writes; before the commit nobody else does, and after a rollback nobody. */
  lemma ReadsOwnWrites<T>(w: Work<T>, f: T -> T)
    ensures !w.tx.Broken? ==> w.Exec(f, false).Current() == f(w.Current())
    ensures w.Exec(f, true) == w
    ensures w.tx.Open? ==>
              var after := w.Exec(f, false);
              after.db == w.db && after.Commit(false).Current() == f(w.Current()) && after.Rollback().Current() == w.db
    ensures w.tx.NoTx? ==> w.Begin(false).Current() == w.db
  {
  }

  /** The writes of a request, in order. */
  function ApplyAll<T>(view: T, writes: seq<T -> T>): T {
    if writes == [] then view else ApplyAll(writes[0](view), writes[1..])
  }

  /**
   The shape of every transactional request: begin; write until something fails;
   commit if nothing did; and a deferred rollback in any case. `faults[i]` says
   whether the i-th call to the database fails, the begin being call 0.
   */
  function Bracket<T>(w: Work<T>, writes: seq<T -> T>, faults: seq<bool>): Work<T>
    requires |faults| == |writes| + 2
  {
    if !w.tx.NoTx? || faults[0] then w.Begin(faults[0])
    else Body(w.Begin(false), writes, faults[1..]).Rollback()
  }

  function Body<T>(w: Work<T>, writes: seq<T -> T>, faults: seq<bool>): Work<T>
    requires |faults| == |writes| + 1
    decreases |writes|
  {
    if writes == [] then w.Commit(faults[0])
    else if faults[0] then w
    else Body(w.Exec(writes[0], false), writes[1..], faults[1..])
  }

  lemma {:induction false} BodyAllOrNothing<T>(w: Work<T>, writes: seq<T -> T>, faults: seq<bool>)
    requires |faults| == |writes| + 1 && w.tx.Open?
    ensures Body(w, writes, faults).db ==
            if forall i :: 0 <= i < |faults| ==> !faults[i] then ApplyAll(w.tx.view, writes) else w.db
    decreases |writes|
  {
    if writes != [] && !faults[0] {
      BodyAllOrNothing(w.Exec(writes[0], false), writes[1..], faults[1..]);
      assert (forall i :: 0 <= i < |faults| ==> !faults[i])
        <==> (forall i :: 0 <= i < |faults[1..]| ==> !faults[1..][i]) by {
        assert forall i :: 0 < i < |faults| ==> faults[i] == faults[1..][i - 1];
      }
    }
  }

  /**
   A bracketed request commits all of its writes when no call fails and none of
   them otherwise; and unless it could not begin, it leaves no transaction behind.
   */
  lemma AllOrNothing<T>(w: Work<T>, writes: seq<T -> T>, faults: seq<bool>)
    requires |faults| == |writes| + 2 && w.tx.NoTx?
    ensures Bracket(w, writes, faults).db ==
            if forall i :: 0 <= i < |faults| ==> !faults[i] then ApplyAll(w.db, writes) else w.db
    ensures Bracket(w, writes, faults).tx == if faults[0] then Broken else NoTx
  {
    if !faults[0] {
      BodyAllOrNothing(w.Begin(false), writes, faults[1..]);
      assert (forall i :: 0 <= i < |faults| ==> !faults[i])
        <==> (forall i :: 0 <= i < |faults[1..]| ==> !faults[1..][i]) by {
        assert forall i :: 0 < i < |faults| ==> faults[i] == faults[1..][i - 1];
      }
    }
  }
}
