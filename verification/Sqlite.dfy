/** A SQLite connection: statements that may fail, and one transaction at a time over the whole file. */
module Sqlite {
  import opened Wrappers

  class Connection<D> {
    /** Whether the n-th statement fails for reasons outside the models. */
    const fails: nat -> bool
    var statements: nat
    /** The file as another connection sees it, and as a crash would leave it. */
    var durable: D
    /** The file as this connection sees it while its transaction is open. */
    var working: Option<D>
    /** Every content the file has had, in order. */
    ghost var trail: seq<D>

    constructor (fails: nat -> bool, file: D)
      ensures this.fails == fails && durable == file && working == None && trail == [file]
    {
      this.fails, statements, durable, working := fails, 0, file, None;
      trail := [file];
    }

    function Current(): D
      reads this
    {
      if working.Some? then working.value else durable
    }

    /** No statement fails but for what it says. */
    ghost predicate Sound() {
      forall n :: !fails(n)
    }

    /** Since then no transaction began or ended; what happened inside one is not in the file. */
    ghost predicate Since(durable0: D, working0: Option<D>, trail0: seq<D>)
      reads this
    {
      working0.Some? == working.Some? && (working0.Some? ==> durable == durable0 && trail == trail0)
    }

    method Attempt() returns (ok: bool)
      modifies `statements
      ensures Sound() ==> ok
    {
      ok := !fails(statements);
      statements := statements + 1;
    }

    /** A change outside a transaction is in the file at once. */
    method Write(d: D)
      modifies `durable, `working, `trail
      ensures Current() == d && Since(old(durable), old(working), old(trail))
      ensures old(working).None? ==> trail == old(trail) + [d]
    {
      if working.Some? {
        working := Some(d);
      } else {
        durable := d;
        trail := trail + [d];
      }
    }

    /** There is no transaction within a transaction. */
    method Begin() returns (ok: bool)
      modifies `statements, `working
      ensures ok ==> old(working).None? && working == Some(durable)
      ensures !ok ==> working == old(working)
      ensures Sound() ==> (ok <==> old(working).None?)
    {
      ok := Attempt();
      ok := ok && working.None?;
      if ok {
        working := Some(durable);
      }
    }

    /** A failing commit leaves the transaction open, and the file as it was. */
    method Commit() returns (ok: bool)
      requires working.Some?
      modifies `statements, `durable, `working, `trail
      ensures Sound() ==> ok
      ensures !ok ==> working == old(working) && durable == old(durable) && trail == old(trail)
      ensures ok ==> working == None && durable == old(working).value && trail == old(trail) + [durable]
    {
      ok := Attempt();
      if ok {
        durable, working := working.value, None;
        trail := trail + [durable];
      }
    }

    /** A rollback may fail too; the file is untouched either way. */
    method Rollback()
      modifies `statements, `working
      ensures working == None || working == old(working)
      ensures Sound() ==> working == None
    {
      var ok := Attempt();
      if ok {
        working := None;
      }
    }
  }

  /** The end of `immediate_transaction`: a body that failed, or a commit that does, undoes everything. */
  method Finish<D>(conn: Connection<D>, done: bool) returns (ok: bool)
    requires conn.working.Some?
    modifies conn
    ensures ok ==> done && conn.working == None && conn.durable == old(conn.working).value && conn.trail == old(conn.trail) + [conn.durable]
    ensures !ok ==> conn.durable == old(conn.durable) && conn.trail == old(conn.trail)
    ensures conn.Sound() ==> ok == done
  {
    ok := done;
    if ok {
      ok := conn.Commit();
    }
    if !ok {
      conn.Rollback();
    }
  }
}
