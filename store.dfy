/**
 * The `transactions` table, reduced to its rows and the unique constraint on `reference`.
 * The SQL engine itself is replaced by the constraint and a fault oracle.
 */
module Store {
  import opened Wrappers
  import opened Domain

  /** The references of a sequence of rows. */
  function ReferencesOf(rows: seq<Transaction>): set<string> {
    set t | t in rows :: t.reference
  }

  /** The unique constraint: no two rows share a reference. */
  predicate UniqueReferences(rows: seq<Transaction>) {
    forall i, j :: 0 <= i < j < |rows| ==> rows[i].reference != rows[j].reference
  }

  /**
   * What the INSERT statement raises when the table already holds `refs`: the fault the
   * database reports, if any; otherwise the unique index's violation when the reference is taken
   * (its message is the offending reference, standing in for the driver's text); otherwise nothing.
   */
  function InsertError(refs: set<string>, t: Transaction, fault: Option<Failure>): (e: Option<Failure>)
    ensures e.None? <==> fault.None? && t.reference !in refs
    ensures fault.None? && t.reference in refs ==> e == Some(DuplicateKey(t.reference))
  {
    if fault.Some? then fault
    else if t.reference in refs then Some(DuplicateKey(t.reference))
    else None
  }

  /** The references of a non-empty sequence: its first row's and those of the rest. */
  lemma ReferencesOfCons(rows: seq<Transaction>)
    requires rows != []
    ensures ReferencesOf(rows) == {rows[0].reference} + ReferencesOf(rows[1..])
  {
  }

  /** Appending a row adds its reference. */
  lemma ReferencesOfSnoc(rows: seq<Transaction>, t: Transaction)
    ensures ReferencesOf(rows + [t]) == ReferencesOf(rows) + {t.reference}
  {
  }

  /** Under the unique constraint the table holds exactly one row per reference. */
  lemma {:induction false} OneRowPerReference(rows: seq<Transaction>)
    requires UniqueReferences(rows)
    ensures |ReferencesOf(rows)| == |rows|
  {
    if rows != [] {
      var tail := rows[1..];
      assert UniqueReferences(tail) by {
        forall i, j | 0 <= i < j < |tail| ensures tail[i].reference != tail[j].reference {
          assert tail[i] == rows[i + 1] && tail[j] == rows[j + 1];
        }
      }
      OneRowPerReference(tail);
      ReferencesOfCons(rows);
      assert rows[0].reference !in ReferencesOf(tail);
    }
  }

  class TransactionsTable {
    var rows: seq<Transaction>
    /** How many INSERT statements the table has been sent. */
    ghost var attempts: nat

    ghost predicate Valid()
      reads this
    {
      UniqueReferences(rows)
    }

    function References(): set<string>
      reads this
    {
      ReferencesOf(rows)
    }

    constructor ()
      ensures Valid() && rows == [] && attempts == 0
    {
      rows := [];
      attempts := 0;
    }

    /**
     * One INSERT inside its own transaction: on success one row is added; on any failure the
     * transaction is rolled back and no row is added.
     */
    method Insert(t: Transaction, fault: Option<Failure>) returns (error: Option<Failure>)
      requires Valid()
      modifies this
      ensures Valid()
      ensures error == InsertError(old(References()), t, fault)
      ensures rows == if error.None? then old(rows) + [t] else old(rows)
      ensures References() == if error.None? then old(References()) + {t.reference} else old(References())
      ensures attempts == old(attempts) + 1
    {
      attempts := attempts + 1;
      error := InsertError(ReferencesOf(rows), t, fault);
      if error.None? {
        forall i | 0 <= i < |rows| ensures rows[i].reference != t.reference {
          assert rows[i] in rows;
        }
        ReferencesOfSnoc(rows, t);
        rows := rows + [t];
      }
    }
  }
}
