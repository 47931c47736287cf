/**
 * The data migration that introduced the section status column: forwards
 * fills the status from the open flag, backwards recomputes the open flag
 * from the status.
 */
module SectionStatusMigration {
  import opened Choices
  import opened Models

  /** A row whose open flag and status agree. */
  predicate Consistent(sec: Section) {
    sec.isOpen <==> sec.status == Open
  }

  /** One row migrated forwards: open rows get 'O', all others 'C'. */
  function Forwarded(sec: Section): (row: Section)
    ensures row.status == Open <==> sec.isOpen
    ensures row.status == Open || row.status == Closed
    ensures Consistent(row)
    ensures row.(status := sec.status) == sec
  {
    sec.(status := if sec.isOpen then Open else Closed)
  }

  /** One row migrated backwards: the row is open exactly when its status is 'O'. */
  function Backwarded(sec: Section): (row: Section)
    ensures row.isOpen <==> sec.status == Open
    ensures Consistent(row)
    ensures row.(isOpen := sec.isOpen) == sec
  {
    sec.(isOpen := sec.status == Open)
  }

  /** Migrating back after migrating forwards gives every row its original open flag. */
  lemma BackwardsUndoesForwards(sec: Section)
    ensures Backwarded(Forwarded(sec)).isOpen == sec.isOpen
    ensures Backwarded(Forwarded(sec)) == Forwarded(sec)
  {
  }

  /**
   * Migrating forwards after migrating back keeps an 'O' or 'C' status and
   * turns 'X' and '' into 'C'; a row that was consistent with status 'O' or
   * 'C' comes back unchanged.
   */
  lemma ForwardsAfterBackwards(sec: Section)
    ensures Forwarded(Backwarded(sec)).status == if sec.status == Open then Open else Closed
    ensures Consistent(sec) && (sec.status == Open || sec.status == Closed) ==> Forwarded(Backwarded(sec)) == sec
  {
  }

  /** Runs `forwards` over every row of the section table. */
  method Forwards(table: array<Section>)
    modifies table
    ensures forall i :: 0 <= i < table.Length ==> table[i] == Forwarded(old(table[i]))
    ensures forall i :: 0 <= i < table.Length ==> Consistent(table[i])
  {
    for i := 0 to table.Length
      invariant forall j :: 0 <= j < i ==> table[j] == Forwarded(old(table[j]))
      invariant forall j :: i <= j < table.Length ==> table[j] == old(table[j])
    {
      var sec := table[i];
      if sec.isOpen {
        table[i] := sec.(status := Open);
      } else {
        table[i] := sec.(status := Closed);
      }
    }
  }

  /** Runs `backwards` over every row of the section table. */
  method Backwards(table: array<Section>)
    modifies table
    ensures forall i :: 0 <= i < table.Length ==> table[i] == Backwarded(old(table[i]))
    ensures forall i :: 0 <= i < table.Length ==> Consistent(table[i])
  {
    for i := 0 to table.Length
      invariant forall j :: 0 <= j < i ==> table[j] == Backwarded(old(table[j]))
      invariant forall j :: i <= j < table.Length ==> table[j] == old(table[j])
    {
      table[i] := table[i].(isOpen := table[i].status == Open);
    }
  }
}
