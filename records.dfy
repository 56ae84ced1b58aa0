/**
 * The records table: rows with an auto-increment id, listed in insertion
 * order, with create, patch-update, delete and delete-all. The ORM and the
 * SQLite connection are not modelled; the table is the field `rows`, and
 * `nextId` is the AUTOINCREMENT counter, which a delete never winds back.
 */
module Records {
  import opened Wrappers
  import opened Text

  datatype Record = Record(id: nat, title: string, description: string, createdAt: int, updatedAt: int)

  /** The fields an update may set; an absent field keeps its value. */
  datatype Patch = Patch(title: Option<string>, description: Option<string>)

  /** The error thrown for an id that matches no row. */
  datatype NotFound = NotFound(id: int)

  function NotFoundMessage(e: NotFound): (r: string)
    ensures "Record with id " <= r
    ensures r[|"Record with id "|..] == IntToString(e.id) + " not found"
  {
    "Record with id " + IntToString(e.id) + " not found"
  }

  /** Row order is id order, and every id is below the next one handed out. */
  predicate WellFormed(rows: seq<Record>, nextId: nat) {
    && nextId >= 1
    && (forall i, j :: 0 <= i < j < |rows| ==> rows[i].id < rows[j].id)
    && (forall i :: 0 <= i < |rows| ==> 1 <= rows[i].id < nextId)
  }

  /** The position of the row with the given id, if there is one. */
  function IndexOf(rows: seq<Record>, id: int): (r: Option<nat>)
    ensures r.Some? ==> r.value < |rows| && rows[r.value].id == id
    ensures r.None? ==> forall i :: 0 <= i < |rows| ==> rows[i].id != id
  {
    if rows == [] then None
    else if rows[|rows| - 1].id == id then Some(|rows| - 1)
    else IndexOf(rows[..|rows| - 1], id)
  }

  /** Ids are unique in a well-formed table, so the position found is the only one. */
  lemma IndexOfUnique(rows: seq<Record>, nextId: nat, id: int, k: nat)
    requires WellFormed(rows, nextId)
    requires k < |rows| && rows[k].id == id
    ensures IndexOf(rows, id) == Some(k)
  {
    var i := IndexOf(rows, id).value;
    assert !(i < k) && !(k < i);
  }

  /** `{...partial, updatedAt: now}` applied to one row. */
  function ApplyPatch(rec: Record, patch: Patch, now: int): (r: Record)
    ensures r.id == rec.id && r.createdAt == rec.createdAt && r.updatedAt == now
    ensures r.title == (if patch.title.Some? then patch.title.value else rec.title)
    ensures r.description == (if patch.description.Some? then patch.description.value else rec.description)
  {
    rec.(title := patch.title.GetOr(rec.title),
         description := patch.description.GetOr(rec.description),
         updatedAt := now)
  }

  /** The rows whose id differs from `id`, in their order. */
  function WithoutId(rows: seq<Record>, id: int): (r: seq<Record>)
    ensures |r| <= |rows|
    ensures forall i :: 0 <= i < |r| ==> r[i].id != id
  {
    if rows == [] then []
    else
      var init := WithoutId(rows[..|rows| - 1], id);
      if rows[|rows| - 1].id == id then init else init + [rows[|rows| - 1]]
  }

  /** Removing by id keeps exactly the rows whose id differs. */
  lemma {:induction false} WithoutIdMembers(rows: seq<Record>, id: int)
    ensures forall x :: x in WithoutId(rows, id) <==> x in rows && x.id != id
  {
    if rows != [] {
      var init := rows[..|rows| - 1];
      WithoutIdMembers(init, id);
      assert rows == init + [rows[|rows| - 1]];
    }
  }

  /** Cutting out the row at the position of `id` removes exactly the rows
      with that id: `delete ... where id = ?` on a table with unique ids. */
  lemma {:induction false} RemoveAtIsWithoutId(rows: seq<Record>, nextId: nat, k: nat)
    requires WellFormed(rows, nextId)
    requires k < |rows|
    ensures rows[..k] + rows[k + 1..] == WithoutId(rows, rows[k].id)
  {
    var n := |rows| - 1;
    var init := rows[..n];
    PrefixWellFormed(rows, nextId);
    if k == n {
      NoneWithId(init, rows[k].id);
      assert rows[..k] + rows[k + 1..] == init;
    } else {
      RemoveAtIsWithoutId(init, nextId, k);
      LastStep(rows, k);
    }
  }

  lemma PrefixWellFormed(rows: seq<Record>, nextId: nat)
    requires WellFormed(rows, nextId) && rows != []
    ensures WellFormed(rows[..|rows| - 1], nextId)
    ensures forall i :: 0 <= i < |rows| - 1 ==> rows[i].id != rows[|rows| - 1].id
  {
  }

  lemma LastStep(rows: seq<Record>, k: nat)
    requires k < |rows| - 1
    requires rows[|rows| - 1].id != rows[k].id
    requires rows[..|rows| - 1][..k] + rows[..|rows| - 1][k + 1..] == WithoutId(rows[..|rows| - 1], rows[k].id)
    ensures rows[..k] + rows[k + 1..] == WithoutId(rows, rows[k].id)
  {
    RemoveBeforeLast(rows, k);
    assert WithoutId(rows, rows[k].id) == WithoutId(rows[..|rows| - 1], rows[k].id) + [rows[|rows| - 1]];
  }

  /** Cutting out a position before the last commutes with taking the last element off. */
  lemma RemoveBeforeLast<T>(xs: seq<T>, k: nat)
    requires k < |xs| - 1
    ensures xs[..k] + xs[k + 1..] == (xs[..|xs| - 1][..k] + xs[..|xs| - 1][k + 1..]) + [xs[|xs| - 1]]
  {
    var n := |xs| - 1;
    var lhs := xs[..k] + xs[k + 1..];
    var rhs := (xs[..n][..k] + xs[..n][k + 1..]) + [xs[n]];
    assert |lhs| == |rhs| == n;
    forall i | 0 <= i < n
      ensures lhs[i] == rhs[i]
    {
      if i < k {
        assert lhs[i] == xs[i] && rhs[i] == xs[i];
      } else {
        assert lhs[i] == xs[i + 1] && rhs[i] == xs[i + 1];
      }
    }
  }

  /** Removing one row keeps the table well formed. */
  lemma RemoveAtWellFormed(rows: seq<Record>, nextId: nat, k: nat)
    requires WellFormed(rows, nextId) && k < |rows|
    ensures WellFormed(rows[..k] + rows[k + 1..], nextId)
  {
    var r := rows[..k] + rows[k + 1..];
    assert forall i :: 0 <= i < |r| ==> r[i] == if i < k then rows[i] else rows[i + 1];
  }

  /** Appending a row with the next id keeps the table well formed. */
  lemma AppendWellFormed(rows: seq<Record>, nextId: nat, rec: Record)
    requires WellFormed(rows, nextId) && rec.id == nextId && nextId >= 1
    ensures WellFormed(rows + [rec], nextId + 1)
  {
  }

  /** With no row holding `id`, filtering it out changes nothing. */
  lemma {:induction false} NoneWithId(rows: seq<Record>, id: int)
    requires forall i :: 0 <= i < |rows| ==> rows[i].id != id
    ensures WithoutId(rows, id) == rows
  {
    if rows != [] {
      NoneWithId(rows[..|rows| - 1], id);
    }
  }

  class RecordTable {
    var rows: seq<Record>
    var nextId: nat

    ghost predicate Valid()
      reads this
    {
      WellFormed(rows, nextId)
    }

    /** A freshly created, empty table. */
    constructor ()
      ensures Valid() && rows == [] && nextId == 1
    {
      rows := [];
      nextId := 1;
    }

    /** `listRecords`: every row, in insertion order. */
    method List() returns (r: seq<Record>)
      requires Valid()
      ensures r == rows
      ensures forall i, j :: 0 <= i < j < |r| ==> r[i].id < r[j].id
    {
      r := rows;
    }

    /** `createRecord`: append one row with a fresh id and both timestamps `now`. */
    method Create(title: string, description: string, now: int) returns (rec: Record)
      requires Valid()
      modifies this
      ensures Valid()
      ensures rec == Record(old(nextId), title, description, now, now)
      ensures rows == old(rows) + [rec]
      ensures nextId == old(nextId) + 1
      ensures forall i :: 0 <= i < |old(rows)| ==> old(rows)[i].id < rec.id
    {
      rec := Record(nextId, title, description, now, now);
      AppendWellFormed(rows, nextId, rec);
      rows := rows + [rec];
      nextId := nextId + 1;
    }

    /** `updateRecord`: patch the row with the id and stamp it, or fail with
        not-found and change nothing. */
    method Update(id: int, patch: Patch, now: int) returns (r: Result<Record, NotFound>)
      requires Valid()
      modifies this
      ensures Valid() && nextId == old(nextId)
      ensures IndexOf(old(rows), id).None? ==> r == Failure(NotFound(id)) && rows == old(rows)
      ensures IndexOf(old(rows), id).Some? ==>
                var k := IndexOf(old(rows), id).value;
                && r == Success(ApplyPatch(old(rows)[k], patch, now))
                && rows == old(rows)[k := r.value]
    {
      var found := IndexOf(rows, id);
      if found.None? {
        r := Failure(NotFound(id));
      } else {
        var updated := ApplyPatch(rows[found.value], patch, now);
        rows := rows[found.value := updated];
        r := Success(updated);
      }
    }

    /** `deleteRecord`: remove the row with the id, or fail with not-found and
        change nothing. */
    method Delete(id: int) returns (r: Result<(), NotFound>)
      requires Valid()
      modifies this
      ensures Valid() && nextId == old(nextId)
      ensures IndexOf(old(rows), id).None? ==> r == Failure(NotFound(id)) && rows == old(rows)
      ensures IndexOf(old(rows), id).Some? ==> r == Success(()) && rows == WithoutId(old(rows), id)
      ensures IndexOf(old(rows), id).Some? ==> |rows| == |old(rows)| - 1
    {
      var found := IndexOf(rows, id);
      if found.None? {
        r := Failure(NotFound(id));
      } else {
        var k := found.value;
        RemoveAtIsWithoutId(rows, nextId, k);
        RemoveAtWellFormed(rows, nextId, k);
        rows := rows[..k] + rows[k + 1..];
        r := Success(());
      }
    }

    /** `truncateRecords`: delete every row; the id counter keeps its value. */
    method Truncate()
      requires Valid()
      modifies this
      ensures Valid() && rows == [] && nextId == old(nextId)
    {
      rows := [];
    }
  }
}
