/** internal/repository/note_repository.go over an in-memory `notes` table.
    The table's `id SERIAL PRIMARY KEY` column is a counter that only grows;
    driver failures are given to each operation as an optional error text. */
module Repository {
  import opened Results
  import opened Entity

  /** Prefix of the error Create wraps a driver failure in. */
  const InsertFailed := "gagal insert note: "

  /** Ids strictly increase along the table: the order SERIAL hands them out. */
  ghost predicate IdsIncreasing(rows: seq<Note>)
  {
    forall i, j :: 0 <= i < j < |rows| ==> rows[i].id < rows[j].id
  }

  /** Every id in the table is positive and below the next one to be handed out. */
  ghost predicate IdsBelow(rows: seq<Note>, next: int)
  {
    forall i :: 0 <= i < |rows| ==> 1 <= rows[i].id < next
  }

  /** The rows `WHERE organization_id = org`, in table order. */
  function NotesOf(rows: seq<Note>, org: string): (r: seq<Note>)
    ensures |r| <= |rows|
    ensures forall n :: n in r ==> n in rows && n.organizationId == org
  {
    if rows == [] then []
    else
      var last := rows[|rows| - 1];
      NotesOf(rows[..|rows| - 1], org) + (if last.organizationId == org then [last] else [])
  }

  /** The row `WHERE id = id AND organization_id = org`, if there is one. */
  function Find(rows: seq<Note>, id: int, org: string): (r: Option<Note>)
    ensures r.Some? ==> r.value in rows && r.value.id == id && r.value.organizationId == org
    ensures r.None? ==> forall n :: n in rows ==> !(n.id == id && n.organizationId == org)
  {
    if rows == [] then None
    else if rows[0].id == id && rows[0].organizationId == org then Some(rows[0])
    else Find(rows[1..], id, org)
  }

  /** Every row of `org` is listed: NotesOf leaves none out. */
  lemma {:induction false} NotesOfComplete(rows: seq<Note>, org: string, n: Note)
    requires n in rows && n.organizationId == org
    ensures n in NotesOf(rows, org)
    decreases |rows|
  {
    var init := rows[..|rows| - 1];
    if n != rows[|rows| - 1] {
      assert rows == init + [rows[|rows| - 1]];
      assert n in init;
      NotesOfComplete(init, org, n);
    }
  }

  /** Two different organizations never see a common row in their listings. */
  lemma ListingsDisjoint(rows: seq<Note>, a: string, b: string)
    requires a != b
    ensures forall n :: n in NotesOf(rows, a) ==> n !in NotesOf(rows, b)
  {
  }

  /** A row appended to the table shows up at the end of its own
      organization's listing and nowhere in any other's. */
  lemma NotesOfAppend(rows: seq<Note>, n: Note, org: string)
    ensures NotesOf(rows + [n], org) == NotesOf(rows, org) + (if n.organizationId == org then [n] else [])
  {
    assert (rows + [n])[..|rows|] == rows;
  }

  /** Listing a leading part of the table gives a leading part of the listing. */
  lemma {:induction false} NotesOfPrefix(rows: seq<Note>, i: nat, org: string)
    requires i <= |rows|
    ensures NotesOf(rows[..i], org) <= NotesOf(rows, org)
    decreases |rows| - i
  {
    if i < |rows| {
      NotesOfPrefix(rows, i + 1, org);
      var pre := rows[..i + 1];
      assert pre[..|pre| - 1] == rows[..i];
    } else {
      assert rows[..i] == rows;
    }
  }

  /** What `for rows.Next()` has appended when the row stream stops: a
      stream that breaks (`cut == Some(k)`) after k rows ends the loop as if
      the result were exhausted, and nothing consults `rows.Err()`. */
  function Listed(all: seq<Note>, cut: Option<nat>): (r: seq<Note>)
    ensures r <= all
    ensures r == all <==> cut.None? || cut.value >= |all|
    ensures cut.Some? && cut.value < |all| ==> |r| == cut.value
  {
    if cut.Some? && cut.value < |all| then all[..cut.value] else all
  }

  /** Where the row loop stops, it has listed exactly what Listed says:
      either the whole table was read, or the stream broke at the cut. */
  lemma ListedWhenStopped(rows: seq<Note>, i: nat, org: string, cut: Option<nat>)
    requires i <= |rows|
    requires cut.Some? ==> |NotesOf(rows[..i], org)| <= cut.value
    requires i == |rows| || (cut.Some? && |NotesOf(rows[..i], org)| == cut.value)
    ensures NotesOf(rows[..i], org) == Listed(NotesOf(rows, org), cut)
  {
    NotesOfPrefix(rows, i, org);
    if i == |rows| {
      assert rows[..i] == rows;
    }
  }

  /** With unique ids, the row with a given id is found under its own
      organization, and under any other organization nothing is found:
      a foreign row looks exactly like a missing one. */
  lemma {:induction false} FindById(rows: seq<Note>, n: Note, org: string)
    requires IdsIncreasing(rows) && n in rows
    ensures Find(rows, n.id, org) == (if n.organizationId == org then Some(n) else None)
    decreases |rows|
  {
    if rows[0] != n {
      assert n in rows[1..];
      assert rows[0].id != n.id by {
        var k :| 0 <= k < |rows| && rows[k] == n;
        assert k > 0;
      }
      FindById(rows[1..], n, org);
    }
  }

  /** The table: its rows and the value the `id` sequence will hand out next. */
  class NoteRepository {
    var rows: seq<Note>
    var nextId: int

    ghost predicate Valid()
      reads this
    {
      nextId >= 1 && IdsBelow(rows, nextId) && IdsIncreasing(rows)
    }

    /** The table as Migrate leaves it on a fresh database. */
    constructor ()
      ensures Valid() && rows == [] && nextId == 1
    {
      rows := [];
      nextId := 1;
    }

    /** INSERT ... RETURNING id, created_at, scanned back into the caller's
        note (lines 25-38). `saved` is the caller's note afterwards; `dbErr`
        is the driver's error, if any; `now` is the column's default timestamp. */
    method Create(note: Note, dbErr: Option<string>, now: int) returns (saved: Note, err: Option<string>)
      requires Valid()
      modifies this
      ensures Valid()
      ensures dbErr.Some? ==> err == Some(InsertFailed + dbErr.value) && saved == note
      ensures dbErr.Some? ==> rows == old(rows) && nextId == old(nextId)
      ensures dbErr.None? ==> err.None? && rows == old(rows) + [saved]
      ensures dbErr.None? ==> saved == note.(id := saved.id, createdAt := now)
      ensures dbErr.None? ==> forall n :: n in old(rows) ==> n.id != saved.id
      ensures dbErr.None? ==> saved.id == old(nextId) && nextId == old(nextId) + 1
    {
      if dbErr.Some? {
        return note, Some(InsertFailed + dbErr.value);
      }
      saved := note.(id := nextId, createdAt := now);
      rows := rows + [saved];
      nextId := nextId + 1;
      err := None;
    }

    /** SELECT ... WHERE organization_id = org, appending each scanned row
        (lines 41-59). A query or scan failure returns no notes and the error.
        `cut` is a row stream that breaks after that many rows: the loop ends
        early and, since `rows.Err()` is never checked, the rows read so far
        are returned with no error. */
    method GetAll(org: string, dbErr: Option<string>, cut: Option<nat>) returns (notes: seq<Note>, err: Option<string>)
      ensures dbErr.Some? ==> notes == [] && err == dbErr
      ensures dbErr.None? ==> err.None? && notes == Listed(NotesOf(rows, org), cut)
      ensures forall n :: n in notes ==> n in rows && n.organizationId == org
      ensures dbErr.None? && cut.None? ==> forall n :: n in rows && n.organizationId == org ==> n in notes
    {
      if dbErr.Some? {
        return [], dbErr;
      }
      notes := [];
      var i := 0;
      while i < |rows| && (cut.None? || |notes| < cut.value)
        invariant 0 <= i <= |rows|
        invariant notes == NotesOf(rows[..i], org)
        invariant cut.Some? ==> |notes| <= cut.value
      {
        assert rows[..i + 1] == rows[..i] + [rows[i]];
        NotesOfAppend(rows[..i], rows[i], org);
        if rows[i].organizationId == org {
          notes := notes + [rows[i]];
        }
        i := i + 1;
      }
      ListedWhenStopped(rows, i, org, cut);
      if cut.None? {
        forall n | n in rows && n.organizationId == org
          ensures n in notes
        {
          NotesOfComplete(rows, org, n);
        }
      }
      err := None;
    }

    /** SELECT ... WHERE id = id AND organization_id = org (lines 61-79):
        sql.ErrNoRows becomes (nil, nil); any other driver error is returned. */
    method GetByID(id: int, org: string, dbErr: Option<string>) returns (note: Option<Note>, err: Option<string>)
      requires Valid()
      ensures dbErr.Some? ==> note == None && err == dbErr
      ensures dbErr.None? ==> err.None? && note == Find(rows, id, org)
      ensures dbErr.None? ==>
        (note.Some? <==> exists i :: 0 <= i < |rows| && rows[i].id == id && rows[i].organizationId == org)
      ensures note.Some? ==> note.value in rows && note.value.id == id && note.value.organizationId == org
      ensures dbErr.None? ==> forall i :: 0 <= i < |rows| && rows[i].id == id && rows[i].organizationId == org ==> note == Some(rows[i])
    {
      if dbErr.Some? {
        return None, dbErr;
      }
      note := Find(rows, id, org);
      forall i | 0 <= i < |rows| && rows[i].id == id && rows[i].organizationId == org
        ensures note == Some(rows[i])
      {
        FindById(rows, rows[i], org);
      }
      if note.None? {
        assert forall i :: 0 <= i < |rows| ==> rows[i] in rows;
      }
      err := None;
    }
  }
}
