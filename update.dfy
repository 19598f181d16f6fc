/**
 * The record shaping of update.py: format_fobs turns spreadsheet rows into
 * the users table, find_duplicates groups rows by ID, and the main block
 * decides whether to leave users.json alone, refuse, or overwrite it.
 */
module Update {
  import opened Authorization

  /** A spreadsheet cell as get_all_records(default_blank=None) returns it. */
  datatype Cell = Blank | Text(text: string) | Number(number: int)

  datatype Row = Row(id: string, name: string, disable: Cell)

  /** `i['Disable?']` is truthy. */
  predicate Disabled(r: Row)
  {
    match r.disable
    case Blank => false
    case Text(t) => t != ""
    case Number(n) => n != 0
  }

  const MainDoor := "maindoor"

  /** The record format_fobs writes for a row: its name, authorized for the main door only. */
  function FobRecord(name: string): Record
  {
    map["name" := name, MainDoor := AuthorizedStatus]
  }

  /** format_fobs: one entry per enabled row, keyed by ID, a later row overwriting an earlier one. */
  function FormatFobs(rows: seq<Row>): (users: Table)
    ensures |users| <= |rows|
  {
    if rows == [] then map[]
    else
      var last := rows[|rows| - 1];
      var users := FormatFobs(rows[..|rows| - 1]);
      if Disabled(last) then users else users[last.id := FobRecord(last.name)]
  }

  /** The table has a key exactly for the IDs of enabled rows; disabled rows contribute nothing. */
  lemma {:induction false} FormatFobsKeys(rows: seq<Row>, id: string)
    ensures id in FormatFobs(rows) <==> exists i | 0 <= i < |rows| :: rows[i].id == id && !Disabled(rows[i])
  {
    if rows != [] {
      var n := |rows| - 1;
      FormatFobsKeys(rows[..n], id);
      if exists i | 0 <= i < n + 1 :: rows[i].id == id && !Disabled(rows[i]) {
        var i :| 0 <= i < n + 1 && rows[i].id == id && !Disabled(rows[i]);
        if i < n {
          assert rows[..n][i] == rows[i];
        }
      }
    }
  }

  /** Among enabled rows sharing an ID, the last one in input order gives the entry. */
  lemma {:induction false} FormatFobsLastWins(rows: seq<Row>, i: nat)
    requires i < |rows| && !Disabled(rows[i])
    requires forall j | i < j < |rows| :: rows[j].id == rows[i].id ==> Disabled(rows[j])
    ensures rows[i].id in FormatFobs(rows) && FormatFobs(rows)[rows[i].id] == FobRecord(rows[i].name)
  {
    var n := |rows| - 1;
    if i < n {
      FormatFobsLastWins(rows[..n], i);
    }
  }

  /** Every entry of the table is exactly a FobRecord of some row's name. */
  lemma {:induction false} FormatFobsRecords(rows: seq<Row>, id: string)
    requires id in FormatFobs(rows)
    ensures exists i | 0 <= i < |rows| ::
      rows[i].id == id && !Disabled(rows[i]) && FormatFobs(rows)[id] == FobRecord(rows[i].name)
  {
    var n := |rows| - 1;
    var last := rows[n];
    if Disabled(last) || last.id != id {
      FormatFobsRecords(rows[..n], id);
      var i :| 0 <= i < n && rows[..n][i].id == id && !Disabled(rows[..n][i]) && FormatFobs(rows[..n])[id] == FobRecord(rows[..n][i].name);
      assert rows[..n][i] == rows[i];
    }
  }

  /**
   * A FobRecord authorizes exactly the zone "maindoor" (and, because the
   * record also has the key "name", the zone "name" when the name itself is
   * "authorized").
   */
  lemma FobRecordAuthorizes(name: string, zone: string)
    ensures Authorizes(FobRecord(name), zone) <==>
      zone == MainDoor || (zone == "name" && name == AuthorizedStatus)
  {
  }

  /**
   * A table made by format_fobs never opens any zone other than "maindoor"
   * (zone "name" aside), and never fails for want of a name.
   */
  lemma SheetOpensOnlyMainDoor(rows: seq<Row>, zone: string, c: Wiegand.Credential)
    requires zone != "name"
    ensures Authorize(FormatFobs(rows), zone, c).Grant? ==> zone == MainDoor
    ensures Authorize(FormatFobs(rows), zone, c) != NameMissing
  {
    var users := FormatFobs(rows);
    match Lookup(users, c)
    case None =>
    case Some(r) =>
      FirstTruthyFromKeys(users, LookupKeys(c));
      var k :| k in LookupKeys(c) && k in users && users[k] == r;
      FormatFobsRecords(rows, k);
  }

  // ----- find_duplicates -----

  /** The rows with this ID, disabled ones included, in input order: id_dict[id]. */
  function Group(rows: seq<Row>, id: string): seq<Row>
  {
    if rows == [] then []
    else Group(rows[..|rows| - 1], id) + if rows[|rows| - 1].id == id then [rows[|rows| - 1]] else []
  }

  /** The keys of id_dict in insertion order: each ID at its first occurrence. */
  function FirstIds(rows: seq<Row>): seq<string>
  {
    if rows == [] then []
    else
      var ids := FirstIds(rows[..|rows| - 1]);
      if rows[|rows| - 1].id in ids then ids else ids + [rows[|rows| - 1].id]
  }

  /** The IDs among `ids`, in order, whose group has more than one row. */
  function Repeated(ids: seq<string>, rows: seq<Row>): seq<string>
  {
    if ids == [] then []
    else Repeated(ids[..|ids| - 1], rows) + if |Group(rows, ids[|ids| - 1])| > 1 then [ids[|ids| - 1]] else []
  }

  /** The IDs find_duplicates warns about, in id_dict order. */
  function DuplicateIds(rows: seq<Row>): seq<string>
  {
    Repeated(FirstIds(rows), rows)
  }

  /** `groups` is id_dict after the rows of `prefix`, and `order` its keys in insertion order. */
  ghost predicate Indexed(groups: map<string, seq<Row>>, order: seq<string>, prefix: seq<Row>)
  {
    && order == FirstIds(prefix)
    && (forall id :: id in groups <==> id in order)
    && (forall id | id in groups :: groups[id] == Group(prefix, id) && |groups[id]| > 0)
    && (forall id | id !in groups :: Group(prefix, id) == [])
  }

  /** `id_dict.setdefault(row["ID"], []).append(row)` keeps id_dict indexing one more row. */
  lemma IndexedStep(rows: seq<Row>, k: nat, groups: map<string, seq<Row>>, order: seq<string>)
    requires k < |rows| && Indexed(groups, order, rows[..k])
    ensures var id := rows[k].id;
      Indexed(groups[id := (if id in groups then groups[id] else []) + [rows[k]]],
              if id in groups then order else order + [id],
              rows[..k + 1])
  {
    var id, row := rows[k].id, rows[k];
    var groups' := groups[id := (if id in groups then groups[id] else []) + [row]];
    assert rows[..k + 1][..k] == rows[..k];
    assert FirstIds(rows[..k + 1]) == if id in groups then order else order + [id];
    forall other | other in groups'
      ensures groups'[other] == Group(rows[..k + 1], other)
    {
      GroupStep(rows, k, other);
    }
    forall other | other !in groups'
      ensures Group(rows[..k + 1], other) == []
    {
      GroupStep(rows, k, other);
    }
  }

  lemma GroupStep(rows: seq<Row>, k: nat, id: string)
    requires k < |rows|
    ensures Group(rows[..k + 1], id) == Group(rows[..k], id) + if rows[k].id == id then [rows[k]] else []
  {
    assert rows[..k + 1][..k] == rows[..k];
  }

  /**
   * find_duplicates: build id_dict with setdefault(...).append(row), then
   * list the IDs whose list has more than one row.
   */
  method FindDuplicates(rows: seq<Row>) returns (groups: map<string, seq<Row>>, duplicates: seq<string>)
    ensures forall id | id in groups :: groups[id] == Group(rows, id) && |groups[id]| > 0
    ensures forall id | id !in groups :: Group(rows, id) == []
    ensures duplicates == DuplicateIds(rows)
  {
    groups := map[];
    var order: seq<string> := [];
    for k := 0 to |rows|
      invariant Indexed(groups, order, rows[..k])
    {
      var id := rows[k].id;
      IndexedStep(rows, k, groups, order);
      var prior := if id in groups then groups[id] else [];
      if id !in groups {
        order := order + [id];
      }
      groups := groups[id := prior + [rows[k]]];
    }
    assert rows[..|rows|] == rows;
    duplicates := [];
    for k := 0 to |order|
      invariant duplicates == Repeated(order[..k], rows)
    {
      assert order[..k + 1][..k] == order[..k];
      if |groups[order[k]]| > 1 {
        duplicates := duplicates + [order[k]];
      }
    }
    assert order[..|order|] == order;
  }

  lemma {:induction false} FirstIdsAreIds(rows: seq<Row>, id: string)
    ensures id in FirstIds(rows) <==> Group(rows, id) != []
  {
    if rows != [] {
      FirstIdsAreIds(rows[..|rows| - 1], id);
    }
  }

  lemma {:induction false} RepeatedMembers(ids: seq<string>, rows: seq<Row>, id: string)
    ensures id in Repeated(ids, rows) <==> id in ids && |Group(rows, id)| > 1
  {
    if ids != [] {
      RepeatedMembers(ids[..|ids| - 1], rows, id);
      assert ids == ids[..|ids| - 1] + [ids[|ids| - 1]];
    }
  }

  /** find_duplicates reports an ID exactly when more than one row carries it. */
  lemma DuplicateIff(rows: seq<Row>, id: string)
    ensures id in DuplicateIds(rows) <==> |Group(rows, id)| > 1
  {
    RepeatedMembers(FirstIds(rows), rows, id);
    FirstIdsAreIds(rows, id);
  }

  // ----- the overwrite guard -----

  datatype Action = Unchanged | Refuse | Overwrite

  /**
   * The main block's decision, as written: `records_by_id` equal to the
   * existing users stops; `len(users) and not len(records) or not
   * len(records_by_id)` refuses; anything else overwrites.
   */
  function UpdateAction(existing: Table, records: seq<Row>, enabled: Table): (a: Action)
    ensures a == Unchanged <==> enabled == existing
    ensures a == Overwrite ==> enabled != existing && |enabled| > 0
    ensures a == Refuse <==> enabled != existing && (|enabled| == 0 || (|existing| > 0 && |records| == 0))
  {
    if enabled == existing then Unchanged
    else if (|existing| != 0 && |records| == 0) || |enabled| == 0 then Refuse
    else Overwrite
  }

  /**
   * With the table format_fobs made from the records, the guard's first
   * disjunct adds nothing: the update is refused exactly when the new table
   * is empty (and differs from the existing one), and an overwrite always
   * writes a non-empty table that differs from the existing one.
   */
  lemma UpdateActionSimplified(existing: Table, records: seq<Row>)
    ensures var enabled := FormatFobs(records);
      UpdateAction(existing, records, enabled) ==
        if enabled == existing then Unchanged
        else if enabled == map[] then Refuse
        else Overwrite
  {
  }
}
