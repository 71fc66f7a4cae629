/**
 * The stored row behind each seller dock: the workbench store's contract, the self-healing
 * wrapper around it, and the board size kept on the same row.
 */
module DockStore {
  import opened Prelude
  import opened DockLayout
  import opened DockMigration

  datatype BoardSize = BoardSize(width: int, height: int)

  /** What a row holds as its layout: absent, something unrecognisable, or a layout document. */
  datatype Doc = Missing | Broken | Good(layout: Layout)

  datatype Row = Row(schemaVersion: int, doc: Doc, updatedTs: int, boardSize: Option<BoardSize>)

  /** A storage entry either parses to a row or does not. */
  datatype Entry = Garbage | Parsed(row: Row)

  type Rows = map<string, Entry>

  datatype Error = Invalid | Unreadable | Conflict

  datatype Outcome = Returned(row: Row) | Failed(error: Error) | Wrote(written: bool)

  /** Layout validation: a recognised document of the current schema version. */
  predicate ValidDoc(d: Doc) {
    d.Good? && d.layout.schemaVersion == 1
  }

  predicate ValidSize(s: BoardSize) {
    s.width > 0 && s.height > 0
  }

  predicate Readable(e: Entry) {
    e.Parsed? && ValidDoc(e.row.doc)
  }

  // ---------------------------------------------------------------- atomic operations on storage

  datatype Op =
    | Load(key: string, seed: Layout, now: int)
    | Save(key: string, doc: Doc, expected: Option<int>, now: int)
    | Reset(key: string, seed: Layout, persist: bool, now: int)
    | Discard(key: string)
    | Resize(key: string, size: BoardSize)

  function Seeded(seed: Layout, now: int): Row {
    Row.Row(1, Good(seed), now, None)
  }

  /** The row a save leaves: layout, version and timestamp replaced, every other field spread through. */
  function SavedRow(rows: Rows, key: string, doc: Doc, now: int): Row {
    if key in rows && rows[key].Parsed? then rows[key].row.(schemaVersion := 1, doc := doc, updatedTs := now)
    else Row.Row(1, doc, now, None)
  }

  function Step(rows: Rows, op: Op): (Rows, Outcome) {
    match op
    case Load(key, seed, now) =>
      if key !in rows then (rows[key := Parsed(Seeded(seed, now))], Returned(Seeded(seed, now)))
      else if !Readable(rows[key]) then (rows, Failed(Unreadable))
      else (rows, Returned(rows[key].row))
    case Save(key, doc, expected, now) =>
      if !ValidDoc(doc) then (rows, Failed(Invalid))
      else if key in rows && rows[key].Garbage? then (rows, Failed(Unreadable))
      else if key in rows && expected.Some? && rows[key].row.updatedTs != expected.value then (rows, Failed(Conflict))
      else
        var row := SavedRow(rows, key, doc, now);
        (rows[key := Parsed(row)], Returned(row))
    case Reset(key, seed, persist, now) =>
      var rest := rows - {key};
      (if persist then rest[key := Parsed(Seeded(seed, now))] else rest, Returned(Seeded(seed, now)))
    case Discard(key) => (rows - {key}, Wrote(key in rows))
    case Resize(key, size) =>
      if ValidSize(size) && key in rows && rows[key].Parsed? && !rows[key].row.doc.Missing? then
        (rows[key := Parsed(rows[key].row.(boardSize := Some(size)))], Wrote(true))
      else (rows, Wrote(false))
  }

  ghost function Run(rows: Rows, ops: seq<Op>): Rows
    decreases |ops|
  {
    if ops == [] then rows else Run(Step(rows, ops[0]).0, ops[1..])
  }

  ghost function Outcomes(rows: Rows, ops: seq<Op>): seq<Outcome>
    decreases |ops|
  {
    if ops == [] then []
    else [Step(rows, ops[0]).1] + Outcomes(Step(rows, ops[0]).0, ops[1..])
  }

  // ---------------------------------------------------------------- a resize only resizes

  ghost function Unsized(e: Entry): Entry {
    if e.Garbage? then e else Parsed(e.row.(boardSize := None))
  }

  ghost function Erase(rows: Rows): Rows {
    map key | key in rows :: Unsized(rows[key])
  }

  ghost function EraseOutcome(o: Outcome): Outcome {
    if o.Returned? then Returned(o.row.(boardSize := None)) else o
  }

  ghost function WithoutResizes(ops: seq<Op>): seq<Op> {
    if ops == [] then [] else (if ops[0].Resize? then [] else [ops[0]]) + WithoutResizes(ops[1..])
  }

  /** The outcomes of the operations that are not resizes. */
  ghost function LayoutOutcomes(rows: Rows, ops: seq<Op>): seq<Outcome>
    decreases |ops|
  {
    if ops == [] then []
    else (if ops[0].Resize? then [] else [EraseOutcome(Step(rows, ops[0]).1)])
         + LayoutOutcomes(Step(rows, ops[0]).0, ops[1..])
  }

  lemma StepIgnoresSizes(rows: Rows, op: Op)
    ensures op.Resize? ==> Erase(Step(rows, op).0) == Erase(rows)
    ensures !op.Resize? ==> Erase(Step(rows, op).0) == Step(Erase(rows), op).0
    ensures !op.Resize? ==> EraseOutcome(Step(rows, op).1) == Step(Erase(rows), op).1
  {
  }

  /**
   * Over any interleaving, resizes change nothing but sizes: the rows and every answer a layout
   * operation gets, conflicts included, are what they would be had no resize happened.
   */
  lemma {:induction false} ResizesAreInvisible(rows: Rows, ops: seq<Op>)
    ensures Erase(Run(rows, ops)) == Run(Erase(rows), WithoutResizes(ops))
    ensures LayoutOutcomes(rows, ops) == Outcomes(Erase(rows), WithoutResizes(ops))
    decreases |ops|
  {
    if ops != [] {
      StepIgnoresSizes(rows, ops[0]);
      ResizesAreInvisible(Step(rows, ops[0]).0, ops[1..]);
      if !ops[0].Resize? {
        assert WithoutResizes(ops)[1..] == WithoutResizes(ops[1..]);
      } else {
        assert WithoutResizes(ops) == WithoutResizes(ops[1..]);
      }
    }
  }

  /** The size a reader sees under a key. */
  function SizeAt(rows: Rows, key: string): Option<BoardSize> {
    if key in rows && rows[key].Parsed? && rows[key].row.boardSize.Some? && ValidSize(rows[key].row.boardSize.value)
    then rows[key].row.boardSize else None
  }

  ghost predicate Removes(op: Op, key: string) {
    (op.Reset? || op.Discard?) && op.key == key
  }

  ghost predicate Resizes(op: Op, key: string) {
    op.Resize? && op.key == key && ValidSize(op.size)
  }

  /** Until the row is removed or resized again, the last size survives every load, save and migration. */
  lemma {:induction false} LastSizeSurvives(rows: Rows, key: string, size: BoardSize, ops: seq<Op>)
    requires SizeAt(rows, key) == Some(size)
    requires forall i :: 0 <= i < |ops| ==> !Removes(ops[i], key) && !Resizes(ops[i], key)
    ensures SizeAt(Run(rows, ops), key) == Some(size)
    decreases |ops|
  {
    if ops != [] {
      LastSizeSurvives(Step(rows, ops[0]).0, key, size, ops[1..]);
    }
  }

  /** Removing the row forgets the size with the layout. */
  lemma RemovalForgetsSize(rows: Rows, op: Op, key: string)
    requires Removes(op, key)
    ensures SizeAt(Step(rows, op).0, key) == None
  {
  }

  /** A refused operation leaves every row as it was; an accepted one touches only its own key. */
  lemma RefusalsChangeNothing(rows: Rows, op: Op)
    ensures Step(rows, op).1.Failed? || Step(rows, op).1 == Wrote(false) ==> Step(rows, op).0 == rows
    ensures Step(rows, op).0 - {op.key} == rows - {op.key}
  {
  }

  /** Timestamps issued by these operations are all later than `t`. */
  ghost predicate Later(ops: seq<Op>, t: int) {
    forall i :: 0 <= i < |ops| ==>
      (ops[i].Load? ==> ops[i].now > t) && (ops[i].Save? ==> ops[i].now > t) && (ops[i].Reset? ==> ops[i].now > t)
  }

  ghost predicate SameOrLater(rows: Rows, key: string, row: Row) {
    key !in rows
    || (rows[key].Parsed?
        && (rows[key].row.updatedTs > row.updatedTs || Unsized(rows[key]) == Unsized(Parsed(row))))
  }

  lemma {:induction false} RunSameOrLater(rows: Rows, key: string, row: Row, ops: seq<Op>)
    requires SameOrLater(rows, key, row) && Later(ops, row.updatedTs)
    ensures SameOrLater(Run(rows, ops), key, row)
    decreases |ops|
  {
    if ops != [] {
      assert SameOrLater(Step(rows, ops[0]).0, key, row);
      RunSameOrLater(Step(rows, ops[0]).0, key, row, ops[1..]);
    }
  }

  /**
   * No lost update: a save that presents the timestamp it loaded succeeds only if the row still
   * holds what was loaded, board size aside, or is gone. Otherwise it conflicts.
   */
  lemma NoLostUpdate(rows: Rows, key: string, ops: seq<Op>, doc: Doc, now: int)
    requires key in rows && rows[key].Parsed? && ValidDoc(doc)
    requires Later(ops, rows[key].row.updatedTs)
    ensures var after := Run(rows, ops);
      var outcome := Step(after, Save(key, doc, Some(rows[key].row.updatedTs), now)).1;
      outcome == Failed(Conflict) <==> key in after && Unsized(after[key]) != Unsized(rows[key])
  {
    RunSameOrLater(rows, key, rows[key].row, ops);
  }

  // ---------------------------------------------------------------- the self-healing wrapper

  datatype Board = ActiveEvent | EventManager | OtherBoard

  function MigrateBoard(board: Board, l: Layout): Layout {
    match board
    case ActiveEvent => MigrateActive(l)
    case EventManager => MigrateManager(l)
    case OtherBoard => l
  }

  lemma MigrateBoardFixpoint(board: Board, l: Layout)
    requires l.schemaVersion == 1
    ensures MigrateBoard(board, MigrateBoard(board, l)) == MigrateBoard(board, l)
    ensures MigrateBoard(board, l).schemaVersion == 1
  {
    MigrateFixpoint(l);
    MigrateManagerConverges(l);
  }

  /** What the save of a migrating load presents: the migrated layout, with the timestamp of the row it loaded. */
  function MigratingSave(key: string, row: Row, board: Board, now: int): Op
    requires row.doc.Good?
  {
    Save(key, Good(MigrateBoard(board, row.doc.layout)), Some(row.updatedTs), now)
  }

  /**
   * Whatever others do between the load and its migration, the migrating save conflicts exactly when the
   * row is there and changed beyond its size, and then leaves storage as it found it. Otherwise it stores
   * the migrated layout, which needs no further migration, beside the size the row has by then.
   */
  lemma MigratingLoadRaces(rows: Rows, key: string, board: Board, ops: seq<Op>, now: int)
    requires key in rows && Readable(rows[key]) && Later(ops, rows[key].row.updatedTs)
    ensures var after := Run(rows, ops);
      var (saved, outcome) := Step(after, MigratingSave(key, rows[key].row, board, now));
      && (outcome == Failed(Conflict) <==> key in after && Unsized(after[key]) != Unsized(rows[key]))
      && (outcome.Failed? ==> outcome == Failed(Conflict) && saved == after)
      && (outcome.Returned? ==>
            && saved == after[key := Parsed(outcome.row)] && outcome.row.doc.Good?
            && outcome.row.doc.layout == MigrateBoard(board, rows[key].row.doc.layout)
            && MigrateBoard(board, outcome.row.doc.layout) == outcome.row.doc.layout
            && SizeAt(saved, key) == SizeAt(after, key))
  {
    var row := rows[key].row;
    MigrateBoardFixpoint(board, row.doc.layout);
    NoLostUpdate(rows, key, ops, Good(MigrateBoard(board, row.doc.layout)), now);
    RunSameOrLater(rows, key, row, ops);
  }

  /** Each board is brought to its own up-to-date form, and left alone exactly when it has it. */
  lemma EachBoardConverges(board: Board, l: Layout)
    ensures var m := MigrateBoard(board, l);
      match board
      case ActiveEvent => m == MigrateActive(l) && UpToDate(m) && (m == l <==> UpToDate(l))
      case EventManager => m == MigrateManager(l) && CanonicalManager(m) && (m == l <==> CanonicalManager(l))
      case OtherBoard => m == l
  {
    MigrateUpToDate(l);
    MigrateFixpoint(l);
    MigrateManagerConverges(l);
  }

  /** A reader sees the stored size exactly when it is one: two positive numbers on a row that can be parsed. */
  lemma SizeSeen(rows: Rows, key: string, size: BoardSize)
    ensures SizeAt(rows, key) == Some(size) <==>
      key in rows && rows[key].Parsed? && rows[key].row.boardSize == Some(size) && size.width > 0 && size.height > 0
  {
  }

  /** A document is valid exactly when it is a layout of schema version 1; a seeded or saved row says so too. */
  lemma SavesAreCurrent(rows: Rows, key: string, doc: Doc, expected: Option<int>, now: int)
    ensures var (saved, outcome) := Step(rows, Save(key, doc, expected, now));
      outcome.Returned? ==>
        && doc.Good? && doc.layout.schemaVersion == 1
        && outcome.row.schemaVersion == 1 && outcome.row.doc == doc && outcome.row.updatedTs == now
        && outcome.row.boardSize == if key in rows then rows[key].row.boardSize else None
  {
  }

  class SellerDockStore {
    const key: string
    const seed: Layout
    const board: Board
    const foreground: Option<string>
    /** Whether the wrapped reset writes the seed it returns, and whether a removal takes effect. */
    const resetPersists: bool
    const removalWorks: bool
    var rows: Rows

    constructor (key: string, seed: Layout, board: Board, foreground: Option<string>,
                 resetPersists: bool, removalWorks: bool, rows: Rows)
      ensures this.key == key && this.seed == seed && this.board == board && this.foreground == foreground
      ensures this.resetPersists == resetPersists && this.removalWorks == removalWorks && this.rows == rows
    {
      this.key, this.seed, this.board, this.foreground := key, seed, board, foreground;
      this.resetPersists, this.removalWorks, this.rows := resetPersists, removalWorks, rows;
    }

    ghost predicate SeedFits() {
      && seed.schemaVersion == 1
      && MigrateBoard(board, seed) == seed
      && (foreground.Some? ==> Foreground(seed, foreground.value).Some?)
    }

    ghost predicate Presentable(l: Layout) {
      && MigrateBoard(board, l) == l
      && (foreground.Some? ==> Foreground(l, foreground.value).Some?)
    }

    /** A stored row the next load will hand out without writing anything. */
    ghost predicate Settled(rows: Rows) {
      && key in rows && Readable(rows[key])
      && (rows[key].row.schemaVersion == 1 ==> Presentable(rows[key].row.doc.layout))
    }

    /** The stored row with its destination panel selected. */
    ghost function Shown(row: Row): Row
      requires ValidDoc(row.doc)
    {
      if row.schemaVersion != 1 || foreground.None? || Foreground(row.doc.layout, foreground.value).None? then row
      else row.(doc := Good(Foreground(row.doc.layout, foreground.value).value))
    }

    /** The destination panel of this dock has been closed on the row's board. */
    ghost predicate Resets(row: Row)
      requires ValidDoc(row.doc)
    {
      row.schemaVersion == 1 && foreground.Some? && Foreground(row.doc.layout, foreground.value).None?
    }

    ghost function AfterReset(rows: Rows, now: int): Rows {
      if resetPersists then rows[key := Parsed(Row.Row(1, Good(seed), now, None))] else rows - {key}
    }

    /** The row a load starts from: the stored one, or a fresh seed where there is none that can be read. */
    ghost function StartsFrom(rows: Rows, now: int): Row {
      if key in rows && Readable(rows[key]) then rows[key].row else Row.Row(1, Good(seed), now, None)
    }

    /** The same row with its board migrated: only the layout changes, and the timestamp with it. */
    ghost function Migrated(row: Row, now: int): Row
      requires ValidDoc(row.doc)
    {
      if row.schemaVersion != 1 || MigrateBoard(board, row.doc.layout) == row.doc.layout then row
      else row.(doc := Good(MigrateBoard(board, row.doc.layout)), updatedTs := now)
    }

    method InnerLoad(now: int) returns (r: Outcome)
      modifies this`rows
      ensures (rows, r) == Step(old(rows), Op.Load(key, seed, now))
    {
      if key !in rows {
        rows := rows[key := Parsed(Seeded(seed, now))];
      } else if !Readable(rows[key]) {
        return Failed(Unreadable);
      }
      r := Returned(rows[key].row);
    }

    method InnerSave(doc: Doc, expected: Option<int>, now: int) returns (r: Outcome)
      modifies this`rows
      ensures (rows, r) == Step(old(rows), Op.Save(key, doc, expected, now))
    {
      if !ValidDoc(doc) { return Failed(Invalid); }
      if key in rows {
        if rows[key].Garbage? { return Failed(Unreadable); }
        if expected.Some? && rows[key].row.updatedTs != expected.value { return Failed(Conflict); }
      }
      var row := SavedRow(rows, key, doc, now);
      rows := rows[key := Parsed(row)];
      r := Returned(row);
    }

    method InnerReset(now: int) returns (r: Outcome)
      modifies this`rows
      ensures (rows, r) == Step(old(rows), Op.Reset(key, seed, resetPersists, now))
    {
      rows := rows - {key};
      if resetPersists { rows := rows[key := Parsed(Seeded(seed, now))]; }
      r := Returned(Seeded(seed, now));
    }

    method RemoveRow()
      modifies this`rows
      ensures rows == if removalWorks then old(rows) - {key} else old(rows)
    {
      if removalWorks { rows := rows - {key}; }
    }

    method Migrate(row: Row, now: int) returns (r: Outcome)
      requires key in rows && rows[key] == Parsed(row) && ValidDoc(row.doc)
      modifies this`rows
      ensures r.Returned? && ValidDoc(r.row.doc) && rows == old(rows)[key := Parsed(r.row)]
      ensures row.schemaVersion == 1 ==> r.row.schemaVersion == 1
      ensures r.row.schemaVersion == 1 ==> r.row.doc.layout == MigrateBoard(board, row.doc.layout)
      ensures r.row == if row.schemaVersion != 1 || MigrateBoard(board, row.doc.layout) == row.doc.layout then row
        else row.(doc := Good(MigrateBoard(board, row.doc.layout)), updatedTs := now)
      ensures row.schemaVersion != 1 || MigrateBoard(board, row.doc.layout) == row.doc.layout ==> rows == old(rows)
    {
      if row.schemaVersion != 1 { return Returned(row); }
      var migrated := MigrateBoard(board, row.doc.layout);
      MigrateBoardFixpoint(board, row.doc.layout);
      if migrated == row.doc.layout { return Returned(row); }
      r := InnerSave(Good(migrated), Some(row.updatedTs), now);
    }

    method BringForward(row: Row, now: int) returns (r: Outcome)
      requires ValidDoc(row.doc) && SeedFits()
      requires key in rows && rows[key] == Parsed(row)
      requires row.schemaVersion == 1 ==> MigrateBoard(board, row.doc.layout) == row.doc.layout
      modifies this`rows
      ensures rows - {key} == old(rows) - {key}
      ensures r.Returned? && ValidDoc(r.row.doc)
      ensures old(Settled(rows)) ==> rows == old(rows) && r == Returned(Shown(row))
      ensures !Resets(row) ==> rows == old(rows) && r == Returned(Shown(row))
      ensures Resets(row) ==> rows == AfterReset(old(rows), now) && r == Returned(Shown(Row.Row(1, Good(seed), now, None)))
      ensures Settled(rows) || (key !in rows && !resetPersists)
      ensures r.row.schemaVersion == 1 && foreground.Some? ==>
        exists l: Layout :: Foreground(l, foreground.value) == Some(r.row.doc.layout) && Presentable(l)
    {
      if foreground.None? || row.schemaVersion != 1 { return Returned(row); }
      var front := Foreground(row.doc.layout, foreground.value);
      if front.Some? { return Returned(row.(doc := Good(front.value))); }
      r := InnerReset(now);
      var repaired := Foreground(seed, foreground.value);
      r := Returned(r.row.(doc := Good(repaired.value)));
    }

    /**
     * With nobody else writing: an unreadable row is dropped and reseeded, the board is migrated in its row
     * and its destination panel selected; only a board that lost that panel is reset to the seed. A row
     * left by one load makes the next write nothing.
     */
    method Load(now: int) returns (r: Outcome)
      requires SeedFits()
      modifies this`rows
      ensures rows - {key} == old(rows) - {key}
      ensures r.Returned? || r == Failed(Unreadable)
      ensures r.Failed? <==> key in old(rows) && !Readable(old(rows)[key]) && !removalWorks
      ensures r.Failed? ==> rows == old(rows)
      ensures r.Returned? ==> ValidDoc(r.row.doc)
      ensures old(Settled(rows)) ==> rows == old(rows) && r == Returned(Shown(old(rows)[key].row))
      ensures r.Returned? && !Resets(Migrated(StartsFrom(old(rows), now), now)) ==>
        var row := Migrated(StartsFrom(old(rows), now), now);
        rows == old(rows)[key := Parsed(row)] && r == Returned(Shown(row))
      ensures r.Returned? && Resets(Migrated(StartsFrom(old(rows), now), now)) ==>
        rows == AfterReset(old(rows), now) && r == Returned(Shown(Row.Row(1, Good(seed), now, None)))
      ensures r.Returned? ==> Settled(rows) || (key !in rows && !resetPersists)
      ensures r.Returned? && r.row.schemaVersion == 1 && foreground.Some? ==>
        exists l: Layout :: Foreground(l, foreground.value) == Some(r.row.doc.layout) && Presentable(l)
    {
      r := InnerLoad(now);
      if r.Failed? {
        RemoveRow();
        r := InnerLoad(now);
        if r.Failed? { return; }
      }
      MigrateBoardFixpoint(board, r.row.doc.layout);
      r := Migrate(r.row, now);
      r := BringForward(r.row, now);
    }

    /** A conflicting or invalid save leaves storage untouched; a stored row in the way is discarded. */
    method Save(doc: Doc, expected: Option<int>, now: int) returns (r: Outcome)
      modifies this`rows
      ensures rows - {key} == old(rows) - {key}
      ensures r.Failed? ==> rows == old(rows)
      ensures r == Failed(Invalid) <==> !ValidDoc(doc)
      ensures r == Failed(Conflict) <==>
        ValidDoc(doc) && key in old(rows) && old(rows)[key].Parsed?
        && expected.Some? && old(rows)[key].row.updatedTs != expected.value
      ensures r.Returned? ==> rows == old(rows)[key := Parsed(r.row)] && r.row.doc == doc && r.row.updatedTs == now
      ensures r.Returned? ==> SizeAt(rows, key) == SizeAt(old(rows), key)
      ensures ValidDoc(doc) && key in old(rows) && old(rows)[key].Garbage? && removalWorks ==> r.Returned?
    {
      r := InnerSave(doc, expected, now);
      if r.Returned? || r == Failed(Conflict) { return; }
      if !ValidDoc(doc) { return; }
      RemoveRow();
      r := InnerSave(doc, expected, now);
    }

    /** A resize answers whether it wrote, and what it wrote is what the next read sees. */
    method WriteBoardSize(size: BoardSize) returns (written: bool)
      modifies this`rows
      ensures (rows, Wrote(written)) == Step(old(rows), Resize(key, size))
      ensures written <==>
        && size.width > 0 && size.height > 0
        && key in old(rows) && old(rows)[key].Parsed? && !old(rows)[key].row.doc.Missing?
      ensures rows == if written then old(rows)[key := Parsed(old(rows)[key].row.(boardSize := Some(size)))] else old(rows)
      ensures written ==> SizeAt(rows, key) == Some(size)
      ensures Erase(rows) == Erase(old(rows))
    {
      StepIgnoresSizes(rows, Resize(key, size));
      if !ValidSize(size) || key !in rows { return false; }
      if rows[key].Garbage? || rows[key].row.doc.Missing? { return false; }
      rows := rows[key := Parsed(rows[key].row.(boardSize := Some(size)))];
      written := true;
    }
  }
}
