/** The note store: nested vectors that are meant to behave as one map from places to notes. */
module Annotations {
  import opened Wrappers
  import opened Text
  import opened KeyedVec
  import opened Machine
  import opened Refinement

  const ANNOTATIONS_VERSION: nat := 1

  datatype ColumnAnnotation = ColumnAnnotation(name: string, note: string)

  datatype TableAnnotations = TableAnnotations(key: string, note: Option<string>, columns: seq<ColumnAnnotation>)

  datatype ConnectionAnnotations = ConnectionAnnotations(id: string, tables: seq<TableAnnotations>)

  datatype AnnotationsFile = AnnotationsFile(version: nat, connections: seq<ConnectionAnnotations>)

  datatype ParseError =
    | UnsupportedVersion(version: nat)
    | DuplicateConnectionId(id: string)
    | DuplicateTableKey(connection: string, key: string)

  function ColumnName(c: ColumnAnnotation): string { c.name }
  function TableKey(t: TableAnnotations): string { t.key }
  function ConnectionId(c: ConnectionAnnotations): string { c.id }

  // -- what the loader accepts --------------------------------------------------------------

  /** Connection ids distinct, and table keys distinct within each. A column may be listed twice. */
  ghost predicate Loadable(file: AnnotationsFile) {
    && file.version == ANNOTATIONS_VERSION
    && Unique(file.connections, ConnectionId)
    && forall i | 0 <= i < |file.connections| :: Unique(file.connections[i].tables, TableKey)
  }

  method ParseTables(connection: ConnectionAnnotations) returns (error: Option<ParseError>)
    ensures error.None? <==> Unique(connection.tables, TableKey)
    ensures error.Some? ==> error.value.DuplicateTableKey? && error.value.connection == connection.id
    ensures error.Some? ==> exists i, j | 0 <= i < j < |connection.tables| ::
                              connection.tables[i].key == connection.tables[j].key == error.value.key
  {
    var seen: set<string> := {};
    for j := 0 to |connection.tables|
      invariant seen == set k | 0 <= k < j :: connection.tables[k].key
      invariant forall i, k | 0 <= i < k < j :: connection.tables[i].key != connection.tables[k].key
    {
      var key := connection.tables[j].key;
      if key in seen {
        var i :| 0 <= i < j && connection.tables[i].key == key;
        assert TableKey(connection.tables[i]) == TableKey(connection.tables[j]);
        return Some(DuplicateTableKey(connection.id, key));
      }
      seen := seen + {key};
    }
    return None;
  }

  method Parse(file: AnnotationsFile) returns (r: Result<AnnotationsFile, ParseError>)
    ensures r.Ok? <==> Loadable(file)
    ensures r.Ok? ==> r.value == file
    ensures r == Err(UnsupportedVersion(file.version)) <==> file.version != ANNOTATIONS_VERSION
  {
    if file.version != ANNOTATIONS_VERSION {
      return Err(UnsupportedVersion(file.version));
    }
    var seen: set<string> := {};
    for j := 0 to |file.connections|
      invariant seen == set k | 0 <= k < j :: file.connections[k].id
      invariant forall i, k | 0 <= i < k < j :: file.connections[i].id != file.connections[k].id
      invariant forall i | 0 <= i < j :: Unique(file.connections[i].tables, TableKey)
    {
      var id := file.connections[j].id;
      if id in seen {
        var i :| 0 <= i < j && file.connections[i].id == id;
        assert ConnectionId(file.connections[i]) == ConnectionId(file.connections[j]);
        return Err(DuplicateConnectionId(id));
      }
      seen := seen + {id};
      var error := ParseTables(file.connections[j]);
      if error.Some? {
        return Err(error.value);
      }
    }
    return Ok(file);
  }

  // -- lookups --------------------------------------------------------------------------------

  function BlankTable(key: string): TableAnnotations { TableAnnotations(key, None, []) }

  function ConnectionOrBlank(file: AnnotationsFile, connection: string): ConnectionAnnotations {
    FindOr(file.connections, ConnectionId, connection, ConnectionAnnotations(connection, []))
  }

  /** What the file says about one table; a table it does not list has nothing noted. */
  function TableOrBlank(file: AnnotationsFile, connection: string, table: string): TableAnnotations {
    FindOr(ConnectionOrBlank(file, connection).tables, TableKey, table, BlankTable(table))
  }

  function FindTable(file: AnnotationsFile, connection: string, table: string): Option<TableAnnotations> {
    var found := Find(file.connections, ConnectionId, connection);
    if found.None? then None else Find(found.value.tables, TableKey, table)
  }

  function ColumnNoteIn(columns: seq<ColumnAnnotation>, column: string): Option<string> {
    var found := Find(columns, ColumnName, column);
    if found.None? then None else Some(found.value.note)
  }

  function ColumnNote(file: AnnotationsFile, connection: string, table: string, column: string): (r: Option<string>)
    ensures r == ColumnNoteIn(TableOrBlank(file, connection, table).columns, column)
  {
    var found := FindTable(file, connection, table);
    if found.None? then None else ColumnNoteIn(found.value.columns, column)
  }

  function TableNote(file: AnnotationsFile, connection: string, table: string): (r: Option<string>)
    ensures r == TableOrBlank(file, connection, table).note
  {
    var found := FindTable(file, connection, table);
    if found.None? then None else found.value.note
  }

  // -- edits ------------------------------------------------------------------------------------

  /** What a note's text is stored as; blank stores nothing. */
  function Stored(note: string): Option<string> {
    if Trim(note) == "" then None else Some(Trim(note))
  }

  /** A note of nothing but whitespace stores nothing; of any other, what is left without the whitespace around it. */
  lemma StoredSpec(note: string)
    ensures Stored(note).None? <==> AllWhitespace(note)
    ensures Stored(note).Some? ==>
              && IsTrimmed(Stored(note).value)
              && exists front, back ::
                   AllWhitespace(front) && AllWhitespace(back) && note == front + Stored(note).value + back
  {
    var front, back := TrimSpec(note);
    if Stored(note).Some? {
      assert Trim(note)[0] in note;
    } else {
      assert note == front + back;
    }
  }

  function WithTable(file: AnnotationsFile, connection: string, table: TableAnnotations): AnnotationsFile {
    var conn := ConnectionOrBlank(file, connection);
    file.(connections := Put(file.connections, ConnectionId, connection,
                             conn.(tables := Put(conn.tables, TableKey, table.key, table))))
  }

  function WithColumn(columns: seq<ColumnAnnotation>, column: string, stored: Option<string>): seq<ColumnAnnotation> {
    if stored.Some? then Put(columns, ColumnName, column, ColumnAnnotation(column, stored.value))
    else Retain(columns, (c: ColumnAnnotation) => c.name != column)
  }

  function TableInUse(t: TableAnnotations): bool { t.note.Some? || t.columns != [] }
  function ConnectionInUse(c: ConnectionAnnotations): bool { c.tables != [] }

  function WithoutIdleTables(c: ConnectionAnnotations): ConnectionAnnotations {
    c.(tables := Retain(c.tables, TableInUse))
  }

  function Trimmed(conns: seq<ConnectionAnnotations>): (r: seq<ConnectionAnnotations>)
    ensures |r| == |conns| && forall i | 0 <= i < |r| :: r[i] == WithoutIdleTables(conns[i])
  {
    if conns == [] then [] else [WithoutIdleTables(conns[0])] + Trimmed(conns[1..])
  }

  function Pruned(file: AnnotationsFile): AnnotationsFile {
    file.(connections := Retain(Trimmed(file.connections), ConnectionInUse))
  }

  function WithColumnNote(file: AnnotationsFile, connection: string, table: string, column: string, note: string)
    : AnnotationsFile
  {
    var entry := TableOrBlank(file, connection, table);
    Pruned(WithTable(file, connection, entry.(columns := WithColumn(entry.columns, column, Stored(note)))))
  }

  function WithTableNote(file: AnnotationsFile, connection: string, table: string, note: string): AnnotationsFile {
    Pruned(WithTable(file, connection, TableOrBlank(file, connection, table).(note := Stored(note))))
  }

  // -- the edits on lookups ---------------------------------------------------------------------

  ghost predicate NoIdleStanza(file: AnnotationsFile) {
    forall i | 0 <= i < |file.connections| ::
      ConnectionInUse(file.connections[i]) && forall t | t in file.connections[i].tables :: TableInUse(t)
  }

  lemma WithTableSpec(file: AnnotationsFile, connection: string, table: TableAnnotations)
    requires Loadable(file)
    ensures Loadable(WithTable(file, connection, table))
    ensures forall c, t :: TableOrBlank(WithTable(file, connection, table), c, t)
                        == if c == connection && t == table.key then table else TableOrBlank(file, c, t)
  {
    var conn := ConnectionOrBlank(file, connection);
    var conn' := conn.(tables := Put(conn.tables, TableKey, table.key, table));
    assert Unique(conn.tables, TableKey);
    PutKeepsUnique(conn.tables, TableKey, table.key, table);
    PutKeepsUnique(file.connections, ConnectionId, connection, conn');
    forall c, t
      ensures TableOrBlank(WithTable(file, connection, table), c, t)
           == if c == connection && t == table.key then table else TableOrBlank(file, c, t)
    {
      FindAfterPut(file.connections, ConnectionId, connection, conn', c);
      FindAfterPut(conn.tables, TableKey, table.key, table, t);
    }
  }

  lemma IdleTablesReadBlank(tables: seq<TableAnnotations>, t: string)
    requires Unique(tables, TableKey)
    ensures FindOr(Retain(tables, TableInUse), TableKey, t, BlankTable(t)) == FindOr(tables, TableKey, t, BlankTable(t))
  {
    FindAfterRetain(tables, TableInUse, TableKey, t);
    var table := FindOr(tables, TableKey, t, BlankTable(t));
    assert table.key == t;
    assert !TableInUse(table) ==> table == BlankTable(t);
  }

  /** Pruning is invisible to every lookup, and leaves nothing idle. */
  lemma PrunedSpec(file: AnnotationsFile)
    requires Loadable(file)
    ensures Loadable(Pruned(file)) && NoIdleStanza(Pruned(file))
    ensures forall c, t :: TableOrBlank(Pruned(file), c, t) == TableOrBlank(file, c, t)
  {
    var conns := file.connections;
    var trimmed := Trimmed(conns);
    forall i | 0 <= i < |conns|
      ensures Unique(trimmed[i].tables, TableKey) && forall t | t in trimmed[i].tables :: TableInUse(t)
    {
      RetainKeepsUnique(conns[i].tables, TableInUse, TableKey);
      RetainSpec(conns[i].tables, TableInUse);
    }
    RetainSpec(trimmed, ConnectionInUse);
    RetainKeepsUnique(trimmed, ConnectionInUse, ConnectionId);
    var kept := Retain(trimmed, ConnectionInUse);
    assert forall i | 0 <= i < |kept| :: kept[i] in kept;
    forall c, t ensures TableOrBlank(Pruned(file), c, t) == TableOrBlank(file, c, t) {
      SameKeysSamePlace(conns, trimmed, ConnectionId, c);
      FindAfterRetain(trimmed, ConnectionInUse, ConnectionId, c);
      var conn := ConnectionOrBlank(file, c);
      assert ConnectionOrBlank(Pruned(file), c) == WithoutIdleTables(conn);
      assert Unique(conn.tables, TableKey);
      IdleTablesReadBlank(conn.tables, t);
    }
  }

  lemma {:induction false} ClearedColumnIsGone(columns: seq<ColumnAnnotation>, column: string, other: string)
    ensures ColumnNoteIn(WithColumn(columns, column, None), other)
         == if other == column then None else ColumnNoteIn(columns, other)
  {
    if columns != [] {
      ClearedColumnIsGone(columns[1..], column, other);
      var rest := WithColumn(columns[1..], column, None);
      assert ([columns[0]] + rest)[1..] == rest;
      assert WithColumn(columns, column, None) == if columns[0].name != column then [columns[0]] + rest else rest;
    }
  }

  lemma WithColumnSpec(columns: seq<ColumnAnnotation>, column: string, stored: Option<string>, other: string)
    ensures ColumnNoteIn(WithColumn(columns, column, stored), other)
         == if other == column then stored else ColumnNoteIn(columns, other)
  {
    if stored.Some? {
      FindAfterPut(columns, ColumnName, column, ColumnAnnotation(column, stored.value), other);
    } else {
      ClearedColumnIsGone(columns, column, other);
    }
  }

  /** Setting or clearing a column's note is a map update at exactly that column, on any file the loader accepts. */
  lemma ColumnNoteIsAMapUpdate(file: AnnotationsFile, connection: string, table: string, column: string, note: string)
    requires Loadable(file)
    ensures var next := WithColumnNote(file, connection, table, column, note);
            && Loadable(next) && NoIdleStanza(next)
            && (forall c, t :: TableNote(next, c, t) == TableNote(file, c, t))
            && forall c, t, col :: ColumnNote(next, c, t, col)
                 == if c == connection && t == table && col == column then Stored(note) else ColumnNote(file, c, t, col)
  {
    var entry := TableOrBlank(file, connection, table);
    var entry' := entry.(columns := WithColumn(entry.columns, column, Stored(note)));
    WithTableSpec(file, connection, entry');
    PrunedSpec(WithTable(file, connection, entry'));
    forall other ensures ColumnNoteIn(entry'.columns, other) == if other == column then Stored(note)
        else ColumnNoteIn(entry.columns, other) {
      WithColumnSpec(entry.columns, column, Stored(note), other);
    }
  }

  lemma TableNoteIsAMapUpdate(file: AnnotationsFile, connection: string, table: string, note: string)
    requires Loadable(file)
    ensures var next := WithTableNote(file, connection, table, note);
            && Loadable(next) && NoIdleStanza(next)
            && (forall c, t :: TableNote(next, c, t) == if c == connection
                && t == table then Stored(note) else TableNote(file, c, t))
            && forall c, t, col :: ColumnNote(next, c, t, col) == ColumnNote(file, c, t, col)
  {
    var entry := TableOrBlank(file, connection, table).(note := Stored(note));
    WithTableSpec(file, connection, entry);
    PrunedSpec(WithTable(file, connection, entry));
  }

  // -- runs -----------------------------------------------------------------------------------------

  datatype NoteCall =
    | SetColumn(connection: string, table: string, column: string, note: string)
    | SetTable(connection: string, table: string, note: string)

  function Edited(file: AnnotationsFile, call: NoteCall): AnnotationsFile {
    match call
    case SetColumn(connection, table, column, note) => WithColumnNote(file, connection, table, column, note)
    case SetTable(connection, table, note) => WithTableNote(file, connection, table, note)
  }

  /** Nothing is kept in memory that was not saved first. */
  function Exec(w: World<AnnotationsFile>, fails: Schedule, file: AnnotationsFile, call: NoteCall)
    : (World<AnnotationsFile>, AnnotationsFile)
  {
    var (w', saved) := Save(w, fails, Edited(file, call));
    (w', if saved then Edited(file, call) else file)
  }

  /** Where a note can hang: a column, or the table itself. */
  datatype Place =
    | OnColumn(connection: string, table: string, column: string)
    | OnTable(connection: string, table: string)

  function NoteAt(file: AnnotationsFile, place: Place): Option<string> {
    match place
    case OnColumn(connection, table, column) => ColumnNote(file, connection, table, column)
    case OnTable(connection, table) => TableNote(file, connection, table)
  }

  function PlaceOf(call: NoteCall): Place {
    match call
    case SetColumn(connection, table, column, _) => OnColumn(connection, table, column)
    case SetTable(connection, table, _) => OnTable(connection, table)
  }

  /** The plain map the nested vectors stand for. */
  ghost predicate Represents(file: AnnotationsFile, notes: map<Place, string>) {
    Loadable(file) && forall place :: NoteAt(file, place) == if place in notes then Some(notes[place]) else None
  }

  function MapUpdate(notes: map<Place, string>, call: NoteCall): map<Place, string> {
    match Stored(call.note)
    case Some(text) => notes[PlaceOf(call) := text]
    case None => notes - {PlaceOf(call)}
  }

  function Run(w: World<AnnotationsFile>, fails: Schedule, file: AnnotationsFile, calls: seq<NoteCall>)
    : (World<AnnotationsFile>, AnnotationsFile)
    decreases |calls|
  {
    if calls == [] then (w, file)
    else
      var (w', file') := Exec(w, fails, file, calls[0]);
      Run(w', fails, file', calls[1..])
  }

  /** The same run on the map: a call whose save fails does nothing. */
  function MapRun(notes: map<Place, string>, fails: Schedule, tick: nat, calls: seq<NoteCall>): map<Place, string>
    decreases |calls|
  {
    if calls == [] then notes
    else MapRun(MapCall(notes, fails(SaveEffect, tick), calls[0]), fails, tick + 1, calls[1..])
  }

  /** One call on the map: nothing happens when its save fails. */
  function MapCall(notes: map<Place, string>, saveFails: bool, call: NoteCall): map<Place, string> {
    if saveFails then notes else MapUpdate(notes, call)
  }

  lemma SetColumnRefines(file: AnnotationsFile, notes: map<Place, string>, connection: string, table: string,
                         column: string, note: string)
    requires Represents(file, notes)
    ensures Represents(WithColumnNote(file, connection, table, column, note),
                       MapUpdate(notes, SetColumn(connection, table, column, note)))
  {
    var next := WithColumnNote(file, connection, table, column, note);
    var notes' := MapUpdate(notes, SetColumn(connection, table, column, note));
    ColumnNoteIsAMapUpdate(file, connection, table, column, note);
    forall place ensures NoteAt(next, place) == if place in notes' then Some(notes'[place]) else None {
      assert NoteAt(file, place) == if place in notes then Some(notes[place]) else None;
    }
  }

  lemma SetTableRefines(file: AnnotationsFile, notes: map<Place, string>, connection: string, table: string,
                        note: string)
    requires Represents(file, notes)
    ensures Represents(WithTableNote(file, connection, table, note),
                       MapUpdate(notes, SetTable(connection, table, note)))
  {
    var next := WithTableNote(file, connection, table, note);
    var notes' := MapUpdate(notes, SetTable(connection, table, note));
    TableNoteIsAMapUpdate(file, connection, table, note);
    forall place ensures NoteAt(next, place) == if place in notes' then Some(notes'[place]) else None {
      assert NoteAt(file, place) == if place in notes then Some(notes[place]) else None;
    }
  }

  type Notes = map<Place, string>

  function EditOf(call: NoteCall): AnnotationsFile -> AnnotationsFile {
    (file: AnnotationsFile) => Edited(file, call)
  }

  function UpdateOf(call: NoteCall): Notes -> Notes {
    (notes: Notes) => MapUpdate(notes, call)
  }

  lemma EditFollowsUpdate(call: NoteCall)
    ensures Follows(EditOf(call), UpdateOf(call), Represents)
  {
    forall file, notes | Represents(file, notes)
      ensures Represents(EditOf(call)(file), UpdateOf(call)(notes))
    {
      match call
      case SetColumn(connection, table, column, note) =>
        SetColumnRefines(file, notes, connection, table, column, note);
      case SetTable(connection, table, note) =>
        SetTableRefines(file, notes, connection, table, note);
    }
  }

  function EditsOf(calls: seq<NoteCall>): seq<AnnotationsFile -> AnnotationsFile> {
    if calls == [] then [] else [EditOf(calls[0])] + EditsOf(calls[1..])
  }

  function UpdatesOf(calls: seq<NoteCall>): seq<Notes -> Notes> {
    if calls == [] then [] else [UpdateOf(calls[0])] + UpdatesOf(calls[1..])
  }

  lemma {:induction false} CallsFollow(calls: seq<NoteCall>)
    ensures |EditsOf(calls)| == |UpdatesOf(calls)| == |calls|
    ensures forall i | 0 <= i < |calls| :: Follows(EditsOf(calls)[i], UpdatesOf(calls)[i], Represents)
    decreases |calls|
  {
    if calls != [] {
      CallsFollow(calls[1..]);
      EditFollowsUpdate(calls[0]);
    }
  }

  lemma {:induction false} RunIsItsEdits(w: World<AnnotationsFile>, fails: Schedule, file: AnnotationsFile,
                                         calls: seq<NoteCall>)
    ensures Run(w, fails, file, calls) == RunEdits(w, fails, file, EditsOf(calls))
    decreases |calls|
  {
    if calls != [] {
      var (w1, file1) := Exec(w, fails, file, calls[0]);
      RunIsItsEdits(w1, fails, file1, calls[1..]);
      assert EditsOf(calls)[1..] == EditsOf(calls[1..]);
    }
  }

  lemma {:induction false} MapRunIsItsUpdates(notes: Notes, fails: Schedule, tick: nat, calls: seq<NoteCall>)
    ensures MapRun(notes, fails, tick, calls) == RunUpdates(notes, fails, tick, UpdatesOf(calls))
    decreases |calls|
  {
    if calls != [] {
      MapRunIsItsUpdates(MapCall(notes, fails(SaveEffect, tick), calls[0]), fails, tick + 1, calls[1..]);
      assert UpdatesOf(calls)[1..] == UpdatesOf(calls[1..]);
    }
  }

  /** Over every run, whichever saves fail, the file represents what the map holds, and memory and disk agree. */
  lemma RunRefinesMap(w: World<AnnotationsFile>, fails: Schedule, file: AnnotationsFile, notes: Notes,
                      calls: seq<NoteCall>)
    requires Represents(file, notes)
    ensures var (w', file') := Run(w, fails, file, calls);
            && Represents(file', MapRun(notes, fails, w.tick, calls))
            && (w.disk == Present(file) ==> w'.disk == Present(file'))
  {
    CallsFollow(calls);
    RunFollows(w, fails, file, notes, EditsOf(calls), UpdatesOf(calls), Represents);
    RunIsItsEdits(w, fails, file, calls);
    MapRunIsItsUpdates(notes, fails, w.tick, calls);
  }
}

/** The note store as the class it is. */
module AnnotationsStore {
  import opened Wrappers
  import opened Text
  import opened KeyedVec
  import opened Machine
  import opened Annotations

  /** `file` with the table at these indices replaced. */
  function WithTableAt(file: AnnotationsFile, conn: nat, tbl: nat, table: TableAnnotations): AnnotationsFile
    requires conn < |file.connections| && tbl < |file.connections[conn].tables|
  {
    var entry := file.connections[conn];
    file.(connections := file.connections[conn := entry.(tables := entry.tables[tbl := table])])
  }

  /** Gets or creates the table's stanza; writing to it there is writing to it by name. */
  method TableEntry(file: AnnotationsFile, connection: string, table: string)
    returns (next: AnnotationsFile, conn: nat, tbl: nat)
    ensures conn < |next.connections| && tbl < |next.connections[conn].tables|
    ensures next.connections[conn].tables[tbl] == TableOrBlank(file, connection, table)
    ensures forall x: TableAnnotations | x.key == table ::
              WithTableAt(next, conn, tbl, x) == WithTable(file, connection, x)
  {
    next := file;
    var found := IndexOf(next.connections, ConnectionId, connection);
    if found.None? {
      next := next.(connections := next.connections + [ConnectionAnnotations(connection, [])]);
      conn := |next.connections| - 1;
    } else {
      conn := found.value;
    }
    var entry := next.connections[conn];
    var at := IndexOf(entry.tables, TableKey, table);
    if at.None? {
      entry := entry.(tables := entry.tables + [BlankTable(table)]);
      next := next.(connections := next.connections[conn := entry]);
      tbl := |entry.tables| - 1;
    } else {
      tbl := at.value;
    }
    forall x: TableAnnotations | x.key == table ensures WithTableAt(next, conn, tbl, x)
        == WithTable(file, connection, x) {
      var was := ConnectionOrBlank(file, connection);
      assert next.connections[conn].tables[tbl := x] == Put(was.tables, TableKey, table, x);
      var now := was.(tables := Put(was.tables, TableKey, table, x));
      assert next.connections[conn].(tables := next.connections[conn].tables[tbl := x]) == now;
      assert next.connections[conn := now] == Put(file.connections, ConnectionId, connection, now);
    }
  }

  method Prune(file: AnnotationsFile) returns (next: AnnotationsFile)
    ensures next == Pruned(file)
  {
    var conns := file.connections;
    for i := 0 to |conns|
      invariant |conns| == |file.connections|
      invariant forall j | 0 <= j < i :: conns[j] == WithoutIdleTables(file.connections[j])
      invariant forall j | i <= j < |conns| :: conns[j] == file.connections[j]
    {
      conns := conns[i := conns[i].(tables := Retain(conns[i].tables, TableInUse))];
    }
    assert conns == Trimmed(file.connections);
    next := file.(connections := Retain(conns, ConnectionInUse));
  }

  class AnnotationsAdmin {
    const host: Host<AnnotationsFile>
    var file: AnnotationsFile

    constructor (host: Host<AnnotationsFile>, file: AnnotationsFile)
      ensures this.host == host && this.file == file
    {
      this.host, this.file := host, file;
    }

    method Persist(next: AnnotationsFile) returns (saved: bool)
      modifies this, host
      ensures (host.W(), saved) == Save(old(host.W()), host.fails, next)
      ensures file == if saved then next else old(file)
    {
      saved := host.SaveFile(next);
      if saved {
        file := next;
      }
    }

    method SetColumnNote(connection: string, table: string, column: string, note: string) returns (saved: bool)
      modifies this, host
      ensures (host.W(), file) == Exec(old(host.W()), host.fails, old(file), SetColumn(connection, table, column, note))
      ensures saved <==> !host.fails(SaveEffect, old(host.tick))
    {
      var trimmed := Trim(note);
      var next, conn, tbl := TableEntry(file, connection, table);
      var entry := next.connections[conn].tables[tbl];
      var at := IndexOf(entry.columns, ColumnName, column);
      var columns := entry.columns;
      if at.Some? && trimmed != "" {
        columns := columns[at.value := columns[at.value].(note := trimmed)];
      } else if at.Some? {
        columns := Retain(columns, (c: ColumnAnnotation) => c.name != column);
      } else if trimmed != "" {
        columns := columns + [ColumnAnnotation(column, trimmed)];
      } else {
        KeepsAllOthers(columns, column);
      }
      next := WithTableAt(next, conn, tbl, entry.(columns := columns));
      next := Prune(next);
      saved := Persist(next);
    }

    method SetTableNote(connection: string, table: string, note: string) returns (saved: bool)
      modifies this, host
      ensures (host.W(), file) == Exec(old(host.W()), host.fails, old(file), SetTable(connection, table, note))
      ensures saved <==> !host.fails(SaveEffect, old(host.tick))
    {
      var trimmed := Trim(note);
      var next, conn, tbl := TableEntry(file, connection, table);
      var entry := next.connections[conn].tables[tbl];
      next := WithTableAt(next, conn, tbl, entry.(note := if trimmed == "" then None else Some(trimmed)));
      next := Prune(next);
      saved := Persist(next);
    }
  }

  lemma {:induction false} KeepsAllOthers(columns: seq<ColumnAnnotation>, column: string)
    requires forall j | 0 <= j < |columns| :: columns[j].name != column
    ensures WithColumn(columns, column, None) == columns
  {
    if columns != [] {
      KeepsAllOthers(columns[1..], column);
    }
  }
}
