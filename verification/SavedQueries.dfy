/** The saved-query store: named queries per connection, kept in the order they were first saved. */
module SavedQueries {
  import opened Wrappers
  import opened Text
  import opened KeyedVec
  import opened Machine

  const SAVED_QUERIES_VERSION: nat := 1

  datatype SavedQuery = SavedQuery(name: string, sql: string, savedAt: int)

  datatype ConnectionQueries = ConnectionQueries(id: string, queries: seq<SavedQuery>)

  datatype SavedQueriesFile = SavedQueriesFile(version: nat, connections: seq<ConnectionQueries>)

  datatype QueryError =
    | UnsupportedVersion(version: nat)
    | DuplicateConnectionId(id: string)
    | DuplicateName(connection: string, name: string)
    | EmptyName
    | EmptySql
    | IoFailed

  function QueryName(q: SavedQuery): string { q.name }
  function ConnectionId(c: ConnectionQueries): string { c.id }

  // -- what the loader accepts ----------------------------------------------------------------

  ghost predicate Loadable(file: SavedQueriesFile) {
    && file.version == SAVED_QUERIES_VERSION
    && Unique(file.connections, ConnectionId)
    && forall i | 0 <= i < |file.connections| :: Unique(file.connections[i].queries, QueryName)
  }

  method ParseQueries(connection: ConnectionQueries) returns (error: Option<QueryError>)
    ensures error.None? <==> Unique(connection.queries, QueryName)
    ensures error.Some? ==> error.value.DuplicateName? && error.value.connection == connection.id
    ensures error.Some? ==> exists i, j | 0 <= i < j < |connection.queries| ::
                              connection.queries[i].name == connection.queries[j].name == error.value.name
  {
    var seen: set<string> := {};
    for j := 0 to |connection.queries|
      invariant seen == set k | 0 <= k < j :: connection.queries[k].name
      invariant forall i, k | 0 <= i < k < j :: connection.queries[i].name != connection.queries[k].name
    {
      var name := connection.queries[j].name;
      if name in seen {
        var i :| 0 <= i < j && connection.queries[i].name == name;
        assert QueryName(connection.queries[i]) == QueryName(connection.queries[j]);
        return Some(DuplicateName(connection.id, name));
      }
      seen := seen + {name};
    }
    return None;
  }

  method Parse(file: SavedQueriesFile) returns (r: Result<SavedQueriesFile, QueryError>)
    ensures r.Ok? <==> Loadable(file)
    ensures r.Ok? ==> r.value == file
    ensures r == Err(UnsupportedVersion(file.version)) <==> file.version != SAVED_QUERIES_VERSION
  {
    if file.version != SAVED_QUERIES_VERSION {
      return Err(UnsupportedVersion(file.version));
    }
    var seen: set<string> := {};
    for j := 0 to |file.connections|
      invariant seen == set k | 0 <= k < j :: file.connections[k].id
      invariant forall i, k | 0 <= i < k < j :: file.connections[i].id != file.connections[k].id
      invariant forall i | 0 <= i < j :: Unique(file.connections[i].queries, QueryName)
    {
      var id := file.connections[j].id;
      if id in seen {
        var i :| 0 <= i < j && file.connections[i].id == id;
        assert ConnectionId(file.connections[i]) == ConnectionId(file.connections[j]);
        return Err(DuplicateConnectionId(id));
      }
      seen := seen + {id};
      var error := ParseQueries(file.connections[j]);
      if error.Some? {
        return Err(error.value);
      }
    }
    return Ok(file);
  }

  // -- edits --------------------------------------------------------------------------------------

  /** A connection's queries, oldest first. */
  function QueriesOf(file: SavedQueriesFile, connection: string): seq<SavedQuery> {
    FindOr(file.connections, ConnectionId, connection, ConnectionQueries(connection, [])).queries
  }

  /** Trims both sides and refuses a blank one, the name first. */
  function Validated(name: string, sql: string): Result<(string, string), QueryError> {
    if Trim(name) == "" then Err(EmptyName)
    else if Trim(sql) == "" then Err(EmptySql)
    else Ok((Trim(name), Trim(sql)))
  }

  function WithQueries(file: SavedQueriesFile, connection: string, queries: seq<SavedQuery>): SavedQueriesFile {
    file.(connections := Put(file.connections, ConnectionId, connection, ConnectionQueries(connection, queries)))
  }

  function WithQuery(file: SavedQueriesFile, connection: string, query: SavedQuery): SavedQueriesFile {
    WithQueries(file, connection, Put(QueriesOf(file, connection), QueryName, query.name, query))
  }

  predicate ConnectionInUse(c: ConnectionQueries) { c.queries != [] }

  function WithoutQuery(file: SavedQueriesFile, connection: string, name: string): SavedQueriesFile {
    var kept := Retain(QueriesOf(file, connection), (q: SavedQuery) => q.name != name);
    var next := WithQueries(file, connection, kept);
    next.(connections := Retain(next.connections, ConnectionInUse))
  }

  datatype QueryCall =
    | Add(connection: string, name: string, sql: string, at: int)
    | Replace(connection: string, name: string, sql: string, at: int)
    | Remove(connection: string, name: string)

  /** What a call wants saved: nothing when it fails a check, or has nothing to remove. */
  function Planned(file: SavedQueriesFile, call: QueryCall): Result<Option<SavedQueriesFile>, QueryError> {
    match call
    case Add(connection, name, sql, at) =>
      var (name, sql) :- Validated(name, sql);
      if IndexOf(QueriesOf(file, connection), QueryName, name).Some? then Err(DuplicateName(connection, name))
      else Ok(Some(WithQuery(file, connection, SavedQuery(name, sql, at))))
    case Replace(connection, name, sql, at) =>
      var (name, sql) :- Validated(name, sql);
      Ok(Some(WithQuery(file, connection, SavedQuery(name, sql, at))))
    case Remove(connection, name) =>
      Ok(if IndexOf(QueriesOf(file, connection), QueryName, name).None? then None
         else Some(WithoutQuery(file, connection, name)))
  }

  datatype QueryOutcome = QueryOutcome(
    world: World<SavedQueriesFile>, file: SavedQueriesFile, result: Result<bool, QueryError>)

  /** The result says whether anything was written. */
  function Exec(w: World<SavedQueriesFile>, fails: Schedule, file: SavedQueriesFile, call: QueryCall): QueryOutcome {
    match Planned(file, call)
    case Err(e) => QueryOutcome(w, file, Err(e))
    case Ok(None) => QueryOutcome(w, file, Ok(false))
    case Ok(Some(next)) =>
      var (w', saved) := Save(w, fails, next);
      if saved then QueryOutcome(w', next, Ok(true)) else QueryOutcome(w', file, Err(IoFailed))
  }

  // -- what the edits do ----------------------------------------------------------------------------

  lemma WithQueriesSpec(file: SavedQueriesFile, connection: string, queries: seq<SavedQuery>)
    requires Loadable(file) && Unique(queries, QueryName)
    ensures Loadable(WithQueries(file, connection, queries))
    ensures forall c :: QueriesOf(WithQueries(file, connection, queries), c)
                     == if c == connection then queries else QueriesOf(file, c)
  {
    var entry := ConnectionQueries(connection, queries);
    PutKeepsUnique(file.connections, ConnectionId, connection, entry);
    forall c ensures QueriesOf(WithQueries(file, connection, queries), c) == if c == connection then queries
        else QueriesOf(file, c) {
      FindAfterPut(file.connections, ConnectionId, connection, entry, c);
    }
  }

  lemma QueriesAreUnique(file: SavedQueriesFile, connection: string)
    requires Loadable(file)
    ensures Unique(QueriesOf(file, connection), QueryName)
  {
  }

  /** A written query goes to the end when its name is new, and keeps its place when it is not. */
  lemma WritingPlacesTheQuery(file: SavedQueriesFile, connection: string, query: SavedQuery)
    requires Loadable(file)
    ensures var next := WithQuery(file, connection, query);
            var was, now := QueriesOf(file, connection), QueriesOf(next, connection);
            && Loadable(next)
            && (forall c | c != connection :: QueriesOf(next, c) == QueriesOf(file, c))
            && (forall name :: Find(now, QueryName, name) == if name == query.name then Some(query)
                else Find(was, QueryName, name))
            && ((exists i | 0 <= i < |was| :: was[i].name == query.name && now == was[i := query])
                || ((forall q | q in was :: q.name != query.name) && now == was + [query]))
  {
    var was := QueriesOf(file, connection);
    QueriesAreUnique(file, connection);
    var now := Put(was, QueryName, query.name, query);
    PutKeepsUnique(was, QueryName, query.name, query);
    WithQueriesSpec(file, connection, now);
    forall name ensures Find(now, QueryName, name) == if name == query.name then Some(query)
        else Find(was, QueryName, name) {
      FindAfterPut(was, QueryName, query.name, query, name);
    }
    var i := IndexOf(was, QueryName, query.name);
    if i.Some? {
      assert was[i.value].name == query.name && now == was[i.value := query];
    }
  }

  lemma PrunedQueries(file: SavedQueriesFile)
    requires Loadable(file)
    ensures var next := file.(connections := Retain(file.connections, ConnectionInUse));
            && Loadable(next)
            && (forall c | c in next.connections :: c.queries != [])
            && forall c :: QueriesOf(next, c) == QueriesOf(file, c)
  {
    var kept := Retain(file.connections, ConnectionInUse);
    RetainSpec(file.connections, ConnectionInUse);
    RetainKeepsUnique(file.connections, ConnectionInUse, ConnectionId);
    assert forall i | 0 <= i < |kept| :: kept[i] in kept;
    forall c ensures QueriesOf(file.(connections := kept), c) == QueriesOf(file, c) {
      FindAfterRetain(file.connections, ConnectionInUse, ConnectionId, c);
    }
  }

  /** Removing takes out that one query and closes the gap; a connection left without any loses its stanza. */
  lemma RemovingDropsOneQuery(file: SavedQueriesFile, connection: string, name: string)
    requires Loadable(file)
    ensures var next := WithoutQuery(file, connection, name);
            var was, now := QueriesOf(file, connection), QueriesOf(next, connection);
            && Loadable(next)
            && (forall c | c in next.connections :: c.queries != [])
            && (forall c | c != connection :: QueriesOf(next, c) == QueriesOf(file, c))
            && (forall other :: Find(now, QueryName, other) == if other == name then None
                else Find(was, QueryName, other))
            && now == match IndexOf(was, QueryName, name)
                      case Some(i) => was[..i] + was[i + 1..]
                      case None => was
  {
    var was := QueriesOf(file, connection);
    QueriesAreUnique(file, connection);
    var keep := (q: SavedQuery) => q.name != name;
    var now := Retain(was, keep);
    RetainKeepsUnique(was, keep, QueryName);
    RetainAllBut(was, QueryName, keep, name);
    WithQueriesSpec(file, connection, now);
    PrunedQueries(WithQueries(file, connection, now));
    forall other ensures Find(now, QueryName, other) == if other == name then None else Find(was, QueryName, other) {
      FindAfterRetain(was, keep, QueryName, other);
    }
  }

  // -- runs ----------------------------------------------------------------------------------------

  /** Under which connection, by which name: the key of the plain map the file stands for. */
  datatype Place = Place(connection: string, name: string)

  function QueryAt(file: SavedQueriesFile, place: Place): Option<SavedQuery> {
    Find(QueriesOf(file, place.connection), QueryName, place.name)
  }

  ghost predicate Represents(file: SavedQueriesFile, queries: map<Place, SavedQuery>) {
    Loadable(file) && forall place :: QueryAt(file, place) == if place in queries then Some(queries[place]) else None
  }

  /** One call on the map, and what it answers. */
  function MapCall(queries: map<Place, SavedQuery>, saveFails: bool, call: QueryCall)
    : (map<Place, SavedQuery>, Result<bool, QueryError>)
  {
    if call.Remove? then
      var place := Place(call.connection, call.name);
      if place !in queries then (queries, Ok(false))
      else if saveFails then (queries, Err(IoFailed))
      else (queries - {place}, Ok(true))
    else
      var place := Place(call.connection, Trim(call.name));
      if Trim(call.name) == "" then (queries, Err(EmptyName))
      else if Trim(call.sql) == "" then (queries, Err(EmptySql))
      else if call.Add? && place in queries then (queries, Err(DuplicateName(call.connection, place.name)))
      else if saveFails then (queries, Err(IoFailed))
      else (queries[place := SavedQuery(place.name, Trim(call.sql), call.at)], Ok(true))
  }

  lemma WritingRefinesMapUpdate(file: SavedQueriesFile, queries: map<Place, SavedQuery>, connection: string,
                                query: SavedQuery)
    requires Represents(file, queries)
    ensures Represents(WithQuery(file, connection, query), queries[Place(connection, query.name) := query])
  {
    WritingPlacesTheQuery(file, connection, query);
    var next, queries' := WithQuery(file, connection, query), queries[Place(connection, query.name) := query];
    forall place ensures QueryAt(next, place) == if place in queries' then Some(queries'[place]) else None {
      assert QueryAt(file, place) == if place in queries then Some(queries[place]) else None;
    }
  }

  lemma RemovingRefinesMapRemoval(file: SavedQueriesFile, queries: map<Place, SavedQuery>, connection: string,
                                  name: string)
    requires Represents(file, queries)
    ensures Represents(WithoutQuery(file, connection, name), queries - {Place(connection, name)})
  {
    RemovingDropsOneQuery(file, connection, name);
    var next, queries' := WithoutQuery(file, connection, name), queries - {Place(connection, name)};
    forall place ensures QueryAt(next, place) == if place in queries' then Some(queries'[place]) else None {
      assert QueryAt(file, place) == if place in queries then Some(queries[place]) else None;
    }
  }

  /** The nested vectors behave as the map: same answers, same contents, whether or not the save fails. */
  lemma CallRefinesMap(
    w: World<SavedQueriesFile>, fails: Schedule, file: SavedQueriesFile, queries: map<Place, SavedQuery>,
        call: QueryCall)
    requires Represents(file, queries)
    ensures var o := Exec(w, fails, file, call);
            var (queries', result) := MapCall(queries, fails(SaveEffect, w.tick), call);
            Represents(o.file, queries') && o.result == result
                && (w.disk == Present(file) ==> o.world.disk == Present(o.file))
  {
    var name := if call.Remove? then call.name else Trim(call.name);
    assert QueryAt(file, Place(call.connection, name)) == Find(QueriesOf(file, call.connection), QueryName, name);
    if call.Remove? {
      RemovingRefinesMapRemoval(file, queries, call.connection, name);
    } else {
      WritingRefinesMapUpdate(file, queries, call.connection, SavedQuery(name, Trim(call.sql), call.at));
    }
  }

  function Run(w: World<SavedQueriesFile>, fails: Schedule, file: SavedQueriesFile, calls: seq<QueryCall>)
    : (World<SavedQueriesFile>, SavedQueriesFile, seq<Result<bool, QueryError>>)
    decreases |calls|
  {
    if calls == [] then (w, file, [])
    else
      var o := Exec(w, fails, file, calls[0]);
      var (w', file', results) := Run(o.world, fails, o.file, calls[1..]);
      (w', file', [o.result] + results)
  }

  /** The same calls on the map, told which of them have a failing save. */
  function MapRun(queries: map<Place, SavedQuery>, saveFails: seq<bool>, calls: seq<QueryCall>)
    : (map<Place, SavedQuery>, seq<Result<bool, QueryError>>)
    requires |saveFails| == |calls|
    decreases |calls|
  {
    if calls == [] then (queries, [])
    else
      var (queries', result) := MapCall(queries, saveFails[0], calls[0]);
      var (end, results) := MapRun(queries', saveFails[1..], calls[1..]);
      (end, [result] + results)
  }

  /** Which calls of a run find the save failing. */
  function SaveFaults(w: World<SavedQueriesFile>, fails: Schedule, file: SavedQueriesFile, calls: seq<QueryCall>)
      : (r: seq<bool>)
    ensures |r| == |calls|
    decreases |calls|
  {
    if calls == [] then []
    else
      var o := Exec(w, fails, file, calls[0]);
      [fails(SaveEffect, w.tick)] + SaveFaults(o.world, fails, o.file, calls[1..])
  }

  /** Over every run and every pattern of failing saves, the store answers and holds what the map does. */
  lemma {:induction false} RunRefinesMap(
    w: World<SavedQueriesFile>, fails: Schedule, file: SavedQueriesFile, queries: map<Place, SavedQuery>,
        calls: seq<QueryCall>)
    requires Represents(file, queries)
    ensures var (w', file', results) := Run(w, fails, file, calls);
            var (queries', results') := MapRun(queries, SaveFaults(w, fails, file, calls), calls);
            Represents(file', queries') && results == results'
                && (w.disk == Present(file) ==> w'.disk == Present(file'))
    decreases |calls|
  {
    if calls != [] {
      CallRefinesMap(w, fails, file, queries, calls[0]);
      var o := Exec(w, fails, file, calls[0]);
      var queries1 := MapCall(queries, fails(SaveEffect, w.tick), calls[0]).0;
      assert SaveFaults(w, fails, file, calls)[1..] == SaveFaults(o.world, fails, o.file, calls[1..]);
      RunRefinesMap(o.world, fails, o.file, queries1, calls[1..]);
    }
  }
}

/** The saved-query store as the class it is. */
module SavedQueryStore {
  import opened Wrappers
  import opened Text
  import opened KeyedVec
  import opened Machine
  import Q = SavedQueries

  class SavedQueryAdmin {
    const host: Host<Q.SavedQueriesFile>
    var file: Q.SavedQueriesFile

    constructor (host: Host<Q.SavedQueriesFile>, file: Q.SavedQueriesFile)
      ensures this.host == host && this.file == file
    {
      this.host, this.file := host, file;
    }

    method Add(connection: string, name: string, sql: string, at: int) returns (r: Result<bool, Q.QueryError>)
      modifies this, host
      ensures Q.QueryOutcome(host.W(), file, r)
              == Q.Exec(old(host.W()), host.fails, old(file), Q.Add(connection, name, sql, at))
    {
      var valid := Q.Validated(name, sql);
      if valid.Err? {
        return Err(valid.error);
      }
      if IndexOf(Q.QueriesOf(file, connection), Q.QueryName, valid.value.0).Some? {
        return Err(Q.DuplicateName(connection, valid.value.0));
      }
      r := WriteQuery(connection, Q.SavedQuery(valid.value.0, valid.value.1, at));
    }

    method Replace(connection: string, name: string, sql: string, at: int) returns (r: Result<bool, Q.QueryError>)
      modifies this, host
      ensures Q.QueryOutcome(host.W(), file, r)
              == Q.Exec(old(host.W()), host.fails, old(file), Q.Replace(connection, name, sql, at))
    {
      var valid := Q.Validated(name, sql);
      if valid.Err? {
        return Err(valid.error);
      }
      r := WriteQuery(connection, Q.SavedQuery(valid.value.0, valid.value.1, at));
    }

    method WriteQuery(connection: string, query: Q.SavedQuery) returns (r: Result<bool, Q.QueryError>)
      modifies this, host
      ensures var (w', saved) := Save(old(host.W()), host.fails, Q.WithQuery(old(file), connection, query));
              && host.W() == w' && r == (if saved then Ok(true) else Err(Q.IoFailed))
              && file == if saved then Q.WithQuery(old(file), connection, query) else old(file)
    {
      var conns := file.connections;
      if IndexOf(conns, Q.ConnectionId, connection).None? {
        conns := conns + [Q.ConnectionQueries(connection, [])];
        IndexOfIs(conns, Q.ConnectionId, connection, |conns| - 1);
      }
      var conn := IndexOf(conns, Q.ConnectionId, connection).value;
      var queries := conns[conn].queries;
      var at := IndexOf(queries, Q.QueryName, query.name);
      if at.Some? {
        queries := queries[at.value := query];
      } else {
        queries := queries + [query];
      }
      var next := file.(connections := conns[conn := conns[conn].(queries := queries)]);
      assert next == Q.WithQuery(file, connection, query);
      var saved := host.SaveFile(next);
      if saved {
        file := next;
      }
      r := if saved then Ok(true) else Err(Q.IoFailed);
    }

    method Remove(connection: string, name: string) returns (r: Result<bool, Q.QueryError>)
      modifies this, host
      ensures Q.QueryOutcome(host.W(), file, r)
              == Q.Exec(old(host.W()), host.fails, old(file), Q.Remove(connection, name))
    {
      var found := IndexOf(file.connections, Q.ConnectionId, connection);
      if found.None? {
        return Ok(false);
      }
      var entry := file.connections[found.value];
      var kept := Retain(entry.queries, (q: Q.SavedQuery) => q.name != name);
      RetainedAllIffAbsent(entry.queries, name);
      if |kept| == |entry.queries| {
        return Ok(false);
      }
      var next := file.(connections := file.connections[found.value := entry.(queries := kept)]);
      next := next.(connections := Retain(next.connections, Q.ConnectionInUse));
      assert next == Q.WithoutQuery(file, connection, name);
      var saved := host.SaveFile(next);
      if saved {
        file := next;
      }
      r := if saved then Ok(true) else Err(Q.IoFailed);
    }
  }

  /** Comparing lengths is a sound way to see whether the name was there. */
  lemma {:induction false} RetainedAllIffAbsent(queries: seq<Q.SavedQuery>, name: string)
    ensures var kept := Retain(queries, (q: Q.SavedQuery) => q.name != name);
            |kept| <= |queries| && (|kept| == |queries| <==> IndexOf(queries, Q.QueryName, name).None?)
  {
    if queries != [] {
      RetainedAllIffAbsent(queries[1..], name);
    }
  }
}
