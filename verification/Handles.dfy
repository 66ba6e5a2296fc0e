/** Handles: the ids and aliases an agent may call a connection by, and what an import does to them. */
module Handles {
  import opened Wrappers
  import opened Store
  import opened Import
  import opened ImportFacts
  import opened ImportSafety

  /** No handle is answered to by both: ids and aliases of two entries never meet. */
  predicate Apart(a: ConnectionEntry, b: ConnectionEntry) {
    a.id != b.id && a.mcpAlias != Some(b.id) && b.mcpAlias != Some(a.id)
        && (a.mcpAlias.Some? ==> a.mcpAlias != b.mcpAlias)
  }

  ghost predicate Unambiguous(entries: seq<ConnectionEntry>) {
    forall i, j | 0 <= i < j < |entries| :: Apart(entries[i], entries[j])
  }

  lemma UnambiguousAfterRemoval(entries: seq<ConnectionEntry>, i: nat)
    requires i < |entries| && Unambiguous(entries)
    ensures Unambiguous(RemoveAt(entries, i))
    ensures forall e | e in RemoveAt(entries, i) :: Apart(e, entries[i])
  {
    var rest := RemoveAt(entries, i);
    forall j | 0 <= j < |rest|
      ensures rest[j] == entries[if j < i then j else j + 1]
    {
    }
  }

  lemma UnambiguousAfterInsertion(entries: seq<ConnectionEntry>, i: nat, e: ConnectionEntry)
    requires i <= |entries| && Unambiguous(entries) && forall x | x in entries :: Apart(x, e)
    ensures Unambiguous(InsertAt(entries, i, e))
  {
    var longer := InsertAt(entries, i, e);
    forall j, k | 0 <= j < k < |longer|
      ensures Apart(longer[j], longer[k])
    {
      var j', k' := if j < i then j else j - 1, if k < i then k else k - 1;
      assert j != i ==> longer[j] == entries[j'];
      assert k != i ==> longer[k] == entries[k'];
      if j != i && k != i {
        assert Apart(entries[j'], entries[k']);
      } else if j == i {
        assert Apart(entries[k'], e);
      }
    }
  }

  /** Over distinct ids, positions do not matter. */
  lemma UnambiguousIffMembersApart(entries: seq<ConnectionEntry>)
    requires UniqueIds(entries)
    ensures Unambiguous(entries) <==> forall a, b | a in entries && b in entries && a.id != b.id :: Apart(a, b)
  {
    if Unambiguous(entries) {
      forall a, b | a in entries && b in entries && a.id != b.id
        ensures Apart(a, b)
      {
        var i, j :| 0 <= i < |entries| && 0 <= j < |entries| && entries[i] == a && entries[j] == b;
        assert Apart(entries[if i < j then i else j], entries[if i < j then j else i]);
      }
    } else {
      var i, j :| 0 <= i < j < |entries| && !Apart(entries[i], entries[j]);
      assert entries[i] in entries && entries[j] in entries && entries[i].id != entries[j].id;
    }
  }

  lemma UnambiguousMeansUnique(entries: seq<ConnectionEntry>)
    requires Unambiguous(entries)
    ensures UniqueIds(entries)
  {
    forall i, j | 0 <= i < j < |entries|
      ensures entries[i].id != entries[j].id
    {
      assert Apart(entries[i], entries[j]);
    }
  }

  // -- importing ---------------------------------------------------------------------------

  /** The accepted entries are apart from each other and from every stored entry that is not replaced. */
  ghost predicate HandlesFit(entries: seq<ConnectionEntry>, p: Plan) {
    && (forall c, d | c in p.changes && d in p.changes && c.entry.id != d.entry.id :: Apart(c.entry, d.entry))
    && (forall c, e | c in p.changes && e in entries && e.id !in ChangeIds(p.changes) :: Apart(c.entry, e))
  }

  /**
   The import does not look at aliases. From an unambiguous file it saves an
   unambiguous one if and only if the accepted entries fit.
   */
  lemma MergeIsUnambiguousIffHandlesFit(file: ConnectionFile, payload: BundlePayload, mode: ImportMode)
    requires Unambiguous(file.connections)
    ensures Unambiguous(MergedFile(file, payload, mode).connections)
            <==> HandlesFit(file.connections, PlanFor(file, payload, mode))
  {
    var entries, p := file.connections, PlanFor(file, payload, mode);
    var merged := MergedFile(file, payload, mode).connections;
    UnambiguousMeansUnique(entries);
    PlanAllInv(entries, mode, payload.secrets, payload.connections.connections);
    MergedMembers(entries, p.changes);
    UnambiguousIffMembersApart(entries);
    UnambiguousIffMembersApart(merged);
    if HandlesFit(entries, p) {
      forall a, b | a in merged && b in merged && a.id != b.id
        ensures Apart(a, b)
      {
        MembersApart(entries, p, a, b);
      }
    } else {
      ClashIsMerged(entries, p, merged);
    }
  }

  lemma MembersApart(entries: seq<ConnectionEntry>, p: Plan, a: ConnectionEntry, b: ConnectionEntry)
    requires HandlesFit(entries, p) && a.id != b.id
    requires forall x, y | x in entries && y in entries && x.id != y.id :: Apart(x, y)
    requires (exists c | c in p.changes :: c.entry == a) || (a in entries && a.id !in ChangeIds(p.changes))
    requires (exists c | c in p.changes :: c.entry == b) || (b in entries && b.id !in ChangeIds(p.changes))
    ensures Apart(a, b)
  {
    if c :| c in p.changes && c.entry == a {
      if d :| d in p.changes && d.entry == b {
        assert Apart(c.entry, d.entry);
      } else {
        assert Apart(c.entry, b);
      }
    } else if d :| d in p.changes && d.entry == b {
      assert Apart(d.entry, a);
    }
  }

  lemma ClashIsMerged(entries: seq<ConnectionEntry>, p: Plan, merged: seq<ConnectionEntry>)
    requires !HandlesFit(entries, p)
    requires forall c | c in p.changes :: c.entry in merged
    requires forall e | e in entries && e.id !in ChangeIds(p.changes) :: e in merged
    ensures exists a, b | a in merged && b in merged && a.id != b.id :: !Apart(a, b)
  {
    if c, d :| c in p.changes && d in p.changes && c.entry.id != d.entry.id && !Apart(c.entry, d.entry) {
      assert c.entry in merged && d.entry in merged;
    } else {
      var c, e :| c in p.changes && e in entries && e.id !in ChangeIds(p.changes) && !Apart(c.entry, e);
      assert c.entry.id in ChangeIds(p.changes);
      assert c.entry in merged && e in merged && c.entry.id != e.id;
    }
  }

  const STORED: ConnectionEntry := ConnectionEntry("x", "", Turso(""), false, None, None, None, None)
  const NAMESAKE: ConnectionEntry := STORED.(id := "y", mcpAlias := Some("x"))

  /** A bundle whose one entry takes the id of a stored connection for its alias. */
  const AMBIGUOUS: BundlePayload := BundlePayload(BUNDLE_VERSION, EMPTY_FILE.(connections := [NAMESAKE]), map[])

  /** It does not fit, so importing it in either mode makes the handle `x` name two connections. */
  lemma ImportedAliasCanClash(mode: ImportMode)
    ensures var file := EMPTY_FILE.(connections := [STORED]);
            Unambiguous(file.connections) && !Unambiguous(MergedFile(file, AMBIGUOUS, mode).connections)
  {
    var file := EMPTY_FILE.(connections := [STORED]);
    var p0 := PlanAll([STORED], mode, map[], []);
    var p := PlanFor(file, AMBIGUOUS, mode);
    assert [NAMESAKE][..0] == [] && p == PlanOne([STORED], mode, map[], p0, NAMESAKE);
    assert EntryRefs(NAMESAKE) == [] && FindIndex([STORED], "y").None?;
    var c := Change(None, NAMESAKE);
    assert p.changes == [c];
    MergeIsUnambiguousIffHandlesFit(file, AMBIGUOUS, mode);
    assert c in p.changes && STORED in file.connections && STORED.id !in ChangeIds(p.changes)
        && !Apart(c.entry, STORED);
  }
}
