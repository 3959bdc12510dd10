/**
  * `sdpremote/routes/scope.py`, `patch_scope`: a partial update of a
  * scope. Every key of the request either names an object to delete or
  * gives the storage id (or null) to upsert at that key; the scope row's
  * checksum is recomputed from the lines of the objects that remain.
  */
module ScopePatch {
  import opened Outcomes
  import opened Dicts
  import opened Checksum
  import opened Schema
  import opened Db
  import opened ObjectUtil
  import opened ScopeUtil
  import opened ScopeRoutes

  /** The value of one key in a patch: `"delete"`, or a storage id or null. */
  datatype Change = Delete | Put(data: Option<int>)

  /** A patch's `objects`, in request order. */
  type Changes = seq<(string, Change)>

  /** The upserts of a patch, in request order. */
  function Puts(items: Changes): Items
    decreases |items|
  {
    if items == [] then []
    else
      var last := items[|items| - 1];
      Puts(Init(items)) + (if last.1.Put? then [(last.0, last.1.data)] else [])
  }

  /** `to_delete`: the keys a patch deletes, in request order. */
  function DeletedKeys(items: Changes): seq<string>
    decreases |items|
  {
    if items == [] then []
    else
      var last := items[|items| - 1];
      DeletedKeys(Init(items)) + (if last.1.Delete? then [last.0] else [])
  }

  function Deletes(items: Changes): set<string>
  {
    set k | k in DeletedKeys(items)
  }

  /** The `checksums` dict after the items: it starts as the scope's status
      lines, a delete drops its key's line and an upsert writes the line of
      the checksum its claim returns. */
  function PatchLines(lines: map<string, string>, storage: map<int, StorageRow>, items: Changes): map<string, string>
    decreases |items|
  {
    if items == [] then lines
    else
      var last := items[|items| - 1];
      var before := PatchLines(lines, storage, Init(items));
      if last.1.Delete? then before - {last.0}
      else before[last.0 := StatusLine(last.0, ClaimedChecksum(storage, last.1.data))]
  }

  /** Why one item of the patch raises: a delete of a key the scope does
      not hold (404), or an upsert whose claim fails. */
  function ChangeError(storage: map<int, StorageRow>, rows: map<string, ObjectRow>, key: string, change: Change,
                       user: string): Option<Error>
  {
    if change.Delete? then (if key in rows then None else Some(NotFound))
    else DataError(storage, change.data, user)
  }

  function ChangeErrors(storage: map<int, StorageRow>, rows: map<string, ObjectRow>, items: Changes, user: string)
    : (es: seq<Option<Error>>)
    ensures |es| == |items|
  {
    seq(|items|, i requires 0 <= i < |items| => ChangeError(storage, rows, items[i].0, items[i].1, user))
  }

  /** The error `patch_scope` raises: 204 for an empty patch, before
      anything else; 404 when the guarded update matches no row; else that
      of the first failing item. */
  function PatchError(t: Tables, s: ScopeId, expected: Option<string>, items: Changes, user: string): (e: Option<Error>)
    requires t.scopes.Keys <= t.objects.Keys
    ensures items == [] ==> e == Some(NoChanges)
    ensures items != [] && GuardError(t, s, expected).Some? ==> e == Some(NotFound)
    ensures e.Some? ==> e.value in {NoChanges, NotFound, Forbidden}
  {
    if items == [] then Some(NoChanges)
    else if GuardError(t, s, expected).Some? then GuardError(t, s, expected)
    else
      var es := ChangeErrors(t.storage, t.objects[s], items, user);
      assert forall i :: 0 <= i < |items| ==> es[i].Some? ==> es[i].value in {NotFound, Forbidden};
      FirstFailure(es)
  }

  /** The scope row a patch leaves: all three columns null when no line is
      left, else the aggregate checksum with the request's creator and time. */
  function PatchedRow(sha256: HexDigest, lines: map<string, string>, extra: ObjectExtra): ScopeRow
  {
    if lines == map[] then EmptyScope
    else ScopeRow(Some(CalcChecksum(sha256, lines)), Some(extra.creator), Some(extra.timestamp))
  }

  /** The tables after a successful `patch_scope`: the upserts claim their
      blobs and write their rows, the deleted objects go with their meta
      rows, and the row carries the checksum of the collected lines. */
  function Patched(t: Tables, sha256: HexDigest, s: ScopeId, items: Changes, extra: ObjectExtra): Tables
    requires s in t.objects
  {
    t.(storage := ClaimAll(t.storage, Puts(items)),
       scopes := t.scopes[s := PatchedRow(sha256, PatchLines(ScopeLines(t.objects[s]), t.storage, items), extra)],
       objects := t.objects[s := Overlay(t.objects[s], t.storage, Puts(items), extra) - Deletes(items)],
       metas := MetasWithoutObjects(t.metas, s, Deletes(items)))
  }

  // ------------------------------------------------------------ lemmas

  /** Every key a patch upserts or deletes is one of its keys. */
  lemma {:induction false} ChangeKeys(items: Changes)
    ensures KeysOf(Puts(items)) <= KeysOf(items)
    ensures Deletes(items) <= KeysOf(items)
    decreases |items|
  {
    if items != [] {
      var last := items[|items| - 1];
      ChangeKeys(Init(items));
      KeysOfLast(items);
      if last.1.Put? {
        KeysOfLast(Puts(items));
        assert Init(Puts(items)) == Puts(Init(items));
      } else {
        assert Puts(items) == Puts(Init(items));
      }
      assert Deletes(items) <= Deletes(Init(items)) + {last.0};
    }
  }

  /** In a dict the last key is not among the others, which are distinct too. */
  lemma LastKeyFresh<V>(items: seq<(string, V)>)
    requires DistinctKeys(items) && |items| > 0
    ensures items[|items| - 1].0 !in KeysOf(Init(items))
    ensures DistinctKeys(Init(items))
  {
    forall j | 0 <= j < |Init(items)| ensures Init(items)[j].0 != items[|items| - 1].0 {
      assert Init(items)[j] == items[j];
    }
  }

  /** A key the patch does not mention keeps its line. */
  lemma {:induction false} PatchLinesUntouched(lines: map<string, string>, storage: map<int, StorageRow>, items: Changes,
                                               k: string)
    requires k !in KeysOf(items)
    ensures k in PatchLines(lines, storage, items) <==> k in lines
    ensures k in lines ==> PatchLines(lines, storage, items)[k] == lines[k]
    decreases |items|
  {
    if items != [] {
      KeysOfLast(items);
      PatchLinesUntouched(lines, storage, Init(items), k);
    }
  }

  lemma ScopeLinesWithout(rows: map<string, ObjectRow>, keys: set<string>)
    ensures ScopeLines(rows - keys) == ScopeLines(rows) - keys
  {
  }

  /** The collected lines are exactly the status lines of the objects the
      patch leaves in the scope, so the checksum written on the row is the
      aggregate checksum of its objects. */
  lemma {:induction false} PatchLinesCorrect(rows: map<string, ObjectRow>, storage: map<int, StorageRow>, items: Changes,
                                             extra: ObjectExtra)
    requires DistinctKeys(items)
    ensures ScopeLines(Overlay(rows, storage, Puts(items), extra) - Deletes(items))
         == PatchLines(ScopeLines(rows), storage, items)
    decreases |items|
  {
    if items != [] {
      var last := items[|items| - 1];
      var p := Init(items);
      LastKeyFresh(items);
      ChangeKeys(p);
      PatchLinesCorrect(rows, storage, p, extra);
      if last.1.Delete? {
        DeleteStep(rows, storage, items, extra);
      } else {
        PutStep(rows, storage, items, extra);
      }
    }
  }

  /** Removing one more key drops exactly that key's line. */
  lemma LinesWithoutOneMore(rows: map<string, ObjectRow>, keys: set<string>, k: string)
    ensures ScopeLines(rows - (keys + {k})) == ScopeLines(rows - keys) - {k}
  {
    assert rows - (keys + {k}) == (rows - keys) - {k};
    ScopeLinesWithout(rows - keys, {k});
  }

  /** Writing a key that is not removed commutes with the removal. */
  lemma LinesWithOneMore(rows: map<string, ObjectRow>, keys: set<string>, k: string, row: ObjectRow)
    requires k !in keys
    ensures ScopeLines(rows[k := row] - keys) == ScopeLines(rows - keys)[k := StatusLine(k, row.checksum)]
  {
    assert rows[k := row] - keys == (rows - keys)[k := row];
    ScopeLinesUpdate(rows - keys, k, row);
  }

  /** `PatchLinesCorrect` for a last item that deletes. */
  lemma DeleteStep(rows: map<string, ObjectRow>, storage: map<int, StorageRow>, items: Changes, extra: ObjectExtra)
    requires |items| > 0 && items[|items| - 1].1.Delete?
    requires ScopeLines(Overlay(rows, storage, Puts(Init(items)), extra) - Deletes(Init(items)))
          == PatchLines(ScopeLines(rows), storage, Init(items))
    ensures ScopeLines(Overlay(rows, storage, Puts(items), extra) - Deletes(items))
         == PatchLines(ScopeLines(rows), storage, items)
  {
    var k := items[|items| - 1].0;
    var p := Init(items);
    assert Puts(items) == Puts(p);
    assert Deletes(items) == Deletes(p) + {k} by {
      assert DeletedKeys(items) == DeletedKeys(p) + [k];
    }
    assert PatchLines(ScopeLines(rows), storage, items) == PatchLines(ScopeLines(rows), storage, p) - {k};
    LinesWithoutOneMore(Overlay(rows, storage, Puts(p), extra), Deletes(p), k);
  }

  /** `PatchLinesCorrect` for a last item that upserts a key no earlier
      item names. */
  lemma PutStep(rows: map<string, ObjectRow>, storage: map<int, StorageRow>, items: Changes, extra: ObjectExtra)
    requires |items| > 0 && items[|items| - 1].1.Put?
    requires items[|items| - 1].0 !in Deletes(Init(items))
    requires ScopeLines(Overlay(rows, storage, Puts(Init(items)), extra) - Deletes(Init(items)))
          == PatchLines(ScopeLines(rows), storage, Init(items))
    ensures ScopeLines(Overlay(rows, storage, Puts(items), extra) - Deletes(items))
         == PatchLines(ScopeLines(rows), storage, items)
  {
    var last := items[|items| - 1];
    var p := Init(items);
    var row := NewRow(storage, last.1.data, extra);
    assert Deletes(items) == Deletes(p) by {
      assert DeletedKeys(items) == DeletedKeys(p);
    }
    assert Overlay(rows, storage, Puts(items), extra) == Overlay(rows, storage, Puts(p), extra)[last.0 := row] by {
      assert Puts(items) == Puts(p) + [(last.0, last.1.data)];
      assert Init(Puts(items)) == Puts(p);
    }
    assert PatchLines(ScopeLines(rows), storage, items)
        == PatchLines(ScopeLines(rows), storage, p)[last.0 := StatusLine(last.0, row.checksum)];
    LinesWithOneMore(Overlay(rows, storage, Puts(p), extra), Deletes(p), last.0, row);
  }

  /** A patch keeps every scope summarised: the patched row summarises the
      objects the patch leaves, and no other scope changes. */
  lemma PatchedSummarised(t: Tables, sha256: HexDigest, s: ScopeId, items: Changes, extra: ObjectExtra)
    requires Summarised(t, sha256) && s in t.objects && DistinctKeys(items)
    ensures Summarised(Patched(t, sha256, s, items, extra), sha256)
  {
    var u := Patched(t, sha256, s, items, extra);
    PatchLinesCorrect(t.objects[s], t.storage, items, extra);
    assert u.objects[s] == map[] <==> ScopeLines(u.objects[s]) == map[];
    SummarisedElsewhere(t, u, sha256, s);
  }

  /** An upserted key holds the row its claim wrote. */
  lemma {:induction false} PutsEntry(rows: map<string, ObjectRow>, storage: map<int, StorageRow>, items: Changes,
                                     extra: ObjectExtra, i: int)
    requires DistinctKeys(items) && 0 <= i < |items| && items[i].1.Put?
    ensures items[i].0 in Overlay(rows, storage, Puts(items), extra)
            && Overlay(rows, storage, Puts(items), extra)[items[i].0] == NewRow(storage, items[i].1.data, extra)
    decreases |items|
  {
    var last := items[|items| - 1];
    var p := Init(items);
    ChangeKeys(p);
    if last.1.Put? {
      assert Init(Puts(items)) == Puts(p);
    } else {
      assert Puts(items) == Puts(p);
    }
    if i < |items| - 1 {
      LastKeyFresh(items);
      assert p[i] == items[i];
      assert items[i].0 != last.0;
      PutsEntry(rows, storage, p, extra, i);
    }
  }

  /** An upserted key is not deleted by the same patch. */
  lemma {:induction false} PutNotDeleted(items: Changes, i: int)
    requires DistinctKeys(items) && 0 <= i < |items| && items[i].1.Put?
    ensures items[i].0 !in Deletes(items)
    decreases |items|
  {
    var p := Init(items);
    var last := items[|items| - 1];
    LastKeyFresh(items);
    assert DeletedKeys(items) == DeletedKeys(p) + (if last.1.Delete? then [last.0] else []);
    if i == |items| - 1 {
      ChangeKeys(p);
      assert DeletedKeys(items) == DeletedKeys(p);
    } else {
      assert p[i] == items[i];
      assert items[i].0 != last.0;
      PutNotDeleted(p, i);
    }
  }

  /** What a patch leaves in the scope: the keys it held and the upserted
      keys, less the deleted ones. */
  lemma PatchedKeys(t: Tables, sha256: HexDigest, s: ScopeId, items: Changes, extra: ObjectExtra)
    requires s in t.objects
    ensures Patched(t, sha256, s, items, extra).objects[s].Keys
         == (t.objects[s].Keys + KeysOf(Puts(items))) - Deletes(items)
  {
  }

  /** Every upserted key holds the row its claim wrote. */
  lemma PatchedPuts(t: Tables, sha256: HexDigest, s: ScopeId, items: Changes, extra: ObjectExtra)
    requires s in t.objects && DistinctKeys(items)
    ensures forall i :: 0 <= i < |items| && items[i].1.Put? ==>
      items[i].0 in Patched(t, sha256, s, items, extra).objects[s]
      && Patched(t, sha256, s, items, extra).objects[s][items[i].0] == NewRow(t.storage, items[i].1.data, extra)
  {
    var rows := Patched(t, sha256, s, items, extra).objects[s];
    forall i | 0 <= i < |items| && items[i].1.Put?
      ensures items[i].0 in rows && rows[items[i].0] == NewRow(t.storage, items[i].1.data, extra)
    {
      PutsEntry(t.objects[s], t.storage, items, extra, i);
      PutNotDeleted(items, i);
    }
  }

  /** A key the patch does not name keeps its row. */
  lemma PatchedUntouched(t: Tables, sha256: HexDigest, s: ScopeId, items: Changes, extra: ObjectExtra)
    requires s in t.objects
    ensures forall k :: k in t.objects[s] && k !in KeysOf(items) ==>
      k in Patched(t, sha256, s, items, extra).objects[s]
      && Patched(t, sha256, s, items, extra).objects[s][k] == t.objects[s][k]
  {
    var rows := Patched(t, sha256, s, items, extra).objects[s];
    ChangeKeys(items);
    forall k | k in t.objects[s] && k !in KeysOf(items) ensures k in rows && rows[k] == t.objects[s][k] {
      OverlayUntouched(t.objects[s], t.storage, Puts(items), extra, k);
    }
  }

  /** Upserting leaves a key no item names as it was. */
  lemma {:induction false} OverlayUntouched(rows: map<string, ObjectRow>, storage: map<int, StorageRow>, items: Items,
                                            extra: ObjectExtra, k: string)
    requires k in rows && k !in KeysOf(items)
    ensures Overlay(rows, storage, items, extra)[k] == rows[k]
    decreases |items|
  {
    if items != [] {
      KeysOfLast(items);
      OverlayUntouched(rows, storage, Init(items), extra, k);
    }
  }

  /** The error cases of a patch: 204 exactly for an empty patch; an empty
      patch never touches the guard; a guarded patch fails exactly when some
      delete names a missing key or some upsert's claim fails. */
  lemma PatchErrorCases(t: Tables, s: ScopeId, expected: Option<string>, items: Changes, user: string)
    requires t.scopes.Keys <= t.objects.Keys
    ensures PatchError(t, s, expected, items, user) == Some(NoChanges) <==> items == []
    ensures items != [] && GuardError(t, s, expected).None? ==>
      (PatchError(t, s, expected, items, user).None? <==>
         forall i :: 0 <= i < |items| ==>
           if items[i].1.Delete? then items[i].0 in t.objects[s] else DataError(t.storage, items[i].1.data, user).None?)
  {
    if items != [] && GuardError(t, s, expected).None? {
      var es := ChangeErrors(t.storage, t.objects[s], items, user);
      assert forall i :: 0 <= i < |items| ==> es[i] == ChangeError(t.storage, t.objects[s], items[i].0, items[i].1, user);
      if FirstFailure(es).Some? {
        var i :| 0 <= i < |es| && FirstFailure(es) == es[i] && Passed(es, i);
        assert es[i] != Some(NoChanges) by {
          DataErrorNever(t.storage, items[i].1, user);
        }
      }
    }
  }

  lemma DataErrorNever(storage: map<int, StorageRow>, change: Change, user: string)
    ensures change.Put? ==> DataError(storage, change.data, user) != Some(NoChanges)
  {
  }

  // ----------------------------------------------------------- the route

  /** An update that writes only the scope row. */
  method WriteRow(conn: Database, s: ScopeId, row: ScopeRow)
    requires Referential(conn.State(), conn.sha256) && s in conn.scopes
    modifies conn
    ensures conn.State() == old(conn.State()).(scopes := old(conn.scopes)[s := row])
    ensures Referential(conn.State(), conn.sha256)
  {
    ScopeRowWriteKeepsReferential(conn.State(), conn.sha256, s, row);
    conn.scopes := conn.scopes[s := row];
  }

  /** The select of the scope's objects and the loop that keys each
      object's status line by its key. */
  method LoadLines(conn: Database, s: ScopeId) returns (lines: map<string, string>)
    requires s in conn.objects
    ensures lines == ScopeLines(conn.objects[s])
  {
    var rows := conn.objects[s];
    var todo := rows.Keys;
    lines := map[];
    while todo != {}
      invariant todo <= rows.Keys
      invariant lines.Keys == rows.Keys - todo
      invariant forall k :: k in lines ==> lines[k] == StatusLine(k, rows[k].checksum)
      decreases |todo|
    {
      var k :| k in todo;
      lines := lines[k := StatusLine(k, rows[k].checksum)];
      todo := todo - {k};
    }
  }

  /** One step of the item loop, unfolded. */
  lemma PatchStep(lines: map<string, string>, storage: map<int, StorageRow>, items: Changes, i: int)
    requires 0 <= i < |items|
    ensures items[i].1.Delete? ==>
      PatchLines(lines, storage, items[..i + 1]) == PatchLines(lines, storage, items[..i]) - {items[i].0}
      && DeletedKeys(items[..i + 1]) == DeletedKeys(items[..i]) + [items[i].0]
      && Puts(items[..i + 1]) == Puts(items[..i])
    ensures items[i].1.Put? ==>
      PatchLines(lines, storage, items[..i + 1])
        == PatchLines(lines, storage, items[..i])[items[i].0 := StatusLine(items[i].0, ClaimedChecksum(storage, items[i].1.data))]
      && DeletedKeys(items[..i + 1]) == DeletedKeys(items[..i])
      && Puts(items[..i + 1]) == Puts(items[..i]) + [(items[i].0, items[i].1.data)]
  {
    assert Init(items[..i + 1]) == items[..i];
    assert Puts(items[..i]) + [] == Puts(items[..i]);
    assert DeletedKeys(items[..i]) + [] == DeletedKeys(items[..i]);
  }

  /** Before the item at `i` is handled, its key is in `checksums` exactly
      when the scope held it. */
  lemma PatchKeyAt(lines: map<string, string>, storage: map<int, StorageRow>, items: Changes, i: int)
    requires DistinctKeys(items) && 0 <= i < |items|
    ensures items[i].0 in PatchLines(lines, storage, items[..i]) <==> items[i].0 in lines
  {
    assert items[..i + 1][..i] == items[..i];
    LastKeyFresh(items[..i + 1]);
    assert Init(items[..i + 1]) == items[..i];
    PatchLinesUntouched(lines, storage, items[..i], items[i].0);
  }

  /** One pass of the loop over the patch's items, for item `i`: a
      delete of a key `checksums` lacks raises 404, else drops the key's
      line; an upsert goes through `create_object` and records its line. */
  method ApplyChange(conn: Database, items: Changes, i: int, scope: string, repo: string, user: string,
                     extra: ObjectExtra, ghost snapshot: Tables, ghost lines: map<string, string>,
                     checksums: map<string, string>)
    returns (r: Result<map<string, string>>)
    requires Referential(conn.State(), conn.sha256)
    requires ScopeId(scope, repo) in conn.scopes && ScopeId(scope, repo) in snapshot.objects
    requires DistinctKeys(items) && 0 <= i < |items| && lines == ScopeLines(snapshot.objects[ScopeId(scope, repo)])
    requires checksums == PatchLines(lines, snapshot.storage, items[..i])
    requires conn.State() == Filled(snapshot, ScopeId(scope, repo), Puts(items[..i]), extra)
    modifies conn
    ensures Referential(conn.State(), conn.sha256)
    ensures r.Err? <==> ChangeError(snapshot.storage, snapshot.objects[ScopeId(scope, repo)], items[i].0, items[i].1, user).Some?
    ensures r.Err? ==>
      Some(r.error) == ChangeError(snapshot.storage, snapshot.objects[ScopeId(scope, repo)], items[i].0, items[i].1, user)
      && conn.State() == old(conn.State())
    ensures r.Ok? ==> r.value == PatchLines(lines, snapshot.storage, items[..i + 1])
                      && conn.State() == Filled(snapshot, ScopeId(scope, repo), Puts(items[..i + 1]), extra)
  {
    var s := ScopeId(scope, repo);
    var (key, change) := items[i];
    PatchStep(lines, snapshot.storage, items, i);
    if change.Delete? {
      PatchKeyAt(lines, snapshot.storage, items, i);
      if key !in checksums {
        return Err(NotFound);
      }
      return Ok(checksums - {key});
    }
    FilledAppend(snapshot, s, Puts(items[..i]), key, change.data, extra, user);
    var line := CreateObject(conn, ObjectPath(key, scope, repo), change.data, extra, user);
    if line.Err? {
      return Err(line.error);
    }
    return Ok(checksums[key := line.value]);
  }

  /** The loop over the patch's items: deletes are collected in
      `to_delete`, upserts go through `create_object`. The first failure
      aborts the transaction. */
  method ApplyChanges(conn: Database, items: Changes, scope: string, repo: string, user: string, extra: ObjectExtra,
                      lines: map<string, string>)
    returns (r: Result<(map<string, string>, seq<string>)>)
    requires Referential(conn.State(), conn.sha256)
    requires ScopeId(scope, repo) in conn.scopes && ScopeId(scope, repo) in conn.objects
    requires DistinctKeys(items) && lines == ScopeLines(conn.objects[ScopeId(scope, repo)])
    modifies conn
    ensures Referential(conn.State(), conn.sha256)
    ensures r.Err? <==> FirstFailure(ChangeErrors(old(conn.storage), old(conn.objects[ScopeId(scope, repo)]), items, user)).Some?
    ensures r.Err? ==>
      Some(r.error) == FirstFailure(ChangeErrors(old(conn.storage), old(conn.objects[ScopeId(scope, repo)]), items, user))
      && conn.State() == old(conn.State())
    ensures r.Ok? ==> r.value.0 == PatchLines(lines, old(conn.storage), items) && r.value.1 == DeletedKeys(items)
    ensures r.Ok? ==> conn.State() == Filled(old(conn.State()), ScopeId(scope, repo), Puts(items), extra)
  {
    var s := ScopeId(scope, repo);
    var snapshot := conn.State();
    ghost var es := ChangeErrors(snapshot.storage, snapshot.objects[s], items, user);
    var checksums := lines;
    var toDelete: seq<string> := [];
    FilledEmpty(snapshot, s, extra);
    for i := 0 to |items|
      invariant Referential(conn.State(), conn.sha256)
      invariant Passed(es, i)
      invariant checksums == PatchLines(lines, snapshot.storage, items[..i])
      invariant toDelete == DeletedKeys(items[..i])
      invariant conn.State() == Filled(snapshot, s, Puts(items[..i]), extra)
    {
      var next := ApplyChange(conn, items, i, scope, repo, user, extra, snapshot, lines, checksums);
      if next.Err? {
        FirstFailureAt(es, i);
        conn.Rollback(snapshot);
        return Err(next.error);
      }
      checksums := next.value;
      DeletedStep(items, i);
      if items[i].1.Delete? {
        toDelete := toDelete + [items[i].0];
      }
    }
    assert items[..|items|] == items;
    return Ok((checksums, toDelete));
  }

  lemma DeletedStep(items: Changes, i: int)
    requires 0 <= i < |items|
    ensures DeletedKeys(items[..i + 1])
         == if items[i].1.Delete? then DeletedKeys(items[..i]) + [items[i].0] else DeletedKeys(items[..i])
  {
    assert Init(items[..i + 1]) == items[..i];
    assert DeletedKeys(items[..i]) + [] == DeletedKeys(items[..i]);
  }

  /** The delete of the listed objects of one scope, with the cascade of
      their meta rows. */
  method DropObjects(conn: Database, s: ScopeId, keys: set<string>)
    requires Referential(conn.State(), conn.sha256) && s in conn.objects
    modifies conn
    ensures conn.State() == old(conn.State()).(objects := old(conn.objects)[s := old(conn.objects)[s] - keys],
                                               metas := MetasWithoutObjects(old(conn.metas), s, keys))
    ensures Referential(conn.State(), conn.sha256)
  {
    DeleteObjectsKeepsReferential(conn.State(), conn.sha256, s, keys);
    conn.objects := conn.objects[s := conn.objects[s] - keys];
    conn.metas := MetasWithoutObjects(conn.metas, s, keys);
  }

  /** The route's steps compose to `Patched`: reset the row, upsert, drop
      the deleted objects, write the row from the collected lines. */
  lemma PatchedInSteps(t: Tables, sha256: HexDigest, s: ScopeId, items: Changes, extra: ObjectExtra)
    requires s in t.scopes && s in t.objects
    ensures var f := Filled(t.(scopes := t.scopes[s := EmptyScope]), s, Puts(items), extra);
      var row := PatchedRow(sha256, PatchLines(ScopeLines(t.objects[s]), t.storage, items), extra);
      Patched(t, sha256, s, items, extra)
        == f.(scopes := f.scopes[s := row],
              objects := f.objects[s := f.objects[s] - Deletes(items)],
              metas := MetasWithoutObjects(f.metas, s, Deletes(items)))
  {
    var o := Overlay(t.objects[s], t.storage, Puts(items), extra);
    var row := PatchedRow(sha256, PatchLines(ScopeLines(t.objects[s]), t.storage, items), extra);
    OverwriteTwice(t.scopes, s, EmptyScope, row);
    OverwriteTwice(t.objects, s, o, o - Deletes(items));
  }

  /** Deleting no keys changes nothing. */
  lemma DropNothing(t: Tables, s: ScopeId, toDelete: seq<string>)
    requires s in t.objects && toDelete == []
    ensures t.(objects := t.objects[s := t.objects[s] - (set k | k in toDelete)],
               metas := MetasWithoutObjects(t.metas, s, set k | k in toDelete)) == t
  {
    var none := set k | k in toDelete;
    assert none == {};
    assert t.objects[s] - none == t.objects[s];
    assert t.objects[s := t.objects[s] - none] == t.objects;
    assert MetasWithoutObjects(t.metas, s, none) == t.metas;
  }

  /** The end of `patch_scope`: the delete of the collected keys, if any,
      then, if any line is left, the row update with the aggregate checksum,
      the creator and the time. The row was reset to nulls before. */
  method Conclude(conn: Database, s: ScopeId, checksums: map<string, string>, toDelete: seq<string>,
                  extra: ObjectExtra)
    returns (checksum: Option<string>)
    requires Referential(conn.State(), conn.sha256) && s in conn.scopes && s in conn.objects
    requires conn.scopes[s] == EmptyScope
    modifies conn
    ensures Referential(conn.State(), conn.sha256)
    ensures checksum == PatchedRow(conn.sha256, checksums, extra).checksum
    ensures conn.State()
         == old(conn.State()).(scopes := old(conn.scopes)[s := PatchedRow(conn.sha256, checksums, extra)],
                               objects := old(conn.objects)[s := old(conn.objects)[s] - (set k | k in toDelete)],
                               metas := MetasWithoutObjects(old(conn.metas), s, set k | k in toDelete))
  {
    if toDelete != [] {
      DropObjects(conn, s, set k | k in toDelete);
    } else {
      DropNothing(conn.State(), s, toDelete);
    }
    checksum := None;
    if checksums != map[] {
      checksum := Some(CalcChecksum(conn.sha256, checksums));
      WriteRow(conn, s, ScopeRow(checksum, Some(extra.creator), Some(extra.timestamp)));
    } else {
      assert conn.scopes[s := EmptyScope] == conn.scopes;
    }
  }

  /** `patch_scope`. The response carries the request's creator and time
      even when no object is left and the row holds nulls. */
  method PatchScope(conn: Database, items: Changes, expected: Option<string>, repo: string, scope: string,
                    username: string, suffix: string, now: Timestamp)
    returns (r: Result<ScopeView>)
    requires conn.Valid() && DistinctKeys(items)
    modifies conn
    ensures conn.Valid()
    ensures r.Err? <==> PatchError(old(conn.State()), ScopeId(scope, repo), expected, items, username).Some?
    ensures r.Err? ==>
      Some(r.error) == PatchError(old(conn.State()), ScopeId(scope, repo), expected, items, username)
      && conn.State() == old(conn.State())
    ensures r.Ok? ==> ScopeId(scope, repo) in old(conn.objects)
                      && conn.State() == Patched(old(conn.State()), conn.sha256, ScopeId(scope, repo), items,
                                                 Extra(username, suffix, now))
    ensures r.Ok? ==> r.value == ScopeView(scope, conn.scopes[ScopeId(scope, repo)].checksum,
                                           Some(UseSuffix(suffix, username)), Some(now))
  {
    var s := ScopeId(scope, repo);
    if items == [] {
      return Err(NoChanges);
    }
    var extra := Extra(username, suffix, now);
    if s !in conn.scopes || conn.scopes[s].checksum != expected {
      // the conditional update matched no row
      return Err(NotFound);
    }
    var t := conn.State();
    PatchedSummarised(t, conn.sha256, s, items, extra);
    PatchedInSteps(t, conn.sha256, s, items, extra);
    WriteRow(conn, s, EmptyScope);
    var lines := LoadLines(conn, s);
    var applied := ApplyChanges(conn, items, scope, repo, username, extra, lines);
    if applied.Err? {
      conn.Rollback(t);
      return Err(applied.error);
    }
    var (checksums, toDelete) := applied.value;
    assert Deletes(items) == set k | k in toDelete;
    var checksum := Conclude(conn, s, checksums, toDelete, extra);
    return Ok(ScopeView(scope, checksum, Some(extra.creator), Some(extra.timestamp)));
  }
}
