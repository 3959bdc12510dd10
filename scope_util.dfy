/**
  * `sdpremote/utils/scope.py`: `set_scope` upserts every requested object,
  * collects their status lines and writes the aggregate checksum onto the
  * scope row.
  */
module ScopeUtil {
  import opened Outcomes
  import opened Dicts
  import opened Checksum
  import opened Schema
  import opened Db
  import opened ObjectUtil

  /** A request's `objects`: key to storage id or null, in request order. */
  type Items = seq<(string, Option<int>)>

  function Init<T>(s: seq<T>): seq<T>
    requires |s| > 0
  {
    s[..|s| - 1]
  }

  /** The storage table after claiming every referenced blob in order. */
  function ClaimAll(storage: map<int, StorageRow>, items: Items): (r: map<int, StorageRow>)
    ensures r.Keys == storage.Keys
    decreases |items|
  {
    if items == [] then storage
    else
      var st := ClaimAll(storage, Init(items));
      ClaimDataKeeps(st, items[|items| - 1].1, None, "");
      ClaimData(st, items[|items| - 1].1)
  }

  /** The status lines `set_scope` collects: every requested key with the
      line of the checksum its claim returns. */
  function ItemLines(storage: map<int, StorageRow>, items: Items): (lines: map<string, string>)
    ensures lines.Keys == KeysOf(items)
    decreases |items|
  {
    if items == [] then map[]
    else
      var last := items[|items| - 1];
      KeysOfLast(items);
      ItemLines(storage, Init(items))[last.0 := StatusLine(last.0, ClaimedChecksum(storage, last.1))]
  }

  /** The scope's object rows after upserting every item in order. */
  function Overlay(rows: map<string, ObjectRow>, storage: map<int, StorageRow>, items: Items, extra: ObjectExtra)
    : (r: map<string, ObjectRow>)
    ensures r.Keys == rows.Keys + KeysOf(items)
    decreases |items|
  {
    if items == [] then rows
    else
      var last := items[|items| - 1];
      KeysOfLast(items);
      Overlay(rows, storage, Init(items), extra)[last.0 := NewRow(storage, last.1, extra)]
  }

  /** The claim outcome of every item, in request order. */
  function ClaimErrors(storage: map<int, StorageRow>, items: Items, user: string): (es: seq<Option<Error>>)
    ensures |es| == |items|
  {
    seq(|items|, i requires 0 <= i < |items| => DataError(storage, items[i].1, user))
  }

  /** The error `set_scope` raises: that of the first item whose claim fails. */
  function FirstError(storage: map<int, StorageRow>, items: Items, user: string): (e: Option<Error>)
    ensures e.None? <==> forall i :: 0 <= i < |items| ==> DataError(storage, items[i].1, user).None?
    ensures e.Some? ==> e.value in {NotFound, Forbidden}
    ensures e.Some? ==> exists i :: 0 <= i < |items| && e == DataError(storage, items[i].1, user)
                                    && forall j :: 0 <= j < i ==> DataError(storage, items[j].1, user).None?
  {
    var es := ClaimErrors(storage, items, user);
    assert forall i :: 0 <= i < |items| ==> es[i] == DataError(storage, items[i].1, user);
    FirstFailure(es)
  }

  /** Claims made along the way change neither a later claim's outcome nor
      the checksum it returns. */
  lemma {:induction false} ClaimAllKeeps(storage: map<int, StorageRow>, items: Items, data: Option<int>, user: string)
    ensures DataError(ClaimAll(storage, items), data, user) == DataError(storage, data, user)
    ensures ClaimedChecksum(ClaimAll(storage, items), data) == ClaimedChecksum(storage, data)
    decreases |items|
  {
    if items != [] {
      ClaimAllKeeps(storage, Init(items), data, user);
      ClaimDataKeeps(ClaimAll(storage, Init(items)), items[|items| - 1].1, data, user);
    }
  }

  /** Upserting the items changes the scope's status lines exactly by the
      items' own lines: old lines, overwritten or extended by the new ones. */
  lemma {:induction false} LinesOfOverlay(rows: map<string, ObjectRow>, storage: map<int, StorageRow>, items: Items,
                                          extra: ObjectExtra)
    ensures ScopeLines(Overlay(rows, storage, items, extra)) == ScopeLines(rows) + ItemLines(storage, items)
    decreases |items|
  {
    if items != [] {
      var last := items[|items| - 1];
      var before := Overlay(rows, storage, Init(items), extra);
      LinesOfOverlay(rows, storage, Init(items), extra);
      ScopeLinesUpdate(before, last.0, NewRow(storage, last.1, extra));
      var line := StatusLine(last.0, ClaimedChecksum(storage, last.1));
      UnionUpdate(ScopeLines(rows), ItemLines(storage, Init(items)), last.0, line);
    }
  }

  lemma UnionUpdate(a: map<string, string>, b: map<string, string>, k: string, v: string)
    ensures (a + b)[k := v] == a + b[k := v]
  {
  }

  /** With distinct keys (a dict), every requested key carries its own
      item's status line. */
  lemma {:induction false} ItemLinesEntry(storage: map<int, StorageRow>, items: Items, i: int)
    requires DistinctKeys(items) && 0 <= i < |items|
    ensures ItemLines(storage, items)[items[i].0] == StatusLine(items[i].0, ClaimedChecksum(storage, items[i].1))
    decreases |items|
  {
    if i < |items| - 1 {
      assert Init(items)[i] == items[i];
      ItemLinesEntry(storage, Init(items), i);
    }
  }

  /** With distinct keys (a dict), every requested key holds the row its
      own item wrote. */
  lemma {:induction false} OverlayEntry(rows: map<string, ObjectRow>, storage: map<int, StorageRow>, items: Items,
                                        extra: ObjectExtra, i: int)
    requires DistinctKeys(items) && 0 <= i < |items|
    ensures Overlay(rows, storage, items, extra)[items[i].0] == NewRow(storage, items[i].1, extra)
    decreases |items|
  {
    if i < |items| - 1 {
      assert Init(items)[i] == items[i];
      OverlayEntry(rows, storage, Init(items), extra, i);
    }
  }

  /** The tables after upserting every item into scope `s`. */
  function Filled(t: Tables, s: ScopeId, items: Items, extra: ObjectExtra): Tables
    requires s in t.objects
  {
    t.(storage := ClaimAll(t.storage, items),
       objects := t.objects[s := Overlay(t.objects[s], t.storage, items, extra)])
  }

  /** Upserting nothing changes nothing. */
  lemma FilledEmpty(t: Tables, s: ScopeId, extra: ObjectExtra)
    requires s in t.objects
    ensures Filled(t, s, [], extra) == t
  {
    assert t.objects[s := t.objects[s]] == t.objects;
  }

  /** One more `create_object` appends its item to the filled items. */
  lemma FilledAppend(t: Tables, s: ScopeId, items: Items, key: string, data: Option<int>, extra: ObjectExtra, user: string)
    requires s in t.objects
    ensures Upserted(Filled(t, s, items, extra), ObjectPath(key, s.name, s.repo), data, extra)
         == Filled(t, s, items + [(key, data)], extra)
    ensures DataError(Filled(t, s, items, extra).storage, data, user) == DataError(t.storage, data, user)
    ensures ClaimedChecksum(Filled(t, s, items, extra).storage, data) == ClaimedChecksum(t.storage, data)
  {
    assert Init(items + [(key, data)]) == items;
    ClaimAllKeeps(t.storage, items, data, user);
  }

  /** One more `create_object` extends the filled prefix by one item. */
  lemma FilledStep(t: Tables, s: ScopeId, items: Items, i: int, extra: ObjectExtra, user: string)
    requires s in t.objects && 0 <= i < |items|
    ensures ScopeOfPath(ObjectPath(items[i].0, s.name, s.repo)) == s
    ensures Upserted(Filled(t, s, items[..i], extra), ObjectPath(items[i].0, s.name, s.repo), items[i].1, extra)
         == Filled(t, s, items[..i + 1], extra)
    ensures ItemLines(t.storage, items[..i + 1])
         == ItemLines(t.storage, items[..i])[items[i].0 := StatusLine(items[i].0, ClaimedChecksum(t.storage, items[i].1))]
    ensures DataError(Filled(t, s, items[..i], extra).storage, items[i].1, user) == DataError(t.storage, items[i].1, user)
    ensures ClaimedChecksum(Filled(t, s, items[..i], extra).storage, items[i].1) == ClaimedChecksum(t.storage, items[i].1)
  {
    assert Init(items[..i + 1]) == items[..i];
    ClaimAllKeeps(t.storage, items[..i], items[i].1, user);
  }

  /** The scope row after `set_scope`: its checksum column is overwritten
      with the aggregate checksum of the items' lines, unless there are no
      items. */
  function SummaryRow(row: ScopeRow, sha256: HexDigest, storage: map<int, StorageRow>, items: Items): ScopeRow
  {
    if items == [] then row else row.(checksum := Some(CalcChecksum(sha256, ItemLines(storage, items))))
  }

  /** The tables after a successful `set_scope`. */
  function SetScopeResult(t: Tables, sha256: HexDigest, s: ScopeId, items: Items, extra: ObjectExtra): Tables
    requires s in t.scopes && s in t.objects
  {
    t.(storage := ClaimAll(t.storage, items),
       scopes := t.scopes[s := SummaryRow(t.scopes[s], sha256, t.storage, items)],
       objects := t.objects[s := Overlay(t.objects[s], t.storage, items, extra)])
  }

  /** When the scope was empty, `set_scope` leaves it summarised: its lines
      are exactly the items' lines, so the checksum it writes is the
      aggregate checksum of the scope's objects. */
  lemma SetScopeSummarises(sha256: HexDigest, storage: map<int, StorageRow>, items: Items, extra: ObjectExtra,
                           creator: string, timestamp: Timestamp)
    requires items != []
    ensures Summarises(sha256, SummaryRow(ScopeRow(None, Some(creator), Some(timestamp)), sha256, storage, items),
                       Overlay(map[], storage, items, extra))
  {
    LinesOfOverlay(map[], storage, items, extra);
    assert ScopeLines(map[]) + ItemLines(storage, items) == ItemLines(storage, items);
    KeysOfEmpty(items);
  }

  /** The dict comprehension of `set_scope`: `create_object` for every item
      in request order, collecting each key's status line. The first failure
      aborts the enclosing transaction. */
  method UpsertObjects(conn: Database, items: Items, repo: string, scope: string, user: string, extra: ObjectExtra)
    returns (r: Result<map<string, string>>)
    requires Referential(conn.State(), conn.sha256)
    requires ScopeId(scope, repo) in conn.scopes
    modifies conn
    ensures Referential(conn.State(), conn.sha256)
    ensures r.Err? <==> FirstError(old(conn.storage), items, user).Some?
    ensures r.Err? ==> Some(r.error) == FirstError(old(conn.storage), items, user) && conn.State() == old(conn.State())
    ensures r.Ok? ==> r.value == ItemLines(old(conn.storage), items)
    ensures r.Ok? ==> conn.State() == Filled(old(conn.State()), ScopeId(scope, repo), items, extra)
  {
    var s := ScopeId(scope, repo);
    var snapshot := conn.State();
    var checksums: map<string, string> := map[];
    for i := 0 to |items|
      invariant Referential(conn.State(), conn.sha256)
      invariant Passed(ClaimErrors(snapshot.storage, items, user), i)
      invariant checksums == ItemLines(snapshot.storage, items[..i])
      invariant conn.State() == Filled(snapshot, s, items[..i], extra)
    {
      var (key, data) := items[i];
      FilledStep(snapshot, s, items, i, extra, user);
      var line := CreateObject(conn, ObjectPath(key, scope, repo), data, extra, user);
      if line.Err? {
        FirstFailureAt(ClaimErrors(snapshot.storage, items, user), i);
        conn.Rollback(snapshot);
        return Err(line.error);
      }
      checksums := checksums[key := line.value];
    }
    assert items[..|items|] == items;
    return Ok(checksums);
  }

  /** `set_scope`: upsert every item, then, if there was any, store the
      aggregate checksum of the collected lines; only the checksum column of
      the scope row is written. It returns nothing. */
  method SetScope(conn: Database, items: Items, repo: string, scope: string, user: string, extra: ObjectExtra)
    returns (r: Outcome)
    requires Referential(conn.State(), conn.sha256)
    requires ScopeId(scope, repo) in conn.scopes
    modifies conn
    ensures Referential(conn.State(), conn.sha256)
    ensures r.Fail? <==> FirstError(old(conn.storage), items, user).Some?
    ensures r.Fail? ==> Some(r.error) == FirstError(old(conn.storage), items, user) && conn.State() == old(conn.State())
    ensures r.Pass? ==> conn.State() == SetScopeResult(old(conn.State()), conn.sha256, ScopeId(scope, repo), items, extra)
  {
    var s := ScopeId(scope, repo);
    ghost var t := conn.State();
    var checksums := UpsertObjects(conn, items, repo, scope, user, extra);
    if checksums.Err? {
      return Fail(checksums.error);
    }
    KeysOfEmpty(items);
    if checksums.value != map[] {
      var row := conn.scopes[s].(checksum := Some(CalcChecksum(conn.sha256, checksums.value)));
      ScopeRowWriteKeepsReferential(conn.State(), conn.sha256, s, row);
      conn.scopes := conn.scopes[s := row];
    } else {
      assert conn.scopes[s := conn.scopes[s]] == conn.scopes;
    }
    return Pass;
  }
}
