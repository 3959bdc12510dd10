/**
  * `sdpremote/routes/scope.py`: the creator suffix, the listing filter and
  * the create, replace and delete routes of a scope. Each route is one
  * transaction: it either raises with the tables as they were or commits.
  * The patch route is in `ScopePatch`.
  */
module ScopeRoutes {
  import opened Outcomes
  import opened Text
  import opened Dicts
  import opened Checksum
  import opened Schema
  import opened Db
  import opened ObjectUtil
  import opened ScopeUtil

  // ------------------------------------------------------------- creator

  /** `_ScopeBase.use_suffix`: the creator recorded on a scope's objects. It
      is the bare user name exactly when the suffix is blank, and otherwise
      the user name, `@` and the trimmed suffix. */
  function UseSuffix(suffix: string, username: string): (creator: string)
    ensures creator == username <==> AllSpace(suffix)
    ensures !AllSpace(suffix) ==>
      |creator| > |username| + 1
      && creator[..|username|] == username
      && creator[|username|] == '@'
      && creator[|username| + 1..] == Strip(suffix)
      && !IsSpace(creator[|username| + 1])
  {
    StripProperties(suffix);
    if Strip(suffix) != "" then
      var r := username + "@" + Strip(suffix);
      assert r[|username| + 1..] == Strip(suffix);
      r
    else username
  }

  /** The extra columns a create or replace writes on its objects. */
  function Extra(username: string, suffix: string, now: Timestamp): ObjectExtra
  {
    ObjectExtra(UseSuffix(suffix, username), now)
  }

  // ------------------------------------------------------------- listing

  /** The name filter of `list_scopes`: none when the filter is absent or
      empty, a prefix test by default, equality otherwise. */
  predicate Matches(name: string, filter: Option<string>, isPrefix: bool)
    ensures filter.None? || filter == Some("") || filter == Some(name) ==> Matches(name, filter, isPrefix)
    ensures Matches(name, filter, isPrefix) && filter.Some? ==> StartsWith(name, filter.value)
    ensures !isPrefix && filter.Some? && filter.value != "" ==> (Matches(name, filter, isPrefix) <==> name == filter.value)
  {
    if filter.None? || filter.value == "" then true
    else if isPrefix then StartsWith(name, filter.value)
    else name == filter.value
  }

  /** The `Scope` entity answered for one scope row. */
  function View(name: string, row: ScopeRow): ScopeView
  {
    ScopeView(name, row.checksum, row.creator, row.timestamp)
  }

  /** `list_scopes`: the scopes of one repository that pass the filter. */
  function ListScopes(t: Tables, repo: string, filter: Option<string>, isPrefix: bool): (vs: set<ScopeView>)
    ensures forall v :: v in vs ==> ScopeId(v.name, repo) in t.scopes && Matches(v.name, filter, isPrefix)
                                    && v == View(v.name, t.scopes[ScopeId(v.name, repo)])
  {
    set s | s in t.scopes && s.repo == repo && Matches(s.name, filter, isPrefix) :: View(s.name, t.scopes[s])
  }

  /** Every scope of the repository that passes the filter is listed, with
      its own row. */
  lemma ListScopesComplete(t: Tables, repo: string, filter: Option<string>, isPrefix: bool, name: string)
    requires ScopeId(name, repo) in t.scopes && Matches(name, filter, isPrefix)
    ensures View(name, t.scopes[ScopeId(name, repo)]) in ListScopes(t, repo, filter, isPrefix)
  {
    var s := ScopeId(name, repo);
    assert s in t.scopes && s.repo == repo && Matches(s.name, filter, isPrefix);
  }

  /** Without a filter every scope of the repository is listed. */
  lemma ListScopesUnfiltered(t: Tables, repo: string, isPrefix: bool, filter: Option<string>, name: string)
    requires filter.None? || filter == Some("")
    ensures ScopeId(name, repo) in t.scopes <==>
      View(name, if ScopeId(name, repo) in t.scopes then t.scopes[ScopeId(name, repo)] else EmptyScope)
        in ListScopes(t, repo, filter, isPrefix)
  {
    if ScopeId(name, repo) in t.scopes {
      ListScopesComplete(t, repo, filter, isPrefix, name);
    }
  }

  /** An exact filter lists at most the one scope of that name, and what it
      lists is also listed by the prefix filter. */
  lemma ListScopesExact(t: Tables, repo: string, name: string)
    requires name != ""
    ensures ListScopes(t, repo, Some(name), false) <= ListScopes(t, repo, Some(name), true)
    ensures ScopeId(name, repo) in t.scopes ==>
      ListScopes(t, repo, Some(name), false) == {View(name, t.scopes[ScopeId(name, repo)])}
    ensures ScopeId(name, repo) !in t.scopes ==> ListScopes(t, repo, Some(name), false) == {}
  {
    forall v | v in ListScopes(t, repo, Some(name), false) ensures v in ListScopes(t, repo, Some(name), true) {
      assert v.name == name;
      assert StartsWith(name, name);
      ListScopesComplete(t, repo, Some(name), true, name);
    }
    if ScopeId(name, repo) in t.scopes {
      ListScopesComplete(t, repo, Some(name), false, name);
    }
  }

  // -------------------------------------------------------------- create

  /** The row a create or replace writes before the upserts: creator and
      timestamp only when the request carries objects, and no checksum. */
  function Stamp(items: Items, extra: ObjectExtra): ScopeRow
  {
    if items == [] then EmptyScope else ScopeRow(None, Some(extra.creator), Some(extra.timestamp))
  }

  /** Why `create_scope` fails: the insert violates the primary key (the
      scope exists) or the foreign key (the repository does not) and is
      reported as 409, or an upsert fails. */
  function CreateError(t: Tables, s: ScopeId, items: Items, user: string): (e: Option<Error>)
    ensures e == Some(Conflict) <==> s in t.scopes || s.repo !in t.repos
    ensures e.Some? ==> e.value in {Conflict, NotFound, Forbidden}
    ensures e.None? <==> s !in t.scopes && s.repo in t.repos
                         && forall i :: 0 <= i < |items| ==> DataError(t.storage, items[i].1, user).None?
  {
    if s in t.scopes || s.repo !in t.repos then Some(Conflict) else FirstError(t.storage, items, user)
  }

  /** The tables with a new scope row and no objects in it. */
  function Opened(t: Tables, s: ScopeId, row: ScopeRow): Tables
  {
    t.(scopes := t.scopes[s := row], objects := t.objects[s := map[]])
  }

  /** The tables after a successful `create_scope`: the new scope holds
      the upserted items and its row is stamped and summarised. */
  function Created(t: Tables, sha256: HexDigest, s: ScopeId, items: Items, extra: ObjectExtra): Tables
  {
    t.(storage := ClaimAll(t.storage, items),
       scopes := t.scopes[s := SummaryRow(Stamp(items, extra), sha256, t.storage, items)],
       objects := t.objects[s := Overlay(map[], t.storage, items, extra)])
  }

  /** The insert followed by `set_scope` gives `Created`. */
  lemma CreatedBySetScope(t: Tables, sha256: HexDigest, s: ScopeId, items: Items, extra: ObjectExtra)
    ensures SetScopeResult(Opened(t, s, Stamp(items, extra)), sha256, s, items, extra) == Created(t, sha256, s, items, extra)
  {
    OverwriteTwice(t.scopes, s, Stamp(items, extra), SummaryRow(Stamp(items, extra), sha256, t.storage, items));
    OverwriteTwice(t.objects, s, map[], Overlay(map[], t.storage, items, extra));
  }

  lemma OpenedKeepsReferential(t: Tables, sha256: HexDigest, s: ScopeId, row: ScopeRow)
    requires Referential(t, sha256) && s !in t.scopes && s.repo in t.repos
    ensures Referential(Opened(t, s, row), sha256)
  {
    var u := Opened(t, s, row);
    forall x ensures ScopeRefOk(u, x) {
      assert ScopeRefOk(t, x);
    }
    forall x, k ensures ObjectRefOk(u, x, k) {
      assert ObjectRefOk(t, x, k);
    }
    forall id ensures IdIssued(u, id) {
      assert IdIssued(t, id);
    }
    forall p ensures MetaRefOk(u, sha256, p) {
      assert MetaRefOk(t, sha256, p);
    }
  }

  /** The row stamped by a create or replace summarises the objects that
      `set_scope` then writes into the emptied scope. */
  lemma StampSummarises(sha256: HexDigest, storage: map<int, StorageRow>, items: Items, extra: ObjectExtra)
    ensures Summarises(sha256, SummaryRow(Stamp(items, extra), sha256, storage, items), Overlay(map[], storage, items, extra))
  {
    if items != [] {
      SetScopeSummarises(sha256, storage, items, extra, extra.creator, extra.timestamp);
    }
  }

  /** The objects written into an emptied scope are exactly the requested
      ones, each with its own row. */
  lemma OverlayExactly(storage: map<int, StorageRow>, items: Items, extra: ObjectExtra)
    requires DistinctKeys(items)
    ensures Overlay(map[], storage, items, extra).Keys == KeysOf(items)
    ensures forall i :: 0 <= i < |items| ==> Overlay(map[], storage, items, extra)[items[i].0] == NewRow(storage, items[i].1, extra)
  {
    forall i | 0 <= i < |items| ensures Overlay(map[], storage, items, extra)[items[i].0] == NewRow(storage, items[i].1, extra) {
      OverlayEntry(map[], storage, items, extra, i);
    }
  }

  /** The new scope's row summarises its objects, an empty request
      leaves the row all null, and no other scope changes. */
  lemma CreatedSummarised(t: Tables, sha256: HexDigest, s: ScopeId, items: Items, extra: ObjectExtra)
    requires Summarised(t, sha256) && s !in t.scopes
    ensures Summarised(Created(t, sha256, s, items, extra), sha256)
    ensures items == [] ==> Created(t, sha256, s, items, extra).scopes[s] == EmptyScope
  {
    StampSummarises(sha256, t.storage, items, extra);
    SummarisedElsewhere(t, Created(t, sha256, s, items, extra), sha256, s);
  }

  /** The new scope holds exactly the requested objects, each with its own
      row; every other scope keeps its row and its objects. */
  lemma CreatedObjects(t: Tables, sha256: HexDigest, s: ScopeId, items: Items, extra: ObjectExtra)
    requires DistinctKeys(items)
    ensures Created(t, sha256, s, items, extra).objects[s].Keys == KeysOf(items)
    ensures forall i :: 0 <= i < |items| ==>
      Created(t, sha256, s, items, extra).objects[s][items[i].0] == NewRow(t.storage, items[i].1, extra)
    ensures forall x :: x != s && x in t.scopes ==>
      Created(t, sha256, s, items, extra).scopes[x] == t.scopes[x]
      && (x in t.objects ==> Created(t, sha256, s, items, extra).objects[x] == t.objects[x])
  {
    OverlayExactly(t.storage, items, extra);
  }

  /** The insert of the new scope's row, which holds no objects yet. */
  method OpenScope(conn: Database, s: ScopeId, row: ScopeRow)
    requires Referential(conn.State(), conn.sha256) && s !in conn.scopes && s.repo in conn.repos
    modifies conn
    ensures conn.State() == Opened(old(conn.State()), s, row)
    ensures Referential(conn.State(), conn.sha256)
  {
    OpenedKeepsReferential(conn.State(), conn.sha256, s, row);
    conn.scopes := conn.scopes[s := row];
    conn.objects := conn.objects[s := map[]];
  }

  /** `create_scope`. The response reports the value `set_scope` returns,
      which is nothing, so its checksum is always null. */
  method CreateScope(conn: Database, items: Items, repo: string, scope: string, username: string, suffix: string,
                     now: Timestamp)
    returns (r: Result<ScopeView>)
    requires conn.Valid()
    modifies conn
    ensures conn.Valid()
    ensures r.Err? <==> CreateError(old(conn.State()), ScopeId(scope, repo), items, username).Some?
    ensures r.Err? ==>
      Some(r.error) == CreateError(old(conn.State()), ScopeId(scope, repo), items, username)
      && conn.State() == old(conn.State())
    ensures r.Ok? ==> r.value == View(scope, Stamp(items, Extra(username, suffix, now)))
    ensures r.Ok? ==> conn.State() == Created(old(conn.State()), conn.sha256, ScopeId(scope, repo), items,
                                                Extra(username, suffix, now))
  {
    var s := ScopeId(scope, repo);
    var extra := Extra(username, suffix, now);
    var row := Stamp(items, extra);
    if s in conn.scopes || repo !in conn.repos {
      // the insert breaks the primary or the foreign key: 409
      return Err(Conflict);
    }
    var t := conn.State();
    OpenScope(conn, s, row);
    CreatedSummarised(t, conn.sha256, s, items, extra);
    CreatedBySetScope(t, conn.sha256, s, items, extra);
    if items != [] {
      var done := SetScope(conn, items, repo, scope, username, extra);
      if done.Fail? {
        conn.Rollback(t);
        return Err(done.error);
      }
    } else {
      assert ClaimErrors(t.storage, items, username) == [];
    }
    return Ok(View(scope, row));
  }

  // ------------------------------------------------------------- replace

  /** The conditional update of replace, patch and delete matches only the
      scope whose stored checksum equals the given one (null matching null),
      and reports 404 otherwise. */
  function GuardError(t: Tables, s: ScopeId, expected: Option<string>): (e: Option<Error>)
    ensures e.None? <==> s in t.scopes && t.scopes[s].checksum == expected
    ensures e.Some? ==> e == Some(NotFound)
  {
    if s !in t.scopes || t.scopes[s].checksum != expected then Some(NotFound) else None
  }

  function ReplaceError(t: Tables, s: ScopeId, expected: Option<string>, items: Items, user: string): (e: Option<Error>)
    ensures GuardError(t, s, expected).Some? ==> e == Some(NotFound)
    ensures e.Some? ==> e.value in {NotFound, Forbidden}
    ensures e.None? <==> s in t.scopes && t.scopes[s].checksum == expected
                         && forall i :: 0 <= i < |items| ==> DataError(t.storage, items[i].1, user).None?
  {
    if GuardError(t, s, expected).Some? then GuardError(t, s, expected) else FirstError(t.storage, items, user)
  }

  /** In a committed state a null expected checksum matches exactly the
      scopes that hold no objects: an empty scope has a null checksum and a
      non-empty one the hash of its lines. */
  lemma GuardWithNullMatchesEmpty(t: Tables, sha256: HexDigest, s: ScopeId)
    requires WellFormed(t, sha256) && s in t.scopes
    ensures s in t.objects && (GuardError(t, s, None).None? <==> t.objects[s] == map[])
  {
    assert ScopesOk(t);
    assert SummarisedAt(t, sha256, s);
  }

  /** The tables after the conditional update and the delete of all the
      scope's objects (with the meta rows that cascade from them). */
  function Cleared(t: Tables, s: ScopeId, row: ScopeRow): Tables
    requires s in t.objects
  {
    t.(scopes := t.scopes[s := row],
       objects := t.objects[s := map[]],
       metas := MetasWithoutObjects(t.metas, s, t.objects[s].Keys))
  }

  /** The tables after a successful `replace_scope`: the scope's old
      objects and their meta rows are gone, the new items are upserted and
      the row is stamped and summarised. */
  function Replaced(t: Tables, sha256: HexDigest, s: ScopeId, items: Items, extra: ObjectExtra): Tables
    requires s in t.objects
  {
    t.(storage := ClaimAll(t.storage, items),
       scopes := t.scopes[s := SummaryRow(Stamp(items, extra), sha256, t.storage, items)],
       objects := t.objects[s := Overlay(map[], t.storage, items, extra)],
       metas := MetasWithoutObjects(t.metas, s, t.objects[s].Keys))
  }

  /** The conditional update and the delete followed by `set_scope` give
      `Replaced`. */
  lemma ReplacedBySetScope(t: Tables, sha256: HexDigest, s: ScopeId, items: Items, extra: ObjectExtra)
    requires s in t.objects
    ensures SetScopeResult(Cleared(t, s, Stamp(items, extra)), sha256, s, items, extra) == Replaced(t, sha256, s, items, extra)
  {
    OverwriteTwice(t.scopes, s, Stamp(items, extra), SummaryRow(Stamp(items, extra), sha256, t.storage, items));
    OverwriteTwice(t.objects, s, map[], Overlay(map[], t.storage, items, extra));
  }

  lemma ClearedKeepsReferential(t: Tables, sha256: HexDigest, s: ScopeId, row: ScopeRow)
    requires Referential(t, sha256) && s in t.scopes
    ensures Referential(Cleared(t, s, row), sha256)
  {
    var keys := t.objects[s].Keys;
    DeleteObjectsKeepsReferential(t, sha256, s, keys);
    var u := t.(objects := t.objects[s := t.objects[s] - keys], metas := MetasWithoutObjects(t.metas, s, keys));
    assert t.objects[s] - keys == map[];
    ScopeRowWriteKeepsReferential(u, sha256, s, row);
  }

  /** After a replace the scope's row summarises its new objects, with
      all three columns null when there are none. */
  lemma ReplacedSummarised(t: Tables, sha256: HexDigest, s: ScopeId, items: Items, extra: ObjectExtra)
    requires Summarised(t, sha256) && s in t.objects
    ensures Summarised(Replaced(t, sha256, s, items, extra), sha256)
    ensures items == [] ==> Replaced(t, sha256, s, items, extra).scopes[s] == EmptyScope
  {
    StampSummarises(sha256, t.storage, items, extra);
    SummarisedElsewhere(t, Replaced(t, sha256, s, items, extra), sha256, s);
  }

  /** After a replace the scope holds exactly the requested objects, each
      with its own row, whatever it held before; every other scope keeps its
      row and its objects. */
  lemma ReplacedObjects(t: Tables, sha256: HexDigest, s: ScopeId, items: Items, extra: ObjectExtra)
    requires s in t.objects && DistinctKeys(items)
    ensures Replaced(t, sha256, s, items, extra).objects[s].Keys == KeysOf(items)
    ensures forall i :: 0 <= i < |items| ==>
      Replaced(t, sha256, s, items, extra).objects[s][items[i].0] == NewRow(t.storage, items[i].1, extra)
    ensures forall x :: x != s && x in t.scopes ==>
      Replaced(t, sha256, s, items, extra).scopes[x] == t.scopes[x]
      && (x in t.objects ==> Replaced(t, sha256, s, items, extra).objects[x] == t.objects[x])
  {
    OverlayExactly(t.storage, items, extra);
  }

  /** The guarded update that stamps the row, then the delete of all the
      scope's objects (their meta rows go by cascade). */
  method ClearScope(conn: Database, s: ScopeId, row: ScopeRow)
    requires Referential(conn.State(), conn.sha256) && s in conn.scopes
    modifies conn
    ensures conn.State() == Cleared(old(conn.State()), s, row)
    ensures Referential(conn.State(), conn.sha256)
  {
    ClearedKeepsReferential(conn.State(), conn.sha256, s, row);
    conn.scopes := conn.scopes[s := row];
    conn.metas := MetasWithoutObjects(conn.metas, s, conn.objects[s].Keys);
    conn.objects := conn.objects[s := map[]];
  }

  /** `replace_scope`. Like create, it reports a null checksum. */
  method ReplaceScope(conn: Database, items: Items, expected: Option<string>, repo: string, scope: string,
                      username: string, suffix: string, now: Timestamp)
    returns (r: Result<ScopeView>)
    requires conn.Valid()
    modifies conn
    ensures conn.Valid()
    ensures r.Err? <==> ReplaceError(old(conn.State()), ScopeId(scope, repo), expected, items, username).Some?
    ensures r.Err? ==>
      Some(r.error) == ReplaceError(old(conn.State()), ScopeId(scope, repo), expected, items, username)
      && conn.State() == old(conn.State())
    ensures r.Ok? ==> r.value == View(scope, Stamp(items, Extra(username, suffix, now)))
    ensures r.Ok? ==> ScopeId(scope, repo) in old(conn.objects)
                      && conn.State() == Replaced(old(conn.State()), conn.sha256, ScopeId(scope, repo), items,
                                                  Extra(username, suffix, now))
  {
    var s := ScopeId(scope, repo);
    var extra := Extra(username, suffix, now);
    var row := Stamp(items, extra);
    if s !in conn.scopes || conn.scopes[s].checksum != expected {
      // the conditional update matched no row
      return Err(NotFound);
    }
    var t := conn.State();
    ClearScope(conn, s, row);
    ReplacedSummarised(t, conn.sha256, s, items, extra);
    ReplacedBySetScope(t, conn.sha256, s, items, extra);
    if items != [] {
      var done := SetScope(conn, items, repo, scope, username, extra);
      if done.Fail? {
        conn.Rollback(t);
        return Err(done.error);
      }
    } else {
      assert ClaimErrors(t.storage, items, username) == [];
    }
    return Ok(View(scope, row));
  }

  // -------------------------------------------------------------- delete

  /** The tables after `delete_scope`: the row goes, and its objects and
      meta rows go with it by cascade. Storage rows are left alone. */
  function ScopeDeleted(t: Tables, s: ScopeId): Tables
  {
    t.(scopes := t.scopes - {s}, objects := t.objects - {s}, metas := MetasWithoutScope(t.metas, s))
  }

  /** Deleting a scope keeps the invariant, removes exactly that scope and
      keeps every other scope's row and objects and every blob. */
  lemma ScopeDeletedWellFormed(t: Tables, sha256: HexDigest, s: ScopeId)
    requires WellFormed(t, sha256)
    ensures WellFormed(ScopeDeleted(t, s), sha256)
    ensures ScopeDeleted(t, s).scopes.Keys == t.scopes.Keys - {s}
    ensures forall x :: x in t.scopes && x != s ==>
      ScopeDeleted(t, s).scopes[x] == t.scopes[x] && ScopeDeleted(t, s).objects[x] == t.objects[x]
    ensures ScopeDeleted(t, s).storage == t.storage
  {
    var u := ScopeDeleted(t, s);
    forall x ensures ScopeRefOk(u, x) {
      assert ScopeRefOk(t, x);
    }
    forall x, k ensures ObjectRefOk(u, x, k) {
      assert ObjectRefOk(t, x, k);
    }
    forall id ensures IdIssued(u, id) {
      assert IdIssued(t, id);
    }
    forall p ensures MetaRefOk(u, sha256, p) {
      assert MetaRefOk(t, sha256, p);
    }
    SummarisedElsewhere(t, u, sha256, s);
  }

  /** `delete_scope`: the checksum-guarded delete; it answers `deleted`. */
  method DeleteScope(conn: Database, expected: Option<string>, repo: string, scope: string) returns (r: Outcome)
    requires conn.Valid()
    modifies conn
    ensures conn.Valid()
    ensures r.Fail? <==> GuardError(old(conn.State()), ScopeId(scope, repo), expected).Some?
    ensures r.Fail? ==> r.error == NotFound && conn.State() == old(conn.State())
    ensures r.Pass? ==> conn.State() == ScopeDeleted(old(conn.State()), ScopeId(scope, repo))
  {
    var s := ScopeId(scope, repo);
    if s !in conn.scopes || conn.scopes[s].checksum != expected {
      return Fail(NotFound);
    }
    ScopeDeletedWellFormed(conn.State(), conn.sha256, s);
    conn.scopes := conn.scopes - {s};
    conn.objects := conn.objects - {s};
    conn.metas := MetasWithoutScope(conn.metas, s);
    return Pass;
  }
}
