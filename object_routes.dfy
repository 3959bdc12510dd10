/**
  * `sdpremote/routes/object.py`: the read side of objects. Listing filters
  * one scope's objects by key; fetching an object's data answers 404 for
  * a missing object, 204 when it has no data and otherwise a redirect to
  * its blob, named by the decimal text of the storage id.
  */
module ObjectRoutes {
  import opened Outcomes
  import opened Text
  import opened Checksum
  import opened Schema
  import opened ScopeRoutes

  /** The `Object` entity. */
  datatype ObjectView = ObjectView(key: string, checksum: Option<string>, creator: string, timestamp: Timestamp)

  function ObjectViewOf(key: string, row: ObjectRow): ObjectView
  {
    ObjectView(key, row.checksum, row.creator, row.timestamp)
  }

  /** `list_objects`: the objects of scope (`scope`, `repo`) whose key passes
      the filter, with the same key filter as `list_scopes`. */
  function ListObjects(t: Tables, repo: string, scope: string, key: Option<string>, isPrefix: bool)
    : (vs: set<ObjectView>)
    ensures forall v :: v in vs ==>
      ScopeId(scope, repo) in t.objects && v.key in t.objects[ScopeId(scope, repo)]
      && Matches(v.key, key, isPrefix)
      && v == ObjectViewOf(v.key, t.objects[ScopeId(scope, repo)][v.key])
  {
    var s := ScopeId(scope, repo);
    if s !in t.objects then {}
    else set k | k in t.objects[s] && Matches(k, key, isPrefix) :: ObjectViewOf(k, t.objects[s][k])
  }

  /** Every object of the scope whose key passes the filter is listed. */
  lemma ListObjectsComplete(t: Tables, repo: string, scope: string, key: Option<string>, isPrefix: bool, k: string)
    requires ScopeId(scope, repo) in t.objects && k in t.objects[ScopeId(scope, repo)]
    requires Matches(k, key, isPrefix)
    ensures ObjectViewOf(k, t.objects[ScopeId(scope, repo)][k]) in ListObjects(t, repo, scope, key, isPrefix)
  {
    var rows := t.objects[ScopeId(scope, repo)];
    assert k in rows && Matches(k, key, isPrefix);
  }

  /** Without a key filter the whole scope is listed, one view per object. */
  lemma ListObjectsUnfiltered(t: Tables, repo: string, scope: string, key: Option<string>, isPrefix: bool)
    requires key.None? || key == Some("")
    requires ScopeId(scope, repo) in t.objects
    ensures ListObjects(t, repo, scope, key, isPrefix) ==
      set k | k in t.objects[ScopeId(scope, repo)] :: ObjectViewOf(k, t.objects[ScopeId(scope, repo)][k])
  {
    var rows := t.objects[ScopeId(scope, repo)];
    forall k | k in rows ensures ObjectViewOf(k, rows[k]) in ListObjects(t, repo, scope, key, isPrefix) {
      ListObjectsComplete(t, repo, scope, key, isPrefix, k);
    }
  }

  /** An exact key lists just that object if it exists and nothing
      otherwise; a prefix lists a superset of that. */
  lemma ListObjectsExact(t: Tables, repo: string, scope: string, k: string)
    requires k != "" && ScopeId(scope, repo) in t.objects
    ensures ListObjects(t, repo, scope, Some(k), false) <= ListObjects(t, repo, scope, Some(k), true)
    ensures k in t.objects[ScopeId(scope, repo)] ==>
      ListObjects(t, repo, scope, Some(k), false) == {ObjectViewOf(k, t.objects[ScopeId(scope, repo)][k])}
    ensures k !in t.objects[ScopeId(scope, repo)] ==> ListObjects(t, repo, scope, Some(k), false) == {}
  {
    forall v | v in ListObjects(t, repo, scope, Some(k), false)
      ensures v in ListObjects(t, repo, scope, Some(k), true)
    {
      assert v.key == k;
      assert StartsWith(k, k);
      ListObjectsComplete(t, repo, scope, Some(k), true, k);
    }
    if k in t.objects[ScopeId(scope, repo)] {
      ListObjectsComplete(t, repo, scope, Some(k), false, k);
    }
  }

  /** What `get_data` answers when the object exists. */
  datatype DataReply = NoContent | Redirect(blob: string)

  /** `get_data`: 404 without the object, 204 for a falsy storage id, else a
      redirect to the blob `str(sid)`. */
  function GetData(t: Tables, repo: string, scope: string, key: string): (r: Result<DataReply>)
    ensures r.Err? <==> ScopeId(scope, repo) !in t.objects || key !in t.objects[ScopeId(scope, repo)]
    ensures r.Err? ==> r.error == NotFound
    ensures r.Ok? ==> (r.value.NoContent? <==>
      t.objects[ScopeId(scope, repo)][key].data.None? || t.objects[ScopeId(scope, repo)][key].data == Some(0))
  {
    var s := ScopeId(scope, repo);
    if s !in t.objects || key !in t.objects[s] then Err(NotFound)
    else
      var data := t.objects[s][key].data;
      if data.None? || data.value == 0 then Ok(NoContent)
      else Ok(Redirect(IntToString(data.value)))
  }

  /** In a consistent database a redirect names the blob the object
      references: its name parses back to a storage id whose row is claimed
      and carries the object's checksum. */
  lemma GetDataRedirectsToBlob(t: Tables, sha256: HexDigest, repo: string, scope: string, key: string)
    requires Referential(t, sha256)
    requires GetData(t, repo, scope, key).Ok? && GetData(t, repo, scope, key).value.Redirect?
    ensures ParseInt(GetData(t, repo, scope, key).value.blob) in t.storage
    ensures t.storage[ParseInt(GetData(t, repo, scope, key).value.blob)].expireAt.None?
    ensures t.storage[ParseInt(GetData(t, repo, scope, key).value.blob)].checksum
            == t.objects[ScopeId(scope, repo)][key].checksum
  {
    var s := ScopeId(scope, repo);
    assert ObjectRefOk(t, s, key);
    ParseIntToString(t.objects[s][key].data.value);
  }
}
