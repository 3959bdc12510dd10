/**
  * `sdpremote/utils/object.py`: the upsert of one object row, claiming the
  * blob it references first.
  */
module ObjectUtil {
  import opened Outcomes
  import opened Schema
  import opened Db
  import opened Checksum

  datatype ObjectPath = ObjectPath(key: string, scope: string, repo: string)

  /** Creator and timestamp written on every object of one request. */
  datatype ObjectExtra = ObjectExtra(creator: string, timestamp: Timestamp)

  function ScopeOfPath(path: ObjectPath): ScopeId
  {
    ScopeId(path.scope, path.repo)
  }

  /** Why the reference `data` cannot be claimed by `user`: NotFound for a
      missing storage row, Forbidden for another user's blob. A null
      reference claims nothing and cannot fail. */
  function DataError(storage: map<int, StorageRow>, data: Option<int>, user: string): (e: Option<Error>)
    ensures e.None? <==> data.None? || (data.value in storage && storage[data.value].owner == user)
    ensures e == Some(NotFound) <==> data.Some? && data.value !in storage
    ensures e == Some(Forbidden) <==> data.Some? && data.value in storage && storage[data.value].owner != user
  {
    if data.None? then None else ClaimError(storage, data.value, user)
  }

  /** The storage table after claiming `data`. */
  function ClaimData(storage: map<int, StorageRow>, data: Option<int>): map<int, StorageRow>
  {
    if data.None? then storage else Claim(storage, data.value)
  }

  /** The checksum the claim returns: the blob's, or null without a blob. */
  function ClaimedChecksum(storage: map<int, StorageRow>, data: Option<int>): Option<string>
  {
    if data.Some? && data.value in storage then storage[data.value].checksum else None
  }

  /** The row written at the object's path. */
  function NewRow(storage: map<int, StorageRow>, data: Option<int>, extra: ObjectExtra): ObjectRow
  {
    ObjectRow(ClaimedChecksum(storage, data), extra.creator, extra.timestamp, data)
  }

  /** A null reference touches no storage row and gives a null checksum. */
  lemma NullDataClaimsNothing(storage: map<int, StorageRow>, user: string, extra: ObjectExtra)
    ensures DataError(storage, None, user).None?
    ensures ClaimData(storage, None) == storage
    ensures NewRow(storage, None, extra).checksum.None?
    ensures NewRow(storage, None, extra).data.None?
  {
  }

  /** A successful claim clears exactly that blob's expiry and nothing
      else, and claiming again is harmless: same outcome, same table. */
  lemma ReclaimIdempotent(storage: map<int, StorageRow>, data: Option<int>, user: string)
    ensures DataError(ClaimData(storage, data), data, user) == DataError(storage, data, user)
    ensures ClaimData(ClaimData(storage, data), data) == ClaimData(storage, data)
    ensures ClaimedChecksum(ClaimData(storage, data), data) == ClaimedChecksum(storage, data)
    ensures forall j :: j in storage && Some(j) != data ==> ClaimData(storage, data)[j] == storage[j]
  {
    if data.Some? {
      ClaimKeepsErrors(storage, data.value, data.value, user);
      ClaimIdempotent(storage, data.value);
    }
  }

  /** A claim keeps every other claim's outcome and returned checksum. */
  lemma ClaimDataKeeps(storage: map<int, StorageRow>, data: Option<int>, other: Option<int>, user: string)
    ensures DataError(ClaimData(storage, data), other, user) == DataError(storage, other, user)
    ensures ClaimedChecksum(ClaimData(storage, data), other) == ClaimedChecksum(storage, other)
    ensures ClaimData(storage, data).Keys == storage.Keys
  {
    if data.Some? && other.Some? {
      ClaimKeepsErrors(storage, data.value, other.value, user);
    }
  }

  /** The upserted row obeys the object row rule in the claimed table. */
  lemma NewRowOk(storage: map<int, StorageRow>, data: Option<int>, extra: ObjectExtra, user: string)
    requires DataError(storage, data, user).None?
    ensures ObjectOk(ClaimData(storage, data), NewRow(storage, data, extra))
  {
  }

  /** Claiming then upserting keeps every foreign key and claim rule. */
  lemma UpsertKeepsReferential(t: Tables, sha256: HexDigest, path: ObjectPath, data: Option<int>,
                               extra: ObjectExtra, user: string)
    requires Referential(t, sha256) && ScopeOfPath(path) in t.scopes
    requires DataError(t.storage, data, user).None?
    ensures Referential(Upserted(t, path, data, extra), sha256)
  {
    var s := ScopeOfPath(path);
    var u := Upserted(t, path, data, extra);
    var st := u.storage;
    assert forall j :: j in t.storage ==>
      st[j].checksum == t.storage[j].checksum && (t.storage[j].expireAt.None? ==> st[j].expireAt.None?);
    forall x ensures ScopeRefOk(u, x) {
      assert ScopeRefOk(t, x);
    }
    forall x, k ensures ObjectRefOk(u, x, k) {
      if x == s && k == path.key {
        NewRowOk(t.storage, data, extra, user);
      } else {
        assert ObjectRefOk(t, x, k);
      }
    }
    forall id ensures IdIssued(u, id) {
      assert IdIssued(t, id);
    }
    forall p ensures MetaRefOk(u, sha256, p) {
      assert MetaRefOk(t, sha256, p);
    }
  }

  /** The tables after a successful `create_object`. */
  function Upserted(t: Tables, path: ObjectPath, data: Option<int>, extra: ObjectExtra): Tables
    requires ScopeOfPath(path) in t.objects
  {
    t.(storage := ClaimData(t.storage, data),
       objects := t.objects[ScopeOfPath(path) := t.objects[ScopeOfPath(path)][path.key := NewRow(t.storage, data, extra)]])
  }

  /** `create_object`: claim the referenced blob, then insert or overwrite
      the row at the path, and return the object's status line. A failure
      aborts the enclosing transaction, so the tables are as before. */
  method CreateObject(conn: Database, path: ObjectPath, data: Option<int>, extra: ObjectExtra, user: string)
    returns (r: Result<string>)
    requires Referential(conn.State(), conn.sha256)
    requires ScopeOfPath(path) in conn.scopes
    modifies conn
    ensures Referential(conn.State(), conn.sha256)
    ensures r.Err? <==> DataError(old(conn.storage), data, user).Some?
    ensures r.Err? ==> Some(r.error) == DataError(old(conn.storage), data, user) && conn.State() == old(conn.State())
    ensures r.Ok? ==> r.value == StatusLine(path.key, ClaimedChecksum(old(conn.storage), data))
    ensures r.Ok? ==> conn.State() == Upserted(old(conn.State()), path, data, extra)
  {
    var snapshot := conn.State();
    var checksum: Option<string> := None;
    if data.Some? {
      if data.value !in conn.storage {
        return Err(NotFound);
      }
      var row := conn.storage[data.value];
      conn.storage := conn.storage[data.value := row.(expireAt := None)];
      checksum := row.checksum;
      if row.owner != user {
        conn.Rollback(snapshot);
        return Err(Forbidden);
      }
    }
    var s := ScopeOfPath(path);
    conn.objects := conn.objects[s := conn.objects[s][path.key := ObjectRow(checksum, extra.creator, extra.timestamp, data)]];
    UpsertKeepsReferential(snapshot, conn.sha256, path, data, extra, user);
    r := Ok(StatusLine(path.key, checksum));
  }
}
