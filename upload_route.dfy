/**
  * `sdpremote/routes/upload.py`: an upload inserts a pending `storage` row
  * owned by the caller, streams the file into the bucket under the new id,
  * records the file's SHA-256 on the row and answers with the id. The row
  * stays pending until an object or meta row claims it.
  */
module UploadRoute {
  import opened Outcomes
  import opened Dicts
  import opened Text
  import opened Checksum
  import opened Schema
  import opened Db
  import opened Storage

  /** The row an upload leaves: owned by the uploader, carrying the file's
      hash, pending for the column default of six hours. */
  function PendingRow(owner: string, checksum: string, now: Timestamp): (row: StorageRow)
    ensures row.owner == owner && row.checksum == Some(checksum)
    ensures row.expireAt == Some(now + PendingLifetime)
  {
    StorageRow(owner, Some(checksum), Some(now + PendingLifetime))
  }

  /** The tables after a successful upload: one new row under the next id. */
  function Uploaded(t: Tables, owner: string, checksum: string, now: Timestamp): Tables
  {
    t.(storage := t.storage[t.nextId := PendingRow(owner, checksum, now)], nextId := t.nextId + 1)
  }

  /** An upload keeps the invariant, adds exactly one row under an id never
      used before and leaves every other row as it was. */
  lemma UploadedWellFormed(t: Tables, sha256: HexDigest, owner: string, checksum: string, now: Timestamp)
    requires WellFormed(t, sha256)
    ensures WellFormed(Uploaded(t, owner, checksum, now), sha256)
    ensures t.nextId !in t.storage
    ensures Uploaded(t, owner, checksum, now).storage.Keys == t.storage.Keys + {t.nextId}
    ensures forall id :: id in t.storage ==> Uploaded(t, owner, checksum, now).storage[id] == t.storage[id]
  {
    var u := Uploaded(t, owner, checksum, now);
    assert IdIssued(t, t.nextId);
    forall x ensures ScopeRefOk(u, x) {
      assert ScopeRefOk(t, x);
    }
    forall x, k ensures ObjectRefOk(u, x, k) {
      assert ObjectRefOk(t, x, k);
    }
    forall id ensures IdIssued(u, id) {
      assert IdIssued(t, id);
    }
    forall p ensures MetaRefOk(u, sha256, p) {
      assert MetaRefOk(t, sha256, p);
    }
    SummarisedKept(t, u, sha256);
  }

  /** Drawing an id from the sequence and handing it out to no row keeps
      the invariant. */
  lemma DrawKeepsWellFormed(t: Tables, sha256: HexDigest)
    requires WellFormed(t, sha256)
    ensures WellFormed(t.(nextId := t.nextId + 1), sha256)
  {
    var u := t.(nextId := t.nextId + 1);
    forall x ensures ScopeRefOk(u, x) {
      assert ScopeRefOk(t, x);
    }
    forall x, k ensures ObjectRefOk(u, x, k) {
      assert ObjectRefOk(t, x, k);
    }
    forall id ensures IdIssued(u, id) {
      assert IdIssued(t, id);
    }
    forall p ensures MetaRefOk(u, sha256, p) {
      assert MetaRefOk(t, sha256, p);
    }
    SummarisedKept(t, u, sha256);
  }

  /** The uploaded blob can be claimed by its uploader and by nobody else. */
  lemma UploadedClaimable(t: Tables, sha256: HexDigest, owner: string, other: string, checksum: string, now: Timestamp)
    requires WellFormed(t, sha256) && other != owner
    ensures ClaimError(Uploaded(t, owner, checksum, now).storage, t.nextId, owner).None?
    ensures ClaimError(Uploaded(t, owner, checksum, now).storage, t.nextId, other) == Some(Forbidden)
  {
  }

  /** `upload`: the insert draws an id from the sequence; a falsy id aborts
      the transaction with 507, which undoes the insert but not the draw.
      Otherwise the file goes to the bucket and its hash onto the row. */
  method Upload(conn: Database, bucket: Bucket, file: seq<byte>, username: string, now: Timestamp, partSize: int)
    returns (r: Result<int>)
    requires conn.Valid() && partSize > 0
    modifies conn, bucket
    ensures conn.Valid()
    ensures r.Err? <==> old(conn.nextId) == 0
    ensures r.Err? ==> r.error == InsufficientStorage
    ensures r.Err? ==> conn.State() == old(conn.State()).(nextId := old(conn.nextId) + 1)
    ensures r.Err? ==> bucket.objects == old(bucket.objects)
    ensures r.Ok? ==> r.value == old(conn.nextId)
    ensures r.Ok? ==> conn.State() == Uploaded(old(conn.State()), username, conn.sha256(file), now)
    ensures r.Ok? ==> bucket.objects == old(bucket.objects)[IntToString(r.value) := file]
  {
    var snapshot := conn.State();
    UploadedWellFormed(snapshot, conn.sha256, username, conn.sha256(file), now);
    var sid := conn.nextId;
    conn.nextId := conn.nextId + 1;
    var pending := StorageRow(username, None, Some(now + PendingLifetime));
    conn.storage := conn.storage[sid := pending];
    if sid == 0 {
      DrawKeepsWellFormed(snapshot, conn.sha256);
      conn.Rollback(snapshot);
      return Err(InsufficientStorage);
    }
    var h := UploadObject(bucket, sid, file, conn.sha256, partSize);
    assert conn.storage[sid].(checksum := Some(h)) == PendingRow(username, h, now);
    OverwriteTwice(snapshot.storage, sid, pending, PendingRow(username, h, now));
    conn.storage := conn.storage[sid := conn.storage[sid].(checksum := Some(h))];
    return Ok(sid);
  }
}
