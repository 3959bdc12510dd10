/**
  * `sdpremote/storage.py`: the blob store behind the `storage` table. A
  * blob lives in the `sdpremote` bucket under the decimal text of its
  * storage id; an `ObjectReader` feeds the upload chunk by chunk and hashes
  * exactly what it hands out; the periodic sweep deletes the blobs and
  * rows of pending uploads that expired.
  */
module Storage {
  import opened Outcomes
  import opened Text
  import opened Checksum
  import opened Schema
  import opened Db

  /** The `sdpremote` bucket: blob name to contents. */
  class Bucket {
    var objects: map<string, seq<byte>>

    constructor()
      ensures objects == map[]
    {
      objects := map[];
    }
  }

  /** The reader handed to `put_object`: the uploaded file `data`, the read
      position, and the bytes fed so far to the SHA-256 hasher. */
  class ObjectReader {
    const data: seq<byte>
    const size: int
    const sha256: HexDigest
    var pos: int
    var hashed: seq<byte>

    /** The hasher has seen exactly the bytes handed out so far. */
    predicate Valid()
      reads this
    {
      size == |data| && 0 <= pos <= |data| && hashed == data[..pos]
    }

    /** Seek to the end to learn the size, then back to the start. */
    constructor(data: seq<byte>, sha256: HexDigest)
      ensures this.data == data && this.sha256 == sha256
      ensures size == |data| && pos == 0 && hashed == []
      ensures Valid()
    {
      this.data := data;
      this.size := |data|;
      this.sha256 := sha256;
      pos := 0;
      hashed := [];
    }

    /** Where `f.read(n)` stops: a negative size reads to the end. */
    function ReadEnd(n: int): (e: int)
      reads this
      requires Valid()
      ensures pos <= e <= |data|
      ensures n >= 0 && pos + n <= |data| ==> e == pos + n
      ensures n < 0 || pos + n > |data| ==> e == |data|
    {
      if n < 0 || pos + n > |data| then |data| else pos + n
    }

    /** `read(n)`: the next chunk of the file, which is also fed to the
        hasher unless it is empty. */
    method Read(n: int) returns (content: seq<byte>)
      requires Valid()
      modifies this
      ensures Valid()
      ensures content == old(data[pos..ReadEnd(n)])
      ensures pos == old(pos) + |content|
      ensures hashed == old(hashed) + content
    {
      content := data[pos..ReadEnd(n)];
      pos := pos + |content|;
      if content != [] {
        hashed := hashed + content;
      }
    }

    /** The `hash` property: the hex digest of everything read so far; once
        the file is read to the end, the digest of the whole file. */
    function Hash(): (h: string)
      reads this
      requires Valid()
      ensures h == sha256(data[..pos])
      ensures pos == |data| ==> h == sha256(data)
    {
      assert data[..|data|] == data;
      sha256(hashed)
    }
  }

  /** `uploadObject`: `put_object` reads the file to its announced size in
      parts of at most `partSize` bytes and stores what it read under
      `str(sid)`; the result is the reader's hash. */
  method UploadObject(bucket: Bucket, sid: int, file: seq<byte>, sha256: HexDigest, partSize: int)
    returns (h: string)
    requires partSize > 0
    modifies bucket
    ensures bucket.objects == old(bucket.objects)[IntToString(sid) := file]
    ensures h == sha256(file)
  {
    var reader := new ObjectReader(file, sha256);
    var sent: seq<byte> := [];
    while |sent| < reader.size
      invariant reader.Valid() && reader.data == file && reader.sha256 == sha256
      invariant sent == file[..reader.pos] && |sent| == reader.pos
      invariant bucket.objects == old(bucket.objects)
      decreases reader.size - |sent|
    {
      var part := if reader.size - |sent| < partSize then reader.size - |sent| else partSize;
      var chunk := reader.Read(part);
      sent := sent + chunk;
    }
    assert sent == file;
    bucket.objects := bucket.objects[IntToString(sid) := sent];
    h := reader.Hash();
  }

  // ------------------------------------------------------------- the sweep

  /** `select id from storage where expire_at < now`: pending rows whose
      time is up; a null `expire_at` never compares below `now`. */
  function Expired(storage: map<int, StorageRow>, now: Timestamp): (ids: set<int>)
    ensures forall id :: id in ids <==> id in storage && storage[id].expireAt.Some? && storage[id].expireAt.value < now
  {
    set id | id in storage && storage[id].expireAt.Some? && storage[id].expireAt.value < now
  }

  /** The blob names `DeleteObject(str(i))` of a set of storage ids. */
  function BlobNames(ids: set<int>): set<string>
  {
    set i | i in ids :: IntToString(i)
  }

  /** Python values, as far as the sweep's set difference needs them: an
      `int` is never equal to a `str`. */
  datatype PyValue = PyInt(i: int) | PyStr(s: string)

  /** `ids - errors` as written: `ids` holds `int`s and `errors` holds the
      `str` names of the blobs that failed to be removed. */
  function SweptAsWritten(ids: set<int>, errors: set<string>): (swept: set<int>)
    ensures swept == ids
  {
    var diff := (set i | i in ids :: PyInt(i)) - (set e | e in errors :: PyStr(e));
    assert forall i :: i in ids ==> PyInt(i) !in (set e | e in errors :: PyStr(e));
    set i | i in ids && PyInt(i) in diff
  }

  /** Blob `7` failed to be removed, yet row 7 is deleted, leaving the blob
      behind with no row to ever sweep it again. */
  lemma SweptAsWrittenCounterexample()
    ensures 7 in SweptAsWritten({7}, {IntToString(7)})
    ensures 7 !in SweptIds({7}, {IntToString(7)})
  {
  }

  /** The intended difference: the ids whose blob was removed, compared by
      the blob name. */
  function SweptIds(ids: set<int>, errors: set<string>): (swept: set<int>)
    ensures swept <= ids
  {
    set i | i in ids && IntToString(i) !in errors
  }

  /** When the failures are the blobs of the ids `failed`, exactly the other
      ids are deleted: the failed ones stay for a later run. */
  lemma SweptIdsExact(ids: set<int>, failed: set<int>)
    ensures SweptIds(ids, BlobNames(failed)) == ids - failed
  {
    forall i | i in ids && i !in failed ensures IntToString(i) !in BlobNames(failed) {
      forall j | j in failed ensures IntToString(j) != IntToString(i) {
        if IntToString(j) == IntToString(i) {
          IntToStringInjective(j, i);
        }
      }
    }
  }

  /** The tables after the sweep's delete. */
  function Swept(t: Tables, now: Timestamp, errors: set<string>): Tables
  {
    t.(storage := map id | id in t.storage && id !in SweptIds(Expired(t.storage, now), errors) :: t.storage[id])
  }

  /** The bucket after `remove_objects`: every blob of an expired id that did
      not fail is gone. */
  function BucketSwept(objects: map<string, seq<byte>>, expired: set<int>, errors: set<string>): map<string, seq<byte>>
  {
    map k | k in objects && !(k in BlobNames(expired) && k !in errors) :: objects[k]
  }

  /** The sweep keeps the invariant: it only deletes expired pending rows,
      and nothing refers to a pending row; claimed rows, rows not yet
      expired and rows whose blob failed to be removed all stay. */
  lemma SweptWellFormed(t: Tables, sha256: HexDigest, now: Timestamp, errors: set<string>)
    requires WellFormed(t, sha256)
    ensures WellFormed(Swept(t, now, errors), sha256)
    ensures forall id :: id in t.storage && (t.storage[id].expireAt.None? || t.storage[id].expireAt.value >= now) ==>
      id in Swept(t, now, errors).storage && Swept(t, now, errors).storage[id] == t.storage[id]
    ensures forall id :: id in t.storage && IntToString(id) in errors ==> id in Swept(t, now, errors).storage
  {
    var u := Swept(t, now, errors);
    forall x ensures ScopeRefOk(u, x) {
      assert ScopeRefOk(t, x);
    }
    forall x, k ensures ObjectRefOk(u, x, k) {
      assert ObjectRefOk(t, x, k);
      if x in t.objects && k in t.objects[x] && t.objects[x][k].data.Some? {
        var id := t.objects[x][k].data.value;
        assert id !in Expired(t.storage, now);
        assert id in u.storage && u.storage[id] == t.storage[id];
      }
    }
    forall id ensures IdIssued(u, id) {
      assert IdIssued(t, id);
    }
    forall p ensures MetaRefOk(u, sha256, p) {
      assert MetaRefOk(t, sha256, p);
      if p in t.metas && t.metas[p].data.Some? {
        var id := t.metas[p].data.value;
        assert id !in Expired(t.storage, now);
        assert id in u.storage && u.storage[id] == t.storage[id];
      }
    }
    SummarisedKept(t, u, sha256);
  }

  /** A blob removed from the bucket lost its row too, and a row whose blob
      failed to be removed keeps it: the sweep never orphans a blob. */
  lemma SweepMatchesBucket(t: Tables, objects: map<string, seq<byte>>, now: Timestamp, errors: set<string>, id: int)
    requires id in t.storage && IntToString(id) in objects
    ensures id !in Swept(t, now, errors).storage <==>
      IntToString(id) !in BucketSwept(objects, Expired(t.storage, now), errors)
  {
    if IntToString(id) in BlobNames(Expired(t.storage, now)) {
      var j :| j in Expired(t.storage, now) && IntToString(j) == IntToString(id);
      IntToStringInjective(j, id);
    }
  }

  /** `delete_expired`: select the expired ids, remove their blobs (the
      store answers with the names that failed), then delete the rows of
      the ids whose blob was removed. */
  method DeleteExpired(conn: Database, bucket: Bucket, now: Timestamp, errors: set<string>)
    requires conn.Valid()
    modifies conn, bucket
    ensures conn.Valid()
    ensures conn.State() == Swept(old(conn.State()), now, errors)
    ensures bucket.objects == BucketSwept(old(bucket.objects), Expired(old(conn.storage), now), errors)
  {
    var ids := Expired(conn.storage, now);
    bucket.objects := BucketSwept(bucket.objects, ids, errors);
    var deleted := SweptIds(ids, errors);
    SweptWellFormed(conn.State(), conn.sha256, now, errors);
    conn.storage := map id | id in conn.storage && id !in deleted :: conn.storage[id];
  }
}
