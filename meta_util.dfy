/**
  * `sdpremote/utils/meta.py`: the status line of a meta entry and the upsert
  * of a meta row, which either claims a blob or hashes inline bytes.
  */
module MetaUtil {
  import opened Outcomes
  import opened Text
  import opened Checksum
  import opened Schema
  import opened Db
  import opened ObjectUtil

  /** `MetaData = Union[int, bytes, None]`. */
  datatype MetaValue = NoValue | Blob(id: int) | Inline(bytes: seq<byte>)

  /** The part of a meta status line that names the entry: `key`, or
      `key(object_key)` when the object key is truthy. */
  function MetaLabel(key: string, objectKey: Option<string>): string
  {
    if objectKey.Some? && objectKey.value != "" then key + "(" + objectKey.value + ")" else key
  }

  /** `_format_checksum`: `meta`, the entry's label and its checksum text,
      separated by spaces. Without an object key, or with an empty one, it is
      an object's status line behind `meta `; when no field holds a space it
      splits back into its three fields. */
  function FormatChecksum(key: string, objectKey: Option<string>, checksum: Option<string>): (line: string)
    ensures objectKey.None? || objectKey == Some("") ==> line == "meta " + StatusLine(key, checksum)
    ensures ' ' !in MetaLabel(key, objectKey) && ' ' !in ChecksumText(checksum) ==>
      Split(line, ' ') == ["meta", MetaLabel(key, objectKey), ChecksumText(checksum)]
  {
    var name, text := MetaLabel(key, objectKey), ChecksumText(checksum);
    assert "meta " + key + " " + text == "meta " + (key + " " + text);
    if ' ' !in name && ' ' !in text then
      assert "meta " + name + " " + text == "meta" + [' '] + (name + [' '] + text);
      SplitAfterSeparator("meta", name + [' '] + text, ' ');
      SplitAfterSeparator(name, text, ' ');
      SplitNoSeparator(text, ' ');
      "meta " + name + " " + text
    else "meta " + name + " " + text
  }

  /** The storage id a value references, if it is one. */
  function BlobRef(value: MetaValue): Option<int>
  {
    if value.Blob? then Some(value.id) else None
  }

  /** The checksum stored with the meta row. */
  function MetaChecksum(sha256: HexDigest, storage: map<int, StorageRow>, value: MetaValue): Option<string>
  {
    match value
    case NoValue => None
    case Blob(id) => ClaimedChecksum(storage, Some(id))
    case Inline(bytes) => Some(sha256(bytes))
  }

  /** The meta row written: `data` only for a blob, `value` only for bytes. */
  function NewMetaRow(sha256: HexDigest, storage: map<int, StorageRow>, value: MetaValue): MetaRow
  {
    MetaRow(MetaChecksum(sha256, storage, value), BlobRef(value),
            if value.Inline? then Some(value.bytes) else None)
  }

  /** Why `create_meta` fails, in the source's order: the claim's NotFound
      or Forbidden first, and NotFound for a missing scope or object (a
      broken foreign key) only after it. */
  function MetaError(t: Tables, path: MetaPath, value: MetaValue, user: string): (e: Option<Error>)
    ensures e.Some? ==> e.value in {NotFound, Forbidden}
    ensures e == Some(Forbidden) <==> value.Blob? && value.id in t.storage && t.storage[value.id].owner != user
    ensures !value.Blob? ==> (e.None? <==> MetaTargetOk(t, path))
  {
    if DataError(t.storage, BlobRef(value), user).Some? then DataError(t.storage, BlobRef(value), user)
    else if !MetaTargetOk(t, path) then Some(NotFound)
    else None
  }

  /** The new row obeys the meta row rules: blob and bytes exclude each
      other, a blob is claimed and lends its checksum, bytes carry their
      own hash and no storage row is touched for them. */
  lemma NewMetaRowOk(sha256: HexDigest, storage: map<int, StorageRow>, value: MetaValue, user: string)
    requires DataError(storage, BlobRef(value), user).None?
    ensures MetaOk(sha256, ClaimData(storage, BlobRef(value)), NewMetaRow(sha256, storage, value))
    ensures !value.Blob? ==> ClaimData(storage, BlobRef(value)) == storage
    ensures value.Inline? ==> NewMetaRow(sha256, storage, value).checksum == Some(sha256(value.bytes))
  {
  }

  /** The tables after a successful `create_meta`. */
  function MetaUpserted(t: Tables, sha256: HexDigest, path: MetaPath, value: MetaValue): Tables
  {
    t.(storage := ClaimData(t.storage, BlobRef(value)),
       metas := t.metas[path := NewMetaRow(sha256, t.storage, value)])
  }

  /** A successful meta upsert keeps every foreign key and row rule. */
  lemma MetaUpsertKeepsWellFormed(t: Tables, sha256: HexDigest, path: MetaPath, value: MetaValue, user: string)
    requires Referential(t, sha256)
    requires MetaError(t, path, value, user).None?
    ensures Referential(MetaUpserted(t, sha256, path, value), sha256)
    ensures Summarised(t, sha256) ==> Summarised(MetaUpserted(t, sha256, path, value), sha256)
  {
    var u := MetaUpserted(t, sha256, path, value);
    if Summarised(t, sha256) {
      SummarisedKept(t, u, sha256);
    }
    var st := u.storage;
    assert forall j :: j in t.storage ==>
      st[j].checksum == t.storage[j].checksum && (t.storage[j].expireAt.None? ==> st[j].expireAt.None?);
    forall x ensures ScopeRefOk(u, x) {
      assert ScopeRefOk(t, x);
    }
    forall x, k ensures ObjectRefOk(u, x, k) {
      assert ObjectRefOk(t, x, k);
    }
    forall id ensures IdIssued(u, id) {
      assert IdIssued(t, id);
    }
    forall p ensures MetaRefOk(u, sha256, p) {
      if p == path {
        NewMetaRowOk(sha256, t.storage, value, user);
      } else {
        assert MetaRefOk(t, sha256, p);
      }
    }
  }

  /** `create_meta`: claim or hash, count the rows at the path, then insert
      or update, and return the formatted status line. A failure aborts the
      enclosing transaction. */
  method CreateMeta(conn: Database, path: MetaPath, value: MetaValue, user: string) returns (r: Result<string>)
    requires Referential(conn.State(), conn.sha256)
    modifies conn
    ensures Referential(conn.State(), conn.sha256)
    ensures old(conn.Valid()) ==> conn.Valid()
    ensures r.Err? <==> MetaError(old(conn.State()), path, value, user).Some?
    ensures r.Err? ==> Some(r.error) == MetaError(old(conn.State()), path, value, user) && conn.State() == old(conn.State())
    ensures r.Ok? ==> r.value == FormatChecksum(path.key, path.objectKey, MetaChecksum(conn.sha256, old(conn.storage), value))
    ensures r.Ok? ==> conn.State() == MetaUpserted(old(conn.State()), conn.sha256, path, value)
  {
    var snapshot := conn.State();
    var checksum: Option<string> := None;
    match value {
      case Blob(id) =>
        if id !in conn.storage {
          return Err(NotFound);
        }
        var row := conn.storage[id];
        conn.storage := conn.storage[id := row.(expireAt := None)];
        checksum := row.checksum;
        if row.owner != user {
          conn.Rollback(snapshot);
          return Err(Forbidden);
        }
      case Inline(bytes) =>
        checksum := Some(conn.sha256(bytes));
      case NoValue =>
    }
    var data := if value.Blob? then Some(value.id) else None;
    var inline := if value.Inline? then Some(value.bytes) else None;
    var count := if path in conn.metas then 1 else 0;
    if count == 0 {
      if !MetaTargetOk(conn.State(), path) {
        // the insert violates a foreign key: IntegrityError, reported as 404
        conn.Rollback(snapshot);
        return Err(NotFound);
      }
      conn.metas := conn.metas[path := MetaRow(checksum, data, inline)];
    } else {
      assert MetaRefOk(snapshot, conn.sha256, path);
      conn.metas := conn.metas[path := MetaRow(checksum, data, inline)];
    }
    MetaUpsertKeepsWellFormed(snapshot, conn.sha256, path, value, user);
    r := Ok(FormatChecksum(path.key, path.objectKey, checksum));
  }
}
