/**
  * The five tables of sdpremote and the rules that tie their rows together:
  * the column layout of the migrations, the foreign keys with their
  * cascades, the claim of a blob by the row that references it, and the
  * aggregate checksum a scope row keeps over its objects.
  */
module Schema {
  import opened Outcomes
  import opened Text
  import opened Checksum

  /** `datetime` values, in seconds; the current time is always a parameter. */
  type Timestamp = int

  /** The server default of `storage.expire_at` is `current_timestamp + interval '6 hour'`. */
  const PendingLifetime: int := 6 * 3600

  /** Primary key of `scopes`: (name, repo). */
  datatype ScopeId = ScopeId(name: string, repo: string)

  /** The optional columns of a `scopes` row. */
  datatype ScopeRow = ScopeRow(checksum: Option<string>, creator: Option<string>, timestamp: Option<Timestamp>)

  /** The row of a scope that holds no objects. */
  const EmptyScope: ScopeRow := ScopeRow(None, None, None)

  /** The non-key columns of an `objects` row; `data` is a storage id. */
  datatype ObjectRow = ObjectRow(checksum: Option<string>, creator: string, timestamp: Timestamp, data: Option<int>)

  /** The non-key columns of a `storage` row: a blob is pending while
      `expireAt` is set and claimed once it is null. */
  datatype StorageRow = StorageRow(owner: string, checksum: Option<string>, expireAt: Option<Timestamp>)

  /** The unique path of a `metas` row. */
  datatype MetaPath = MetaPath(key: string, objectKey: Option<string>, scope: string, repo: string)

  /** The non-key columns of a `metas` row: a blob reference or inline bytes. */
  datatype MetaRow = MetaRow(checksum: Option<string>, data: Option<int>, value: Option<seq<byte>>)

  /** The `Scope` entity that the scope routes answer with. */
  datatype ScopeView = ScopeView(name: string, checksum: Option<string>, creator: Option<string>, timestamp: Option<Timestamp>)

  /** The whole database. Objects are grouped by the scope they belong to;
      `nextId` is the next value of the `storage.id` sequence. */
  datatype Tables = Tables(
    repos: set<string>,
    scopes: map<ScopeId, ScopeRow>,
    objects: map<ScopeId, map<string, ObjectRow>>,
    storage: map<int, StorageRow>,
    metas: map<MetaPath, MetaRow>,
    nextId: int)

  function ScopeOfMeta(p: MetaPath): ScopeId
  {
    ScopeId(p.scope, p.repo)
  }

  /** Python truthiness of an optional string: `None` and `''` are false. */
  predicate Truthy(cs: Option<string>)
  {
    cs.Some? && cs.value != ""
  }

  /** How a checksum is written in a status line. */
  function ChecksumText(cs: Option<string>): string
  {
    if Truthy(cs) then cs.value else "null"
  }

  /** `f'{key} ' + (checksum if checksum else 'null')`. */
  function StatusLine(key: string, cs: Option<string>): (line: string)
    ensures !Truthy(cs) ==> line == key + " null"
    ensures ' ' !in key && ' ' !in ChecksumText(cs) ==> Split(line, ' ') == [key, ChecksumText(cs)]
  {
    if ' ' !in key && ' ' !in ChecksumText(cs) then
      SplitAfterSeparator(key, ChecksumText(cs), ' ');
      SplitNoSeparator(ChecksumText(cs), ' ');
      key + " " + ChecksumText(cs)
    else key + " " + ChecksumText(cs)
  }

  /** Lines that share a key share a checksum text, so one key never
      contributes two different lines. */
  lemma StatusLineDeterminesChecksum(key: string, a: Option<string>, b: Option<string>)
    requires StatusLine(key, a) == StatusLine(key, b)
    ensures ChecksumText(a) == ChecksumText(b)
  {
    assert ChecksumText(a) == StatusLine(key, a)[|key| + 1..];
    assert ChecksumText(b) == StatusLine(key, b)[|key| + 1..];
  }

  /** The status lines of a scope's objects, by key. */
  function ScopeLines(rows: map<string, ObjectRow>): (lines: map<string, string>)
    ensures lines.Keys == rows.Keys
  {
    map k | k in rows :: StatusLine(k, rows[k].checksum)
  }

  /** Writing one row changes exactly that key's status line. */
  lemma ScopeLinesUpdate(rows: map<string, ObjectRow>, k: string, row: ObjectRow)
    ensures ScopeLines(rows[k := row]) == ScopeLines(rows)[k := StatusLine(k, row.checksum)]
  {
  }

  // ---------------------------------------------------------------- claims

  /** Why claiming storage id `id` for `user` fails: no such row, or a
      different owner. A claimed blob can be claimed again by its owner. */
  function ClaimError(storage: map<int, StorageRow>, id: int, user: string): (e: Option<Error>)
    ensures e.None? <==> id in storage && storage[id].owner == user
    ensures e.Some? ==> e.value in {NotFound, Forbidden}
  {
    if id !in storage then Some(NotFound)
    else if storage[id].owner != user then Some(Forbidden)
    else None
  }

  /** `update storage set expire_at = null where id = :id`. */
  function Claim(storage: map<int, StorageRow>, id: int): (r: map<int, StorageRow>)
    ensures r.Keys == storage.Keys
    ensures forall j :: j in storage ==>
      r[j].owner == storage[j].owner && r[j].checksum == storage[j].checksum
    ensures forall j :: j in storage && j != id ==> r[j] == storage[j]
    ensures id in storage ==> r[id].expireAt.None?
  {
    if id in storage then storage[id := storage[id].(expireAt := None)] else storage
  }

  /** Claiming twice is claiming once. */
  lemma ClaimIdempotent(storage: map<int, StorageRow>, id: int)
    ensures Claim(Claim(storage, id), id) == Claim(storage, id)
  {
  }

  /** A claim changes no later claim's outcome: owners and ids stay. */
  lemma ClaimKeepsErrors(storage: map<int, StorageRow>, id: int, other: int, user: string)
    ensures ClaimError(Claim(storage, id), other, user) == ClaimError(storage, other, user)
  {
  }

  // ----------------------------------------------------------- row rules

  /** A row that references storage id `data` carries that blob's checksum,
      and the blob is claimed. */
  predicate RefOk(storage: map<int, StorageRow>, checksum: Option<string>, data: Option<int>)
  {
    data.Some? ==>
      data.value in storage && storage[data.value].expireAt.None? && checksum == storage[data.value].checksum
  }

  /** An object row: its checksum is `null` exactly when its data is. */
  predicate ObjectOk(storage: map<int, StorageRow>, row: ObjectRow)
  {
    RefOk(storage, row.checksum, row.data) && (row.data.None? ==> row.checksum.None?)
  }

  /** A meta row: `data` and `value` exclude each other, inline bytes carry
      their own hash and an empty row has no checksum. */
  predicate MetaOk(sha256: HexDigest, storage: map<int, StorageRow>, row: MetaRow)
  {
    !(row.data.Some? && row.value.Some?)
    && RefOk(storage, row.checksum, row.data)
    && (row.value.Some? ==> row.checksum == Some(sha256(row.value.value)))
    && (row.data.None? && row.value.None? ==> row.checksum.None?)
  }

  /** The foreign keys of a meta row: its scope, and its object if it names one. */
  predicate MetaTargetOk(t: Tables, p: MetaPath)
  {
    ScopeOfMeta(p) in t.scopes && ScopeOfMeta(p) in t.objects
    && (p.objectKey.Some? ==> p.objectKey.value in t.objects[ScopeOfMeta(p)])
  }

  /** A scope row's repository exists. */
  predicate ScopeRefOk(t: Tables, s: ScopeId)
  {
    s in t.scopes ==> s.repo in t.repos
  }

  ghost predicate ScopesOk(t: Tables)
  {
    (forall s :: ScopeRefOk(t, s)) && t.objects.Keys == t.scopes.Keys
  }

  /** An object row obeys the object row rule. */
  predicate ObjectRefOk(t: Tables, s: ScopeId, k: string)
  {
    s in t.objects && k in t.objects[s] ==> ObjectOk(t.storage, t.objects[s][k])
  }

  ghost predicate ObjectsOk(t: Tables)
  {
    forall s, k :: ObjectRefOk(t, s, k)
  }

  /** A storage id was handed out by the sequence. */
  predicate IdIssued(t: Tables, id: int)
  {
    id in t.storage ==> id < t.nextId
  }

  ghost predicate StorageIdsOk(t: Tables)
  {
    forall id :: IdIssued(t, id)
  }

  /** A meta row's foreign keys hold and it obeys the meta row rule. */
  predicate MetaRefOk(t: Tables, sha256: HexDigest, p: MetaPath)
  {
    p in t.metas ==> MetaTargetOk(t, p) && MetaOk(sha256, t.storage, t.metas[p])
  }

  ghost predicate MetasOk(t: Tables, sha256: HexDigest)
  {
    forall p :: MetaRefOk(t, sha256, p)
  }

  /** Every foreign key holds, every referenced blob is claimed and the
      sequence is ahead of every storage id. */
  ghost predicate Referential(t: Tables, sha256: HexDigest)
  {
    ScopesOk(t) && ObjectsOk(t) && StorageIdsOk(t) && MetasOk(t, sha256)
  }

  /** Rewriting the optional columns of an existing scope row keeps every
      foreign key. */
  lemma ScopeRowWriteKeepsReferential(t: Tables, sha256: HexDigest, s: ScopeId, row: ScopeRow)
    requires Referential(t, sha256) && s in t.scopes
    ensures Referential(t.(scopes := t.scopes[s := row]), sha256)
  {
    var u := t.(scopes := t.scopes[s := row]);
    assert u.scopes.Keys == t.scopes.Keys;
    forall x ensures ScopeRefOk(u, x) {
      assert ScopeRefOk(t, x);
    }
    forall x, k ensures ObjectRefOk(u, x, k) {
      assert ObjectRefOk(t, x, k);
    }
    forall id ensures IdIssued(u, id) {
      assert IdIssued(t, id);
    }
    forall p ensures MetaRefOk(u, sha256, p) {
      assert MetaRefOk(t, sha256, p);
    }
  }

  /** A scope row summarises its objects: all three columns are null when
      it has none, and otherwise they are set and the checksum is the
      aggregate checksum of the objects' status lines. */
  predicate Summarises(sha256: HexDigest, row: ScopeRow, rows: map<string, ObjectRow>)
  {
    if rows == map[] then row == EmptyScope
    else row.checksum == Some(CalcChecksum(sha256, ScopeLines(rows))) && row.creator.Some? && row.timestamp.Some?
  }

  /** Scope `s`, if it exists, summarises its objects. */
  predicate SummarisedAt(t: Tables, sha256: HexDigest, s: ScopeId)
  {
    s in t.scopes && s in t.objects ==> Summarises(sha256, t.scopes[s], t.objects[s])
  }

  ghost predicate Summarised(t: Tables, sha256: HexDigest)
  {
    forall s :: SummarisedAt(t, sha256, s)
  }

  /** The state every committed transaction leaves behind. */
  ghost predicate WellFormed(t: Tables, sha256: HexDigest)
  {
    Referential(t, sha256) && Summarised(t, sha256)
  }

  /** A change confined to scope `s` keeps every other scope summarised. */
  lemma SummarisedElsewhere(t: Tables, u: Tables, sha256: HexDigest, s: ScopeId)
    requires Summarised(t, sha256)
    requires forall x :: x in u.scopes && x in u.objects && x != s ==>
      x in t.scopes && x in t.objects && u.scopes[x] == t.scopes[x] && u.objects[x] == t.objects[x]
    requires s in u.scopes && s in u.objects ==> Summarises(sha256, u.scopes[s], u.objects[s])
    ensures Summarised(u, sha256)
  {
    forall x ensures SummarisedAt(u, sha256, x) {
      if x != s {
        assert SummarisedAt(t, sha256, x);
      }
    }
  }

  /** A change that leaves scope rows and object rows alone keeps every
      scope summarised. */
  lemma SummarisedKept(t: Tables, u: Tables, sha256: HexDigest)
    requires Summarised(t, sha256) && u.scopes == t.scopes && u.objects == t.objects
    ensures Summarised(u, sha256)
  {
    forall x ensures SummarisedAt(u, sha256, x) {
      assert SummarisedAt(t, sha256, x);
    }
  }

  /** The empty database is well formed. */
  lemma EmptyWellFormed(sha256: HexDigest, nextId: int)
    ensures WellFormed(Tables({}, map[], map[], map[], map[], nextId), sha256)
  {
  }

  // -------------------------------------------------------------- cascades

  /** `metas` after deleting the objects `keys` of scope `s` (the cascade of
      the meta rows that reference those objects). */
  function MetasWithoutObjects(metas: map<MetaPath, MetaRow>, s: ScopeId, keys: set<string>): map<MetaPath, MetaRow>
  {
    map p | p in metas && !(ScopeOfMeta(p) == s && p.objectKey.Some? && p.objectKey.value in keys) :: metas[p]
  }

  /** `metas` after deleting scope `s`. */
  function MetasWithoutScope(metas: map<MetaPath, MetaRow>, s: ScopeId): map<MetaPath, MetaRow>
  {
    map p | p in metas && ScopeOfMeta(p) != s :: metas[p]
  }

  /** Deleting objects of one scope, with their meta rows, keeps every
      foreign key. */
  lemma DeleteObjectsKeepsReferential(t: Tables, sha256: HexDigest, s: ScopeId, keys: set<string>)
    requires Referential(t, sha256) && s in t.objects
    ensures Referential(t.(objects := t.objects[s := t.objects[s] - keys],
                           metas := MetasWithoutObjects(t.metas, s, keys)), sha256)
  {
    var u := t.(objects := t.objects[s := t.objects[s] - keys],
                metas := MetasWithoutObjects(t.metas, s, keys));
    forall x ensures ScopeRefOk(u, x) {
      assert ScopeRefOk(t, x);
    }
    forall x, k ensures ObjectRefOk(u, x, k) {
      assert ObjectRefOk(t, x, k);
    }
    forall id ensures IdIssued(u, id) {
      assert IdIssued(t, id);
    }
    forall p ensures MetaRefOk(u, sha256, p) {
      assert MetaRefOk(t, sha256, p);
    }
  }
}
