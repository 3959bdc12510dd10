/**
  * The database connection that every route and helper receives as `conn`:
  * one field per table. A route runs in one transaction: it takes a
  * snapshot when it begins and restores it when it raises.
  */
module Db {
  import opened Schema
  import opened Checksum

  class Database {
    /** `hashlib.sha256(...).hexdigest()`, fixed for the life of the database. */
    const sha256: HexDigest
    var repos: set<string>
    var scopes: map<ScopeId, ScopeRow>
    var objects: map<ScopeId, map<string, ObjectRow>>
    var storage: map<int, StorageRow>
    var metas: map<MetaPath, MetaRow>
    /** The `storage.id` sequence; like every sequence it is not rolled back. */
    var nextId: int

    function State(): Tables
      reads this
    {
      Tables(repos, scopes, objects, storage, metas, nextId)
    }

    ghost predicate Valid()
      reads this
    {
      WellFormed(State(), sha256)
    }

    /** An empty database whose id sequence starts at 1. */
    constructor(sha256: HexDigest)
      ensures this.sha256 == sha256
      ensures State() == Tables({}, map[], map[], map[], map[], 1)
      ensures Valid()
    {
      this.sha256 := sha256;
      repos, scopes, objects, storage, metas, nextId := {}, map[], map[], map[], map[], 1;
      new;
      EmptyWellFormed(sha256, 1);
    }

    /** Transaction rollback: every table goes back to the snapshot, the
        sequence keeps the values it handed out. */
    method Rollback(snapshot: Tables)
      modifies this
      ensures State() == snapshot.(nextId := old(nextId))
    {
      repos, scopes, objects, storage, metas := snapshot.repos, snapshot.scopes, snapshot.objects, snapshot.storage, snapshot.metas;
    }
  }
}
