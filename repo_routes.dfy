/**
  * `sdpremote/routes/repo.py`: repositories are named `<login>/<repo>`;
  * creating one inserts its name, deleting one removes it together with
  * every scope of it, their objects and their meta rows (the `on delete
  * cascade` foreign keys of the scopes and objects tables).
  */
module RepoRoutes {
  import opened Outcomes
  import opened Checksum
  import opened Schema
  import opened Db

  /** `repo_name`: the repository's full name under the authenticated login. */
  function RepoName(login: string, repo: string): (name: string)
    ensures |name| == |login| + 1 + |repo|
    ensures name[..|login|] == login && name[|login|] == '/' && name[|login| + 1..] == repo
    ensures '/' !in login ==> forall i :: 0 <= i < |login| ==> name[i] != '/'
  {
    login + "/" + repo
  }

  /** A login without `/` is recovered from the full name, and so is the
      repository: two names agree only for the same login and repository. */
  lemma RepoNameInjective(login1: string, repo1: string, login2: string, repo2: string)
    requires '/' !in login1 && '/' !in login2
    requires RepoName(login1, repo1) == RepoName(login2, repo2)
    ensures login1 == login2 && repo1 == repo2
  {
    var n := RepoName(login1, repo1);
    assert forall i :: 0 <= i < |login1| ==> n[i] == login1[i] != '/';
    assert forall i :: 0 <= i < |login2| ==> n[i] == login2[i] != '/';
    assert n[|login1|] == '/' && n[|login2|] == '/';
    assert |login1| == |login2|;
    assert login1 == n[..|login1|] == login2;
    assert repo1 == n[|login1| + 1..] == repo2;
  }

  /** The tables after inserting repository `name`. */
  function RepoAdded(t: Tables, name: string): Tables
  {
    t.(repos := t.repos + {name})
  }

  /** The tables after deleting repository `name`, with its cascade. */
  function RepoDeleted(t: Tables, name: string): Tables
  {
    t.(repos := t.repos - {name},
       scopes := map s | s in t.scopes && s.repo != name :: t.scopes[s],
       objects := map s | s in t.objects && s.repo != name :: t.objects[s],
       metas := map p | p in t.metas && p.repo != name :: t.metas[p])
  }

  /** Adding a repository breaks no foreign key and no scope summary. */
  lemma RepoAddedWellFormed(t: Tables, sha256: HexDigest, name: string)
    requires WellFormed(t, sha256)
    ensures WellFormed(RepoAdded(t, name), sha256)
  {
    var u := RepoAdded(t, name);
    forall x ensures ScopeRefOk(u, x) {
      assert ScopeRefOk(t, x);
    }
    forall x, k ensures ObjectRefOk(u, x, k) {
      assert ObjectRefOk(t, x, k);
    }
    forall id ensures IdIssued(u, id) {
      assert IdIssued(t, id);
    }
    forall p ensures MetaRefOk(u, sha256, p) {
      assert MetaRefOk(t, sha256, p);
    }
    SummarisedKept(t, u, sha256);
  }

  /** Deleting a repository keeps the invariant: what remains refers only to
      what remains, no blob is touched and every other repository's scopes
      keep their rows and objects. */
  lemma RepoDeletedWellFormed(t: Tables, sha256: HexDigest, name: string)
    requires WellFormed(t, sha256)
    ensures WellFormed(RepoDeleted(t, name), sha256)
    ensures name !in RepoDeleted(t, name).repos
    ensures forall s :: s in RepoDeleted(t, name).scopes ==> s.repo != name
    ensures forall s :: s in t.scopes && s.repo != name ==>
      s in RepoDeleted(t, name).scopes && RepoDeleted(t, name).scopes[s] == t.scopes[s]
      && RepoDeleted(t, name).objects[s] == t.objects[s]
    ensures RepoDeleted(t, name).storage == t.storage
  {
    var u := RepoDeleted(t, name);
    forall x ensures ScopeRefOk(u, x) {
      assert ScopeRefOk(t, x);
    }
    forall x, k ensures ObjectRefOk(u, x, k) {
      assert ObjectRefOk(t, x, k);
    }
    forall id ensures IdIssued(u, id) {
      assert IdIssued(t, id);
    }
    forall p ensures MetaRefOk(u, sha256, p) {
      assert MetaRefOk(t, sha256, p);
    }
    forall x ensures SummarisedAt(u, sha256, x) {
      assert SummarisedAt(t, sha256, x);
    }
  }

  /** Nothing refers to a repository that does not exist, so deleting one
      that was just created gives back the tables from before. */
  lemma DeleteUndoesCreate(t: Tables, sha256: HexDigest, name: string)
    requires Referential(t, sha256) && name !in t.repos
    ensures RepoDeleted(RepoAdded(t, name), name) == t
  {
    var u := RepoDeleted(RepoAdded(t, name), name);
    forall s | s in t.scopes ensures s.repo != name {
      assert ScopeRefOk(t, s);
    }
    assert u.scopes == t.scopes;
    assert u.objects == t.objects;
    forall p | p in t.metas ensures p.repo != name {
      assert MetaRefOk(t, sha256, p);
    }
    assert u.metas == t.metas;
  }

  /** `create_repo`: an existing name is an integrity error, answered with
      409; otherwise the name is inserted and the route answers `created`. */
  method CreateRepo(conn: Database, login: string, repo: string) returns (r: Outcome)
    requires conn.Valid()
    modifies conn
    ensures conn.Valid()
    ensures r.Fail? <==> RepoName(login, repo) in old(conn.repos)
    ensures r.Fail? ==> r.error == Conflict && conn.State() == old(conn.State())
    ensures r.Pass? ==> conn.State() == RepoAdded(old(conn.State()), RepoName(login, repo))
  {
    var name := RepoName(login, repo);
    if name in conn.repos {
      return Fail(Conflict);
    }
    RepoAddedWellFormed(conn.State(), conn.sha256, name);
    conn.repos := conn.repos + {name};
    return Pass;
  }

  /** `delete_repo`: a delete that matches no row is a 404 and changes
      nothing; otherwise the repository goes with its cascade and the route
      answers `deleted`. */
  method DeleteRepo(conn: Database, login: string, repo: string) returns (r: Outcome)
    requires conn.Valid()
    modifies conn
    ensures conn.Valid()
    ensures r.Fail? <==> RepoName(login, repo) !in old(conn.repos)
    ensures r.Fail? ==> r.error == NotFound && conn.State() == old(conn.State())
    ensures r.Pass? ==> conn.State() == RepoDeleted(old(conn.State()), RepoName(login, repo))
  {
    var name := RepoName(login, repo);
    if name !in conn.repos {
      return Fail(NotFound);
    }
    RepoDeletedWellFormed(conn.State(), conn.sha256, name);
    conn.repos := conn.repos - {name};
    conn.scopes := map s | s in conn.scopes && s.repo != name :: conn.scopes[s];
    conn.objects := map s | s in conn.objects && s.repo != name :: conn.objects[s];
    conn.metas := map p | p in conn.metas && p.repo != name :: conn.metas[p];
    return Pass;
  }
}
