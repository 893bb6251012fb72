/** The lease identifiers of controllers/dbsecret_controller.go. */
module Lease {
  import opened Wrappers
  import opened Text

  /** The identifier Vault gives a lease, and the one the operator rebuilds. */
  function Path(mount: string, role: string, id: string): string {
    mount + "/creds/" + role + "/" + id
  }

  /** `strings.Split(lease, "/")[3]`; `None` stands for the out-of-range panic. */
  function ShortId(lease: string): Option<string> {
    var parts := Split(lease, '/');
    if |parts| > 3 then Some(parts[3]) else None
  }

  /** A slash in the mount, the role or the id moves element 3 of the split. */
  predicate Rebuildable(mount: string, role: string, id: string) {
    && '/' !in id
    && (('/' in mount || '/' in role) ==> ShortId(mount + "/creds/" + role) == Some(id))
  }

  lemma PathInFull()
    ensures Path("db", "app", "1a") == "db/creds/app/1a"
  {
  }

  lemma SplitPrefix(mount: string, role: string)
    ensures Split(mount + "/creds/" + role, '/') == Split(mount, '/') + ["creds"] + Split(role, '/')
  {
    var tail := "creds" + ['/'] + role;
    assert mount + "/creds/" + role == mount + ['/'] + tail;
    SplitConcat(mount, tail, '/');
    SplitConcat("creds", role, '/');
    SplitWhole("creds", '/');
  }

  lemma SplitPath(mount: string, role: string, id: string)
    ensures Split(Path(mount, role, id), '/')
         == Split(mount, '/') + ["creds"] + Split(role, '/') + Split(id, '/')
    ensures Split(mount + "/creds/" + role, '/') == Split(mount, '/') + ["creds"] + Split(role, '/')
  {
    SplitPrefix(mount, role);
    SplitConcat(mount + "/creds/" + role, id, '/');
  }

  lemma PathInjective(mount: string, role: string, a: string, b: string)
    requires Path(mount, role, a) == Path(mount, role, b)
    ensures a == b
  {
    var prefix := mount + "/creds/" + role + "/";
    assert a == Path(mount, role, a)[|prefix|..];
    assert b == Path(mount, role, b)[|prefix|..];
  }

  /** Storing element 3 and rebuilding with mount and role names the same lease
      exactly when the parts are `Rebuildable`. */
  lemma RoundTrip(mount: string, role: string, id: string)
    ensures ShortId(Path(mount, role, id)).Some?
    ensures Path(mount, role, ShortId(Path(mount, role, id)).value) == Path(mount, role, id)
       <==> Rebuildable(mount, role, id)
  {
    SplitPath(mount, role, id);
    SplitWhole(mount, '/');
    SplitWhole(role, '/');
    SplitWhole(id, '/');
    var short := ShortId(Path(mount, role, id)).value;
    if Path(mount, role, short) == Path(mount, role, id) {
      PathInjective(mount, role, short, id);
    }
  }

  /** A mount below another path, such as `db/prod`: the operator asks Vault
      about a lease that is not the one it was given. */
  lemma NestedMountNamesAnotherLease(id: string)
    requires id != "app"
    ensures ShortId(Path("db/prod", "app", id)) == Some("app")
    ensures !Rebuildable("db/prod", "app", id)
  {
    SplitPath("db/prod", "app", id);
    assert "db/prod" == "db" + ['/'] + "prod";
    SplitConcat("db", "prod", '/');
    SplitWhole("db", '/');
    SplitWhole("prod", '/');
    SplitWhole("app", '/');
  }
}
