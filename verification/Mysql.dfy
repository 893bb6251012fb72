/** The host failover of `UpdateUserPassword` in db/mysql/mysql.go. */
module Mysql {
  datatype Query = Query(loginUsername: string, port: int, hosts: seq<string>)

  /** `reachable[i]` says whether the i-th attempt, on host i, goes through. The
      attempts are reported in order with the login they used. */
  method UpdateUserPassword(query: Query, reachable: seq<bool>)
    returns (ok: bool, attempts: seq<(string, string, int)>)
    requires |reachable| == |query.hosts|
    ensures ok <==> query.hosts == [] || true in reachable
    ensures |attempts| <= |query.hosts|
    ensures forall i :: 0 <= i < |attempts| ==>
      && attempts[i].0 == query.hosts[i]
      && attempts[i].1 == (if query.loginUsername == "" then "root" else query.loginUsername)
      && attempts[i].2 == (if query.port < 1 then 3306 else query.port)
    ensures forall i :: 0 <= i < |attempts| ==> (reachable[i] <==> ok && i == |attempts| - 1)
    ensures !ok ==> |attempts| == |query.hosts|
  {
    var login := if query.loginUsername == "" then "root" else query.loginUsername;
    var port := if query.port < 1 then 3306 else query.port;
    attempts := [];
    ok := true;
    for i := 0 to |query.hosts|
      invariant |attempts| == i
      invariant ok <==> i == 0
      invariant forall j :: 0 <= j < i ==> !reachable[j] && attempts[j] == (query.hosts[j], login, port)
    {
      attempts := attempts + [(query.hosts[i], login, port)];
      ok := reachable[i];
      if ok {
        return;
      }
    }
  }
}
