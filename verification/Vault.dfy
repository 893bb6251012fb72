/** vault/vault.go: what `GetDbCredentials` makes of Vault's two answers. */
module Vault {
  import opened Wrappers
  import opened Text

  datatype Credentials = Credentials(
    leaseId: string, leaseDuration: int, username: string, password: string, hosts: string, connectionUrl: string)

  /** The answer of `mount/creds/role`; a field Vault does not send is `None`. */
  datatype CredsReply = CredsReply(
    leaseId: string, leaseDuration: int, username: Option<string>, password: Option<string>)

  datatype ConnectionDetails = ConnectionDetails(
    hosts: Option<string>, connectionUrl: Option<string>, port: Option<string>)

  /** The answer of `mount/config/mount`. */
  datatype ConfigReply =
    | Unreadable
    | NoData
    | NoDetails
    | Details(details: ConnectionDetails)

  function Blank(s: Option<string>): (blank: bool) {
    s.None? || s.value == ""
  }

  function OrEmpty(s: Option<string>): string {
    if s.Some? then s.value else ""
  }

  /** Every comma gains the port before it, and so does the end of the list. */
  function WithPort(hosts: string, port: string): string {
    if hosts != "" && port != "" then
      ReplaceAll(hosts, ',', ":" + port + ",") + ":" + port
    else
      hosts
  }

  const USERNAME: string := "{{username}}"
  const PASSWORD: string := "{{password}}"

  /** The connection URL with its first two placeholders replaced, one after the other. */
  function Filled(url: string, username: string, password: string): string {
    ReplaceFirst(ReplaceFirst(url, USERNAME, username), PASSWORD, password)
  }

  /** `None` for a failed read of the credentials or of the configuration's shape. */
  method GetDbCredentials(creds: Option<CredsReply>, config: ConfigReply) returns (r: Option<Credentials>)
    ensures r.Some? <==>
      creds.Some? && !Blank(creds.value.username) && !Blank(creds.value.password) && !config.NoDetails?
    ensures r.Some? ==>
      && r.value.leaseId == creds.value.leaseId
      && r.value.leaseDuration == creds.value.leaseDuration
      && Some(r.value.username) == creds.value.username
      && Some(r.value.password) == creds.value.password
      && (config.Details? || (r.value.hosts == "" && r.value.connectionUrl == ""))
      && (config.Details? ==>
            r.value.connectionUrl == Filled(OrEmpty(config.details.connectionUrl), r.value.username, r.value.password))
      && (config.Details? && Blank(config.details.hosts) ==> r.value.hosts == "")
      && (config.Details? && !Blank(config.details.hosts) && Blank(config.details.port) ==>
            Some(r.value.hosts) == config.details.hosts)
      && (config.Details? && !Blank(config.details.hosts) && !Blank(config.details.port)
          && ',' !in config.details.port.value ==>
            Split(r.value.hosts, ',')
              == Suffixed(Split(config.details.hosts.value, ','), ":" + config.details.port.value))
  {
    if creds.None? || Blank(creds.value.username) || Blank(creds.value.password) {
      return None;
    }
    var hosts, connectionUrl, port := "", "", "";
    match config {
      case Unreadable =>
      case NoData =>
      case NoDetails => return None;
      case Details(details) =>
        hosts := OrEmpty(details.hosts);
        connectionUrl := OrEmpty(details.connectionUrl);
        port := OrEmpty(details.port);
        if connectionUrl != "" {
          connectionUrl := ReplaceFirst(connectionUrl, USERNAME, creds.value.username.value);
          connectionUrl := ReplaceFirst(connectionUrl, PASSWORD, creds.value.password.value);
        }
        if hosts != "" && port != "" {
          HostsGainThePort(hosts, port);
        }
        hosts := WithPort(hosts, port);
    }
    r := Some(Credentials(creds.value.leaseId, creds.value.leaseDuration,
                          creds.value.username.value, creds.value.password.value, hosts, connectionUrl));
  }

  /** A URL without placeholders stays as it is. */
  lemma UrlWithoutPlaceholders(url: string, username: string, password: string)
    requires forall j :: !OccursAt(url, "{{username}}", j) && !OccursAt(url, "{{password}}", j)
    ensures Filled(url, username, password) == url
  {
  }

  lemma ReplacedAt(before: string, pattern: string, after: string, sub: string)
    requires Index(before + pattern + after, pattern) == Some(|before|)
    ensures ReplaceFirst(before + pattern + after, pattern, sub) == before + sub + after
  {
    var s := before + pattern + after;
    assert s[..|before|] == before && s[|before| + |pattern|..] == after;
  }

  /** A URL whose user name stands before the password becomes the same URL with the two
      texts in their places if no password placeholder comes to stand further left, in the
      user name for instance, where it would be taken instead; and only then, unless the
      password itself begins with a brace. */
  lemma UrlIsFilled(before: string, middle: string, after: string, username: string, password: string)
    requires Index(before + USERNAME + (middle + PASSWORD + after), USERNAME) == Some(|before|)
    ensures var url, head := before + USERNAME + (middle + PASSWORD + after), before + username + middle;
      && (NoneBefore(head, after) ==> Filled(url, username, password) == head + password + after)
      && (password != "" && password[0] != '{' && Filled(url, username, password) == head + password + after ==>
            NoneBefore(head, after))
  {
    var tail, head := middle + PASSWORD + after, before + username + middle;
    ReplacedAt(before, USERNAME, tail, username);
    Regrouped(before, username, middle, PASSWORD, after);
    if NoneBefore(head, after) {
      LastPlaceholder(head, after, password);
    } else if password != "" && password[0] != '{' {
      EarlierPlaceholder(head, after, password);
    }
  }

  lemma Regrouped(a: string, b: string, c: string, d: string, e: string)
    ensures a + b + (c + d + e) == a + b + c + d + e
  {
  }

  lemma PlaceholderOccurs(head: string, after: string)
    ensures OccursAt(head + PASSWORD + after, PASSWORD, |head|)
  {
    assert (head + PASSWORD + after)[|head|..] == PASSWORD + after;
  }

  lemma LastPlaceholder(head: string, after: string, password: string)
    requires NoneBefore(head, after)
    ensures ReplaceFirst(head + PASSWORD + after, PASSWORD, password) == head + password + after
  {
    PlaceholderOccurs(head, after);
    ReplacedAt(head, PASSWORD, after, password);
  }

  lemma EarlierPlaceholder(head: string, after: string, password: string)
    requires !NoneBefore(head, after) && password != "" && password[0] != '{'
    ensures ReplaceFirst(head + PASSWORD + after, PASSWORD, password) != head + password + after
  {
    var s := head + PASSWORD + after;
    var at := Index(s, PASSWORD).value;
    assert at < |head| && s[at] == s[at..][0] == '{';
    assert ReplaceFirst(s, PASSWORD, password)[at] == password[0];
    assert (head + password + after)[at] == head[at] == s[at];
  }

  /** No password placeholder begins in the text before the one that is meant. */
  predicate NoneBefore(head: string, after: string) {
    forall j | 0 <= j < |head| :: !OccursAt(head + PASSWORD + after, PASSWORD, j)
  }

  lemma FirstBrace(before: string, tail: string)
    requires '{' !in before
    ensures Index(before + USERNAME + tail, USERNAME) == Some(|before|)
  {
    var s := before + USERNAME + tail;
    assert s[|before|..] == USERNAME + tail;
    assert OccursAt(s, USERNAME, |before|);
    assert forall j | 0 <= j < |before| :: s[j..][0] == before[j];
  }

  /** With no brace in the user name and around the placeholders, both are filled. */
  lemma PlainUrlIsFilled(before: string, middle: string, after: string, username: string, password: string)
    requires '{' !in before && '{' !in middle && '{' !in username
    ensures Filled(before + "{{username}}" + (middle + "{{password}}" + after), username, password)
         == before + username + middle + password + after
  {
    var head := before + username + middle;
    var s := head + PASSWORD + after;
    forall j | 0 <= j < |head|
      ensures !OccursAt(s, PASSWORD, j)
    {
      assert s[j..][0] == s[j] == head[j] && head[j] in head;
    }
    FirstBrace(before, middle + PASSWORD + after);
    UrlIsFilled(before, middle, after, username, password);
  }

  function Suffixed(parts: seq<string>, suffix: string): seq<string> {
    if parts == [] then [] else [parts[0] + suffix] + Suffixed(parts[1..], suffix)
  }

  /** The commas that separate hosts still separate them, and nothing else does. */
  lemma {:induction false} SplitReplaced(hosts: string, tail: string)
    requires ',' !in tail
    ensures Split(ReplaceAll(hosts, ',', tail + ",") + tail, ',') == Suffixed(Split(hosts, ','), tail)
  {
    if hosts == "" {
      SplitWhole(tail, ',');
      assert ReplaceAll(hosts, ',', tail + ",") + tail == tail;
    } else {
      var h, rest := hosts[0], hosts[1..];
      var replaced := ReplaceAll(rest, ',', tail + ",") + tail;
      SplitReplaced(rest, tail);
      if h == ',' {
        assert ReplaceAll(hosts, ',', tail + ",") + tail == tail + [','] + replaced;
        SplitConcat(tail, replaced, ',');
        SplitWhole(tail, ',');
        assert ([""] + Split(rest, ','))[1..] == Split(rest, ',');
        assert "" + tail == tail;
      } else {
        var whole := ReplaceAll(hosts, ',', tail + ",") + tail;
        assert whole == [h] + replaced;
        assert whole[0] == h && whole[1..] == replaced;
        assert Split(whole, ',') == [[h] + Split(replaced, ',')[0]] + Split(replaced, ',')[1..];
        assert Split(hosts, ',') == [[h] + Split(rest, ',')[0]] + Split(rest, ',')[1..];
        assert [h] + (Split(rest, ',')[0] + tail) == ([h] + Split(rest, ',')[0]) + tail;
        assert Split(hosts, ',')[1..] == Split(rest, ',')[1..];
      }
    }
  }

  /** The rewritten list has the same hosts in the same order, each with the port,
      exactly when the port holds no comma. */
  lemma HostsGainThePort(hosts: string, port: string)
    requires hosts != "" && port != ""
    ensures Split(WithPort(hosts, port), ',') == Suffixed(Split(hosts, ','), ":" + port) <==> ',' !in port
  {
    var tail := ":" + port;
    assert tail + "," == ":" + port + ",";
    assert WithPort(hosts, port) == ReplaceAll(hosts, ',', tail + ",") + tail;
    if ',' !in port {
      assert ',' !in tail;
      SplitReplaced(hosts, tail);
    } else {
      var comma :| 0 <= comma < |port| && port[comma] == ',';
      var first := Suffixed(Split(hosts, ','), tail)[0];
      assert first == Split(hosts, ',')[0] + tail;
      assert first[|Split(hosts, ',')[0]| + 1 + comma] == ',';
    }
  }
}
