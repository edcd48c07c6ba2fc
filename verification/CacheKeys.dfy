/** The Redis key formats of the handlers and the glob patterns that invalidate them, related segment by segment. */
module CacheKeys {
  import opened Text
  import opened Wildcard

  /** An identifier that cannot disturb a key or a pattern: no separator and no glob metacharacter. */
  predicate Plain(id: string) {
    forall c :: c in id ==> c !in {':', '*', '?', '[', ']', '\\', '^'}
  }

  predicate AllPlain(segments: seq<string>) {
    forall i :: 0 <= i < |segments| ==> Plain(segments[i])
  }

  function Key(segments: seq<string>): string
    requires segments != []
  {
    Join(':', segments)
  }

  predicate Glob(pattern: string, key: string) {
    Matches('*', '?', pattern, key)
  }

  // ---------- Keys ----------

  /** The parameters that distinguish one cached page of a resource list from another. */
  datatype ListQuery = ListQuery(skip: nat, limit: nat, orderBy: string, direction: string, active: string)

  predicate PlainQuery(q: ListQuery) {
    Plain(q.orderBy) && Plain(q.direction) && Plain(q.active)
  }

  function TenantsSegments(user: string): seq<string> { ["tenants", "user", user, "with_permissions"] }
  function GroupsSegments(user: string): seq<string> { ["identity", "groups", "user", user] }
  function IdpGroupsSegments(user: string): seq<string> { ["identity", "idp_group_ids", "user", user] }
  function DashboardSegments(tenant: string, user: string): seq<string> { ["dashboard", "stats", "tenant", tenant, "user", user] }
  function TenantDetailSegments(tenant: string): seq<string> { ["tenants", "detail", tenant] }

  function ListSegments(prefix: string, tenant: string, user: string, q: ListQuery): seq<string> {
    [prefix, "list", "tenant", tenant, "user", user, "skip", Decimal(q.skip), "limit", Decimal(q.limit),
     "view", "full", "order", q.orderBy, q.direction, "active", q.active, "type", "all"]
  }

  function DetailSegments(prefix: string, tenant: string, resourceKey: string, resource: string): seq<string> {
    [prefix, "detail", "tenant", tenant, resourceKey, resource]
  }

  function PermissionsSegments(prefix: string, tenant: string, resource: string): seq<string> {
    [prefix, "permissions", "tenant", tenant, "res", resource, "list"]
  }

  // ---------- Patterns, interpolated as the handlers write them ----------

  /** f"*:user:{user}:*", f"*:groups:user:{user}" and f"*:custom_groups:user:{user}". */
  function UserPatterns(user: string): seq<string> {
    ["*:" + Key(["user", user]) + ":*", "*:" + Key(["groups", "user", user]), "*:" + Key(["custom_groups", "user", user])]
  }

  /** f"{prefix}:list:tenant:{tenant}:*" */
  function ListPattern(prefix: string, tenant: string): string {
    Key([prefix, "list", "tenant", tenant]) + ":*"
  }

  /** f"{prefix}:permissions:tenant:{tenant}:{resourceKey}:{resource}:*": a deleted resource names itself by its own
      key ("chat_agent", "cred"), a permission change by "res". */
  function PermissionsPattern(prefix: string, tenant: string, resourceKey: string, resource: string): string {
    Key([prefix, "permissions", "tenant", tenant, resourceKey, resource]) + ":*"
  }

  /** f"tenants:detail:{tenant}:*" */
  function TenantPattern(tenant: string): string {
    Key(["tenants", "detail", tenant]) + ":*"
  }

  const ALL_TENANT_ROLES_PATTERN := Key(["tenants", "user"]) + ":" + ("*" + ":with_permissions")
  const ALL_TENANT_LISTS_PATTERN := Key(["tenants", "list"]) + ":*"
  const ALL_GROUPS_PATTERN := Key(["identity", "groups", "user"]) + ":*"
  const DELETED_GROUP_PATTERN := "*user:*:*"

  // ---------- Keys as segments ----------

  lemma {:induction false} JoinAppend(a: seq<string>, b: seq<string>)
    requires a != [] && b != []
    ensures Key(a + b) == Key(a) + ":" + Key(b)
    decreases |a|
  {
    assert (a + b)[1..] == a[1..] + b;
    if |a| > 1 {
      JoinAppend(a[1..], b);
    }
  }

  /** Keys with plain segments are equal exactly when their segments are. */
  lemma SameKey(a: seq<string>, b: seq<string>)
    requires a != [] && b != [] && AllPlain(a) && AllPlain(b)
    ensures Key(a) == Key(b) <==> a == b
  {
    JoinInjective(':', a, b);
  }

  lemma FirstSegmentsDiffer(a: seq<string>, b: seq<string>)
    requires a != [] && b != [] && AllPlain(a) && AllPlain(b) && a[0] != b[0]
    ensures Key(a) != Key(b)
  {
    SameKey(a, b);
  }

  lemma ListSegmentsPlain(prefix: string, tenant: string, user: string, q: ListQuery)
    requires Plain(prefix) && Plain(tenant) && Plain(user) && PlainQuery(q)
    ensures AllPlain(ListSegments(prefix, tenant, user, q))
  {
    DecimalsPlain(q.skip);
    DecimalsPlain(q.limit);
  }

  lemma {:induction false} JoinIsLiteral(segments: seq<string>)
    requires segments != [] && AllPlain(segments)
    ensures Literal('*', '?', Key(segments))
    decreases |segments|
  {
    assert Plain(segments[0]);
    if |segments| > 1 {
      JoinIsLiteral(segments[1..]);
      assert Key(segments) == segments[0] + ":" + Key(segments[1..]);
    }
  }

  /** `a:b:*` matches a key exactly when the key's segments properly extend [a, b]. */
  lemma PrefixMatches(prefix: seq<string>, key: seq<string>)
    requires prefix != [] && key != [] && AllPlain(prefix) && AllPlain(key)
    ensures Glob(Key(prefix) + ":*", Key(key)) <==> prefix < key
  {
    JoinIsLiteral(prefix);
    assert Key(prefix) + ":*" == Key(prefix) + ":" + "*";
    PrefixPattern('*', '?', Key(prefix) + ":", Key(key));
    StartsWithSegments(':', prefix, key);
  }

  /** `*:a:b:*` matches a key exactly when [a, b] is an interior run of its segments. */
  lemma InfixMatches(run: seq<string>, key: seq<string>)
    requires run != [] && key != [] && AllPlain(run) && AllPlain(key)
    ensures Glob("*:" + Key(run) + ":*", Key(key)) <==> HasRun(key, run)
  {
    JoinIsLiteral(run);
    var lit := [':'] + (Key(run) + [':']);
    assert "*:" + Key(run) + ":*" == ['*'] + (lit + ['*']);
    InfixPattern('*', '?', lit, Key(key));
    ContainsSegments(':', run, key);
  }

  /** `*:a:b` matches a key exactly when [a, b] properly ends its segments. */
  lemma SuffixMatches(last: seq<string>, key: seq<string>)
    requires last != [] && key != [] && AllPlain(last) && AllPlain(key)
    ensures Glob("*:" + Key(last), Key(key)) <==> LastSegments(key, last)
  {
    JoinIsLiteral(last);
    assert "*:" + Key(last) == ['*'] + ([':'] + Key(last));
    SuffixPattern('*', '?', [':'] + Key(last), Key(key));
    EndsWithSegments(':', last, key);
  }

  // ---------- What each invalidation reaches ----------

  predicate Reached(patterns: seq<string>, key: string) {
    exists p :: p in patterns && Glob(p, key)
  }

  /** Clearing a user reaches exactly the keys with an interior `user:U` and those ending in a group segment of U. */
  lemma UserPatternsReach(user: string, key: seq<string>)
    requires key != [] && Plain(user) && AllPlain(key)
    ensures Reached(UserPatterns(user), Key(key)) <==>
      HasRun(key, ["user", user]) || LastSegments(key, ["groups", "user", user])
      || LastSegments(key, ["custom_groups", "user", user])
  {
    InfixMatches(["user", user], key);
    SuffixMatches(["groups", "user", user], key);
    SuffixMatches(["custom_groups", "user", user], key);
    assert forall p :: p in UserPatterns(user) <==>
      p == UserPatterns(user)[0] || p == UserPatterns(user)[1] || p == UserPatterns(user)[2];
  }

  /** Clearing user U removes U's tenant-role entry, U's group entry and every resource list page cached for U,
      in every tenant and for every resource prefix. */
  lemma ClearingReachesUser(user: string, prefix: string, tenant: string, q: ListQuery)
    requires Plain(user) && Plain(prefix) && Plain(tenant) && PlainQuery(q)
    ensures Reached(UserPatterns(user), Key(TenantsSegments(user)))
    ensures Reached(UserPatterns(user), Key(GroupsSegments(user)))
    ensures Reached(UserPatterns(user), Key(ListSegments(prefix, tenant, user, q)))
  {
    ClearingReachesList(user, prefix, tenant, q);
    ClearingReachesRoles(user);
    ClearingReachesGroups(user);
  }

  lemma ClearingReachesRoles(user: string)
    requires Plain(user)
    ensures Reached(UserPatterns(user), Key(TenantsSegments(user)))
  {
    UserPatternsReach(user, TenantsSegments(user));
    assert RunAt(["user", user], TenantsSegments(user), 1);
  }

  lemma ClearingReachesGroups(user: string)
    requires Plain(user)
    ensures Reached(UserPatterns(user), Key(GroupsSegments(user)))
  {
    UserPatternsReach(user, GroupsSegments(user));
    assert LastSegments(GroupsSegments(user), ["groups", "user", user]);
  }

  lemma ClearingReachesList(user: string, prefix: string, tenant: string, q: ListQuery)
    requires Plain(user) && Plain(prefix) && Plain(tenant) && PlainQuery(q)
    ensures Reached(UserPatterns(user), Key(ListSegments(prefix, tenant, user, q)))
  {
    DecimalsPlain(q.skip);
    DecimalsPlain(q.limit);
    var key := ListSegments(prefix, tenant, user, q);
    UserPatternsReach(user, key);
    assert key[4..6] == ["user", user];
    assert RunAt(["user", user], key, 4);
  }

  /** Two per-user keys that clearing the user does NOT reach, because nothing follows the user id and the segment
      before `user` is not a group segment: the dashboard statistics and the identity provider's group ids. */
  lemma ClearingMissesUser(user: string, tenant: string)
    requires Plain(user) && Plain(tenant) && tenant !in {"user", "groups", "custom_groups"} && user != "user"
    ensures !Reached(UserPatterns(user), Key(DashboardSegments(tenant, user)))
    ensures !Reached(UserPatterns(user), Key(IdpGroupsSegments(user)))
  {
    ClearingMissesDashboard(user, tenant);
    ClearingMissesIdpGroups(user);
  }

  lemma ClearingMissesDashboard(user: string, tenant: string)
    requires Plain(user) && Plain(tenant) && tenant !in {"user", "groups", "custom_groups"} && user != "user"
    ensures !Reached(UserPatterns(user), Key(DashboardSegments(tenant, user)))
  {
    var key := DashboardSegments(tenant, user);
    UserPatternsReach(user, key);
    forall j: nat ensures !RunAt(["user", user], key, j) {
      RunHead("user", user, key, j);
    }
    assert key[|key| - 3..] == [tenant, "user", user] && [tenant, "user", user][0] == tenant;
  }

  lemma ClearingMissesIdpGroups(user: string)
    requires Plain(user) && user != "user"
    ensures !Reached(UserPatterns(user), Key(IdpGroupsSegments(user)))
  {
    var key := IdpGroupsSegments(user);
    UserPatternsReach(user, key);
    forall j: nat ensures !RunAt(["user", user], key, j) {
      RunHead("user", user, key, j);
    }
    assert key[|key| - 3..] == ["idp_group_ids", "user", user];
  }

  lemma RunHead(a: string, b: string, key: seq<string>, j: nat)
    ensures RunAt([a, b], key, j) ==> j + 2 < |key| && key[j] == a && key[j + 1] == b
  {
    if RunAt([a, b], key, j) {
      assert key[j..j + 2][0] == key[j] && key[j..j + 2][1] == key[j + 1];
    }
  }

  lemma DecimalsPlain(n: nat)
    ensures Plain(Decimal(n))
  {
    forall c | c in Decimal(n) ensures c !in {':', '*', '?', '[', ']', '\\', '^'} {
      assert IsDigit(c);
    }
  }

  /** The list pattern of (prefix, tenant) matches a list key exactly when both agree: every page cached for the
      tenant goes, and no page of another tenant or another resource type does. */
  lemma ListPatternExact(prefix: string, tenant: string, prefix': string, tenant': string, user: string, q: ListQuery)
    requires Plain(prefix) && Plain(tenant) && Plain(prefix') && Plain(tenant') && Plain(user) && PlainQuery(q)
    ensures Glob(ListPattern(prefix, tenant), Key(ListSegments(prefix', tenant', user, q))) <==>
      prefix == prefix' && tenant == tenant'
  {
    DecimalsPlain(q.skip);
    DecimalsPlain(q.limit);
    var lead, key := [prefix, "list", "tenant", tenant], ListSegments(prefix', tenant', user, q);
    PrefixMatches(lead, key);
    assert lead < key <==> prefix == prefix' && tenant == tenant' by {
      if lead < key {
        assert lead[0] == key[0] && lead[3] == key[3];
      }
      if prefix == prefix' && tenant == tenant' {
        assert lead == key[..4];
      }
    }
  }

  /** List keys are injective in the tenant, the user and every page parameter. */
  lemma ListKeyInjective(prefix: string, t: string, u: string, q: ListQuery, t': string, u': string, q': ListQuery)
    requires Plain(prefix) && Plain(t) && Plain(u) && Plain(t') && Plain(u') && PlainQuery(q) && PlainQuery(q')
    requires Key(ListSegments(prefix, t, u, q)) == Key(ListSegments(prefix, t', u', q'))
    ensures t == t' && u == u' && q == q'
  {
    ListSegmentsPlain(prefix, t, u, q);
    ListSegmentsPlain(prefix, t', u', q');
    SameKey(ListSegments(prefix, t, u, q), ListSegments(prefix, t', u', q'));
    ListSegmentsInjective(prefix, t, u, q, t', u', q');
  }

  lemma ListSegmentsInjective(prefix: string, t: string, u: string, q: ListQuery, t': string, u': string, q': ListQuery)
    requires ListSegments(prefix, t, u, q) == ListSegments(prefix, t', u', q')
    ensures t == t' && u == u' && q == q'
  {
    var a, b := ListSegments(prefix, t, u, q), ListSegments(prefix, t', u', q');
    assert a[3] == b[3] && a[5] == b[5] && a[7] == b[7] && a[9] == b[9];
    assert a[13] == b[13] && a[14] == b[14] && a[16] == b[16];
    DecimalInjective(q.skip, q'.skip);
    DecimalInjective(q.limit, q'.limit);
  }

  /** Deleting a custom group clears every tenant-role entry and every list page of every user. */
  lemma DeletedGroupReaches(user: string, prefix: string, tenant: string, q: ListQuery)
    requires Plain(user) && Plain(prefix) && Plain(tenant) && PlainQuery(q)
    ensures Glob(DELETED_GROUP_PATTERN, Key(TenantsSegments(user)))
    ensures Glob(DELETED_GROUP_PATTERN, Key(ListSegments(prefix, tenant, user, q)))
  {
    var list := ListSegments(prefix, tenant, user, q);
    assert list[4] == "user" && list[5] == user;
    UserThenColon(["tenants"], user, ["with_permissions"]);
    assert TenantsSegments(user) == ["tenants"] + (["user", user] + ["with_permissions"]);
    UserThenColon(list[..4], user, list[6..]);
    assert list == list[..4] + (["user", user] + list[6..]);
  }

  lemma UserThenColon(before: seq<string>, user: string, after: seq<string>)
    requires before != [] && after != []
    ensures Glob(DELETED_GROUP_PATTERN, Key(before + (["user", user] + after)))
  {
    JoinAppend(before, ["user", user] + after);
    assert ["user", user] + after == ["user"] + ([user] + after);
    JoinAppend(["user"], [user] + after);
    JoinAppend([user], after);
    var lead, rest := Key(before) + ":", user + ":" + Key(after);
    var s := lead + ("user" + ":" + rest);
    assert s == Key(before + (["user", user] + after));
    assert "*user:*:*" == ['*'] + ("user" + ":" + "*:*");
    MatchesMany('*', '?', "user" + ":" + "*:*", s);
    assert s[|lead|..] == "user" + ":" + rest;
    StripLiteral('*', '?', "user" + ":", "*:*", rest);
    assert "*:*" == ['*'] + (":" + "*");
    MatchesMany('*', '?', ":" + "*", rest);
    assert rest[|user|..] == ":" + Key(after);
    StripLiteral('*', '?', ":", "*", Key(after));
    PrefixPattern('*', '?', "", Key(after));
    assert "" + "*" == "*";
  }

  /** ... but not the group entry itself, which keeps naming the deleted group. */
  lemma DeletedGroupMissesGroups(user: string)
    requires Plain(user)
    ensures !Glob(DELETED_GROUP_PATTERN, Key(GroupsSegments(user)))
  {
    var lead := "identity:groups:user:";
    GroupsKeyText(user);
    LeadShape(lead);
    if Glob(DELETED_GROUP_PATTERN, lead + user) {
      var i := DeletedGroupShape(lead + user);
      NoUserBeforeColon(lead, user, i);
    }
  }

  lemma NoUserBeforeColon(lead: string, user: string, i: nat)
    requires Plain(user) && |lead| == 21 && forall k :: 0 <= k < 16 ==> !(lead[k] == 'u' && lead[k + 1] == 's')
    requires i + 5 <= |lead + user| && (lead + user)[i] == 'u' && (lead + user)[i + 1] == 's'
    ensures ':' !in (lead + user)[i + 5..]
  {
    var s := lead + user;
    assert i >= 16;
    assert forall k :: 21 <= k < |s| ==> s[k] == user[k - 21] && user[k - 21] in user;
    var after := s[i + 5..];
    assert forall k :: 0 <= k < |after| ==> after[k] == s[i + 5 + k] && i + 5 + k >= 21;
  }

  lemma LeadShape(lead: string)
    requires lead == "identity:groups:user:"
    ensures |lead| == 21 && forall i :: 0 <= i < 16 ==> !(lead[i] == 'u' && lead[i + 1] == 's')
  {
  }

  lemma GroupsKeyText(user: string)
    ensures Key(GroupsSegments(user)) == "identity:groups:user:" + user
  {
    assert GroupsSegments(user) == ["identity"] + (["groups"] + (["user"] + [user]));
    JoinAppend(["user"], [user]);
    JoinAppend(["groups"], ["user"] + [user]);
    JoinAppend(["identity"], ["groups"] + (["user"] + [user]));
  }

  /** What the deleted-group pattern asks for: `user:` and, after it, another colon. */
  lemma DeletedGroupShape(s: string) returns (i: nat)
    requires Glob(DELETED_GROUP_PATTERN, s)
    ensures i + 5 <= |s| && s[i] == 'u' && s[i + 1] == 's' && ':' in s[i + 5..]
  {
    assert "*user:*:*" == ['*'] + ("user:" + "*:*");
    MatchesMany('*', '?', "user:" + "*:*", s);
    i :| i <= |s| && Matches('*', '?', "user:" + "*:*", s[i..]);
    MatchesLiteral('*', '?', "user:", "*:*", s[i..]);
    var rest := s[i..][5..];
    assert rest == s[i + 5..];
    assert "user:"[0] == s[i..][0] && "user:"[1] == s[i..][1];
    assert "*:*" == ['*'] + (":" + "*");
    MatchesMany('*', '?', ":" + "*", rest);
    var j: nat :| j <= |rest| && Matches('*', '?', ":" + "*", rest[j..]);
    MatchesLiteral('*', '?', ":", "*", rest[j..]);
    assert rest[j] == ':';
  }

  /** Tenant deletion and identity-group role changes clear every user's tenant-role entry. */
  lemma AllTenantRolesReached(user: string)
    requires Plain(user)
    ensures Glob(ALL_TENANT_ROLES_PATTERN, Key(TenantsSegments(user)))
  {
    assert TenantsSegments(user) == ["tenants", "user"] + ([user] + ["with_permissions"]);
    JoinAppend(["tenants", "user"], [user] + ["with_permissions"]);
    JoinAppend([user], ["with_permissions"]);
    JoinIsLiteral(["tenants", "user"]);
    assert ":with_permissions" == ":" + "with_permissions";
    BetweenEnds(Key(["tenants", "user"]) + ":", user, ":with_permissions");
    assert Key(TenantsSegments(user)) == (Key(["tenants", "user"]) + ":") + (user + ":with_permissions");
  }

  lemma BetweenEnds(lead: string, middle: string, last: string)
    requires Literal('*', '?', lead) && Literal('*', '?', last)
    ensures Glob(lead + ("*" + last), lead + (middle + last))
  {
    StripLiteral('*', '?', lead, "*" + last, middle + last);
    SuffixPattern('*', '?', last, middle + last);
    assert "*" + last == ['*'] + last;
  }

  lemma AllGroupsReached(user: string)
    requires Plain(user)
    ensures Glob(ALL_GROUPS_PATTERN, Key(GroupsSegments(user)))
  {
    PrefixMatches(["identity", "groups", "user"], GroupsSegments(user));
  }

  /** A permission change clears the resource's cached permission list; deleting the resource clears a pattern that
      names the resource by its own key and misses that list, for every key but "res". */
  lemma PermissionPatterns(prefix: string, tenant: string, resourceKey: string, resource: string)
    requires Plain(prefix) && Plain(tenant) && Plain(resourceKey) && Plain(resource)
    ensures Glob(PermissionsPattern(prefix, tenant, resourceKey, resource), Key(PermissionsSegments(prefix, tenant, resource))) <==>
      resourceKey == "res"
  {
    var key := PermissionsSegments(prefix, tenant, resource);
    var lead := [prefix, "permissions", "tenant", tenant, resourceKey, resource];
    PrefixMatches(lead, key);
    assert lead[4] == resourceKey && key[4] == "res";
    if resourceKey == "res" {
      assert lead == key[..6];
    }
  }

  /** The tenant-detail key is never matched by the pattern meant to clear it: nothing follows the tenant id. */
  lemma TenantPatternMisses(tenant: string, tenant': string)
    requires Plain(tenant) && Plain(tenant')
    ensures !Glob(TenantPattern(tenant), Key(TenantDetailSegments(tenant')))
  {
    PrefixMatches(["tenants", "detail", tenant], TenantDetailSegments(tenant'));
  }
}
