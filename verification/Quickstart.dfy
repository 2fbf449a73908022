/** Quickstart (quickstart.service.ts): hosts are grouped by normalised username, each
    group gets an environment, and the registered hosts of each group get a policy for
    that environment.  The environments and policies live on the service's side. */
module Quickstart {
  import opened Wrappers
  import opened OrderedMaps

  datatype SshHost = SshHost(name: string, hostIp: string, port: int, username: string, identityFile: string)

  datatype RegistrableHost = RegistrableHost(host: SshHost, envId: nat)

  datatype RegisteredHost = RegisteredHost(targetId: string, environmentId: nat, host: SshHost)

  datatype Environment = Environment(id: nat, name: string)

  datatype Policy = Policy(name: string, environmentId: nat, targetUser: string)

  // ---------- Grouping ----------

  type Groups<H> = Entries<string, seq<H>>

  function AddToGroup<H>(groups: Groups<H>, key: string, host: H): Groups<H> {
    match Find(groups, key)
    case Some(members) => Set(groups, key, members + [host])
    case None => Set(groups, key, [host])
  }

  function Group<H>(key: H -> string, hosts: seq<H>): Groups<H> {
    if hosts == [] then []
    else
      var n := |hosts| - 1;
      AddToGroup(Group(key, hosts[..n]), key(hosts[n]), hosts[n])
  }

  /** The hosts with one key, in order. */
  function OfKey<H>(key: H -> string, hosts: seq<H>, k: string): seq<H> {
    if hosts == [] then []
    else
      var n := |hosts| - 1;
      OfKey(key, hosts[..n], k) + if key(hosts[n]) == k then [hosts[n]] else []
  }

  function Members<H>(groups: Groups<H>): seq<H> {
    if groups == [] then [] else groups[0].value + Members(groups[1..])
  }

  method BuildGroups<H>(key: H -> string, hosts: seq<H>) returns (groups: Groups<H>)
    ensures groups == Group(key, hosts)
  {
    groups := [];
    for i := 0 to |hosts|
      invariant groups == Group(key, hosts[..i])
    {
      assert hosts[..i + 1][..i] == hosts[..i];
      var usernameMatch := key(hosts[i]);
      var matching := Find(groups, usernameMatch);
      if matching.Some? {
        groups := Set(groups, usernameMatch, matching.value + [hosts[i]]);
      } else {
        groups := Set(groups, usernameMatch, [hosts[i]]);
      }
    }
    assert hosts[..|hosts|] == hosts;
  }

  lemma {:induction false} GroupUnique<H>(key: H -> string, hosts: seq<H>)
    ensures Unique(Group(key, hosts))
  {
    if hosts != [] {
      var n := |hosts| - 1;
      var before := Group(key, hosts[..n]);
      GroupUnique(key, hosts[..n]);
      SetUnique(before, key(hosts[n]), [hosts[n]]);
      match Find(before, key(hosts[n]))
      case Some(members) => SetUnique(before, key(hosts[n]), members + [hosts[n]]);
      case None =>
    }
  }

  lemma FindSet<V>(m: Entries<string, V>, k: string, v: V, n: string)
    requires Unique(m)
    ensures Find(Set(m, k, v), n) == if n == k then Some(v) else Find(m, n)
  {
    NamedSet(m, k, v, n);
    FindNamed(Set(m, k, v), n);
    FindNamed(m, n);
  }

  /** A group holds exactly the hosts of its key, in their original order. */
  lemma {:induction false} GroupHolds<H>(key: H -> string, hosts: seq<H>, k: string)
    ensures Find(Group(key, hosts), k) == if OfKey(key, hosts, k) == [] then None else Some(OfKey(key, hosts, k))
  {
    if hosts != [] {
      var n := |hosts| - 1;
      var before, u := Group(key, hosts[..n]), key(hosts[n]);
      GroupHolds(key, hosts[..n], k);
      GroupHolds(key, hosts[..n], u);
      GroupUnique(key, hosts[..n]);
      match Find(before, u) {
        case Some(members) =>
          FindSet(before, u, members + [hosts[n]], k);
        case None =>
          FindSet(before, u, [hosts[n]], k);
          assert OfKey(key, hosts[..n], u) + [hosts[n]] == [hosts[n]];
      }
      assert OfKey(key, hosts[..n], k) + [] == OfKey(key, hosts[..n], k);
    }
  }

  /** The keys in the order in which they occur first. */
  function FirstKeys<H>(key: H -> string, hosts: seq<H>): seq<string> {
    if hosts == [] then []
    else
      var n := |hosts| - 1;
      FirstKeys(key, hosts[..n]) + if key(hosts[n]) in FirstKeys(key, hosts[..n]) then [] else [key(hosts[n])]
  }

  /** The groups come in the order in which their keys occur first. */
  lemma {:induction false} GroupsInOrder<H>(key: H -> string, hosts: seq<H>)
    ensures KeySeq(Group(key, hosts)) == FirstKeys(key, hosts)
  {
    if hosts != [] {
      var n := |hosts| - 1;
      var before, k := Group(key, hosts[..n]), key(hosts[n]);
      GroupsInOrder(key, hosts[..n]);
      KeySeqMembers(before, k);
      match Find(before, k)
      case Some(members) => SetInPlace(before, k, members + [hosts[n]]);
      case None => SetInPlace(before, k, [hosts[n]]);
    }
  }

  lemma KeySeqMembers<V>(m: Entries<string, V>, k: string)
    ensures k in KeySeq(m) <==> k in Keys(m)
  {
    if k in KeySeq(m) {
      var i :| 0 <= i < |m| && KeySeq(m)[i] == k;
      assert m[i] in m;
    }
    if e :| e in m && e.key == k {
      var i :| 0 <= i < |m| && m[i] == e;
      assert KeySeq(m)[i] == k;
    }
  }

  lemma {:induction false} MembersGrow<H>(m: Groups<H>, k: string, members: seq<H>, h: H)
    requires Find(m, k) == Some(members)
    ensures multiset(Members(Set(m, k, members + [h]))) == multiset(Members(m)) + multiset{h}
  {
    var rest := m[1..];
    if m[0].key == k {
      var grown := [Entry(k, members + [h])] + rest;
      assert grown[1..] == rest;
      assert Members(grown) == members + [h] + Members(rest);
    } else {
      assert Find(rest, k) == Find(m, k);
      MembersGrow(rest, k, members, h);
      var grown := [m[0]] + Set(rest, k, members + [h]);
      assert grown[1..] == Set(rest, k, members + [h]);
      assert Members(grown) == m[0].value + Members(Set(rest, k, members + [h]));
    }
  }

  lemma {:induction false} MembersSnoc<H>(groups: Groups<H>, g: Entry<string, seq<H>>)
    ensures Members(groups + [g]) == Members(groups) + g.value
  {
    if groups == [] {
      assert groups + [g] == [g] && Members([g]) == g.value + Members([]);
      assert g.value + [] == g.value;
    } else {
      MembersSnoc(groups[1..], g);
      assert (groups + [g])[1..] == groups[1..] + [g];
    }
  }

  lemma {:induction false} GroupPermutes<H>(key: H -> string, hosts: seq<H>)
    ensures multiset(Members(Group(key, hosts))) == multiset(hosts)
  {
    if hosts != [] {
      var n := |hosts| - 1;
      GroupPermutes(key, hosts[..n]);
      AddPermutes(Group(key, hosts[..n]), key(hosts[n]), hosts[n]);
      assert hosts == hosts[..n] + [hosts[n]];
    }
  }

  lemma AddPermutes<H>(groups: Groups<H>, k: string, h: H)
    ensures multiset(Members(AddToGroup(groups, k, h))) == multiset(Members(groups)) + multiset{h}
  {
    match Find(groups, k) {
      case Some(members) =>
        MembersGrow(groups, k, members, h);
      case None =>
        SetNew(groups, k, [h]);
        MembersSnoc(groups, Entry(k, [h]));
    }
  }

  // ---------- Environments ----------

  /** What the service holds: the environments, and the IDs it has given out. */
  datatype Service = Service(environments: seq<Environment>, nextId: nat)

  ghost predicate ValidService(s: Service) {
    && (forall e :: e in s.environments ==> e.id < s.nextId)
    && forall i, j :: 0 <= i < j < |s.environments| ==> s.environments[i].id != s.environments[j].id
  }

  function EnvName(username: string): string {
    username + "-users_quickstart"
  }

  /** `envs.find(env => env.name === name)` */
  function FindEnv(envs: seq<Environment>, name: string): Option<nat> {
    if envs == [] then None
    else if envs[0].name == name then Some(envs[0].id)
    else FindEnv(envs[1..], name)
  }

  function EnsureEnv(s: Service, name: string): (Service, nat) {
    match FindEnv(s.environments, name)
    case Some(id) => (s, id)
    case None => (Service(s.environments + [Environment(s.nextId, name)], s.nextId + 1), s.nextId)
  }

  function Registrables(hosts: seq<SshHost>, envId: nat): (r: seq<RegistrableHost>)
    ensures |r| == |hosts| && forall i :: 0 <= i < |r| ==> r[i] == RegistrableHost(hosts[i], envId)
  {
    seq(|hosts|, i requires 0 <= i < |hosts| => RegistrableHost(hosts[i], envId))
  }

  /** The requests for the usernames in `failing` are rejected. */
  function CreateEnvs(s: Service, groups: Groups<SshHost>, failing: set<string>): (Service, seq<RegistrableHost>) {
    if groups == [] then (s, [])
    else
      var n := |groups| - 1;
      var (before, out) := CreateEnvs(s, groups[..n], failing);
      if groups[n].key in failing then (before, out)
      else
        var (after, envId) := EnsureEnv(before, EnvName(groups[n].key));
        (after, out + Registrables(groups[n].value, envId))
  }

  class QuickstartService {
    const lower: string -> string
    var environments: seq<Environment>
    var nextId: nat
    var policies: seq<Policy>

    constructor (lower: string -> string, environments: seq<Environment>, nextId: nat, policies: seq<Policy>)
      ensures this.lower == lower && State() == Service(environments, nextId) && this.policies == policies
    {
      this.lower, this.environments, this.nextId, this.policies := lower, environments, nextId, policies;
    }

    function State(): Service
      reads this
    {
      Service(environments, nextId)
    }

    method CreateQuickstartEnvironment(name: string) returns (id: nat)
      modifies `environments, `nextId
      ensures State() == Service(old(environments) + [Environment(old(nextId), name)], old(nextId) + 1)
      ensures id == old(nextId)
    {
      id := nextId;
      environments := environments + [Environment(id, name)];
      nextId := nextId + 1;
    }

    method CreateEnvForUniqueUsernames(hostsToAdd: seq<SshHost>, failing: set<string>) returns (out: seq<RegistrableHost>)
      modifies `environments, `nextId
      ensures (State(), out) == CreateEnvs(old(State()), Group(HostKey(lower), hostsToAdd), failing)
    {
      var usernameMap := BuildGroups(HostKey(lower), hostsToAdd);
      out := [];
      for i := 0 to |usernameMap|
        invariant (State(), out) == CreateEnvs(old(State()), usernameMap[..i], failing)
      {
        CreateEnvsStep(old(State()), usernameMap, failing, i);
        var username, hosts := usernameMap[i].key, usernameMap[i].value;
        if username in failing {
          continue;
        }
        var found := FindEnv(environments, EnvName(username));
        var envId: nat;
        if found.None? {
          envId := CreateQuickstartEnvironment(EnvName(username));
        } else {
          envId := found.value;
        }
        out := out + Registrables(hosts, envId);
      }
      assert usernameMap[..|usernameMap|] == usernameMap;
    }

    method CreatePolicyForUniqueUsernames(registered: seq<RegisteredHost>, failing: set<string>)
      returns (connectable: seq<RegisteredHost>)
      modifies `policies
      ensures (policies, connectable) == CreatePolicies(old(policies), Group(RegisteredKey(lower), registered), failing)
    {
      var usernameMap := BuildGroups(RegisteredKey(lower), registered);
      connectable := [];
      for i := 0 to |usernameMap|
        invariant (policies, connectable) == CreatePolicies(old(policies), usernameMap[..i], failing)
      {
        assert usernameMap[..i + 1][..i] == usernameMap[..i];
        var username, targets := usernameMap[i].key, usernameMap[i].value;
        if username in failing {
          continue;
        }
        if !HasPolicy(policies, PolicyName(username)) && targets != [] {
          policies := policies + [Policy(PolicyName(username), targets[0].environmentId, username)];
        }
        connectable := connectable + targets;
      }
      assert usernameMap[..|usernameMap|] == usernameMap;
    }
  }

  function HostKey(lower: string -> string): SshHost -> string {
    (h: SshHost) => lower(h.username)
  }

  function RegisteredKey(lower: string -> string): RegisteredHost -> string {
    (r: RegisteredHost) => lower(r.host.username)
  }

  /** What the loop over the groups does for one more group. */
  lemma CreateEnvsStep(s: Service, groups: Groups<SshHost>, failing: set<string>, i: nat)
    requires i < |groups|
    ensures CreateEnvs(s, groups[..i + 1], failing) ==
      var (before, out) := CreateEnvs(s, groups[..i], failing);
      if groups[i].key in failing then (before, out)
      else
        var (after, envId) := EnsureEnv(before, EnvName(groups[i].key));
        (after, out + Registrables(groups[i].value, envId))
  {
    assert groups[..i + 1][..i] == groups[..i];
  }

  // ---------- What grouping and environments promise ----------

  lemma {:induction false} FindEnvAppend(envs: seq<Environment>, e: Environment, name: string)
    ensures FindEnv(envs + [e], name) ==
      if FindEnv(envs, name).Some? then FindEnv(envs, name) else if e.name == name then Some(e.id) else None
  {
    if envs == [] {
      assert envs + [e] == [e];
    } else {
      FindEnvAppend(envs[1..], e, name);
      assert (envs + [e])[1..] == envs[1..] + [e];
    }
  }

  lemma {:induction false} FindEnvIs(envs: seq<Environment>, name: string)
    requires FindEnv(envs, name).Some?
    ensures Environment(FindEnv(envs, name).value, name) in envs
  {
    if envs[0].name != name {
      FindEnvIs(envs[1..], name);
    }
  }

  /** Distinct environment names never resolve to the same ID. */
  lemma EnvIdsDistinct(s: Service, a: string, b: string)
    requires ValidService(s) && FindEnv(s.environments, a).Some? && FindEnv(s.environments, a) == FindEnv(s.environments, b)
    ensures a == b
  {
    FindEnvIs(s.environments, a);
    FindEnvIs(s.environments, b);
  }

  lemma EnvNameInjective(a: string, b: string)
    requires EnvName(a) == EnvName(b)
    ensures a == b
  {
    assert EnvName(a)[..|a|] == a && EnvName(b)[..|b|] == b;
  }

  /** Names that resolve keep resolving to the same environment, and the service stays valid. */
  lemma EnsureEnvKeeps(s: Service, name: string)
    requires ValidService(s)
    ensures var (t, id) := EnsureEnv(s, name);
      && ValidService(t) && FindEnv(t.environments, name) == Some(id)
      && forall a :: FindEnv(s.environments, a).Some? ==> FindEnv(t.environments, a) == FindEnv(s.environments, a)
  {
    var (t, id) := EnsureEnv(s, name);
    if FindEnv(s.environments, name).None? {
      forall a ensures FindEnv(s.environments, a).Some? ==> FindEnv(t.environments, a) == FindEnv(s.environments, a) {
        FindEnvAppend(s.environments, Environment(s.nextId, name), a);
      }
      FindEnvAppend(s.environments, Environment(s.nextId, name), name);
    }
  }

  /** Every output host lies in the environment its group's name resolves to. */
  ghost predicate Placed(lower: string -> string, s: Service, out: seq<RegistrableHost>) {
    forall r :: r in out ==> FindEnv(s.environments, EnvName(lower(r.host.username))) == Some(r.envId)
  }

  /** Every group holds hosts of its own key only. */
  ghost predicate GroupsOf<H(!new)>(key: H -> string, groups: Groups<H>) {
    forall g, h :: g in groups && h in g.value ==> key(h) == g.key
  }

  lemma {:induction false} CreateEnvsPlaces(lower: string -> string, s: Service, groups: Groups<SshHost>, failing: set<string>)
    requires ValidService(s) && GroupsOf(HostKey(lower), groups)
    ensures var (t, out) := CreateEnvs(s, groups, failing);
      && ValidService(t) && Placed(lower, t, out)
      && (forall g :: g in groups && g.key !in failing ==> FindEnv(t.environments, EnvName(g.key)).Some?)
      && forall a :: FindEnv(s.environments, a).Some? ==> FindEnv(t.environments, a) == FindEnv(s.environments, a)
  {
    if groups != [] {
      var n := |groups| - 1;
      assert forall g :: g in groups[..n] ==> g in groups;
      CreateEnvsPlaces(lower, s, groups[..n], failing);
      var (before, out) := CreateEnvs(s, groups[..n], failing);
      if groups[n].key !in failing {
        EnsureEnvKeeps(before, EnvName(groups[n].key));
        var (t, id) := EnsureEnv(before, EnvName(groups[n].key));
        assert groups[n] in groups;
        forall r | r in Registrables(groups[n].value, id) ensures lower(r.host.username) == groups[n].key && r.envId == id {
          var i :| 0 <= i < |groups[n].value| && Registrables(groups[n].value, id)[i] == r;
          assert groups[n].value[i] in groups[n].value;
          assert HostKey(lower)(r.host) == groups[n].key;
        }
      }
    }
  }

  lemma {:induction false} OfKeyMembers<H>(key: H -> string, hosts: seq<H>, k: string)
    ensures forall h :: h in OfKey(key, hosts, k) <==> h in hosts && key(h) == k
  {
    if hosts != [] {
      OfKeyMembers(key, hosts[..|hosts| - 1], k);
      assert hosts == hosts[..|hosts| - 1] + [hosts[|hosts| - 1]];
    }
  }

  lemma GroupsAreOf<H(!new)>(key: H -> string, hosts: seq<H>)
    ensures GroupsOf(key, Group(key, hosts))
    ensures forall g, h :: g in Group(key, hosts) && h in g.value ==> h in hosts
  {
    var groups := Group(key, hosts);
    GroupUnique(key, hosts);
    forall g, h | g in groups && h in g.value ensures key(h) == g.key && h in hosts {
      GroupHolds(key, hosts, g.key);
      FindUnique(groups, g);
      OfKeyMembers(key, hosts, g.key);
    }
  }

  /** Two hosts get the same environment if and only if their normalised usernames agree. */
  lemma SameEnvIffSameUsername(lower: string -> string, s: Service, hosts: seq<SshHost>, failing: set<string>, i: nat, j: nat)
    requires ValidService(s)
    requires var out := CreateEnvs(s, Group(HostKey(lower), hosts), failing).1; i < |out| && j < |out|
    ensures var out := CreateEnvs(s, Group(HostKey(lower), hosts), failing).1;
      out[i].envId == out[j].envId <==> lower(out[i].host.username) == lower(out[j].host.username)
  {
    GroupsAreOf(HostKey(lower), hosts);
    CreateEnvsPlaces(lower, s, Group(HostKey(lower), hosts), failing);
    var (t, out) := CreateEnvs(s, Group(HostKey(lower), hosts), failing);
    assert out[i] in out && out[j] in out;
    if out[i].envId == out[j].envId {
      EnvIdsDistinct(t, EnvName(lower(out[i].host.username)), EnvName(lower(out[j].host.username)));
      EnvNameInjective(lower(out[i].host.username), lower(out[j].host.username));
    }
  }

  // ---------- Output: which hosts, in which order ----------

  function Hosts(out: seq<RegistrableHost>): (r: seq<SshHost>)
    ensures |r| == |out|
  {
    seq(|out|, i requires 0 <= i < |out| => out[i].host)
  }

  /** The members of the groups whose requests did not fail. */
  function Surviving<H>(groups: Groups<H>, failing: set<string>): seq<H> {
    if groups == [] then []
    else
      var n := |groups| - 1;
      Surviving(groups[..n], failing) + if groups[n].key in failing then [] else groups[n].value
  }

  lemma {:induction false} OutputSurvives(s: Service, groups: Groups<SshHost>, failing: set<string>)
    ensures Hosts(CreateEnvs(s, groups, failing).1) == Surviving(groups, failing)
  {
    if groups != [] {
      var n := |groups| - 1;
      OutputSurvives(s, groups[..n], failing);
      var (before, out) := CreateEnvs(s, groups[..n], failing);
      if groups[n].key !in failing {
        var (t, id) := EnsureEnv(before, EnvName(groups[n].key));
        assert Hosts(out + Registrables(groups[n].value, id)) == Hosts(out) + groups[n].value;
      } else {
        assert Surviving(groups[..n], failing) + [] == Surviving(groups[..n], failing);
      }
    }
  }

  lemma {:induction false} OfKeyConcat<H>(key: H -> string, a: seq<H>, b: seq<H>, k: string)
    ensures OfKey(key, a + b, k) == OfKey(key, a, k) + OfKey(key, b, k)
  {
    if b == [] {
      assert a + b == a && OfKey(key, a, k) + [] == OfKey(key, a, k);
    } else {
      var n := |b| - 1;
      OfKeyConcat(key, a, b[..n], k);
      assert (a + b)[..|a + b| - 1] == a + b[..n] && (a + b)[|a + b| - 1] == b[n];
    }
  }

  lemma {:induction false} OfKeyUniform<H>(key: H -> string, hosts: seq<H>, u: string, k: string)
    requires forall h :: h in hosts ==> key(h) == u
    ensures OfKey(key, hosts, k) == if u == k then hosts else []
  {
    if hosts != [] {
      var n := |hosts| - 1;
      assert hosts[n] in hosts && forall h :: h in hosts[..n] ==> h in hosts;
      OfKeyUniform(key, hosts[..n], u, k);
      assert hosts == hosts[..n] + [hosts[n]];
    }
  }

  lemma FindPrefix<H>(groups: Groups<H>, k: string)
    requires groups != [] && Unique(groups)
    ensures var n := |groups| - 1;
      Find(groups, k) == if groups[n].key == k then Some(groups[n].value) else Find(groups[..n], k)
  {
    var n := |groups| - 1;
    assert groups == groups[..n] + [groups[n]];
    FindNamed(groups, k);
    FindNamed(groups[..n], k);
    NamedSnoc(groups[..n], groups[n], k);
    if groups[n].key == k {
      FindUnique(groups, groups[n]);
    }
  }

  lemma {:induction false} SurvivingOfKey<H(!new)>(key: H -> string, groups: Groups<H>, failing: set<string>, k: string)
    requires Unique(groups) && GroupsOf(key, groups)
    ensures OfKey(key, Surviving(groups, failing), k) ==
      if k in failing || Find(groups, k).None? then [] else Find(groups, k).value
  {
    if groups != [] {
      var n := |groups| - 1;
      assert forall g :: g in groups[..n] ==> g in groups;
      assert groups[n] in groups;
      SurvivingOfKey(key, groups[..n], failing, k);
      FindPrefix(groups, k);
      var more := if groups[n].key in failing then [] else groups[n].value;
      OfKeyConcat(key, Surviving(groups[..n], failing), more, k);
      OfKeyUniform(key, more, groups[n].key, k);
      assert Surviving(groups, failing) == Surviving(groups[..n], failing) + more;
      if groups[n].key == k {
        assert Find(groups[..n], k).None? by {
          PrefixLacks(groups, k);
        }
      }
    }
  }

  lemma PrefixLacks<H>(groups: Groups<H>, k: string)
    requires groups != [] && Unique(groups) && groups[|groups| - 1].key == k
    ensures Find(groups[..|groups| - 1], k).None?
  {
  }

  /** For each username, the output holds the input's hosts of that username, all of them
      and in their order, or none if the username's request failed: failures drop whole groups. */
  lemma OutputStable(lower: string -> string, s: Service, hosts: seq<SshHost>, failing: set<string>, k: string)
    ensures OfKey(HostKey(lower), Hosts(CreateEnvs(s, Group(HostKey(lower), hosts), failing).1), k) ==
      if k in failing then [] else OfKey(HostKey(lower), hosts, k)
  {
    var groups := Group(HostKey(lower), hosts);
    OutputSurvives(s, groups, failing);
    GroupUnique(HostKey(lower), hosts);
    GroupsAreOf(HostKey(lower), hosts);
    SurvivingOfKey(HostKey(lower), groups, failing, k);
    GroupHolds(HostKey(lower), hosts, k);
  }

  lemma {:induction false} SurvivingAll<H>(groups: Groups<H>)
    ensures Surviving(groups, {}) == Members(groups)
  {
    if groups != [] {
      var n := |groups| - 1;
      SurvivingAll(groups[..n]);
      MembersSnoc(groups[..n], groups[n]);
      assert groups == groups[..n] + [groups[n]];
    }
  }

  /** Without failures the output is a permutation of the input. */
  lemma OutputPermutes(lower: string -> string, s: Service, hosts: seq<SshHost>)
    ensures multiset(Hosts(CreateEnvs(s, Group(HostKey(lower), hosts), {}).1)) == multiset(hosts)
  {
    var groups := Group(HostKey(lower), hosts);
    OutputSurvives(s, groups, {});
    SurvivingAll(groups);
    GroupPermutes(HostKey(lower), hosts);
  }

  // ---------- A second run ----------

  /** Which environments exist after a run: the old ones and those of the requests that did not fail. */
  lemma {:induction false} EnvExistsIff(s: Service, groups: Groups<SshHost>, failing: set<string>, u: string)
    ensures FindEnv(CreateEnvs(s, groups, failing).0.environments, EnvName(u)).Some? <==>
      FindEnv(s.environments, EnvName(u)).Some? || (u !in failing && u in Keys(groups))
  {
    if groups != [] {
      var n := |groups| - 1;
      EnvExistsIff(s, groups[..n], failing, u);
      assert groups == groups[..n] + [groups[n]];
      KeysConcat(groups[..n], [groups[n]]);
      var before, name := CreateEnvs(s, groups[..n], failing).0, EnvName(groups[n].key);
      FindEnvAppend(before.environments, Environment(before.nextId, name), EnvName(u));
      if name == EnvName(u) {
        EnvNameInjective(groups[n].key, u);
      }
    }
  }

  /** Nothing else is created: a new environment is named after the username of a request that did not fail. */
  lemma {:induction false} NewEnvNames(s: Service, groups: Groups<SshHost>, failing: set<string>, name: string)
    requires FindEnv(s.environments, name).None? && FindEnv(CreateEnvs(s, groups, failing).0.environments, name).Some?
    ensures exists u :: u in Keys(groups) && u !in failing && name == u + "-users_quickstart"
  {
    var n := |groups| - 1;
    var before, added := CreateEnvs(s, groups[..n], failing).0, EnvName(groups[n].key);
    assert groups == groups[..n] + [groups[n]];
    KeysConcat(groups[..n], [groups[n]]);
    FindEnvAppend(before.environments, Environment(before.nextId, added), name);
    if FindEnv(before.environments, name).Some? {
      NewEnvNames(s, groups[..n], failing, name);
    } else {
      assert groups[n] in groups && groups[n].key in Keys(groups);
    }
  }

  lemma {:induction false} NothingCreatedIff(t: Service, groups: Groups<SshHost>, failing: set<string>)
    ensures CreateEnvs(t, groups, failing).0 == t <==>
      forall u :: u in Keys(groups) && u !in failing ==> FindEnv(t.environments, EnvName(u)).Some?
  {
    if u :| u in Keys(groups) && u !in failing && FindEnv(t.environments, EnvName(u)).None? {
      EnvExistsIff(t, groups, failing, u);
    } else if groups != [] {
      var n := |groups| - 1;
      assert groups == groups[..n] + [groups[n]];
      KeysConcat(groups[..n], [groups[n]]);
      NothingCreatedIff(t, groups[..n], failing);
    }
  }

  lemma GroupKeys<H(!new)>(key: H -> string, hosts: seq<H>)
    ensures forall k :: k in Keys(Group(key, hosts)) <==> exists h :: h in hosts && key(h) == k
  {
    forall k ensures k in Keys(Group(key, hosts)) <==> exists h :: h in hosts && key(h) == k {
      GroupHolds(key, hosts, k);
      OfKeyMembers(key, hosts, k);
      var members := OfKey(key, hosts, k);
      if members != [] {
        assert members[0] in members;
      }
    }
  }

  /** A second run, in which other requests may fail, creates nothing if and only if each
      username's request failed now, succeeded before, or was not needed in the first place. */
  lemma SecondRunCreatesNothing(lower: string -> string, s: Service, hosts: seq<SshHost>, failing: set<string>, again: set<string>)
    ensures var groups := Group(HostKey(lower), hosts);
      var t := CreateEnvs(s, groups, failing).0;
      CreateEnvs(t, groups, again).0 == t <==> forall h :: h in hosts ==>
        lower(h.username) in again || lower(h.username) !in failing || FindEnv(s.environments, EnvName(lower(h.username))).Some?
  {
    var groups := Group(HostKey(lower), hosts);
    var t := CreateEnvs(s, groups, failing).0;
    NothingCreatedIff(t, groups, again);
    GroupKeys(HostKey(lower), hosts);
    forall u ensures FindEnv(t.environments, EnvName(u)).Some? <==>
      FindEnv(s.environments, EnvName(u)).Some? || (u !in failing && u in Keys(groups))
    {
      EnvExistsIff(s, groups, failing, u);
    }
    forall h | h in hosts ensures lower(h.username) in Keys(groups) {
      assert HostKey(lower)(h) in Keys(groups);
    }
    forall u | u in Keys(groups) ensures exists h :: h in hosts && lower(h.username) == u {
      var h :| h in hosts && HostKey(lower)(h) == u;
    }
  }

  /** A second run gives every username the environment the first gave it; if the same
      requests fail, it gives the same output. */
  lemma SecondRunKeepsOutput(lower: string -> string, s: Service, hosts: seq<SshHost>, failing: set<string>, again: set<string>)
    requires ValidService(s)
    ensures var groups := Group(HostKey(lower), hosts);
      var (t, out) := CreateEnvs(s, groups, failing);
      var second := CreateEnvs(t, groups, again).1;
      && (forall a, b :: a in out && b in second && lower(a.host.username) == lower(b.host.username) ==> a.envId == b.envId)
      && (again == failing ==> second == out)
  {
    var groups := Group(HostKey(lower), hosts);
    GroupsAreOf(HostKey(lower), hosts);
    CreateEnvsPlaces(lower, s, groups, failing);
    var (t, out) := CreateEnvs(s, groups, failing);
    CreateEnvsPlaces(lower, t, groups, again);
    var (t2, second) := CreateEnvs(t, groups, again);
    assert Placed(lower, t2, out);
    if again == failing {
      OutputSurvives(s, groups, failing);
      OutputSurvives(t, groups, failing);
      PlacedSame(lower, t2, second, out);
    }
  }

  /** Where a host is placed is fixed by the service. */
  lemma PlacedSame(lower: string -> string, t: Service, a: seq<RegistrableHost>, b: seq<RegistrableHost>)
    requires Placed(lower, t, a) && Placed(lower, t, b) && Hosts(a) == Hosts(b)
    ensures a == b
  {
    assert |Hosts(a)| == |Hosts(b)|;
    forall i | 0 <= i < |a| ensures a[i] == b[i] {
      assert a[i] in a && b[i] in b;
      assert Hosts(a)[i] == Hosts(b)[i];
    }
  }

  // ---------- Policies ----------

  function PolicyName(username: string): string {
    username + "-users-policy_quickstart"
  }

  predicate HasPolicy(policies: seq<Policy>, name: string) {
    exists p :: p in policies && p.name == name
  }

  function CreatePolicies(policies: seq<Policy>, groups: Groups<RegisteredHost>, failing: set<string>)
    : (seq<Policy>, seq<RegisteredHost>)
  {
    if groups == [] then (policies, [])
    else
      var n := |groups| - 1;
      var (before, connectable) := CreatePolicies(policies, groups[..n], failing);
      var username, targets := groups[n].key, groups[n].value;
      if username in failing then (before, connectable)
      else
        (if !HasPolicy(before, PolicyName(username)) && targets != []
         then before + [Policy(PolicyName(username), targets[0].environmentId, username)] else before,
         connectable + targets)
  }

  /** A registered host reports the environment it was registered in. */
  ghost predicate RegisteredFrom(out: seq<RegistrableHost>, registered: seq<RegisteredHost>) {
    forall t :: t in registered ==> RegistrableHost(t.host, t.environmentId) in out
  }

  /** A policy permits its user in the environment all hosts with that user are in. */
  ghost predicate PolicyCovers(lower: string -> string, p: Policy, registered: seq<RegisteredHost>) {
    && p.name == p.targetUser + "-users-policy_quickstart"
    && forall t :: t in registered && lower(t.host.username) == p.targetUser ==> t.environmentId == p.environmentId
  }

  lemma {:induction false} NewPoliciesCover(lower: string -> string, policies: seq<Policy>, groups: Groups<RegisteredHost>,
      failing: set<string>, registered: seq<RegisteredHost>)
    requires forall g, t :: g in groups && t in g.value ==> t in registered && lower(t.host.username) == g.key
    requires forall a, b ::
      a in registered && b in registered && lower(a.host.username) == lower(b.host.username) ==> a.environmentId == b.environmentId
    ensures policies <= CreatePolicies(policies, groups, failing).0
    ensures forall i :: |policies| <= i < |CreatePolicies(policies, groups, failing).0| ==>
      PolicyCovers(lower, CreatePolicies(policies, groups, failing).0[i], registered)
  {
    if groups != [] {
      var n := |groups| - 1;
      assert groups[n] in groups && forall g :: g in groups[..n] ==> g in groups;
      NewPoliciesCover(lower, policies, groups[..n], failing, registered);
      if groups[n].value != [] {
        assert groups[n].value[0] in groups[n].value;
      }
    }
  }

  /** When hosts registered in the environments that quickstart prepared reach policy
      creation, every host of a group lies in the environment of the policy created for
      it, although the policy takes its environment from the group's first host only. */
  lemma PoliciesCoverGroups(lower: string -> string, s: Service, hosts: seq<SshHost>, failing: set<string>,
      registered: seq<RegisteredHost>, policies: seq<Policy>, rejecting: set<string>)
    requires ValidService(s)
    requires RegisteredFrom(CreateEnvs(s, Group(HostKey(lower), hosts), failing).1, registered)
    ensures var after := CreatePolicies(policies, Group(RegisteredKey(lower), registered), rejecting).0;
      policies <= after && forall i :: |policies| <= i < |after| ==> PolicyCovers(lower, after[i], registered)
  {
    var out := CreateEnvs(s, Group(HostKey(lower), hosts), failing).1;
    forall a, b | a in registered && b in registered && lower(a.host.username) == lower(b.host.username)
      ensures a.environmentId == b.environmentId
    {
      var i :| 0 <= i < |out| && out[i] == RegistrableHost(a.host, a.environmentId);
      var j :| 0 <= j < |out| && out[j] == RegistrableHost(b.host, b.environmentId);
      SameEnvIffSameUsername(lower, s, hosts, failing, i, j);
    }
    var groups := Group(RegisteredKey(lower), registered);
    GroupsAreOf(RegisteredKey(lower), registered);
    forall g, t | g in groups && t in g.value ensures t in registered && lower(t.host.username) == g.key {
      assert RegisteredKey(lower)(t) == g.key;
    }
    NewPoliciesCover(lower, policies, groups, rejecting, registered);
  }

  lemma PolicyNameInjective(a: string, b: string)
    requires PolicyName(a) == PolicyName(b)
    ensures a == b
  {
    assert PolicyName(a)[..|a|] == a && PolicyName(b)[..|b|] == b;
  }

  lemma {:induction false} PoliciesOfGroups(policies: seq<Policy>, groups: Groups<RegisteredHost>, rejecting: set<string>, k: string)
    ensures var (after, connectable) := CreatePolicies(policies, groups, rejecting);
      && connectable == Surviving(groups, rejecting)
      && (HasPolicy(after, PolicyName(k)) <==>
          HasPolicy(policies, PolicyName(k)) || (k !in rejecting && exists g :: g in groups && g.key == k && g.value != []))
  {
    if groups != [] {
      var n := |groups| - 1;
      PoliciesOfGroups(policies, groups[..n], rejecting, k);
      assert groups == groups[..n] + [groups[n]];
      if PolicyName(k) == PolicyName(groups[n].key) {
        PolicyNameInjective(k, groups[n].key);
      }
      assert Surviving(groups[..n], rejecting) + [] == Surviving(groups[..n], rejecting);
    }
  }

  /** A policy is created only under a name that no policy has. */
  lemma {:induction false} NewPolicyNames(policies: seq<Policy>, groups: Groups<RegisteredHost>, rejecting: set<string>)
    ensures var after := CreatePolicies(policies, groups, rejecting).0;
      && policies <= after
      && forall i, j :: |policies| <= j < |after| && 0 <= i < j ==> after[i].name != after[j].name
  {
    if groups != [] {
      NewPolicyNames(policies, groups[..|groups| - 1], rejecting);
    }
  }

  /** For each username: the connectable hosts are its registered ones, all of them and in
      their order, or none if its request was rejected; and its policy exists afterwards if and
      only if it existed before, or a host of that username is connectable. */
  lemma ConnectableStable(lower: string -> string, policies: seq<Policy>, registered: seq<RegisteredHost>, rejecting: set<string>, k: string)
    ensures var key := RegisteredKey(lower);
      var (after, connectable) := CreatePolicies(policies, Group(key, registered), rejecting);
      && OfKey(key, connectable, k) == (if k in rejecting then [] else OfKey(key, registered, k))
      && (HasPolicy(after, PolicyName(k)) <==> HasPolicy(policies, PolicyName(k)) || OfKey(key, connectable, k) != [])
  {
    var key := RegisteredKey(lower);
    var groups := Group(key, registered);
    PoliciesOfGroups(policies, groups, rejecting, k);
    GroupUnique(key, registered);
    GroupsAreOf(key, registered);
    SurvivingOfKey(key, groups, rejecting, k);
    GroupHolds(key, registered, k);
    if g :| g in groups && g.key == k && g.value != [] {
      FindUnique(groups, g);
    }
    if OfKey(key, registered, k) != [] {
      FindNamed(groups, k);
      assert Entry(k, OfKey(key, registered, k)) in groups;
    }
  }
}
