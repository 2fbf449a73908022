/** Reading hosts from an ssh config (`parseSSHHosts` in quickstart.service.ts), after
    the config was split into host blocks: the first block of a name counts. */
module SshHosts {
  import opened Wrappers
  import Sequences
  import opened OrderedMaps

  datatype Param = Param(param: string, value: string)

  datatype HostBlock = HostBlock(name: string, config: seq<Param>)

  /** The rolling build of a host; `port` is `None` when the Port parameter is not a number. */
  datatype ParsedHost = ParsedHost(
    name: string, hostIp: Option<string>, port: Option<int>, username: Option<string>, identityFile: Option<string>)

  datatype ParseError = MissingHostName | MissingUser | MissingIdentityFile

  datatype InvalidHost = InvalidHost(incomplete: ParsedHost, errors: seq<ParseError>)

  const GLOBAL := "*"

  const DEFAULT_PORT := 22

  /** How the surroundings lower-case a string, read a number and resolve a leading `~`. */
  datatype Env = Env(lower: string -> string, parseInt: string -> Option<int>, resolveHome: string -> string)

  /** The first parameter of that name, compared without case. */
  function ConfigValue(env: Env, config: seq<Param>, matching: string): Option<string> {
    if config == [] then None
    else if config[0].param != "" && env.lower(config[0].param) == env.lower(matching) then Some(config[0].value)
    else ConfigValue(env, config[1..], matching)
  }

  /** The parameter has that name, compared without case. */
  predicate IsNamed(env: Env, p: Param, name: string) {
    p.param != "" && env.lower(p.param) == env.lower(name)
  }

  /** `r` is the value of the first parameter of that name, if there is one. */
  ghost predicate FirstParam(env: Env, config: seq<Param>, name: string, r: Option<string>) {
    match r
    case None => forall i :: 0 <= i < |config| ==> !IsNamed(env, config[i], name)
    case Some(v) => exists i :: 0 <= i < |config| && IsFirstNamed(env, config, name, i) && config[i].value == v
  }

  ghost predicate IsFirstNamed(env: Env, config: seq<Param>, name: string, i: nat)
    requires i < |config|
  {
    IsNamed(env, config[i], name) && forall j :: 0 <= j < i ==> !IsNamed(env, config[j], name)
  }

  lemma {:induction false} ConfigValueIs(env: Env, config: seq<Param>, name: string)
    ensures FirstParam(env, config, name, ConfigValue(env, config, name))
  {
    if config != [] {
      var rest := config[1..];
      ConfigValueIs(env, rest, name);
      if IsNamed(env, config[0], name) {
        assert IsFirstNamed(env, config, name, 0);
      } else if i :| 0 <= i < |rest| && IsFirstNamed(env, rest, name, i) && ConfigValue(env, rest, name) == Some(rest[i].value) {
        assert forall j :: 0 <= j < |rest| ==> rest[j] == config[j + 1];
        assert IsFirstNamed(env, config, name, i + 1);
      } else {
        assert forall j :: 0 < j < |config| ==> config[j] == rest[j - 1];
      }
    }
  }

  /** Which parameter fills which field of a host: the home directory of the identity file
      is resolved, and a missing port is 22. */
  ghost predicate HostFields(env: Env, b: HostBlock, h: ParsedHost) {
    && h.name == b.name
    && FirstParam(env, b.config, "HostName", h.hostIp)
    && FirstParam(env, b.config, "User", h.username)
    && (h.identityFile.None? ==> FirstParam(env, b.config, "IdentityFile", None))
    && (h.identityFile.Some? ==> exists path :: FirstParam(env, b.config, "IdentityFile", Some(path)) && env.resolveHome(path) == h.identityFile.value)
    && (FirstParam(env, b.config, "Port", None) ==> h.port == Some(22))
    && (forall port :: FirstParam(env, b.config, "Port", Some(port)) ==> h.port == env.parseInt(port))
  }

  lemma HostIs(env: Env, b: HostBlock)
    ensures HostFields(env, b, HostOf(env, b))
  {
    ConfigValueIs(env, b.config, "HostName");
    ConfigValueIs(env, b.config, "User");
    ConfigValueIs(env, b.config, "IdentityFile");
    ConfigValueIs(env, b.config, "Port");
    forall port | FirstParam(env, b.config, "Port", Some(port)) ensures ConfigValue(env, b.config, "Port") == Some(port) {
      FirstParamUnique(env, b.config, "Port", Some(port), ConfigValue(env, b.config, "Port"));
    }
    if FirstParam(env, b.config, "Port", None) {
      FirstParamUnique(env, b.config, "Port", None, ConfigValue(env, b.config, "Port"));
    }
  }

  lemma FirstParamUnique(env: Env, config: seq<Param>, name: string, a: Option<string>, b: Option<string>)
    requires FirstParam(env, config, name, a) && FirstParam(env, config, name, b)
    ensures a == b
  {
    if a.Some? && b.Some? {
      var i :| 0 <= i < |config| && IsFirstNamed(env, config, name, i) && config[i].value == a.value;
      var j :| 0 <= j < |config| && IsFirstNamed(env, config, name, j) && config[j].value == b.value;
      assert i == j;
    }
  }

  function HostOf(env: Env, b: HostBlock): ParsedHost {
    var path, port := ConfigValue(env, b.config, "IdentityFile"), ConfigValue(env, b.config, "Port");
    ParsedHost(b.name, ConfigValue(env, b.config, "HostName"),
      if port.Some? then env.parseInt(port.value) else Some(DEFAULT_PORT),
      ConfigValue(env, b.config, "User"), if path.Some? then Some(env.resolveHome(path.value)) else None)
  }

  function ErrorsOf(h: ParsedHost): seq<ParseError> {
    (if h.hostIp.None? then [MissingHostName] else [])
    + (if h.username.None? then [MissingUser] else [])
    + (if h.identityFile.None? then [MissingIdentityFile] else [])
  }

  function Names(blocks: seq<HostBlock>): set<string> {
    set b | b in blocks :: b.name
  }

  /** The first block of each name other than the global one, in order. */
  function Kept(blocks: seq<HostBlock>): seq<HostBlock> {
    if blocks == [] then []
    else
      var n := |blocks| - 1;
      if blocks[n].name == GLOBAL || blocks[n].name in Names(blocks[..n]) then Kept(blocks[..n])
      else Kept(blocks[..n]) + [blocks[n]]
  }

  function ValidOf(env: Env, kept: seq<HostBlock>): Entries<string, ParsedHost> {
    if kept == [] then []
    else
      var n := |kept| - 1;
      var h := HostOf(env, kept[n]);
      if ErrorsOf(h) == [] then ValidOf(env, kept[..n]) + [Entry(h.name, h)] else ValidOf(env, kept[..n])
  }

  function InvalidOf(env: Env, kept: seq<HostBlock>): seq<InvalidHost> {
    if kept == [] then []
    else
      var n := |kept| - 1;
      var h := HostOf(env, kept[n]);
      if ErrorsOf(h) == [] then InvalidOf(env, kept[..n]) else InvalidOf(env, kept[..n]) + [InvalidHost(h, ErrorsOf(h))]
  }

  method ParseBlock(env: Env, block: HostBlock) returns (host: ParsedHost, errors: seq<ParseError>)
    ensures host == HostOf(env, block) && errors == ErrorsOf(host)
    ensures HostFields(env, block, host)
    ensures |errors| <= 3 && (errors == [] <==> host.hostIp.Some? && host.username.Some? && host.identityFile.Some?)
    ensures MissingHostName in errors <==> host.hostIp.None?
    ensures MissingUser in errors <==> host.username.None?
    ensures MissingIdentityFile in errors <==> host.identityFile.None?
  {
    HostIs(env, block);
    errors := [];
    var hostIp := ConfigValue(env, block.config, "HostName");
    if hostIp.None? {
      errors := errors + [MissingHostName];
    }
    var portText := ConfigValue(env, block.config, "Port");
    var port := Some(DEFAULT_PORT);
    if portText.Some? {
      port := env.parseInt(portText.value);
    }
    var user := ConfigValue(env, block.config, "User");
    if user.None? {
      errors := errors + [MissingUser];
    }
    var identityFile := ConfigValue(env, block.config, "IdentityFile");
    if identityFile.None? {
      errors := errors + [MissingIdentityFile];
    } else {
      identityFile := Some(env.resolveHome(identityFile.value));
    }
    host := ParsedHost(block.name, hostIp, port, user, identityFile);
  }

  method ParseSSHHosts(env: Env, blocks: seq<HostBlock>)
    returns (validHosts: Entries<string, ParsedHost>, invalidHosts: seq<InvalidHost>)
    ensures validHosts == ValidOf(env, Kept(blocks)) && invalidHosts == InvalidOf(env, Kept(blocks))
  {
    var seen: set<string> := {};
    validHosts, invalidHosts := [], [];
    for i := 0 to |blocks|
      invariant seen == Names(blocks[..i]) - {GLOBAL}
      invariant validHosts == ValidOf(env, Kept(blocks[..i]))
      invariant invalidHosts == InvalidOf(env, Kept(blocks[..i]))
    {
      var block := blocks[i];
      BlockStep(env, blocks, i);
      if block.name == GLOBAL || block.name in seen {
        continue;
      }
      seen := seen + {block.name};
      var host, errors := ParseBlock(env, block);
      if |errors| > 0 {
        invalidHosts := invalidHosts + [InvalidHost(host, errors)];
        continue;
      }
      validHosts := Set(validHosts, block.name, host);
    }
    assert blocks[..|blocks|] == blocks;
  }

  /** What one more block adds to the results. */
  lemma KeptSnoc(env: Env, a: seq<HostBlock>, b: HostBlock)
    ensures var h := HostOf(env, b);
      if b.name == GLOBAL || b.name in Names(a) then Kept(a + [b]) == Kept(a)
      else if ErrorsOf(h) == [] then
        && ValidOf(env, Kept(a + [b])) == ValidOf(env, Kept(a)) + [Entry(b.name, h)]
        && InvalidOf(env, Kept(a + [b])) == InvalidOf(env, Kept(a))
      else
        && ValidOf(env, Kept(a + [b])) == ValidOf(env, Kept(a))
        && InvalidOf(env, Kept(a + [b])) == InvalidOf(env, Kept(a)) + [InvalidHost(h, ErrorsOf(h))]
  {
    assert (a + [b])[..|a|] == a;
    var kept := Kept(a);
    assert (kept + [b])[..|kept|] == kept;
  }

  /** What the loop does for one more block. */
  lemma BlockStep(env: Env, blocks: seq<HostBlock>, i: nat)
    requires i < |blocks|
    ensures var a, c, b := blocks[..i], blocks[..i + 1], blocks[i];
      var h := HostOf(env, b);
      && Names(c) == Names(a) + {b.name}
      && if b.name == GLOBAL || b.name in Names(a) then Kept(c) == Kept(a)
        else if ErrorsOf(h) == [] then
          && ValidOf(env, Kept(c)) == Set(ValidOf(env, Kept(a)), b.name, h)
          && InvalidOf(env, Kept(c)) == InvalidOf(env, Kept(a))
        else
          && ValidOf(env, Kept(c)) == ValidOf(env, Kept(a))
          && InvalidOf(env, Kept(c)) == InvalidOf(env, Kept(a)) + [InvalidHost(h, ErrorsOf(h))]
  {
    var a, b := blocks[..i], blocks[i];
    assert blocks[..i + 1] == a + [b];
    NamesSnoc(a, b);
    KeptSnoc(env, a, b);
    ValidNames(env, a);
    if b.name != GLOBAL && b.name !in Names(a) {
      SetNew(ValidOf(env, Kept(a)), b.name, HostOf(env, b));
    }
  }

  lemma {:induction false} KeptMembers(blocks: seq<HostBlock>)
    ensures Names(Kept(blocks)) == Names(blocks) - {GLOBAL}
    ensures forall b :: b in Kept(blocks) ==> b in blocks
  {
    if blocks != [] {
      var n := |blocks| - 1;
      KeptMembers(blocks[..n]);
      assert blocks == blocks[..n] + [blocks[n]];
      NamesSnoc(blocks[..n], blocks[n]);
      NamesSnoc(Kept(blocks[..n]), blocks[n]);
    }
  }

  lemma NamesSnoc(a: seq<HostBlock>, b: HostBlock)
    ensures Names(a + [b]) == Names(a) + {b.name}
  {
  }

  lemma {:induction false} ValidKeys(env: Env, kept: seq<HostBlock>)
    ensures Keys(ValidOf(env, kept)) <= Names(kept)
  {
    if kept != [] {
      var n := |kept| - 1;
      ValidKeys(env, kept[..n]);
      assert kept == kept[..n] + [kept[n]];
      KeysConcat(ValidOf(env, kept[..n]), [Entry(kept[n].name, HostOf(env, kept[n]))]);
    }
  }

  lemma ValidNames(env: Env, blocks: seq<HostBlock>)
    ensures Keys(ValidOf(env, Kept(blocks))) <= Names(blocks) - {GLOBAL}
  {
    KeptMembers(blocks);
    ValidKeys(env, Kept(blocks));
  }

  /** The first block of a name. */
  function FirstBlock(blocks: seq<HostBlock>, name: string): Option<HostBlock> {
    if blocks == [] then None
    else if blocks[0].name == name then Some(blocks[0])
    else FirstBlock(blocks[1..], name)
  }

  lemma {:induction false} FirstBlockSnoc(a: seq<HostBlock>, b: HostBlock, name: string)
    ensures FirstBlock(a + [b], name) ==
      if FirstBlock(a, name).Some? then FirstBlock(a, name) else if b.name == name then Some(b) else None
    ensures FirstBlock(a, name).Some? <==> name in Names(a)
  {
    if a == [] {
      assert a + [b] == [b];
    } else {
      FirstBlockSnoc(a[1..], b, name);
      assert (a + [b])[1..] == a[1..] + [b];
      assert a == [a[0]] + a[1..];
    }
  }

  /** What the two results say about one name. */
  function InvalidNamed(invalid: seq<InvalidHost>, name: string): seq<InvalidHost> {
    if invalid == [] then []
    else
      var n := |invalid| - 1;
      if invalid[n].incomplete.name == name then InvalidNamed(invalid[..n], name) + [invalid[n]]
      else InvalidNamed(invalid[..n], name)
  }

  lemma InvalidSnoc(invalid: seq<InvalidHost>, h: InvalidHost, name: string)
    ensures InvalidNamed(invalid + [h], name) ==
      if h.incomplete.name == name then InvalidNamed(invalid, name) + [h] else InvalidNamed(invalid, name)
  {
  }

  /** What the results hold for a name whose first block is given: a valid host if and only
      if that block has a HostName, a User and an IdentityFile, and otherwise one invalid
      host with exactly the missing ones. */
  ghost predicate Reported(env: Env, first: Option<HostBlock>, name: string,
      valid: Entries<string, ParsedHost>, invalid: seq<InvalidHost>)
  {
    match first
    case None => valid == [] && invalid == []
    case Some(b) =>
      var h := HostOf(env, b);
      if h.hostIp.Some? && h.username.Some? && h.identityFile.Some? then valid == [Entry(name, h)] && invalid == []
      else valid == [] && invalid == [InvalidHost(h, ErrorsOf(h))]
  }

  /** Every name other than the global one ends up at most once, in exactly one of the two
      results, as its first block says. */
  lemma {:induction false} EachHostOnce(env: Env, blocks: seq<HostBlock>, name: string)
    requires name != GLOBAL
    ensures Reported(env, FirstBlock(blocks, name), name,
      Named(ValidOf(env, Kept(blocks)), name), InvalidNamed(InvalidOf(env, Kept(blocks)), name))
  {
    if blocks != [] {
      var n := |blocks| - 1;
      EachHostOnce(env, blocks[..n], name);
      Sequences.SplitLast(blocks);
      ReportedSnoc(env, blocks[..n], blocks[n], name);
    }
  }

  lemma {:induction false} ReportedSnoc(env: Env, a: seq<HostBlock>, b: HostBlock, name: string)
    requires name != GLOBAL
    requires Reported(env, FirstBlock(a, name), name,
      Named(ValidOf(env, Kept(a)), name), InvalidNamed(InvalidOf(env, Kept(a)), name))
    ensures Reported(env, FirstBlock(a + [b], name), name,
      Named(ValidOf(env, Kept(a + [b])), name), InvalidNamed(InvalidOf(env, Kept(a + [b])), name))
  {
    var h := HostOf(env, b);
    FirstBlockSnoc(a, b, name);
    KeptSnoc(env, a, b);
    if b.name != GLOBAL && b.name !in Names(a) {
      if ErrorsOf(h) == [] {
        NamedSnoc(ValidOf(env, Kept(a)), Entry(b.name, h), name);
      } else {
        InvalidSnoc(InvalidOf(env, Kept(a)), InvalidHost(h, ErrorsOf(h)), name);
      }
    }
  }

  /** The position of the first block of a name. */
  function FirstIndex(blocks: seq<HostBlock>, name: string): (r: nat)
    ensures r <= |blocks| && (r < |blocks| <==> name in Names(blocks))
  {
    if blocks == [] then 0
    else
      var n := |blocks| - 1;
      assert blocks == blocks[..n] + [blocks[n]];
      NamesSnoc(blocks[..n], blocks[n]);
      var i := FirstIndex(blocks[..n], name);
      if i < n || blocks[n].name == name then i else n + 1
  }

  /** The names are those of blocks, in the order of their first ones. */
  ghost predicate InOrder(blocks: seq<HostBlock>, names: seq<string>) {
    && (forall i :: 0 <= i < |names| ==> FirstIndex(blocks, names[i]) < |blocks|)
    && forall i, j :: 0 <= i < j < |names| ==> FirstIndex(blocks, names[i]) < FirstIndex(blocks, names[j])
  }

  function InvalidNames(invalid: seq<InvalidHost>): (r: seq<string>)
    ensures |r| == |invalid| && forall i :: 0 <= i < |r| ==> r[i] == invalid[i].incomplete.name
  {
    seq(|invalid|, i requires 0 <= i < |invalid| => invalid[i].incomplete.name)
  }

  lemma FirstIndexSnoc(a: seq<HostBlock>, b: HostBlock, name: string)
    ensures FirstIndex(a + [b], name) ==
      if FirstIndex(a, name) < |a| || b.name == name then FirstIndex(a, name) else |a| + 1
  {
    assert (a + [b])[..|a|] == a;
  }

  lemma OrderKept(a: seq<HostBlock>, b: HostBlock, names: seq<string>)
    requires InOrder(a, names)
    ensures InOrder(a + [b], names)
  {
    forall i | 0 <= i < |names| ensures FirstIndex(a + [b], names[i]) == FirstIndex(a, names[i]) {
      FirstIndexSnoc(a, b, names[i]);
    }
  }

  lemma OrderSnoc(a: seq<HostBlock>, b: HostBlock, names: seq<string>)
    requires InOrder(a, names)
    ensures InOrder(a + [b], names)
    ensures b.name !in Names(a) ==> InOrder(a + [b], names + [b.name])
  {
    OrderKept(a, b, names);
    forall i | 0 <= i < |names| ensures FirstIndex(a + [b], names[i]) < |a| {
      FirstIndexSnoc(a, b, names[i]);
    }
    FirstIndexSnoc(a, b, b.name);
  }

  /** Both results are in the order of the first blocks. */
  lemma {:induction false} ResultsInOrder(env: Env, blocks: seq<HostBlock>)
    ensures InOrder(blocks, KeySeq(ValidOf(env, Kept(blocks))))
    ensures InOrder(blocks, InvalidNames(InvalidOf(env, Kept(blocks))))
  {
    if blocks != [] {
      var n := |blocks| - 1;
      ResultsInOrder(env, blocks[..n]);
      Sequences.SplitLast(blocks);
      OrderStep(env, blocks[..n], blocks[n]);
    }
  }

  lemma OrderStep(env: Env, a: seq<HostBlock>, b: HostBlock)
    requires InOrder(a, KeySeq(ValidOf(env, Kept(a)))) && InOrder(a, InvalidNames(InvalidOf(env, Kept(a))))
    ensures InOrder(a + [b], KeySeq(ValidOf(env, Kept(a + [b]))))
    ensures InOrder(a + [b], InvalidNames(InvalidOf(env, Kept(a + [b]))))
  {
    var valid, invalid, h := ValidOf(env, Kept(a)), InvalidOf(env, Kept(a)), HostOf(env, b);
    KeptSnoc(env, a, b);
    OrderSnoc(a, b, KeySeq(valid));
    OrderSnoc(a, b, InvalidNames(invalid));
    if b.name != GLOBAL && b.name !in Names(a) {
      NamesAppended(valid, invalid, b.name, h);
    }
  }

  lemma NamesAppended(valid: Entries<string, ParsedHost>, invalid: seq<InvalidHost>, name: string, h: ParsedHost)
    requires h.name == name
    ensures KeySeq(valid + [Entry(name, h)]) == KeySeq(valid) + [name]
    ensures InvalidNames(invalid + [InvalidHost(h, ErrorsOf(h))]) == InvalidNames(invalid) + [name]
  {
  }
}
