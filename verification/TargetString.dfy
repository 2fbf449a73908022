/** Target strings `[user@]name-or-guid[.environment]` (utils.ts): the parser is the
    inverse of the printed form. */
module TargetStrings {
  import opened Wrappers
  import Sequences

  datatype ParsedTarget = ParsedTarget(
    user: Option<string>, id: Option<string>, name: Option<string>, envId: Option<string>, envName: Option<string>)

  // ---------- Patterns ----------

  predicate Hex(c: char) {
    '0' <= c <= '9' || 'a' <= c <= 'f' || 'A' <= c <= 'F'
  }

  predicate NameChar(c: char) {
    'a' <= c <= 'z' || 'A' <= c <= 'Z' || '0' <= c <= '9' || c == '_' || c == '.' || c == '-'
  }

  predicate NameChars(s: string) {
    forall i :: 0 <= i < |s| ==> NameChar(s[i])
  }

  /** Five groups of 8, 4, 4, 4 and 12 hexadecimal digits, joined by dashes. */
  predicate IsGuid(s: string) {
    |s| == 36 && forall i :: 0 <= i < 36 ==> if i == 8 || i == 13 || i == 18 || i == 23 then s[i] == '-' else Hex(s[i])
  }

  /** A group of hexadecimal digits. */
  predicate HexGroup(s: string, n: nat) {
    |s| == n && forall c :: c in s ==> c in "0123456789abcdefABCDEF"
  }

  ghost predicate GuidOf(s: string, a: string, b: string, c: string, d: string, e: string) {
    && HexGroup(a, 8) && HexGroup(b, 4) && HexGroup(c, 4) && HexGroup(d, 4) && HexGroup(e, 12)
    && s == a + "-" + b + "-" + c + "-" + d + "-" + e
  }

  /** The GUIDs are exactly the texts a-b-c-d-e of hexadecimal digits with these lengths. */
  lemma GuidIff(s: string)
    ensures IsGuid(s) <==> exists a, b, c, d, e :: GuidOf(s, a, b, c, d, e)
  {
    if IsGuid(s) {
      var a, b, c, d, e := s[..8], s[9..13], s[14..18], s[19..23], s[24..];
      assert s == a + [s[8]] + b + [s[13]] + c + [s[18]] + d + [s[23]] + e;
      assert GuidOf(s, a, b, c, d, e);
    }
    if a, b, c, d, e :| GuidOf(s, a, b, c, d, e) {
      GroupsAt(s, a, b, c, d, e);
    }
  }

  lemma GroupsAt(s: string, a: string, b: string, c: string, d: string, e: string)
    requires GuidOf(s, a, b, c, d, e)
    ensures IsGuid(s)
  {
    forall i | 0 <= i < 36 ensures if i == 8 || i == 13 || i == 18 || i == 23 then s[i] == '-' else Hex(s[i]) {
      if i < 8 {
        assert s[i] == a[i] && a[i] in a;
      } else if 8 < i < 13 {
        assert s[i] == b[i - 9] && b[i - 9] in b;
      } else if 13 < i < 18 {
        assert s[i] == c[i - 14] && c[i - 14] in c;
      } else if 18 < i < 23 {
        assert s[i] == d[i - 19] && d[i - 19] in d;
      } else if 23 < i {
        assert s[i] == e[i - 24] && e[i - 24] in e;
      }
    }
  }

  const MAX_NAME := 255

  /** The first `n` characters are a GUID or a name, and a colon or the end follows. */
  predicate MatchesUpTo(s: string, n: nat) {
    && n <= |s| && (n == |s| || s[n] == ':')
    && (IsGuid(s[..n]) || (1 <= n <= MAX_NAME && NameChars(s[..n])))
  }

  predicate MatchesPattern(s: string) {
    exists n | 0 <= n <= |s| :: MatchesUpTo(s, n)
  }

  function IndexOfChar(s: string, c: char): (r: int)
    ensures -1 <= r < |s|
    ensures r == -1 ==> forall k :: 0 <= k < |s| ==> s[k] != c
    ensures r != -1 ==> s[r] == c && forall k :: 0 <= k < r ==> s[k] != c
  {
    if s == "" then -1
    else if s[0] == c then 0
    else
      var r := IndexOfChar(s[1..], c);
      assert forall k :: 1 <= k < |s| ==> s[k] == s[1..][k - 1];
      if r == -1 then -1 else r + 1
  }

  ghost predicate IsLast(s: string, c: char, r: int) {
    && -1 <= r < |s| && (r != -1 ==> s[r] == c)
    && forall k :: r < k < |s| ==> s[k] != c
  }

  function LastIndexOfChar(s: string, c: char): (r: int)
    ensures IsLast(s, c, r)
  {
    if s == "" then -1
    else
      var n := |s| - 1;
      if s[n] == c then n else LastIndexOfChar(s[..n], c)
  }

  lemma LastUnique(s: string, c: char, i: int, j: int)
    requires IsLast(s, c, i) && IsLast(s, c, j)
    ensures i == j
  {
  }

  // ---------- Parsing ----------

  /** The part after the last `@`, or everything. */
  function TargetPart(s: string): string {
    s[LastIndexOfChar(s, '@') + 1..]
  }

  function UserPart(s: string): Option<string> {
    var at := LastIndexOfChar(s, '@');
    if at == -1 then None else Some(s[..at])
  }

  function NamePart(target: string): string {
    var dot := IndexOfChar(target, '.');
    if dot >= 0 then target[..dot] else target
  }

  function EnvPart(target: string): string {
    var dot := IndexOfChar(target, '.');
    if dot >= 0 then target[dot + 1..] else ""
  }

  function Classified(user: Option<string>, nameOrId: string, env: string): ParsedTarget {
    ParsedTarget(user,
      if IsGuid(nameOrId) then Some(nameOrId) else None,
      if IsGuid(nameOrId) then None else Some(nameOrId),
      if IsGuid(env) then Some(env) else None,
      if !IsGuid(env) && env != "" then Some(env) else None)
  }

  /** The parts of a record: a GUID is an ID, anything else a name; an empty environment is neither. */
  ghost predicate HasParts(p: ParsedTarget, user: Option<string>, nameOrId: string, env: string) {
    && p.user == user
    && (if IsGuid(nameOrId) then p.id == Some(nameOrId) && p.name == None else p.id == None && p.name == Some(nameOrId))
    && (if IsGuid(env) then p.envId == Some(env) && p.envName == None
        else p.envId == None && p.envName == if env == "" then None else Some(env))
  }

  lemma ClassifiedIs(p: ParsedTarget, user: Option<string>, nameOrId: string, env: string)
    ensures p == Classified(user, nameOrId, env) <==> HasParts(p, user, nameOrId, env)
  {
  }

  function Parse(s: string): Option<ParsedTarget> {
    var target := TargetPart(s);
    if !MatchesPattern(target) then None
    else Some(Classified(UserPart(s), NamePart(target), EnvPart(target)))
  }

  /** Stores each part under `id` or `name`, depending on whether it is a GUID. */
  method FillResult(user: Option<string>, targetIdOrName: string, environmentIdOrName: string) returns (result: ParsedTarget)
    ensures result == Classified(user, targetIdOrName, environmentIdOrName)
  {
    result := ParsedTarget(user, None, None, None, None);
    if IsGuid(targetIdOrName) {
      result := result.(id := Some(targetIdOrName));
    } else {
      result := result.(name := Some(targetIdOrName));
    }
    if IsGuid(environmentIdOrName) {
      result := result.(envId := Some(environmentIdOrName));
    } else if environmentIdOrName != "" {
      result := result.(envName := Some(environmentIdOrName));
    }
  }

  /** Splits a target at its first period. */
  method SplitTarget(targetString: string) returns (targetIdOrName: string, environmentIdOrName: string)
    ensures targetIdOrName == NamePart(targetString) && environmentIdOrName == EnvPart(targetString)
  {
    targetIdOrName, environmentIdOrName := "", "";
    var dot := IndexOfChar(targetString, '.');
    if dot >= 0 {
      targetIdOrName := targetString[..dot];
      environmentIdOrName := targetString[dot + 1..];
    } else {
      targetIdOrName := targetString;
    }
  }

  method ParseTargetString(s: string) returns (r: Option<ParsedTarget>)
    ensures r == Parse(s)
    ensures r.Some? ==> HasParts(r.value, UserPart(s), NamePart(TargetPart(s)), EnvPart(TargetPart(s)))
  {
    var user := None;
    var targetString := s;
    var separator := LastIndexOfChar(targetString, '@');
    if separator != -1 {
      user := Some(targetString[..separator]);
      targetString := targetString[separator + 1..];
    }
    assert targetString == TargetPart(s) && user == UserPart(s);
    if !MatchesPattern(targetString) {
      return None;
    }
    var targetIdOrName, environmentIdOrName := SplitTarget(targetString);
    var result := FillResult(user, targetIdOrName, environmentIdOrName);
    r := Some(result);
  }

  /** Length of the longest prefix of name characters. */
  function NameRun(s: string): (n: nat)
    ensures n <= |s| && NameChars(s[..n]) && (n < |s| ==> !NameChar(s[n]))
  {
    if s == "" || !NameChar(s[0]) then 0
    else
      var n := 1 + NameRun(s[1..]);
      assert s[..n] == [s[0]] + s[1..][..n - 1];
      n
  }

  lemma GuidNamed(s: string)
    requires IsGuid(s)
    ensures NameChars(s)
  {
  }

  /** The pattern accepts exactly the strings whose longest run of name characters has 1
      to 255 of them and is followed by a colon or the end; its GUID alternative accepts
      nothing more. */
  lemma PatternIff(s: string)
    ensures MatchesPattern(s) <==>
      1 <= NameRun(s) <= 255 && (NameRun(s) == |s| || s[NameRun(s)] == ':')
  {
    var run := NameRun(s);
    if n: nat :| n <= |s| && MatchesUpTo(s, n) {
      if IsGuid(s[..n]) {
        GuidNamed(s[..n]);
      }
      assert n < |s| ==> !NameChar(s[n]);
      RunIs(s, n);
    }
    if 1 <= run <= MAX_NAME && (run == |s| || s[run] == ':') {
      assert MatchesUpTo(s, run);
    }
  }

  lemma {:induction false} RunIs(s: string, n: nat)
    requires n <= |s| && NameChars(s[..n]) && (n < |s| ==> !NameChar(s[n]))
    ensures NameRun(s) == n
  {
    var run := NameRun(s);
    assert forall k :: 0 <= k < n ==> s[..n][k] == s[k];
    assert forall k :: 0 <= k < run ==> s[..run][k] == s[k];
  }

  // ---------- Printing ----------

  function PrintTarget(nameOrId: string, env: Option<string>): string {
    nameOrId + if env.Some? then "." + env.value else ""
  }

  function Print(user: Option<string>, nameOrId: string, env: Option<string>): string {
    (if user.Some? then user.value + "@" else "") + PrintTarget(nameOrId, env)
  }

  /** The printed form of what the parser returned. */
  function PrintParsed(p: ParsedTarget): string {
    Print(p.user, if p.id.Some? then p.id.value else if p.name.Some? then p.name.value else "",
      if p.envId.Some? then p.envId else p.envName)
  }

  /** The parts of a target string that the printed form can carry. */
  ghost predicate Printable(nameOrId: string, env: Option<string>) {
    && nameOrId != "" && NameChars(nameOrId) && '.' !in nameOrId
    && (env.Some? ==> env.value != "" && NameChars(env.value))
    && |PrintTarget(nameOrId, env)| <= MAX_NAME
  }

  lemma IndexAt(a: string, c: char, b: string)
    requires c !in a
    ensures IndexOfChar(a + [c] + b, c) == |a|
  {
    var s := a + [c] + b;
    assert s[|a|] == c;
    forall k | 0 <= k < |a| ensures s[k] != c {
      assert s[k] == a[k] && a[k] in a;
    }
  }

  lemma {:induction false} LastIndexAt(a: string, c: char, b: string)
    requires c !in b
    ensures LastIndexOfChar(a + [c] + b, c) == |a|
  {
    var s := a + [c] + b;
    forall k | |a| < k < |s| ensures s[k] != c {
      AfterSeparator(a, c, b, k);
    }
    assert s[|a|] == c;
    LastUnique(s, c, |a|, LastIndexOfChar(s, c));
  }

  lemma AfterSeparator(a: string, c: char, b: string, k: nat)
    requires c !in b && |a| < k < |a| + 1 + |b|
    ensures (a + [c] + b)[k] != c
  {
  }

  function EnvText(env: Option<string>): string {
    if env.Some? then env.value else ""
  }

  lemma PrintedTarget(nameOrId: string, env: Option<string>)
    requires '.' !in nameOrId
    ensures var t := PrintTarget(nameOrId, env); NamePart(t) == nameOrId && EnvPart(t) == EnvText(env)
  {
    var t := PrintTarget(nameOrId, env);
    if env.Some? {
      assert t == nameOrId + ['.'] + env.value;
      IndexAt(nameOrId, '.', env.value);
      assert t[..|nameOrId|] == nameOrId && t[|nameOrId| + 1..] == env.value;
    } else {
      assert t == nameOrId;
    }
  }

  /** Different parts are stored differently. */
  lemma ClassifiedInjective(user: Option<string>, name: string, env: string, user2: Option<string>, name2: string, env2: string)
    ensures Classified(user, name, env) == Classified(user2, name2, env2) <==> user == user2 && name == name2 && env == env2
  {
  }

  /** A name part has no period, and a target part no `@`. */
  lemma PartsLack(s: string)
    ensures '.' !in NamePart(s) && '@' !in TargetPart(s)
  {
    assert forall k :: 0 <= k < |TargetPart(s)| ==> TargetPart(s)[k] == s[LastIndexOfChar(s, '@') + 1 + k];
  }

  lemma SameUser(user: Option<string>, t: string)
    ensures var s := (if user.Some? then user.value + "@" else "") + t;
      UserPart(s) == user ==> TargetPart(s) == t
  {
    var s := (if user.Some? then user.value + "@" else "") + t;
    if user.Some? {
      assert s[|user.value| + 1..] == t;
    } else {
      assert s[0..] == t;
    }
  }

  lemma PrintedParts(user: Option<string>, t: string)
    requires '@' !in t
    ensures var s := (if user.Some? then user.value + "@" else "") + t; UserPart(s) == user && TargetPart(s) == t
  {
    var s := (if user.Some? then user.value + "@" else "") + t;
    if user.Some? {
      assert s == user.value + ['@'] + t;
      LastIndexAt(user.value, '@', t);
      assert s[|user.value| + 1..] == t && s[..|user.value|] == user.value;
    } else {
      assert s == t && s[0..] == t;
    }
  }

  /** When parsing gives certain parts. */
  lemma ParseIs(s: string, user: Option<string>, name: string, env: string)
    ensures Parse(s) == Some(Classified(user, name, env)) <==>
      && MatchesPattern(TargetPart(s))
      && UserPart(s) == user && NamePart(TargetPart(s)) == name && EnvPart(TargetPart(s)) == env
  {
    ClassifiedInjective(UserPart(s), NamePart(TargetPart(s)), EnvPart(TargetPart(s)), user, name, env);
  }

  lemma PrintedReads(user: Option<string>, nameOrId: string, env: Option<string>)
    requires '@' !in PrintTarget(nameOrId, env) && '.' !in nameOrId
    ensures var s := Print(user, nameOrId, env);
      && TargetPart(s) == PrintTarget(nameOrId, env)
      && UserPart(s) == user && NamePart(TargetPart(s)) == nameOrId && EnvPart(TargetPart(s)) == EnvText(env)
  {
    PrintedParts(user, PrintTarget(nameOrId, env));
    PrintedTarget(nameOrId, env);
  }

  lemma ReadsPrinted(user: Option<string>, nameOrId: string, env: Option<string>)
    requires var s := Print(user, nameOrId, env); UserPart(s) == user && NamePart(TargetPart(s)) == nameOrId
    ensures var t := PrintTarget(nameOrId, env);
      TargetPart(Print(user, nameOrId, env)) == t && '@' !in t && '.' !in nameOrId
  {
    var s := Print(user, nameOrId, env);
    SameUser(user, PrintTarget(nameOrId, env));
    PartsLack(s);
    PartsLack(TargetPart(s));
  }

  /** Printing and parsing returns the same parts, with names and GUIDs told apart, if and
      only if the pattern accepts the target, which has no `@`, and the name has no period.
      The user may contain `@`. */
  lemma {:induction false} ParsePrintedIff(user: Option<string>, nameOrId: string, env: Option<string>)
    ensures var t, r := PrintTarget(nameOrId, env), Parse(Print(user, nameOrId, env));
      r.Some? && HasParts(r.value, user, nameOrId, EnvText(env)) <==> '@' !in t && '.' !in nameOrId && MatchesPattern(t)
  {
    var t, s := PrintTarget(nameOrId, env), Print(user, nameOrId, env);
    if Parse(s).Some? {
      ClassifiedIs(Parse(s).value, user, nameOrId, EnvText(env));
    }
    ParseIs(s, user, nameOrId, EnvText(env));
    if '@' !in t && '.' !in nameOrId {
      PrintedReads(user, nameOrId, env);
    }
    if UserPart(s) == user && NamePart(TargetPart(s)) == nameOrId {
      ReadsPrinted(user, nameOrId, env);
    }
  }

  /** In particular names and environments of name characters come back, up to a length of 255. */
  lemma ParsePrinted(user: Option<string>, nameOrId: string, env: Option<string>)
    requires Printable(nameOrId, env)
    ensures var r := Parse(Print(user, nameOrId, env));
      r.Some? && HasParts(r.value, user, nameOrId, EnvText(env))
  {
    var t := PrintTarget(nameOrId, env);
    assert NameChars(t) && t[..|t|] == t;
    assert MatchesUpTo(t, |t|);
    ParsePrintedIff(user, nameOrId, env);
  }

  lemma SplitAtDot(t: string)
    ensures '.' in t ==> t == NamePart(t) + ("." + EnvPart(t))
    ensures '.' !in t ==> NamePart(t) == t && EnvPart(t) == ""
  {
    var dot := IndexOfChar(t, '.');
    if dot >= 0 {
      assert t == t[..dot] + ([t[dot]] + t[dot + 1..]);
    }
  }

  /** A target reads as its parts again unless its environment separator comes last. */
  lemma TargetReads(t: string)
    ensures PrintTarget(NamePart(t), if EnvPart(t) == "" then None else Some(EnvPart(t))) == t
      <==> !(EnvPart(t) == "" && '.' in t)
  {
    SplitAtDot(t);
    assert NamePart(t) + "" == NamePart(t);
    assert '.' in t ==> |NamePart(t)| + 1 + |EnvPart(t)| == |t|;
  }

  lemma SplitAtUser(s: string)
    ensures s == (if UserPart(s).Some? then UserPart(s).value + "@" else "") + TargetPart(s)
  {
  }

  lemma PrintClassified(user: Option<string>, nameOrId: string, env: string)
    ensures PrintParsed(Classified(user, nameOrId, env)) == Print(user, nameOrId, if env == "" then None else Some(env))
  {
  }

  /** The other way round: an accepted string is the printed form of what was parsed if
      and only if its environment separator is not its last character. */
  lemma {:induction false} PrintParsedIff(s: string)
    requires Parse(s).Some?
    ensures PrintParsed(Parse(s).value) == s <==> !(EnvPart(TargetPart(s)) == "" && '.' in TargetPart(s))
  {
    var t := TargetPart(s);
    PrintClassified(UserPart(s), NamePart(t), EnvPart(t));
    SplitAtUser(s);
    TargetReads(t);
    Sequences.AppendedSame(if UserPart(s).Some? then UserPart(s).value + "@" else "",
      PrintTarget(NamePart(t), if EnvPart(t) == "" then None else Some(EnvPart(t))), t);
  }

  /** Such strings are accepted: a name with a trailing period, which is lost. */
  lemma TrailingPeriodLost(name: string)
    requires NameChars(name) && '.' !in name && 1 <= |name| < MAX_NAME
    ensures Parse(name + ".").Some? && PrintParsed(Parse(name + ".").value) != name + "."
    ensures HasParts(Parse(name + ".").value, None, name, "")
  {
    TrailingParts(name);
    PrintParsedIff(name + ".");
  }

  lemma TrailingParts(name: string)
    requires NameChars(name) && '.' !in name && 1 <= |name| < MAX_NAME
    ensures var s := name + ".";
      UserPart(s) == None && TargetPart(s) == s && MatchesPattern(s) && NamePart(s) == name && EnvPart(s) == "" && '.' in s
  {
    var s := name + ".";
    LastUnique(s, '@', LastIndexOfChar(s, '@'), -1);
    assert s[0..] == s && s[..|s|] == s;
    assert MatchesUpTo(s, |s|);
    assert s[|name|] == '.';
    assert forall k :: 0 <= k < |name| ==> s[k] == name[k] && name[k] in name;
    assert IndexOfChar(s, '.') == |name|;
    assert s[..|name|] == name;
  }
}
