/** The environment a job's process on this host is given: what it takes from the
    agent's own, what the server sent, and what stands in for a name that is
    nowhere set. */
module ChildEnv {
  import opened Names
  import opened Options

  const AGENT_CONFIG := "CRONOMICON_RUNNER_"
  const SECRET_PREFIX := "CRONOMICON_SECRET_"
  const VAR_PREFIX := "CRONOMICON_VAR_"
  const KEY_PREFIX := "CRONOMICON_KEY_"
  const LOCALE_PREFIX := "LC_"
  const COMMON_ARGS := "ANSIBLE_SSH_COMMON_ARGS"
  const SSH_AUTH_SOCK := "SSH_AUTH_SOCK"
  const ENV_BASE_SAFE_LIST: seq<string> :=
    ["PATH", "HOME", "USER", "LOGNAME", "SHELL", "TERM", "TMPDIR", "TZ", "LANG"]

  datatype KeyFile = KeyFile(path: string, source: string)

  /** keys: the exact names the agent holds a key file for, by map or by directory. */
  datatype Config = Config(
    envBaseExtra: seq<string>,
    excludeSSHAuthSock: bool,
    noAuthBridge: bool,
    commonArgs: string,
    knownHostsFile: string,
    keys: map<string, KeyFile>)

  datatype Manifest = Manifest(runType: string, env: map<string, string>, secrets: map<string, string>, passthrough: seq<string>)

  /** What the log is told about where a value came from. */
  datatype Line =
    | RefusedBase(name: string)
    | FromBare(name: string, bare: string)
    | FromKeyFile(name: string, file: KeyFile)
    | OperatorArgs
    | TrustStore(path: string)

  datatype Built =
    | Ok(env: seq<string>, provenance: seq<Line>)
    | Denied(names: seq<string>)
    | Missing(names: seq<string>)

  predicate HasPrefix(n: string, prefix: string) {
    prefix <= n
  }

  predicate IsAgentConfig(n: string) {
    HasPrefix(n, AGENT_CONFIG)
  }

  /** The row name behind a value reference. */
  function StripValueReference(n: string): Option<string> {
    if HasPrefix(n, SECRET_PREFIX) then Some(n[|SECRET_PREFIX|..])
    else if HasPrefix(n, VAR_PREFIX) then Some(n[|VAR_PREFIX|..])
    else None
  }

  function ResolveKeyPath(cfg: Config, n: string): Option<KeyFile> {
    if n == "" then None
    else if n in cfg.keys then Some(cfg.keys[n])
    else if HasPrefix(n, KEY_PREFIX) && n[|KEY_PREFIX|..] in cfg.keys then Some(cfg.keys[n[|KEY_PREFIX|..]])
    else None
  }

  predicate Letter(c: char) {
    'A' <= c <= 'Z' || 'a' <= c <= 'z' || c == '_'
  }

  /** A POSIX identifier. */
  predicate Ident(n: string) {
    n != "" && Letter(n[0]) && forall i :: 0 < i < |n| ==> Letter(n[i]) || '0' <= n[i] <= '9'
  }

  // ----- the agent's own environment -----

  function AgentEnv(environ: seq<string>): map<string, string>
    decreases |environ|
  {
    if environ == [] then map[]
    else
      var before, e := AgentEnv(environ[..|environ| - 1]), Cut(environ[|environ| - 1]);
      if e.Some? then before[e.value.0 := e.value.1] else before
  }

  lemma {:induction false} AgentNamesArePlain(environ: seq<string>)
    ensures forall n :: n in AgentEnv(environ) ==> '=' !in n
    decreases |environ|
  {
    if environ != [] {
      AgentNamesArePlain(environ[..|environ| - 1]);
      var e := environ[|environ| - 1];
      if Cut(e).Some? { CutNameIsPlain(e); }
    }
  }

  function BaseExtra(cfg: Config): set<string> {
    set n | n in cfg.envBaseExtra && !IsAgentConfig(n)
  }

  function Base(cfg: Config): set<string> {
    (set n | n in ENV_BASE_SAFE_LIST) + BaseExtra(cfg) + (if cfg.excludeSSHAuthSock then {} else {SSH_AUTH_SOCK})
  }

  predicate InBase(cfg: Config, n: string) {
    n in Base(cfg) || HasPrefix(n, LOCALE_PREFIX)
  }

  function RefusedLines(extra: seq<string>): seq<Line>
    decreases |extra|
  {
    if extra == [] then []
    else RefusedLines(extra[..|extra| - 1]) + (if IsAgentConfig(extra[|extra| - 1]) then [RefusedBase(extra[|extra| - 1])] else [])
  }

  /** The names of the agent's environment every child inherits, in order. */
  ghost function BaseNames(cfg: Config, agent: map<string, string>): (names: seq<string>)
    ensures forall n :: n in names <==> n in agent && InBase(cfg, n)
  {
    var kept := set n | n in agent && InBase(cfg, n);
    SortedAscends(kept);
    assert forall n :: n in Sorted(kept) <==> n in Elements(Sorted(kept));
    Sorted(kept)
  }

  /** The names of a map a shell accepts, in order. */
  ghost function IdentNames(m: map<string, string>): (names: seq<string>)
    ensures forall n :: n in names <==> n in m && Ident(n)
  {
    var kept := set n | n in m && Ident(n);
    SortedAscends(kept);
    assert forall n :: n in Sorted(kept) <==> n in Elements(Sorted(kept));
    Sorted(kept)
  }

  ghost function EnvSlice(m: map<string, string>): seq<string> {
    Render(m, IdentNames(m))
  }

  // ----- one passthrough name -----

  datatype Found = Refuse | Supplied | Put(value: string, line: Option<Line>) | Nowhere

  function ByKeyFile(cfg: Config, n: string): Found {
    if cfg.noAuthBridge then Nowhere
    else
      match ResolveKeyPath(cfg, n)
      case None => Nowhere
      case Some(f) => Put(f.path, Some(FromKeyFile(n, f)))
  }

  function ByReference(cfg: Config, agent: map<string, string>, n: string): Found {
    match StripValueReference(n)
    case None => ByKeyFile(cfg, n)
    case Some(bare) =>
      if IsAgentConfig(bare) then Refuse
      else if bare in agent then Put(agent[bare], Some(FromBare(n, bare)))
      else ByKeyFile(cfg, n)
  }

  function Find(m: Manifest, cfg: Config, agent: map<string, string>, n: string): Found {
    if IsAgentConfig(n) then Refuse
    else if n in m.secrets then Supplied
    else if n in agent then Put(agent[n], None)
    else if n in m.env then Supplied
    else ByReference(cfg, agent, n)
  }

  datatype Passed = Passed(out: seq<string>, provenance: seq<Line>, missing: seq<string>, denied: seq<string>)

  function AddName(p: Passed, n: string, f: Found): Passed {
    match f
    case Refuse => p.(denied := p.denied + [n])
    case Supplied => p
    case Put(v, line) => p.(out := p.out + [n + "=" + v], provenance := p.provenance + (if line.Some? then [line.value] else []))
    case Nowhere => p.(missing := p.missing + [n])
  }

  function PassNames(m: Manifest, cfg: Config, agent: map<string, string>, names: seq<string>): Passed
    decreases |names|
  {
    if names == [] then Passed([], [], [], [])
    else
      var last := names[|names| - 1];
      AddName(PassNames(m, cfg, agent, names[..|names| - 1]), last, Find(m, cfg, agent, last))
  }

  // ----- the whole -----

  /** What a job that runs ansible is told about host keys, if nobody said. */
  function Trust(m: Manifest, cfg: Config, env: seq<string>): Option<(string, Line)> {
    if m.runType != "ansible" || cfg.noAuthBridge || Value(env, COMMON_ARGS).Some? then None
    else if cfg.commonArgs != "" then Some((cfg.commonArgs, OperatorArgs))
    else if cfg.knownHostsFile != "" then
      Some(("-o UserKnownHostsFile=" + cfg.knownHostsFile + " -o StrictHostKeyChecking=yes", TrustStore(cfg.knownHostsFile)))
    else None
  }

  ghost function Sent(m: Manifest, cfg: Config, agent: map<string, string>, extra: map<string, string>): seq<string> {
    Render(agent, BaseNames(cfg, agent)) + EnvSlice(m.env) + EnvSlice(m.secrets) + EnvSlice(extra)
  }

  ghost function BuildFrom(m: Manifest, cfg: Config, agent: map<string, string>, extra: map<string, string>): Built {
    var p := PassNames(m, cfg, agent, m.passthrough);
    if p.denied != [] then Denied(p.denied)
    else if p.missing != [] then Missing(p.missing)
    else
      var env, lines := Sent(m, cfg, agent, extra) + p.out, RefusedLines(cfg.envBaseExtra) + p.provenance;
      match Trust(m, cfg, env)
      case None => Ok(env, lines)
      case Some(t) => Ok(env + [COMMON_ARGS + "=" + t.0], lines + [t.1])
  }

  /** The child's environment, from the agent's own. */
  ghost function Build(m: Manifest, cfg: Config, environ: seq<string>, extra: map<string, string>): Built {
    BuildFrom(m, cfg, AgentEnv(environ), extra)
  }

  // ----- nothing of the agent's configuration reaches a child -----

  /** The agent's environment without its own configuration. */
  function Scrub(agent: map<string, string>): map<string, string> {
    map n | n in agent && !IsAgentConfig(n) :: agent[n]
  }

  lemma NeverInBase(cfg: Config, n: string)
    requires IsAgentConfig(n)
    ensures !InBase(cfg, n)
  {
    assert n[0] == 'C' && n[9] == 'N' && |n| >= 18;
    assert forall i :: 0 <= i < |ENV_BASE_SAFE_LIST| ==> |ENV_BASE_SAFE_LIST[i]| <= 7;
  }

  lemma {:induction false} RenderScrubbed(agent: map<string, string>, keys: seq<string>)
    requires forall k :: k in keys ==> k in agent && !IsAgentConfig(k)
    ensures Render(agent, keys) == Render(Scrub(agent), keys)
    decreases |keys|
  {
    if keys != [] {
      assert keys[|keys| - 1] in keys;
      RenderScrubbed(agent, keys[..|keys| - 1]);
    }
  }

  lemma BaseScrubbed(cfg: Config, agent: map<string, string>)
    ensures Render(agent, BaseNames(cfg, agent)) == Render(Scrub(agent), BaseNames(cfg, Scrub(agent)))
  {
    forall n | n in agent && InBase(cfg, n) ensures !IsAgentConfig(n) {
      if IsAgentConfig(n) { NeverInBase(cfg, n); }
    }
    assert (set n | n in agent && InBase(cfg, n)) == (set n | n in Scrub(agent) && InBase(cfg, n));
    RenderScrubbed(agent, BaseNames(cfg, agent));
  }

  lemma {:induction false} PassScrubbed(m: Manifest, cfg: Config, agent: map<string, string>, names: seq<string>)
    ensures PassNames(m, cfg, agent, names) == PassNames(m, cfg, Scrub(agent), names)
    decreases |names|
  {
    if names != [] {
      PassScrubbed(m, cfg, agent, names[..|names| - 1]);
    }
  }

  lemma BuildScrubbed(m: Manifest, cfg: Config, agent: map<string, string>, extra: map<string, string>)
    ensures BuildFrom(m, cfg, agent, extra) == BuildFrom(m, cfg, Scrub(agent), extra)
  {
    var clean := Scrub(agent);
    assert Sent(m, cfg, agent, extra) == Sent(m, cfg, clean, extra) by { BaseScrubbed(cfg, agent); }
    PassScrubbed(m, cfg, agent, m.passthrough);
  }

  /** Two agents whose environments differ only in the agent's own configuration give
      every run the same environment, the same account of it, and the same errors,
      whatever the run asks to be passed and the operator adds to the base. */
  lemma NonInterference(m: Manifest, cfg: Config, one: seq<string>, other: seq<string>, extra: map<string, string>)
    requires Scrub(AgentEnv(one)) == Scrub(AgentEnv(other))
    ensures Build(m, cfg, one, extra) == Build(m, cfg, other, extra)
  {
    BuildScrubbed(m, cfg, AgentEnv(one), extra);
    BuildScrubbed(m, cfg, AgentEnv(other), extra);
  }

  predicate SetsConfig(e: string) {
    Cut(e).Some? && IsAgentConfig(Cut(e).value.0)
  }

  /** The entries that are not the agent's configuration. */
  function WithoutConfig(environ: seq<string>): seq<string>
    decreases |environ|
  {
    if environ == [] then []
    else
      var rest, e := WithoutConfig(environ[..|environ| - 1]), environ[|environ| - 1];
      if SetsConfig(e) then rest else rest + [e]
  }

  lemma OneScrubbed(agent: map<string, string>, k: string, v: string)
    ensures Scrub(agent[k := v]) == if IsAgentConfig(k) then Scrub(agent) else Scrub(agent)[k := v]
  {
  }

  lemma AgentEnvOfOneMore(environ: seq<string>, e: string)
    ensures AgentEnv(environ + [e]) == match Cut(e) case None => AgentEnv(environ) case Some(p) => AgentEnv(environ)[p.0 := p.1]
  {
    assert (environ + [e])[..|environ|] == environ;
  }

  lemma {:induction false} ScrubbedEntries(environ: seq<string>)
    ensures AgentEnv(WithoutConfig(environ)) == Scrub(AgentEnv(environ))
    decreases |environ|
  {
    if environ != [] {
      var init, e := environ[..|environ| - 1], environ[|environ| - 1];
      assert environ == init + [e];
      ScrubbedEntries(init);
      AgentEnvOfOneMore(init, e);
      if Cut(e).Some? {
        OneScrubbed(AgentEnv(init), Cut(e).value.0, Cut(e).value.1);
      }
      if !SetsConfig(e) {
        AgentEnvOfOneMore(WithoutConfig(init), e);
      }
    }
  }

  /** As if the agent's configuration had never been in its environment. */
  lemma ConfigMightAsWellBeAbsent(m: Manifest, cfg: Config, environ: seq<string>, extra: map<string, string>)
    ensures Build(m, cfg, environ, extra) == Build(m, cfg, WithoutConfig(environ), extra)
  {
    ScrubbedEntries(environ);
    var agent := AgentEnv(environ);
    assert Scrub(Scrub(agent)) == Scrub(agent);
    NonInterference(m, cfg, environ, WithoutConfig(environ), extra);
  }

  // ----- which value wins -----

  lemma IdentIsPlain(n: string)
    requires Ident(n)
    ensures '=' !in n
  {
    assert forall i :: 0 <= i < |n| ==> n[i] != '=';
  }

  lemma ValueOfSlice(m: map<string, string>, n: string)
    ensures Value(EnvSlice(m), n) == if n in m && Ident(n) then Some(m[n]) else None
  {
    forall k | k in IdentNames(m) ensures '=' !in k {
      IdentIsPlain(k);
    }
    ValueOfRender(m, IdentNames(m), n);
  }

  /** A name in what was sent: the run's own extras before the secrets, those before
      the plain snapshot, and that before what the agent's environment gives. */
  function SentValue(m: Manifest, cfg: Config, agent: map<string, string>, extra: map<string, string>, n: string): Option<string> {
    if Ident(n) && n in extra then Some(extra[n])
    else if Ident(n) && n in m.secrets then Some(m.secrets[n])
    else if Ident(n) && n in m.env then Some(m.env[n])
    else if n in agent && InBase(cfg, n) then Some(agent[n])
    else None
  }

  lemma ValueOfSent(m: Manifest, cfg: Config, environ: seq<string>, extra: map<string, string>, n: string)
    ensures Value(Sent(m, cfg, AgentEnv(environ), extra), n) == SentValue(m, cfg, AgentEnv(environ), extra, n)
  {
    var agent := AgentEnv(environ);
    AgentNamesArePlain(environ);
    var base := Render(agent, BaseNames(cfg, agent));
    ValueOfRender(agent, BaseNames(cfg, agent), n);
    ValueOfSlice(m.env, n);
    ValueOfSlice(m.secrets, n);
    ValueOfSlice(extra, n);
    ValueOfBoth(base, EnvSlice(m.env), n);
    ValueOfBoth(base + EnvSlice(m.env), EnvSlice(m.secrets), n);
    ValueOfBoth(base + EnvSlice(m.env) + EnvSlice(m.secrets), EnvSlice(extra), n);
  }

  /** An entry made of this name sets n: it is n, or, holding an equals sign itself, is
      split there. */
  predicate SetsName(name: string, n: string) {
    '=' !in n && (name == n || HasPrefix(name, n + "="))
  }

  function SetTo(name: string, n: string, v: string): string
    requires SetsName(name, n)
  {
    if name == n then v else name[|n| + 1..] + "=" + v
  }

  lemma CutSets(name: string, v: string, n: string)
    requires SetsName(name, n)
    ensures Cut(name + "=" + v) == Some((n, SetTo(name, n, v)))
  {
    CutOfEntry(n, SetTo(name, n, v));
    assert name + "=" + v == n + "=" + SetTo(name, n, v);
  }

  lemma {:induction false} CutHasOne(e: string)
    requires '=' in e
    ensures Cut(e).Some?
    decreases |e|
  {
    if e[0] != '=' {
      assert e == [e[0]] + e[1..];
      CutHasOne(e[1..]);
    }
  }

  lemma EqualsInside(name: string, v: string, n: string, w: string)
    requires name + "=" + v == n + "=" + w
    ensures |name| < |n| ==> '=' in n
  {
    if |name| < |n| {
      assert (n + "=" + w)[|name|] == n[|name|];
      assert (name + "=" + v)[|name|] == '=';
    }
  }

  lemma CutIsSet(name: string, v: string)
    ensures Cut(name + "=" + v).Some? && SetsName(name, Cut(name + "=" + v).value.0)
  {
    var e := name + "=" + v;
    assert e[|name|] == '=';
    CutHasOne(e);
    CutNameIsPlain(e);
    var (n, w) := Cut(e).value;
    EqualsInside(name, v, n, w);
    assert n == e[..|n|] && e[|n|] == '=';
    if |n| < |name| {
      assert name[..|n| + 1] == e[..|n| + 1] == n + "=";
    } else {
      assert n == name;
    }
  }

  /** The last of the names found that sets n. */
  function Setter(m: Manifest, cfg: Config, agent: map<string, string>, names: seq<string>, n: string): (k: Option<string>)
    ensures k.Some? ==> k.value in names && Find(m, cfg, agent, k.value).Put? && SetsName(k.value, n)
    decreases |names|
  {
    if names == [] then None
    else
      var last := names[|names| - 1];
      if Find(m, cfg, agent, last).Put? && SetsName(last, n) then Some(last)
      else Setter(m, cfg, agent, names[..|names| - 1], n)
  }

  /** A name that was found sets itself, and, unless another holds an equals sign, no
      other does. */
  lemma {:induction false} SetterIsItself(m: Manifest, cfg: Config, agent: map<string, string>, names: seq<string>, n: string)
    requires '=' !in n
    ensures n in names && Find(m, cfg, agent, n).Put? ==> Setter(m, cfg, agent, names, n).Some?
    ensures Setter(m, cfg, agent, names, n).Some? && (forall i :: 0 <= i < |names| ==> '=' !in names[i]) ==>
              Setter(m, cfg, agent, names, n) == Some(n)
    decreases |names|
  {
    if names != [] {
      var rest, last := names[..|names| - 1], names[|names| - 1];
      assert names == rest + [last];
      SetterIsItself(m, cfg, agent, rest, n);
      if HasPrefix(last, n + "=") { assert last[|n|] == '='; }
    }
  }

  lemma {:induction false} ValueOfPassed(m: Manifest, cfg: Config, agent: map<string, string>, names: seq<string>, n: string)
    ensures Value(PassNames(m, cfg, agent, names).out, n) ==
            match Setter(m, cfg, agent, names, n)
            case None => None
            case Some(k) => Some(SetTo(k, n, Find(m, cfg, agent, k).value))
    decreases |names|
  {
    if names != [] {
      var rest, last := names[..|names| - 1], names[|names| - 1];
      ValueOfPassed(m, cfg, agent, rest, n);
      var f := Find(m, cfg, agent, last);
      if f.Put? {
        ValueOfOne(PassNames(m, cfg, agent, rest).out, last, f.value, n);
      }
    }
  }

  lemma ValueOfOne(out: seq<string>, name: string, v: string, n: string)
    ensures Value(out + [name + "=" + v], n) == if SetsName(name, n) then Some(SetTo(name, n, v)) else Value(out, n)
  {
    var env := out + [name + "=" + v];
    assert env[..|env| - 1] == out;
    CutIsSet(name, v);
    if SetsName(name, n) { CutSets(name, v, n); }
  }

  /** What a child sees under a name, as declared: what a passthrough found for it
      first, then what was sent, and for ansible's host-key arguments, only if nobody
      gave any, the agent's own. */
  function Declared(m: Manifest, cfg: Config, agent: map<string, string>, extra: map<string, string>, n: string): Option<string> {
    match Setter(m, cfg, agent, m.passthrough, n)
    case Some(k) => Some(SetTo(k, n, Find(m, cfg, agent, k).value))
    case None => SentValue(m, cfg, agent, extra, n)
  }

  function DeclaredWithTrust(m: Manifest, cfg: Config, agent: map<string, string>, extra: map<string, string>, n: string): Option<string> {
    if Declared(m, cfg, agent, extra, n).Some? || n != COMMON_ARGS || m.runType != "ansible" || cfg.noAuthBridge then
      Declared(m, cfg, agent, extra, n)
    else if cfg.commonArgs != "" then Some(cfg.commonArgs)
    else if cfg.knownHostsFile != "" then Some("-o UserKnownHostsFile=" + cfg.knownHostsFile + " -o StrictHostKeyChecking=yes")
    else None
  }

  /** In an environment that was built, every name has exactly its declared value:
      the last entry wins, and the entries stand in that order. */
  lemma ValuesAreAsDeclared(m: Manifest, cfg: Config, environ: seq<string>, extra: map<string, string>, n: string)
    requires Build(m, cfg, environ, extra).Ok?
    ensures Value(Build(m, cfg, environ, extra).env, n) == DeclaredWithTrust(m, cfg, AgentEnv(environ), extra, n)
  {
    var agent := AgentEnv(environ);
    var sent, out := Sent(m, cfg, agent, extra), PassNames(m, cfg, agent, m.passthrough).out;
    forall k ensures Value(sent + out, k) == Declared(m, cfg, agent, extra, k) {
      ValueOfSent(m, cfg, environ, extra, k);
      ValueOfPassed(m, cfg, agent, m.passthrough, k);
      ValueOfBoth(sent, out, k);
    }
    var t := Trust(m, cfg, sent + out);
    if t.Some? {
      var last := COMMON_ARGS + "=" + t.value.0;
      CutOfEntry(COMMON_ARGS, t.value.0);
      ValueOfBoth(sent + out, [last], n);
      assert Value([last], n) == if n == COMMON_ARGS then Some(t.value.0) else None;
    }
  }

  lemma {:induction false} EveryNameFound(m: Manifest, cfg: Config, agent: map<string, string>, names: seq<string>, n: string)
    requires n in names
    ensures var p := PassNames(m, cfg, agent, names);
            && (Find(m, cfg, agent, n).Refuse? ==> n in p.denied)
            && (Find(m, cfg, agent, n).Nowhere? ==> n in p.missing)
    decreases |names|
  {
    if n != names[|names| - 1] {
      assert n in names[..|names| - 1];
      EveryNameFound(m, cfg, agent, names[..|names| - 1], n);
    }
  }

  /** A name the server sent that no shell accepts is not passed on; it is in the
      child only if the agent's own environment gives it. */
  predicate GivenAnyway(m: Manifest, cfg: Config, agent: map<string, string>, n: string) {
    if n in m.secrets then n in agent && InBase(cfg, n) else n in agent || n !in m.env
  }

  /** What binds a passthrough name: it is one a shell accepts, or is given anyway, or
      another passthrough name sets it. */
  predicate IsBound(m: Manifest, cfg: Config, agent: map<string, string>, n: string) {
    '=' !in n && (Ident(n) || GivenAnyway(m, cfg, agent, n) || Setter(m, cfg, agent, m.passthrough, n).Some?)
  }

  lemma DeclaredExactly(m: Manifest, cfg: Config, environ: seq<string>, extra: map<string, string>, n: string)
    requires var agent := AgentEnv(environ); n in m.passthrough && (Find(m, cfg, agent, n).Put? || Find(m, cfg, agent, n).Supplied?)
    ensures Declared(m, cfg, AgentEnv(environ), extra, n).Some? <==> IsBound(m, cfg, AgentEnv(environ), n)
  {
    var agent := AgentEnv(environ);
    AgentNamesArePlain(environ);
    if Ident(n) { IdentIsPlain(n); }
    if '=' !in n { SetterIsItself(m, cfg, agent, m.passthrough, n); }
  }

  lemma FoundIfBuilt(m: Manifest, cfg: Config, agent: map<string, string>, extra: map<string, string>, n: string)
    requires BuildFrom(m, cfg, agent, extra).Ok? && n in m.passthrough
    ensures Find(m, cfg, agent, n).Put? || Find(m, cfg, agent, n).Supplied?
  {
    EveryNameFound(m, cfg, agent, m.passthrough, n);
  }

  lemma TrustIsIdent(n: string)
    ensures n == COMMON_ARGS ==> Ident(n)
  {
  }

  /** An environment is built only if every name a run asked to be passed is there,
      none left silently empty: exactly so for the names a shell accepts, those given
      under another, and those that were not sent under a name it does not. A name with
      an equals sign is nobody's. */
  lemma PassthroughIsBound(m: Manifest, cfg: Config, environ: seq<string>, extra: map<string, string>, n: string)
    requires Build(m, cfg, environ, extra).Ok? && n in m.passthrough
    ensures Value(Build(m, cfg, environ, extra).env, n).Some? <==> IsBound(m, cfg, AgentEnv(environ), n)
  {
    var agent, built := AgentEnv(environ), Build(m, cfg, environ, extra);
    assert Value(built.env, n) == DeclaredWithTrust(m, cfg, agent, extra, n) by {
      ValuesAreAsDeclared(m, cfg, environ, extra, n);
    }
    assert Declared(m, cfg, agent, extra, n).Some? <==> IsBound(m, cfg, agent, n) by {
      FoundIfBuilt(m, cfg, agent, extra, n);
      DeclaredExactly(m, cfg, environ, extra, n);
    }
    TrustIsIdent(n);
    if Ident(n) { IdentIsPlain(n); }
  }

  /** In particular every name a shell accepts is bound, whatever the others are. */
  lemma IdentifierIsBound(m: Manifest, cfg: Config, environ: seq<string>, extra: map<string, string>, n: string)
    requires Build(m, cfg, environ, extra).Ok? && n in m.passthrough && Ident(n)
    ensures Value(Build(m, cfg, environ, extra).env, n).Some?
  {
    PassthroughIsBound(m, cfg, environ, extra, n);
    IdentIsPlain(n);
  }

  /** And where no passthrough name holds an equals sign, one that was found is what the
      child sees under that name. */
  lemma FoundIsSeen(m: Manifest, cfg: Config, environ: seq<string>, extra: map<string, string>, n: string)
    requires Build(m, cfg, environ, extra).Ok? && n in m.passthrough
    requires forall i :: 0 <= i < |m.passthrough| ==> '=' !in m.passthrough[i]
    requires Find(m, cfg, AgentEnv(environ), n).Put?
    ensures Value(Build(m, cfg, environ, extra).env, n) == Some(Find(m, cfg, AgentEnv(environ), n).value)
  {
    SetterIsItself(m, cfg, AgentEnv(environ), m.passthrough, n);
    ValuesAreAsDeclared(m, cfg, environ, extra, n);
  }

  /** A name that is no identifier can be: the snapshot has it, so nothing else is
      looked for, and yet it is not sent. */
  lemma OddNameIsSilentlyAbsent()
    ensures var m := Manifest("bash", map["a.b" := "x"], map[], ["a.b"]);
            var cfg := Config([], true, true, "", "", map[]);
            Build(m, cfg, [], map[]).Ok? && Value(Build(m, cfg, [], map[]).env, "a.b") == None
  {
    var m := Manifest("bash", map["a.b" := "x"], map[], ["a.b"]);
    var cfg := Config([], true, true, "", "", map[]);
    assert !IsAgentConfig("a.b") by { assert "a.b"[0] != AGENT_CONFIG[0]; }
    assert Find(m, cfg, map[], "a.b") == Supplied;
    assert m.passthrough[..0] == [];
    assert PassNames(m, cfg, map[], []) == Passed([], [], [], []);
    assert PassNames(m, cfg, map[], ["a.b"]) == Passed([], [], [], []);
    assert !Ident("a.b") by { assert "a.b"[1] == '.'; }
    ValuesAreAsDeclared(m, cfg, [], map[], "a.b");
  }

  // ----- the builder -----

  method ReadEnviron(environ: seq<string>) returns (agent: map<string, string>, names: seq<string>)
    ensures agent == AgentEnv(environ) && Elements(names) == agent.Keys
    ensures forall i, j :: 0 <= i < j < |names| ==> names[i] != names[j]
  {
    agent, names := map[], [];
    for i := 0 to |environ|
      invariant agent == AgentEnv(environ[..i]) && Elements(names) == agent.Keys
      invariant forall i, j :: 0 <= i < j < |names| ==> names[i] != names[j]
    {
      assert environ[..i + 1][..i] == environ[..i];
      var e := Cut(environ[i]);
      if e.Some? {
        var (k, v) := e.value;
        if k !in agent {
          assert k !in Elements(names);
          assert Elements(names + [k]) == Elements(names) + {k};
          names := names + [k];
        }
        agent := agent[k := v];
      }
    }
    assert environ[..|environ|] == environ;
  }

  method SortNames(names: seq<string>) returns (s: seq<string>)
    requires forall i, j :: 0 <= i < j < |names| ==> names[i] != names[j]
    ensures s == Sorted(Elements(names))
  {
    s := [];
    for i := 0 to |names|
      invariant Ascending(s) && Elements(s) == Elements(names[..i])
    {
      assert Elements(names[..i + 1]) == Elements(names[..i]) + {names[i]};
      assert names[i] !in Elements(names[..i]);
      InsertAscends(names[i], s);
      s := Insert(names[i], s);
    }
    assert names[..|names|] == names;
    SortedAscends(Elements(names));
    AscendingIsUnique(s, Sorted(Elements(names)));
  }

  method SliceEnv(env: map<string, string>) returns (out: seq<string>)
    ensures out == EnvSlice(env)
  {
    var keys: seq<string> := [];
    var todo := env.Keys;
    ghost var kept := set n | n in env && Ident(n);
    while todo != {}
      invariant todo <= env.Keys && Elements(keys) == kept - todo
      invariant forall i, j :: 0 <= i < j < |keys| ==> keys[i] != keys[j]
      decreases |todo|
    {
      var k :| k in todo;
      if Ident(k) {
        assert k !in Elements(keys);
        assert Elements(keys + [k]) == Elements(keys) + {k};
        keys := keys + [k];
      }
      todo := todo - {k};
    }
    assert Elements(keys) == kept;
    keys := SortNames(keys);
    assert keys == IdentNames(env);
    out := RenderAll(env, keys);
  }

  method RenderAll(env: map<string, string>, keys: seq<string>) returns (out: seq<string>)
    requires forall k :: k in keys ==> k in env
    ensures out == Render(env, keys)
  {
    out := [];
    for i := 0 to |keys|
      invariant out == Render(env, keys[..i])
    {
      assert keys[..i + 1][..i] == keys[..i];
      out := out + [keys[i] + "=" + env[keys[i]]];
    }
    assert keys[..|keys|] == keys;
  }

  method BaseSet(cfg: Config) returns (base: set<string>, lines: seq<Line>)
    ensures base == Base(cfg) && lines == RefusedLines(cfg.envBaseExtra)
  {
    base := set n | n in ENV_BASE_SAFE_LIST;
    lines := [];
    for i := 0 to |cfg.envBaseExtra|
      invariant base == (set n | n in ENV_BASE_SAFE_LIST) + set n | n in cfg.envBaseExtra[..i] && !IsAgentConfig(n)
      invariant lines == RefusedLines(cfg.envBaseExtra[..i])
    {
      var n := cfg.envBaseExtra[i];
      assert cfg.envBaseExtra[..i + 1][..i] == cfg.envBaseExtra[..i];
      assert forall k :: k in cfg.envBaseExtra[..i + 1] <==> k == n || k in cfg.envBaseExtra[..i];
      if IsAgentConfig(n) {
        lines := lines + [RefusedBase(n)];
      } else {
        base := base + {n};
      }
    }
    assert cfg.envBaseExtra[..|cfg.envBaseExtra|] == cfg.envBaseExtra;
    if !cfg.excludeSSHAuthSock {
      base := base + {SSH_AUTH_SOCK};
    }
  }

  lemma {:induction false} FilterIsPart(s: seq<string>, keep: set<string>)
    ensures forall x :: x in Filter(s, keep) ==> x in s
    decreases |s|
  {
    if s != [] {
      FilterIsPart(s[..|s| - 1], keep);
    }
  }

  /** The agent's own entries that are in the base. */
  method Inherited(agent: map<string, string>, names: seq<string>, base: set<string>, ghost keep: set<string>) returns (out: seq<string>)
    requires forall n :: n in names ==> n in agent && (n in keep <==> n in base || HasPrefix(n, LOCALE_PREFIX))
    ensures forall n :: n in Filter(names, keep) ==> n in agent
    ensures out == Render(agent, Filter(names, keep))
  {
    FilterIsPart(names, keep);
    out := [];
    for i := 0 to |names|
      invariant forall n :: n in Filter(names[..i], keep) ==> n in agent
      invariant out == Render(agent, Filter(names[..i], keep))
    {
      var n := names[i];
      assert names[..i + 1][..i] == names[..i] && n in names;
      FilterIsPart(names[..i + 1], keep);
      ghost var kept := Filter(names[..i], keep);
      if n in base || HasPrefix(n, LOCALE_PREFIX) {
        assert Filter(names[..i + 1], keep) == kept + [n] && (kept + [n])[..|kept|] == kept;
        out := out + [n + "=" + agent[n]];
      } else {
        assert Filter(names[..i + 1], keep) == kept;
      }
    }
    assert names[..|names|] == names;
  }

  lemma BaseInOrder(cfg: Config, agent: map<string, string>)
    ensures var keep := set n | n in agent && InBase(cfg, n); Filter(Sorted(agent.Keys), keep) == BaseNames(cfg, agent)
    ensures forall n :: n in Sorted(agent.Keys) ==> n in agent
  {
    var keep := set n | n in agent && InBase(cfg, n);
    FilterOfSorted(agent.Keys, keep);
    assert agent.Keys * keep == keep;
    SortedAscends(agent.Keys);
    assert forall n :: n in Sorted(agent.Keys) ==> n in Elements(Sorted(agent.Keys));
  }

  /** What stands in for a name that is nowhere set: a reference's own name, or a key
      file. */
  method Bridge(cfg: Config, agent: map<string, string>, n: string) returns (f: Found)
    ensures f == ByReference(cfg, agent, n)
  {
    var bare := StripValueReference(n);
    if bare.Some? {
      if IsAgentConfig(bare.value) {
        return Refuse;
      }
      if bare.value in agent {
        return Put(agent[bare.value], Some(FromBare(n, bare.value)));
      }
    }
    if !cfg.noAuthBridge {
      var file := ResolveKeyPath(cfg, n);
      if file.Some? {
        return Put(file.value.path, Some(FromKeyFile(n, file.value)));
      }
    }
    return Nowhere;
  }

  /** The names a run asked to be passed, one by one. */
  method PassThrough(m: Manifest, cfg: Config, agent: map<string, string>) returns (p: Passed)
    ensures p == PassNames(m, cfg, agent, m.passthrough)
  {
    var out: seq<string>, provenance: seq<Line>, missing: seq<string>, denied: seq<string> := [], [], [], [];
    for i := 0 to |m.passthrough|
      invariant Passed(out, provenance, missing, denied) == PassNames(m, cfg, agent, m.passthrough[..i])
    {
      var n := m.passthrough[i];
      assert m.passthrough[..i + 1][..i] == m.passthrough[..i];
      if IsAgentConfig(n) {
        denied := denied + [n];
        continue;
      }
      if n in m.secrets {
        continue;
      }
      if n in agent {
        assert provenance + [] == provenance;
        out := out + [n + "=" + agent[n]];
        continue;
      }
      if n in m.env {
        continue;
      }
      var f := Bridge(cfg, agent, n);
      match f {
        case Refuse => denied := denied + [n];
        case Put(v, line) =>
          out := out + [n + "=" + v];
          provenance := provenance + (if line.Some? then [line.value] else []);
        case Nowhere => missing := missing + [n];
        case Supplied =>
      }
    }
    assert m.passthrough[..|m.passthrough|] == m.passthrough;
    p := Passed(out, provenance, missing, denied);
  }

  /** Whether some entry sets the name. */
  method EnvSliceHasKey(env: seq<string>, key: string) returns (has: bool)
    requires '=' !in key
    ensures has <==> Value(env, key).Some?
  {
    var prefix := key + "=";
    for i := 0 to |env|
      invariant Value(env[..i], key).None?
    {
      assert env[..i + 1][..i] == env[..i];
      HasKeyPrefix(env[i], key);
      if HasPrefix(env[i], prefix) {
        assert env == env[..i + 1] + env[i + 1..];
        ValueOfBoth(env[..i + 1], env[i + 1..], key);
        return true;
      }
    }
    assert env[..|env|] == env;
    return false;
  }

  lemma HasKeyPrefix(e: string, key: string)
    requires '=' !in key
    ensures HasPrefix(e, key + "=") <==> Cut(e).Some? && Cut(e).value.0 == key
  {
    if HasPrefix(e, key + "=") {
      assert e == key + "=" + e[|key| + 1..];
      CutOfEntry(key, e[|key| + 1..]);
    }
    if Cut(e).Some? && Cut(e).value.0 == key {
      CutNameIsPlain(e);
      assert e[..|key| + 1] == key + "=";
    }
  }

  /** Everything that is sent, before what the run asked to be passed. */
  method SentEnv(m: Manifest, cfg: Config, environ: seq<string>, extra: map<string, string>)
    returns (agent: map<string, string>, out: seq<string>, refused: seq<Line>)
    ensures agent == AgentEnv(environ) && out == Sent(m, cfg, agent, extra) && refused == RefusedLines(cfg.envBaseExtra)
  {
    var names: seq<string>;
    agent, names := ReadEnviron(environ);
    names := SortNames(names);
    var base: set<string>;
    base, refused := BaseSet(cfg);
    BaseInOrder(cfg, agent);
    out := Inherited(agent, names, base, set n | n in agent && InBase(cfg, n));
    var env := SliceEnv(m.env);
    var secrets := SliceEnv(m.secrets);
    var more := SliceEnv(extra);
    out := out + env + secrets + more;
  }

  /** Ansible's host-key arguments, unless somebody gave some. */
  method AddTrust(m: Manifest, cfg: Config, env: seq<string>, lines: seq<Line>) returns (r: Built)
    ensures r == match Trust(m, cfg, env)
                 case None => Ok(env, lines)
                 case Some(t) => Ok(env + [COMMON_ARGS + "=" + t.0], lines + [t.1])
  {
    if m.runType == "ansible" && !cfg.noAuthBridge {
      var has := EnvSliceHasKey(env, COMMON_ARGS);
      if !has {
        if cfg.commonArgs != "" {
          return Ok(env + [COMMON_ARGS + "=" + cfg.commonArgs], lines + [OperatorArgs]);
        }
        if cfg.knownHostsFile != "" {
          var val := "-o UserKnownHostsFile=" + cfg.knownHostsFile + " -o StrictHostKeyChecking=yes";
          return Ok(env + [COMMON_ARGS + "=" + val], lines + [TrustStore(cfg.knownHostsFile)]);
        }
      }
    }
    return Ok(env, lines);
  }

  method BuildChildEnv(m: Manifest, cfg: Config, environ: seq<string>, extra: map<string, string>) returns (r: Built)
    ensures r == Build(m, cfg, environ, extra)
  {
    var agent, out, provenance := SentEnv(m, cfg, environ, extra);
    var p := PassThrough(m, cfg, agent);
    if |p.denied| > 0 {
      return Denied(p.denied);
    }
    if |p.missing| > 0 {
      return Missing(p.missing);
    }
    r := AddTrust(m, cfg, out + p.out, provenance + p.provenance);
  }
}
