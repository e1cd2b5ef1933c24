/** What a built environment holds, name by name, and what keeps one from being built,
    on the run, the agent's configuration and the entries of its own environment. */
module ChildEnvValues {
  import opened ChildEnv
  import opened Names
  import opened Options

  // ----- the agent's own environment -----

  /** The agent's environment is what a process given its entries sees. */
  lemma {:induction false} AgentSees(environ: seq<string>, n: string)
    ensures n in AgentEnv(environ) <==> Value(environ, n).Some?
    ensures n in AgentEnv(environ) ==> Value(environ, n) == Some(AgentEnv(environ)[n])
    decreases |environ|
  {
    if environ != [] {
      AgentSees(environ[..|environ| - 1], n);
    }
  }

  /** The names every child inherits, if the agent has them. */
  ghost predicate Inherits(cfg: Config, n: string) {
    || n in {"PATH", "HOME", "USER", "LOGNAME", "SHELL", "TERM", "TMPDIR", "TZ", "LANG"}
    || (n == "SSH_AUTH_SOCK" && !cfg.excludeSSHAuthSock)
    || (n in cfg.envBaseExtra && !("CRONOMICON_RUNNER_" <= n))
    || "LC_" <= n
  }

  lemma InheritsExactly(cfg: Config, n: string)
    ensures InBase(cfg, n) <==> Inherits(cfg, n)
  {
    assert n in (set k | k in ENV_BASE_SAFE_LIST) <==> n in ENV_BASE_SAFE_LIST;
    assert n in ENV_BASE_SAFE_LIST <==> n in {"PATH", "HOME", "USER", "LOGNAME", "SHELL", "TERM", "TMPDIR", "TZ", "LANG"} by {
      assert ENV_BASE_SAFE_LIST[0] == "PATH" && ENV_BASE_SAFE_LIST[1] == "HOME" && ENV_BASE_SAFE_LIST[2] == "USER"
          && ENV_BASE_SAFE_LIST[3] == "LOGNAME" && ENV_BASE_SAFE_LIST[4] == "SHELL" && ENV_BASE_SAFE_LIST[5] == "TERM"
          && ENV_BASE_SAFE_LIST[6] == "TMPDIR" && ENV_BASE_SAFE_LIST[7] == "TZ" && ENV_BASE_SAFE_LIST[8] == "LANG";
    }
  }

  /** A name a shell accepts: letters, digits and underscores, and no digit first. */
  lemma IdentExactly(n: string)
    ensures Ident(n) <==>
      && n != "" && !('0' <= n[0] <= '9')
      && forall i :: 0 <= i < |n| ==> 'a' <= n[i] <= 'z' || 'A' <= n[i] <= 'Z' || '0' <= n[i] <= '9' || n[i] == '_'
  {
  }

  // ----- one passthrough name -----

  /** The row a reference names. */
  ghost function Bare(n: string): Option<string> {
    if "CRONOMICON_SECRET_" <= n then Some(n[18..])
    else if "CRONOMICON_VAR_" <= n then Some(n[15..])
    else None
  }

  /** The key file that stands for a name: its own, or that of the name without the key
      prefix. */
  ghost function KeyFor(cfg: Config, n: string): Option<KeyFile> {
    if cfg.noAuthBridge || n == "" then None
    else if n in cfg.keys then Some(cfg.keys[n])
    else if "CRONOMICON_KEY_" <= n && n[15..] in cfg.keys then Some(cfg.keys[n[15..]])
    else None
  }

  /** A name nobody set: not the server, and not the agent's environment. */
  ghost predicate Unset(m: Manifest, agent: map<string, string>, n: string) {
    n !in m.secrets && n !in m.env && n !in agent
  }

  /** The agent's own configuration, asked for by its name or behind a reference. */
  ghost predicate Refused(m: Manifest, agent: map<string, string>, n: string) {
    || "CRONOMICON_RUNNER_" <= n
    || (Unset(m, agent, n) && Bare(n).Some? && "CRONOMICON_RUNNER_" <= Bare(n).value)
  }

  ghost predicate Lacking(m: Manifest, cfg: Config, agent: map<string, string>, n: string) {
    && !Refused(m, agent, n) && Unset(m, agent, n)
    && (Bare(n).Some? ==> Bare(n).value !in agent) && KeyFor(cfg, n).None?
  }

  lemma FindExactly(m: Manifest, cfg: Config, agent: map<string, string>, n: string)
    ensures var f := Find(m, cfg, agent, n);
            && (f == Refuse <==> Refused(m, agent, n))
            && (f == Nowhere <==> Lacking(m, cfg, agent, n))
            && (!Refused(m, agent, n) ==>
                  && (n in m.secrets ==> f == Supplied)
                  && (n !in m.secrets && n in agent ==> f == Put(agent[n], None))
                  && (n !in m.secrets && n !in agent && n in m.env ==> f == Supplied)
                  && (Unset(m, agent, n) && Bare(n).Some? && Bare(n).value in agent ==>
                        f == Put(agent[Bare(n).value], Some(FromBare(n, Bare(n).value))))
                  && (Unset(m, agent, n) && !(Bare(n).Some? && Bare(n).value in agent) && KeyFor(cfg, n).Some? ==>
                        f == Put(KeyFor(cfg, n).value.path, Some(FromKeyFile(n, KeyFor(cfg, n).value)))))
  {
    assert |SECRET_PREFIX| == 18 && |VAR_PREFIX| == 15 && |KEY_PREFIX| == 15;
  }

  // ----- a built environment, name by name -----

  ghost predicate PlainNames(m: Manifest) {
    forall i :: 0 <= i < |m.passthrough| ==> '=' !in m.passthrough[i]
  }

  /** A name the run asked to be passed, and the server sent no secret of: the child sees
      what the agent's environment has under it; failing that, if the server sent nothing
      either, what it has under the name behind a reference; failing that, the path of its
      key file. One of the three is there. */
  lemma PassedValue(m: Manifest, cfg: Config, environ: seq<string>, extra: map<string, string>, n: string)
    requires Build(m, cfg, environ, extra).Ok? && PlainNames(m) && n in m.passthrough && n !in m.secrets
    ensures var seen, own := Value(Build(m, cfg, environ, extra).env, n), Value(environ, n);
            && !("CRONOMICON_RUNNER_" <= n)
            && (own.Some? ==> seen == own)
            && (own.None? && n !in m.env ==>
                  if Bare(n).Some? && Value(environ, Bare(n).value).Some? then seen == Value(environ, Bare(n).value)
                  else KeyFor(cfg, n).Some? && seen == Some(KeyFor(cfg, n).value.path))
  {
    var agent := AgentEnv(environ);
    AgentSees(environ, n);
    if Bare(n).Some? { AgentSees(environ, Bare(n).value); }
    FindExactly(m, cfg, agent, n);
    FoundIfBuilt(m, cfg, agent, extra, n);
    if Find(m, cfg, agent, n).Put? { FoundIsSeen(m, cfg, environ, extra, n); }
  }

  lemma {:induction false} NoSetter(m: Manifest, cfg: Config, agent: map<string, string>, names: seq<string>, n: string)
    requires forall i :: 0 <= i < |names| ==> '=' !in names[i]
    requires n in names ==> !Find(m, cfg, agent, n).Put?
    ensures Setter(m, cfg, agent, names, n) == None
    decreases |names|
  {
    if names != [] {
      var rest, last := names[..|names| - 1], names[|names| - 1];
      assert names == rest + [last];
      NoSetter(m, cfg, agent, rest, n);
      EqualsBehind(last, n);
    }
  }

  lemma EqualsBehind(name: string, n: string)
    ensures n + "=" <= name ==> '=' in name
  {
    if n + "=" <= name {
      assert name[|n|] == (n + "=")[|n|];
    }
  }

  /** What the server sent, or the child inherits: the run's extras before the secrets,
      those before the snapshot, all under names a shell accepts; and then the agent's own
      of the names every child inherits. */
  ghost function SentOrInherited(m: Manifest, cfg: Config, environ: seq<string>, extra: map<string, string>, n: string): Option<string> {
    if Ident(n) && n in extra then Some(extra[n])
    else if Ident(n) && n in m.secrets then Some(m.secrets[n])
    else if Ident(n) && n in m.env then Some(m.env[n])
    else if Inherits(cfg, n) then Value(environ, n)
    else None
  }

  /** Any other name, ansible's host-key arguments aside: nothing of the agent's own
      environment reaches the child but what every child inherits. */
  lemma OtherValue(m: Manifest, cfg: Config, environ: seq<string>, extra: map<string, string>, n: string)
    requires Build(m, cfg, environ, extra).Ok? && PlainNames(m) && n != "ANSIBLE_SSH_COMMON_ARGS"
    requires n !in m.passthrough || n in m.secrets || (Value(environ, n).None? && n in m.env)
    ensures Value(Build(m, cfg, environ, extra).env, n) == SentOrInherited(m, cfg, environ, extra, n)
  {
    var agent := AgentEnv(environ);
    AgentSees(environ, n);
    InheritsExactly(cfg, n);
    FindExactly(m, cfg, agent, n);
    if n in m.passthrough { FoundIfBuilt(m, cfg, agent, extra, n); }
    NoSetter(m, cfg, agent, m.passthrough, n);
    ValuesAreAsDeclared(m, cfg, environ, extra, n);
  }

  /** Ansible's host-key arguments, where no passthrough gives them: what
      was sent or inherited; failing that, of an ansible run whose agent bridges keys, the
      operator's, or those that name the agent's trust store. */
  lemma TrustValue(m: Manifest, cfg: Config, environ: seq<string>, extra: map<string, string>)
    requires Build(m, cfg, environ, extra).Ok? && PlainNames(m)
    requires var n := "ANSIBLE_SSH_COMMON_ARGS"; n !in m.passthrough || n in m.secrets || (Value(environ, n).None? && n in m.env)
    ensures var n := "ANSIBLE_SSH_COMMON_ARGS";
            var seen, sent := Value(Build(m, cfg, environ, extra).env, n), SentOrInherited(m, cfg, environ, extra, n);
            seen ==
            if sent.Some? || m.runType != "ansible" || cfg.noAuthBridge then sent
            else if cfg.commonArgs != "" then Some(cfg.commonArgs)
            else if cfg.knownHostsFile != "" then
              Some("-o UserKnownHostsFile=" + cfg.knownHostsFile + " -o StrictHostKeyChecking=yes")
            else None
  {
    var agent, n := AgentEnv(environ), COMMON_ARGS;
    AgentSees(environ, n);
    InheritsExactly(cfg, n);
    FindExactly(m, cfg, agent, n);
    if n in m.passthrough { FoundIfBuilt(m, cfg, agent, extra, n); }
    NoSetter(m, cfg, agent, m.passthrough, n);
    ValuesAreAsDeclared(m, cfg, environ, extra, n);
  }

  // ----- what is refused, what is missing, and what is told -----

  lemma {:induction false} PassedExactly(m: Manifest, cfg: Config, agent: map<string, string>, names: seq<string>, denied: set<string>, missing: set<string>)
    requires forall n :: n in names ==> (n in denied <==> Refused(m, agent, n)) && (n in missing <==> Lacking(m, cfg, agent, n))
    ensures PassNames(m, cfg, agent, names).denied == Filter(names, denied)
    ensures PassNames(m, cfg, agent, names).missing == Filter(names, missing)
    decreases |names|
  {
    if names != [] {
      var rest, last := names[..|names| - 1], names[|names| - 1];
      assert names == rest + [last];
      FindExactly(m, cfg, agent, last);
      PassedExactly(m, cfg, agent, rest, denied, missing);
    }
  }

  /** An environment is not built exactly if a name is refused, or, none being, if one is
      nowhere to be found; and the answer lists those names, as often and in the order in
      which they were asked for. */
  lemma NotBuiltExactly(m: Manifest, cfg: Config, environ: seq<string>, extra: map<string, string>)
    ensures var agent := AgentEnv(environ);
            var denied := Filter(m.passthrough, set n | n in m.passthrough && Refused(m, agent, n));
            var missing := Filter(m.passthrough, set n | n in m.passthrough && Lacking(m, cfg, agent, n));
            var r := Build(m, cfg, environ, extra);
            if denied != [] then r == Denied(denied)
            else if missing != [] then r == Missing(missing)
            else r.Ok?
  {
    var agent := AgentEnv(environ);
    PassedExactly(m, cfg, agent, m.passthrough, set n | n in m.passthrough && Refused(m, agent, n),
                  set n | n in m.passthrough && Lacking(m, cfg, agent, n));
  }

  /** A name is told of when it came from another, or from a key file. */
  ghost predicate Told(m: Manifest, cfg: Config, agent: map<string, string>, n: string, line: Line) {
    && !Refused(m, agent, n) && Unset(m, agent, n)
    && if Bare(n).Some? && Bare(n).value in agent then line == FromBare(n, Bare(n).value)
       else KeyFor(cfg, n).Some? && line == FromKeyFile(n, KeyFor(cfg, n).value)
  }

  lemma ToldOne(m: Manifest, cfg: Config, agent: map<string, string>, n: string, line: Line)
    ensures var f := Find(m, cfg, agent, n); (f.Put? && f.line == Some(line)) <==> Told(m, cfg, agent, n, line)
  {
    FindExactly(m, cfg, agent, n);
  }

  lemma {:induction false} ToldExactly(m: Manifest, cfg: Config, agent: map<string, string>, names: seq<string>, line: Line)
    ensures line in PassNames(m, cfg, agent, names).provenance <==> exists n :: n in names && Told(m, cfg, agent, n, line)
    decreases |names|
  {
    if names != [] {
      var rest, last := names[..|names| - 1], names[|names| - 1];
      assert names == rest + [last];
      ToldExactly(m, cfg, agent, rest, line);
      ToldOne(m, cfg, agent, last, line);
      if Told(m, cfg, agent, last, line) {
        assert last in names;
      }
      if n :| n in rest && Told(m, cfg, agent, n, line) {
        assert n in names;
      }
    }
  }

  lemma {:induction false} RefusedLinesExactly(extra: seq<string>, line: Line)
    ensures line in RefusedLines(extra) <==> line.RefusedBase? && line.name in extra && "CRONOMICON_RUNNER_" <= line.name
    decreases |extra|
  {
    if extra != [] {
      var rest, last := extra[..|extra| - 1], extra[|extra| - 1];
      assert extra == rest + [last];
      RefusedLinesExactly(rest, line);
    }
  }

  /** What the log is told: each name of the operator's that may not be inherited, each
      value that came from another name or from a key file; and nothing else, the source
      of ansible's host-key arguments aside. */
  lemma ProvenanceExactly(m: Manifest, cfg: Config, environ: seq<string>, extra: map<string, string>, line: Line)
    requires Build(m, cfg, environ, extra).Ok? && !line.OperatorArgs? && !line.TrustStore?
    ensures line in Build(m, cfg, environ, extra).provenance <==>
      || (line.RefusedBase? && line.name in cfg.envBaseExtra && "CRONOMICON_RUNNER_" <= line.name)
      || exists n :: n in m.passthrough && Told(m, cfg, AgentEnv(environ), n, line)
  {
    ToldExactly(m, cfg, AgentEnv(environ), m.passthrough, line);
    RefusedLinesExactly(cfg.envBaseExtra, line);
  }

  /** So two agents whose environments differ only under names that begin with the agent's
      own prefix give every run the same. */
  lemma PrefixIsUnseen(m: Manifest, cfg: Config, one: seq<string>, other: seq<string>, extra: map<string, string>)
    requires forall n :: !("CRONOMICON_RUNNER_" <= n) ==> Value(one, n) == Value(other, n)
    ensures Build(m, cfg, one, extra) == Build(m, cfg, other, extra)
  {
    forall n ensures n in Scrub(AgentEnv(one)) <==> n in Scrub(AgentEnv(other))
             ensures n in Scrub(AgentEnv(one)) ==> Scrub(AgentEnv(one))[n] == Scrub(AgentEnv(other))[n]
    {
      AgentSees(one, n);
      AgentSees(other, n);
    }
    assert Scrub(AgentEnv(one)) == Scrub(AgentEnv(other));
    NonInterference(m, cfg, one, other, extra);
  }
}
