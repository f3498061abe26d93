/**
  Containers and attach tokens over whole runs. Start, run, connect, stop and restart commands of
  any number of git roots interleave step by step; the root lock admits one of them per root. A
  command may fail or die between any two steps, and a container may vanish at any time.

  A managed Codex server is started with the hash of a token that is stored for its git root. The
  question is when a client that loads the stored token is let in.
*/
module TokenLifecycle {
  import opened Wrappers
  import opened Runtimes

  type Root = string
  type Name = string
  type Token = string
  type Hash = string

  /** The functions that the commands compute with: container names and token hashes. */
  datatype Config = Config(containerName: Root -> Name, sha256: Token -> Hash)

  /** A container of agentbox, with its labels and the `--ws-token-sha256` of its server. */
  datatype Container = Container(root: Root, kind: ContainerKind, runtime: RuntimeKind, tokenSha256: Option<Hash>)

  /** What a discovered session says about a container that may be gone by now. */
  datatype Session = Session(name: Name, root: Root, runtime: RuntimeKind)

  /** Where the command that holds the lock of a root has got to. */
  datatype Op =
    | Checked(kind: ContainerKind, runtime: RuntimeKind)                          // no container of the root exists
    | Prepared(kind: ContainerKind, runtime: RuntimeKind, token: Option<Token>)   // token minted, run spec built
    | Launched(kind: ContainerKind, runtime: RuntimeKind)                         // the detached run has returned
    | RestartPicked(session: Session)
    | RestartPrepared(session: Session, token: Option<Token>)        // replacement minted, old one not yet gone
    | RestartCleared(session: Session, token: Option<Token>)         // the old container is verified gone
    | StopPicked(session: Session)
    | StopVerified(session: Session)                                 // verified gone, token not yet removed

  datatype State = State(
    containers: map<Name, Container>,
    tokens: map<Root, Token>,
    ops: map<Root, Op>,
    sessions: set<Session>)     // sessions seen by a discovery, with or without a lock

  const INITIAL := State(map[], map[], map[], {})

  datatype Action =
    | BeginLaunch(r: Root, kind: ContainerKind, runtime: RuntimeKind)
    | Prepare(r: Root, token: Token)
    | RunDetached(r: Root)
    | RunDetachedFails(r: Root)
    | BeginRestart(r: Root, session: Session)
    | PrepareReplacement(r: Root, token: Token)
    | VerifyOldGone(r: Root)
    | RunReplacement(r: Root)
    | BeginStop(r: Root, session: Session)
    | VerifyStopped(r: Root)
    | RemoveToken(r: Root)
    | End(r: Root)               // the command returns, fails or dies; its lock is released
    | Discover(name: Name)
    | Vanish(name: Name)         // the container is stopped or exits; `--rm` removes it

  predicate Exists(s: State, r: Root) {
    exists n :: n in s.containers && s.containers[n].root == r
  }

  predicate IsManagedCodex(c: Container) {
    c.kind == Managed && c.runtime == Codex
  }

  predicate HasManagedCodex(s: State, r: Root) {
    exists n :: n in s.containers && s.containers[n].root == r && IsManagedCodex(s.containers[n])
  }

  predicate Enabled(s: State, a: Action, cfg: Config) {
    match a
    case BeginLaunch(r, kind, runtime) => r !in s.ops && !Exists(s, r)
    case Prepare(r, token) => r in s.ops && s.ops[r].Checked?
    case RunDetached(r) => r in s.ops && s.ops[r].Prepared? && cfg.containerName(r) !in s.containers
    case RunDetachedFails(r) => r in s.ops && (s.ops[r].Prepared? || s.ops[r].RestartCleared?)
    case BeginRestart(r, session) =>
      && r !in s.ops && session in s.sessions && session.root == r
      && session.name in s.containers && s.containers[session.name].root == r
      && s.containers[session.name].kind == Managed && s.containers[session.name].runtime == session.runtime
    case PrepareReplacement(r, token) => r in s.ops && s.ops[r].RestartPicked?
    case VerifyOldGone(r) =>
      r in s.ops && s.ops[r].RestartPrepared? && s.ops[r].session.name !in s.containers
    case RunReplacement(r) => r in s.ops && s.ops[r].RestartCleared? && cfg.containerName(r) !in s.containers
    case BeginStop(r, session) => r !in s.ops && session in s.sessions && session.root == r
    case VerifyStopped(r) => r in s.ops && s.ops[r].StopPicked? && s.ops[r].session.name !in s.containers
    case RemoveToken(r) => r in s.ops && s.ops[r].StopVerified?
    case End(r) => r in s.ops
    case Discover(n) => n in s.containers
    case Vanish(n) => n in s.containers
  }

  /** `prepare_codex_attach_token`: only Codex servers get one, and only managed ones store it. */
  function Minted(runtime: RuntimeKind, token: Token): Option<Token> {
    if runtime == Codex then Some(token) else None
  }

  function TokenHash(token: Option<Token>, cfg: Config): Option<Hash> {
    match token
    case None => None
    case Some(t) => Some(cfg.sha256(t))
  }

  function Apply(s: State, a: Action, cfg: Config): State
    requires Enabled(s, a, cfg)
  {
    match a
    case BeginLaunch(r, kind, runtime) => s.(ops := s.ops[r := Checked(kind, runtime)])
    case Prepare(r, token) =>
      var op := s.ops[r];
      s.(tokens := if op.runtime == Codex && op.kind == Managed then s.tokens[r := token] else s.tokens,
         ops := s.ops[r := Prepared(op.kind, op.runtime, Minted(op.runtime, token))])
    case RunDetached(r) =>
      var op := s.ops[r];
      var c := Container(r, op.kind, op.runtime, TokenHash(op.token, cfg));
      s.(containers := s.containers[cfg.containerName(r) := c],
         ops := s.ops[r := Launched(op.kind, op.runtime)])
    case RunDetachedFails(r) =>
      var op := s.ops[r];
      s.(ops := s.ops[r := if op.Prepared? then Launched(op.kind, op.runtime)
                           else Launched(Managed, op.session.runtime)])
    case BeginRestart(r, session) => s.(ops := s.ops[r := RestartPicked(session)])
    case PrepareReplacement(r, token) =>
      var session := s.ops[r].session;
      s.(tokens := if session.runtime == Codex then s.tokens[r := token] else s.tokens,
         ops := s.ops[r := RestartPrepared(session, Minted(session.runtime, token))])
    case VerifyOldGone(r) => s.(ops := s.ops[r := RestartCleared(s.ops[r].session, s.ops[r].token)])
    case RunReplacement(r) =>
      var op := s.ops[r];
      var c := Container(r, Managed, op.session.runtime, TokenHash(op.token, cfg));
      s.(containers := s.containers[cfg.containerName(r) := c],
         ops := s.ops[r := Launched(Managed, op.session.runtime)])
    case BeginStop(r, session) => s.(ops := s.ops[r := StopPicked(session)])
    case VerifyStopped(r) => s.(ops := s.ops[r := StopVerified(s.ops[r].session)])
    case RemoveToken(r) =>
      s.(tokens := if s.ops[r].session.runtime == Codex then s.tokens - {r} else s.tokens, ops := s.ops - {r})
    case End(r) => s.(ops := s.ops - {r})
    case Discover(n) =>
      s.(sessions := s.sessions + {Session(n, s.containers[n].root, s.containers[n].runtime)})
    case Vanish(n) => s.(containers := s.containers - {n})
  }

  function Exec(run: seq<Action>, cfg: Config): Option<State> {
    if run == [] then Some(INITIAL)
    else match Exec(run[..|run| - 1], cfg)
      case None => None
      case Some(before) =>
        if Enabled(before, run[|run| - 1], cfg) then Some(Apply(before, run[|run| - 1], cfg)) else None
  }

  // ---------------------------------------------------------------- one container per root

  /** Every container of agentbox bears the name derived from its root, so a root has at most one. */
  ghost predicate NamedAfterRoot(s: State, cfg: Config) {
    && (forall n :: n in s.containers ==> n == cfg.containerName(s.containers[n].root))
    && (forall session :: session in s.sessions ==> session.name == cfg.containerName(session.root))
  }

  /** What the command of a root knows at each point, thanks to its lock. */
  ghost predicate OpsKnow(s: State, cfg: Config) {
    forall r :: r in s.ops ==> OpKnows(s, r, cfg)
  }

  ghost predicate OpKnows(s: State, r: Root, cfg: Config)
    requires r in s.ops
  {
    match s.ops[r]
    case Checked(_, _) => !Exists(s, r)
    case Prepared(kind, runtime, token) =>
      && !Exists(s, r)
      && (runtime == Codex ==> token.Some?)
      && (kind == Managed && runtime == Codex ==> r in s.tokens && token == Some(s.tokens[r]))
    case Launched(_, _) => true
    case RestartPicked(session) => session.root == r && session.name == cfg.containerName(r)
    case RestartPrepared(session, token) =>
      && session.root == r && session.name == cfg.containerName(r)
      && (session.runtime == Codex <==> token.Some?)
      && (session.runtime == Codex ==> r in s.tokens && token == Some(s.tokens[r]))
    case RestartCleared(session, token) =>
      && session.root == r && !Exists(s, r)
      && (session.runtime == Codex ==> r in s.tokens && token == Some(s.tokens[r]))
    case StopPicked(session) => session.root == r && session.name == cfg.containerName(r)
    case StopVerified(session) => session.root == r && !Exists(s, r)
  }

  /** No step but the launch of a root makes a container of that root appear. */
  lemma OnlyLaunchCreates(s: State, a: Action, cfg: Config, r: Root)
    requires Enabled(s, a, cfg) && !Exists(s, r)
    requires a != RunDetached(r) && a != RunReplacement(r)
    ensures !Exists(Apply(s, a, cfg), r)
  {
    var t := Apply(s, a, cfg);
    forall n | n in t.containers ensures t.containers[n].root != r {
      if n in s.containers && t.containers[n] == s.containers[n] {
        assert s.containers[n].root != r;
      }
    }
  }

  /** A container of the root is the one that bears the root's name. */
  lemma ContainerOfRoot(s: State, cfg: Config, r: Root)
    requires NamedAfterRoot(s, cfg)
    ensures Exists(s, r) <==> cfg.containerName(r) in s.containers && s.containers[cfg.containerName(r)].root == r
    ensures HasManagedCodex(s, r) <==>
              var n := cfg.containerName(r);
              n in s.containers && s.containers[n].root == r && IsManagedCodex(s.containers[n])
  {
  }

  lemma OpStep(s: State, a: Action, cfg: Config, r: Root)
    requires NamedAfterRoot(s, cfg) && OpsKnow(s, cfg) && Enabled(s, a, cfg)
    requires r in Apply(s, a, cfg).ops
    ensures OpKnows(Apply(s, a, cfg), r, cfg)
  {
    ContainerOfRoot(s, cfg, r);
    if !Exists(s, r) && a != RunDetached(r) && a != RunReplacement(r) {
      OnlyLaunchCreates(s, a, cfg, r);
    }
  }

  lemma OrderedStep(s: State, a: Action, cfg: Config)
    requires NamedAfterRoot(s, cfg) && OpsKnow(s, cfg) && Enabled(s, a, cfg)
    ensures NamedAfterRoot(Apply(s, a, cfg), cfg) && OpsKnow(Apply(s, a, cfg), cfg)
  {
    var t := Apply(s, a, cfg);
    forall r | r in t.ops ensures OpKnows(t, r, cfg) {
      OpStep(s, a, cfg, r);
    }
  }

  lemma {:induction false} OrderedRun(run: seq<Action>, cfg: Config)
    requires Exec(run, cfg).Some?
    ensures NamedAfterRoot(Exec(run, cfg).value, cfg) && OpsKnow(Exec(run, cfg).value, cfg)
  {
    if run != [] {
      OrderedRun(run[..|run| - 1], cfg);
      OrderedStep(Exec(run[..|run| - 1], cfg).value, run[|run| - 1], cfg);
    }
  }

  // ---------------------------------------------------------------- agreement

  /** Every managed Codex container of the root was started with the hash of the stored token. */
  ghost predicate TokenAgrees(s: State, r: Root, cfg: Config) {
    forall n :: n in s.containers && s.containers[n].root == r && IsManagedCodex(s.containers[n]) ==>
      r in s.tokens && s.containers[n].tokenSha256 == Some(cfg.sha256(s.tokens[r]))
  }

  /** The token of the step, if it mints one that is stored. */
  predicate Overwrites(s: State, a: Action, r: Root, cfg: Config)
    requires Enabled(s, a, cfg)
  {
    a.PrepareReplacement? && a.r == r && s.ops[r].session.runtime == Codex
  }

  function NextStale(s: State, a: Action, cfg: Config, stale: set<Root>): set<Root>
    requires Enabled(s, a, cfg)
  {
    match a
    case PrepareReplacement(r, _) => if Overwrites(s, a, r, cfg) && HasManagedCodex(s, r) then stale + {r} else stale
    case Vanish(n) => stale - {s.containers[n].root}
    case _ => stale
  }

  /** The roots whose container was launched before the last token was minted for them. */
  function Stale(run: seq<Action>, cfg: Config): set<Root>
    requires Exec(run, cfg).Some?
  {
    if run == [] then {}
    else
      var before := run[..|run| - 1];
      NextStale(Exec(before, cfg).value, run[|run| - 1], cfg, Stale(before, cfg))
  }

  ghost predicate StaleExactly(s: State, cfg: Config, stale: set<Root>) {
    forall r :: if r in stale then HasManagedCodex(s, r) else TokenAgrees(s, r, cfg)
  }

  lemma StaleStepOfRoot(s: State, a: Action, cfg: Config, stale: set<Root>, r: Root)
    requires NamedAfterRoot(s, cfg) && OpsKnow(s, cfg) && StaleExactly(s, cfg, stale) && Enabled(s, a, cfg)
    ensures var t := Apply(s, a, cfg);
            if r in NextStale(s, a, cfg, stale) then HasManagedCodex(t, r) else TokenAgrees(t, r, cfg)
  {
    var t := Apply(s, a, cfg);
    OrderedStep(s, a, cfg);
    ContainerOfRoot(s, cfg, r);
    ContainerOfRoot(t, cfg, r);
  }

  lemma {:induction false} StaleRun(run: seq<Action>, cfg: Config)
    requires Exec(run, cfg).Some?
    ensures StaleExactly(Exec(run, cfg).value, cfg, Stale(run, cfg))
  {
    if run != [] {
      var before := run[..|run| - 1];
      var s := Exec(before, cfg).value;
      StaleRun(before, cfg);
      OrderedRun(before, cfg);
      var t, stale := Exec(run, cfg).value, Stale(run, cfg);
      forall r: Root ensures if r in stale then HasManagedCodex(t, r) else TokenAgrees(t, r, cfg) {
        StaleStepOfRoot(s, run[|run| - 1], cfg, Stale(before, cfg), r);
      }
    }
  }

  /** The restart has overwritten the stored token, and its old container is not yet verified gone. */
  predicate InWindow(s: State, r: Root) {
    r in s.ops && s.ops[r].RestartPrepared? && s.ops[r].token.Some?
  }

  /** No restart of the root fails or dies between minting its token and verifying the old container gone. */
  predicate NoRestartDies(run: seq<Action>, cfg: Config, r: Root) {
    forall k :: 0 <= k < |run| && run[k] == End(r) ==>
      match Exec(run[..k], cfg) case Some(s) => !InWindow(s, r) case None => true
  }

  lemma {:induction false} StaleOnlyInWindow(run: seq<Action>, cfg: Config, r: Root)
    requires Exec(run, cfg).Some? && NoRestartDies(run, cfg, r)
    ensures r in Stale(run, cfg) ==> InWindow(Exec(run, cfg).value, r)
  {
    if run != [] {
      var k := |run| - 1;
      var before := run[..k];
      var s := Exec(before, cfg).value;
      assert forall j :: 0 <= j < k ==> before[..j] == run[..j];
      StaleOnlyInWindow(before, cfg, r);
      StaleRun(before, cfg);
      OrderedRun(before, cfg);
      ContainerOfRoot(s, cfg, r);
    }
  }

  /**
    Token agreement. In every run in which no restart of the root fails or dies between minting its
    token and verifying the old container gone, every managed Codex container of the root was
    started with the hash of the stored token, except while a restart is inside that window.
  */
  lemma TokenAgreement(run: seq<Action>, cfg: Config, r: Root)
    requires Exec(run, cfg).Some? && NoRestartDies(run, cfg, r)
    requires !InWindow(Exec(run, cfg).value, r)
    ensures TokenAgrees(Exec(run, cfg).value, r, cfg)
  {
    StaleRun(run, cfg);
    StaleOnlyInWindow(run, cfg, r);
  }

  /**
    What `connect` relies on. It holds the lock of the root, so no other command is inside its window: the
    token that it loads is the one whose hash the managed Codex server of the root was started with.
  */
  lemma ConnectIsLetIn(run: seq<Action>, cfg: Config, r: Root, n: Name)
    requires Exec(run, cfg).Some? && NoRestartDies(run, cfg, r) && r !in Exec(run, cfg).value.ops
    requires n in Exec(run, cfg).value.containers && Exec(run, cfg).value.containers[n].root == r
    requires IsManagedCodex(Exec(run, cfg).value.containers[n])
    ensures var s := Exec(run, cfg).value;
            r in s.tokens && s.containers[n].tokenSha256 == Some(cfg.sha256(s.tokens[r]))
  {
    TokenAgreement(run, cfg, r);
  }

  // ---------------------------------------------------------------- the exact condition

  /** No minted token has the hash that a container was started with. */
  predicate MintsFresh(run: seq<Action>, cfg: Config) {
    forall k :: 0 <= k < |run| && run[k].PrepareReplacement? ==>
      match Exec(run[..k], cfg)
      case Some(s) => forall n :: n in s.containers ==> s.containers[n].tokenSha256 != Some(cfg.sha256(run[k].token))
      case None => true
  }

  lemma {:induction false} StaleDisagrees(run: seq<Action>, cfg: Config, r: Root)
    requires Exec(run, cfg).Some? && MintsFresh(run, cfg) && r in Stale(run, cfg)
    ensures !TokenAgrees(Exec(run, cfg).value, r, cfg) && r in Exec(run, cfg).value.tokens
  {
    var k := |run| - 1;
    var before := run[..k];
    var s, t := Exec(before, cfg).value, Exec(run, cfg).value;
    assert forall j :: 0 <= j < k ==> before[..j] == run[..j];
    OrderedRun(before, cfg);
    OrderedRun(run, cfg);
    StaleRun(before, cfg);
    StaleRun(run, cfg);
    ContainerOfRoot(s, cfg, r);
    ContainerOfRoot(t, cfg, r);
    if r in Stale(before, cfg) {
      StaleDisagrees(before, cfg, r);
    }
  }

  /**
    The exact condition: with fresh tokens, the stored token is the one the server was started with
    if and only if no restart has minted a token since the server's container was launched.
  */
  lemma TokenAgreesIffNotStale(run: seq<Action>, cfg: Config, r: Root)
    requires Exec(run, cfg).Some? && MintsFresh(run, cfg)
    ensures TokenAgrees(Exec(run, cfg).value, r, cfg) <==> r !in Stale(run, cfg)
  {
    StaleRun(run, cfg);
    if r in Stale(run, cfg) {
      StaleDisagrees(run, cfg, r);
    }
  }

  // ---------------------------------------------------------------- the stranded token

  lemma ExtendRun(before: seq<Action>, s: State, a: Action, cfg: Config) returns (run: seq<Action>)
    requires Exec(before, cfg) == Some(s) && Enabled(s, a, cfg)
    ensures run == before + [a] && Exec(run, cfg) == Some(Apply(s, a, cfg))
  {
    run := before + [a];
    assert run[..|before|] == before;
  }

  function FirstServer(r: Root, t1: Token, cfg: Config): State {
    var n := cfg.containerName(r);
    State(map[n := Container(r, Managed, Codex, Some(cfg.sha256(t1)))], map[r := t1], map[], {Session(n, r, Codex)})
  }

  lemma PrepareOneServer(r: Root, t1: Token, cfg: Config) returns (run: seq<Action>)
    ensures Exec(run, cfg) == Some(State(map[], map[r := t1], map[r := Prepared(Managed, Codex, Some(t1))], {}))
  {
    assert Exec([], cfg) == Some(INITIAL);
    hide Exec;
    var s1 := State(map[], map[], map[r := Checked(Managed, Codex)], {});
    assert Apply(INITIAL, BeginLaunch(r, Managed, Codex), cfg) == s1;
    run := ExtendRun([], INITIAL, BeginLaunch(r, Managed, Codex), cfg);
    assert Apply(s1, Prepare(r, t1), cfg).ops == map[r := Prepared(Managed, Codex, Some(t1))];
    run := ExtendRun(run, s1, Prepare(r, t1), cfg);
  }

  lemma StartOneServer(r: Root, t1: Token, cfg: Config) returns (run: seq<Action>)
    ensures Exec(run, cfg) == Some(FirstServer(r, t1, cfg))
  {
    hide Exec;
    var n := cfg.containerName(r);
    run := PrepareOneServer(r, t1, cfg);
    var s2 := State(map[], map[r := t1], map[r := Prepared(Managed, Codex, Some(t1))], {});
    var s3 := State(FirstServer(r, t1, cfg).containers, map[r := t1], map[r := Launched(Managed, Codex)], {});
    assert Apply(s2, RunDetached(r), cfg) == s3 by {
      assert Apply(s2, RunDetached(r), cfg).ops == s3.ops;
      assert Apply(s2, RunDetached(r), cfg).containers == s3.containers;
    }
    run := ExtendRun(run, s2, RunDetached(r), cfg);
    var s4 := s3.(ops := map[]);
    assert Apply(s3, End(r), cfg) == s4;
    run := ExtendRun(run, s3, End(r), cfg);
    assert Apply(s4, Discover(n), cfg).sessions == {Session(n, r, Codex)};
    run := ExtendRun(run, s4, Discover(n), cfg);
  }

  /**
    Without the condition agreement fails: a restart that ends after minting its token, for example
    because the old container cannot be stopped, leaves the running server with the old hash.
  */
  lemma FailedRestartStrandsToken(r: Root, t1: Token, t2: Token, cfg: Config) returns (run: seq<Action>)
    requires cfg.sha256(t1) != cfg.sha256(t2)
    ensures Exec(run, cfg).Some? && r !in Exec(run, cfg).value.ops
    ensures HasManagedCodex(Exec(run, cfg).value, r) && !TokenAgrees(Exec(run, cfg).value, r, cfg)
  {
    var n := cfg.containerName(r);
    var session := Session(n, r, Codex);
    run := StartOneServer(r, t1, cfg);
    var s0 := FirstServer(r, t1, cfg);
    hide Exec;
    var s1 := Apply(s0, BeginRestart(r, session), cfg);
    run := ExtendRun(run, s0, BeginRestart(r, session), cfg);
    var s2 := Apply(s1, PrepareReplacement(r, t2), cfg);
    run := ExtendRun(run, s1, PrepareReplacement(r, t2), cfg);
    var s3 := Apply(s2, End(r), cfg);
    run := ExtendRun(run, s2, End(r), cfg);
    assert n in s3.containers && s3.containers[n].root == r && IsManagedCodex(s3.containers[n]);
    assert s3.tokens[r] == t2;
  }

  // ---------------------------------------------------------------- a restart that hands over

  lemma ExtendQuiet(before: seq<Action>, s: State, a: Action, cfg: Config, r: Root) returns (run: seq<Action>)
    requires Exec(before, cfg) == Some(s) && Enabled(s, a, cfg)
    requires NoRestartDies(before, cfg, r) && (a == End(r) ==> !InWindow(s, r))
    requires MintsFresh(before, cfg)
    requires a.PrepareReplacement? ==>
               forall n :: n in s.containers ==> s.containers[n].tokenSha256 != Some(cfg.sha256(a.token))
    ensures run == before + [a] && Exec(run, cfg) == Some(Apply(s, a, cfg))
    ensures NoRestartDies(run, cfg, r) && MintsFresh(run, cfg)
  {
    run := ExtendRun(before, s, a, cfg);
    hide Exec;
    assert forall k :: 0 <= k < |before| ==> run[..k] == before[..k];
    assert run[..|before|] == before;
  }

  /** The first server of a root is started without a restart. */
  lemma StartIsQuiet(r: Root, t1: Token, cfg: Config) returns (run: seq<Action>)
    ensures Exec(run, cfg) == Some(FirstServer(r, t1, cfg))
    ensures NoRestartDies(run, cfg, r) && MintsFresh(run, cfg)
  {
    assert Exec([], cfg) == Some(INITIAL) && NoRestartDies([], cfg, r) && MintsFresh([], cfg);
    hide Exec, NoRestartDies, MintsFresh;
    run := ExtendQuiet([], INITIAL, BeginLaunch(r, Managed, Codex), cfg, r);
    var s1 := Apply(INITIAL, BeginLaunch(r, Managed, Codex), cfg);
    run := ExtendQuiet(run, s1, Prepare(r, t1), cfg, r);
    var s2 := Apply(s1, Prepare(r, t1), cfg);
    run := LaunchIsQuiet(run, s2, r, t1, cfg);
  }

  lemma LaunchIsQuiet(before: seq<Action>, s: State, r: Root, t1: Token, cfg: Config) returns (run: seq<Action>)
    requires Exec(before, cfg) == Some(s) && NoRestartDies(before, cfg, r) && MintsFresh(before, cfg)
    requires s.containers == map[] && s.sessions == {}
    requires s.ops == map[r := Prepared(Managed, Codex, Some(t1))] && s.tokens == map[r := t1]
    ensures Exec(run, cfg) == Some(FirstServer(r, t1, cfg))
    ensures NoRestartDies(run, cfg, r) && MintsFresh(run, cfg)
  {
    hide Exec, NoRestartDies, MintsFresh;
    var n, first := cfg.containerName(r), FirstServer(r, t1, cfg);
    run := ExtendQuiet(before, s, RunDetached(r), cfg, r);
    var s3 := Apply(s, RunDetached(r), cfg);
    assert s3.containers == first.containers;
    run := ExtendQuiet(run, s3, End(r), cfg, r);
    var s4 := Apply(s3, End(r), cfg);
    assert s4.ops == map[];
    run := ExtendQuiet(run, s4, Discover(n), cfg, r);
    assert Apply(s4, Discover(n), cfg).sessions == first.sessions;
  }

  /**
    A restart that goes through meets both conditions: the new server has the hash of the new token, which
    is the stored one.
  */
  lemma RestartHandsOver(r: Root, t1: Token, t2: Token, cfg: Config) returns (run: seq<Action>)
    requires cfg.sha256(t1) != cfg.sha256(t2)
    ensures Exec(run, cfg).Some? && NoRestartDies(run, cfg, r) && MintsFresh(run, cfg)
    ensures var s := Exec(run, cfg).value;
            && r !in s.ops && r in s.tokens && s.tokens[r] == t2
            && s.containers == FirstServer(r, t2, cfg).containers
  {
    var n := cfg.containerName(r);
    var session := Session(n, r, Codex);
    run := StartIsQuiet(r, t1, cfg);
    hide Exec, NoRestartDies, MintsFresh;
    var s0 := FirstServer(r, t1, cfg);
    run := ExtendQuiet(run, s0, BeginRestart(r, session), cfg, r);
    var s1 := Apply(s0, BeginRestart(r, session), cfg);
    run := ExtendQuiet(run, s1, PrepareReplacement(r, t2), cfg, r);
    var s2 := Apply(s1, PrepareReplacement(r, t2), cfg);
    run := ExtendQuiet(run, s2, Vanish(n), cfg, r);
    var s3 := Apply(s2, Vanish(n), cfg);
    run := FinishRestart(run, s3, r, t2, session, cfg);
  }

  lemma FinishRestart(before: seq<Action>, s: State, r: Root, t2: Token, session: Session, cfg: Config)
    returns (run: seq<Action>)
    requires Exec(before, cfg) == Some(s) && NoRestartDies(before, cfg, r) && MintsFresh(before, cfg)
    requires s.containers == map[] && r in s.ops && s.ops[r] == RestartPrepared(session, Some(t2))
    requires session == Session(cfg.containerName(r), r, Codex) && r in s.tokens && s.tokens[r] == t2
    ensures Exec(run, cfg).Some? && NoRestartDies(run, cfg, r) && MintsFresh(run, cfg)
    ensures var t := Exec(run, cfg).value;
            && r !in t.ops && r in t.tokens && t.tokens[r] == t2
            && t.containers == FirstServer(r, t2, cfg).containers
  {
    hide Exec, NoRestartDies, MintsFresh;
    run := ExtendQuiet(before, s, VerifyOldGone(r), cfg, r);
    var s4 := Apply(s, VerifyOldGone(r), cfg);
    run := ExtendQuiet(run, s4, RunReplacement(r), cfg, r);
    var s5 := Apply(s4, RunReplacement(r), cfg);
    assert s5.containers == FirstServer(r, t2, cfg).containers;
    run := ExtendQuiet(run, s5, End(r), cfg, r);
  }
}
