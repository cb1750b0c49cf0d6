/** From a process specification to the program that runs: the flags the backend
    builds, wsh's option parser, the request buffers, and wshd's argument vector and
    environment. */
module Exec {
  import opened Common
  import opened Messages

  datatype ProcessSpec = ProcessSpec(path: string, args: seq<string>, env: seq<string>, dir: string, privileged: bool)

  // ---- Building the command line --------------------------------------------------------

  function EnvFlags(env: seq<string>): seq<string> {
    if env == [] then [] else ["--env", env[0]] + EnvFlags(env[1..])
  }

  function UserOf(spec: ProcessSpec): string { if spec.privileged then "root" else "vcap" }

  /** The argv wsh starts with; its first entry is its own path. */
  function WshArgv(wsh: string, sock: string, spec: ProcessSpec): seq<string> {
    [wsh, "--socket", sock, "--user", UserOf(spec)] + EnvFlags(spec.env)
    + (if spec.dir != "" then ["--dir", spec.dir] else []) + [spec.path] + spec.args
  }

  method BuildArgv(wsh: string, sock: string, spec: ProcessSpec) returns (argv: seq<string>)
    ensures argv == WshArgv(wsh, sock, spec)
    ensures argv[3] == "--user" && argv[4] == if spec.privileged then "root" else "vcap"
  {
    var user := "vcap";
    if spec.privileged { user := "root"; }
    argv := [wsh, "--socket", sock, "--user", user];
    ghost var head := argv;
    for i := 0 to |spec.env|
      invariant argv + EnvFlags(spec.env[i..]) == head + EnvFlags(spec.env)
    {
      assert spec.env[i..][1..] == spec.env[i + 1..];
      ghost var more := EnvFlags(spec.env[i + 1..]);
      assert argv + (["--env", spec.env[i]] + more) == argv + ["--env", spec.env[i]] + more;
      argv := argv + ["--env", spec.env[i]];
    }
    assert argv + [] == argv;
    if spec.dir != "" { argv := argv + ["--dir", spec.dir]; } else { assert argv + [] == argv; }
    argv := argv + [spec.path];
    argv := argv + spec.args;
  }

  // ---- wsh's option parser -------------------------------------------------------------

  datatype Wsh = Wsh(
    argv: seq<string>, env: seq<string>, socket: Option<string>, user: Option<string>, dir: Option<string>)

  /** Rejected is the return of -1; Aborted is the failed assertion of --rsh without a host. */
  datatype Parse = Parsed(w: Wsh) | Rejected | Aborted

  const NO_OPTIONS := Wsh([], [], None, None, None)

  predicate Dash(s: string) { |s| > 0 && s[0] == '-' }

  predicate IsIgnored(s: string) { |s| == 2 && s[1] in "46dn" }

  /** The options rsh takes before its host; the result is the host's index. */
  function RshOptions(args: seq<string>, i: nat, w: Wsh): (r: Option<(nat, Wsh)>)
    requires i <= |args|
    ensures r.Some? ==> i <= r.value.0 <= |args|
    decreases |args| - i
  {
    if i == |args| || !Dash(args[i]) then Some((i, w))
    else if IsIgnored(args[i]) then RshOptions(args, i + 1, w)
    else if |args| - i >= 2 && |args[i]| == 2 && args[i][1] == 'l' then
      RshOptions(args, i + 2, w.(user := Some(args[i + 1])))
    else if |args| - i >= 2 && |args[i]| == 2 && args[i][1] == 't' then RshOptions(args, i + 2, w)
    else None
  }

  function Options(args: seq<string>, i: nat, w: Wsh): Parse
    requires i <= |args|
    decreases |args| - i
  {
    if i == |args| || !Dash(args[i]) then Parsed(w.(argv := args[i..]))
    else if args[i] == "-h" || args[i] == "--help" then Rejected
    else if |args| - i >= 2 && args[i] == "--socket" then Options(args, i + 2, w.(socket := Some(args[i + 1])))
    else if |args| - i >= 2 && args[i] == "--user" then Options(args, i + 2, w.(user := Some(args[i + 1])))
    else if |args| - i >= 2 && args[i] == "--dir" then Options(args, i + 2, w.(dir := Some(args[i + 1])))
    else if |args| - i >= 2 && args[i] == "--env" then Options(args, i + 2, w.(env := w.env + [args[i + 1]]))
    else if args[i] == "--rsh" then
      match RshOptions(args, i + 1, w)
      case None => Rejected
      case Some((k, w')) => if k == |args| then Aborted else Options(args, k + 1, w')
    else Rejected
  }

  method GetRshOptions(args: seq<string>, start: nat, w0: Wsh) returns (ok: bool, i: nat, w: Wsh)
    requires start <= |args|
    ensures RshOptions(args, start, w0) == if ok then Some((i, w)) else None
    ensures ok ==> start <= i <= |args|
  {
    i, w := start, w0;
    var j := |args| - i;
    while i < |args|
      invariant start <= i <= |args| && j == |args| - i
      invariant RshOptions(args, start, w0) == RshOptions(args, i, w)
    {
      if !Dash(args[i]) { break; }
      if j >= 1 && IsIgnored(args[i]) {
        i, j := i + 1, j - 1;
      } else if j >= 2 && |args[i]| == 2 && args[i][1] == 'l' {
        w := w.(user := Some(args[i + 1]));
        i, j := i + 2, j - 2;
      } else if j >= 2 && |args[i]| == 2 && args[i][1] == 't' {
        i, j := i + 2, j - 2;
      } else {
        return false, i, w;
      }
    }
    ok := true;
  }

  method GetOpt(argv: seq<string>) returns (r: Parse)
    requires |argv| >= 1
    ensures r == Options(argv, 1, NO_OPTIONS)
  {
    var i := 1;
    var j := |argv| - i;
    var w := NO_OPTIONS;
    while i < |argv|
      invariant 1 <= i <= |argv| && j == |argv| - i
      invariant Options(argv, 1, NO_OPTIONS) == Options(argv, i, w)
    {
      if !Dash(argv[i]) { break; }
      if j >= 1 && (argv[i] == "-h" || argv[i] == "--help") {
        return Rejected;
      } else if j >= 2 && argv[i] == "--socket" {
        w := w.(socket := Some(argv[i + 1]));
        i, j := i + 2, j - 2;
      } else if j >= 2 && argv[i] == "--user" {
        w := w.(user := Some(argv[i + 1]));
        i, j := i + 2, j - 2;
      } else if j >= 2 && argv[i] == "--dir" {
        w := w.(dir := Some(argv[i + 1]));
        i, j := i + 2, j - 2;
      } else if j >= 2 && argv[i] == "--env" {
        w := w.(env := w.env + [argv[i + 1]]);
        i, j := i + 2, j - 2;
      } else if j >= 1 && argv[i] == "--rsh" {
        var ok, host, w' := GetRshOptions(argv, i + 1, w);
        if !ok { return Rejected; }
        if host >= |argv| { return Aborted; }
        w, i := w', host + 1;
        j := |argv| - i;
      } else {
        return Rejected;
      }
    }
    r := Parsed(w.(argv := argv[i..]));
  }

  // ---- The request and the child's environment ---------------------------------------------

  datatype Passwd = Passwd(name: string, uid: nat, gid: nat, dir: string, shell: string)

  const USER_SIZE: nat := 32
  const DIR_SIZE: nat := 1024

  /** A NULL-terminated vector of strings. */
  function Vector(ss: seq<string>): seq<Option<string>> {
    seq(|ss|, i requires 0 <= i < |ss| => Some(ss[i])) + [None]
  }

  /** env__add reallocates the vector one longer and moves its terminator. */
  method EnvAdd(envp: array?<Option<string>>, key: string, value: string, ghost ss: seq<string>)
    returns (r: array<Option<string>>)
    requires envp != null ==> envp[..] == Vector(ss)
    requires envp == null ==> ss == []
    ensures fresh(r) && r[..] == Vector(ss + [key + "=" + value])
  {
    var envplen: nat := 0;
    if envp == null {
      envplen := 1;
    } else {
      assert envp.Length == |ss| + 1 && forall i :: 0 <= i < |ss| ==> envp[i] == Vector(ss)[i];
      assert envp[|ss|] == Vector(ss)[|ss|];
      while envp[envplen] != None
        invariant envplen <= |ss|
        decreases |ss| - envplen
      {
        envplen := envplen + 1;
      }
      envplen := envplen + 1;
    }
    r := new Option<string>[envplen + 1](_ => None);
    for i := 0 to envplen - 1
      invariant forall k :: 0 <= k < i ==> r[k] == Some(ss[k])
    {
      r[i] := envp[i];
    }
    r[envplen - 1] := Some(key + "=" + value);
    r[envplen] := None;
  }

  function PathOf(pw: Passwd): string {
    if pw.uid == 0 then "/usr/local/sbin:/usr/local/bin:/usr/sbin:/usr/bin:/sbin:/bin"
    else "/usr/local/bin:/usr/bin:/bin"
  }

  function ChildEnv(pw: Passwd, extra: seq<string>): seq<string> {
    extra + ["HOME=" + pw.dir, "USER=" + pw.name, "PATH=" + PathOf(pw)]
  }

  lemma EnvironmentIs(pw: Passwd, extra: seq<string>)
    ensures ChildEnv(pw, extra) ==
              extra + ["HOME=" + pw.dir, "USER=" + pw.name,
                       "PATH=" + if pw.uid == 0 then "/usr/local/sbin:/usr/local/bin:/usr/sbin:/usr/bin:/sbin:/bin"
                                 else "/usr/local/bin:/usr/bin:/bin"]
  {
  }

  /** NULL when the home directory cannot be entered. */
  method SetupEnvironment(pw: Passwd, home: bool, extra: array?<Option<string>>, ghost ss: seq<string>)
    returns (envp: array?<Option<string>>)
    requires extra != null ==> extra[..] == Vector(ss)
    requires extra == null ==> ss == []
    ensures envp != null <==> home
    ensures home ==> envp[..] == Vector(ChildEnv(pw, ss))
    ensures home ==>
              envp[..] == Vector(ss + ["HOME=" + pw.dir, "USER=" + pw.name,
                                       "PATH=" + if pw.uid == 0
                                                 then "/usr/local/sbin:/usr/local/bin:/usr/sbin:/usr/bin:/sbin:/bin"
                                                 else "/usr/local/bin:/usr/bin:/bin"])
  {
    if !home {
      return null;
    }
    envp := EnvAdd(extra, "HOME", pw.dir, ss);
    ghost var s1 := ss + ["HOME=" + pw.dir];
    assert "HOME" + "=" + pw.dir == "HOME=" + pw.dir;
    envp := EnvAdd(envp, "USER", pw.name, s1);
    ghost var s2 := s1 + ["USER=" + pw.name];
    assert "USER" + "=" + pw.name == "USER=" + pw.name;
    envp := EnvAdd(envp, "PATH", PathOf(pw), s2);
    assert "PATH" + "=" + PathOf(pw) == "PATH=" + PathOf(pw);
    assert s2 + ["PATH=" + PathOf(pw)] == ChildEnv(pw, ss);
    EnvironmentIs(pw, ss);
  }

  // ---- The whole way ------------------------------------------------------------------------

  /** The user that was looked up and the ids taken on, what execvpe is given, and the
      directory it is run in ("" for the home directory). */
  datatype Program = Program(user: string, uid: nat, gid: nat, argv: seq<string>, env: seq<string>, dir: string)

  /** The strings wshd reads from a buffer wsh filled. */
  function Received(ss: seq<string>): Option<seq<string>>
    requires Total(ss) <= BUF_SIZE
  {
    Unpack(Packed(ss) + Zeros(BUF_SIZE - Total(ss)), 0, |ss|)
  }

  function ShellOf(pw: Passwd): string { if pw.shell == "" then "/bin/sh" else pw.shell }

  function Size(s: Option<string>): nat { if s.None? then 0 else |s.value| }

  /** What the child finds: the entries of the user database, and whether the limits, the
      user and group, the home directory and the requested directory can be set. */
  datatype Host = Host(users: map<string, Passwd>, rlimits: bool, ids: bool, home: bool, dir: bool)

  /** The user to look up; a request without one means root. */
  function UserName(w: Wsh): string {
    if w.user.None? || w.user.value == "" then "root" else w.user.value
  }

  /** None when an import fails, an assertion does, or the child exits before execvpe. */
  function Launch(w: Wsh, host: Host): Option<Program> {
    if Size(w.dir) >= DIR_SIZE || Size(w.user) >= USER_SIZE then None else
    if Total(w.argv) > BUF_SIZE || Total(w.env) > BUF_SIZE then None else
    if UserName(w) !in host.users || !host.rlimits || !host.ids || !host.home then None else
    if Size(w.dir) > 0 && !host.dir then None else
    var pw := host.users[UserName(w)];
    var argv := if w.argv == [] then Some([ShellOf(pw)]) else Received(w.argv);
    var env := if w.env == [] then Some([]) else Received(w.env);
    if argv.None? || env.None? then None
    else
      Some(Program(UserName(w), pw.uid, pw.gid, argv.value, ChildEnv(pw, env.value),
                   if w.dir.None? then "" else w.dir.value))
  }

  /** A command line with a NUL in it cannot be started. */
  function Run(wsh: string, sock: string, spec: ProcessSpec, host: Host): Option<Program> {
    var args := WshArgv(wsh, sock, spec);
    if exists s :: s in args && !NulFree(s) then None else
    match Options(args, 1, NO_OPTIONS)
    case Parsed(w) => Launch(w, host)
    case Rejected => None
    case Aborted => None
  }

  /** The rsh compatibility mode: an option before the host, then the command. */
  lemma RshLogin(wsh: string, user: string, host: string, command: seq<string>)
    requires !Dash(host) && (command == [] || !Dash(command[0]))
    ensures Options([wsh, "--rsh", "-l", user, host] + command, 1, NO_OPTIONS) ==
              Parsed(Wsh(command, [], None, Some(user), None))
  {
    var args := [wsh, "--rsh", "-l", user, host] + command;
    RshAfter(args, 4, command, NO_OPTIONS.(user := Some(user)));
    assert RshOptions(args, 2, NO_OPTIONS) == RshOptions(args, 4, NO_OPTIONS.(user := Some(user)));
  }

  lemma RshTimeout(wsh: string, timeout: string, host: string, command: seq<string>)
    requires !Dash(host) && (command == [] || !Dash(command[0]))
    ensures Options([wsh, "--rsh", "-t", timeout, host] + command, 1, NO_OPTIONS) ==
              Parsed(Wsh(command, [], None, None, None))
  {
    var args := [wsh, "--rsh", "-t", timeout, host] + command;
    RshAfter(args, 4, command, NO_OPTIONS);
    assert RshOptions(args, 2, NO_OPTIONS) == RshOptions(args, 4, NO_OPTIONS);
  }

  lemma RshIgnores(wsh: string, option: string, host: string, command: seq<string>)
    requires option in ["-4", "-6", "-d", "-n"] && !Dash(host) && (command == [] || !Dash(command[0]))
    ensures Options([wsh, "--rsh", option, host] + command, 1, NO_OPTIONS) == Parsed(Wsh(command, [], None, None, None))
  {
    var args := [wsh, "--rsh", option, host] + command;
    RshAfter(args, 3, command, NO_OPTIONS);
    assert RshOptions(args, 2, NO_OPTIONS) == RshOptions(args, 3, NO_OPTIONS);
  }

  /** The host stands at i, the command after it. */
  lemma RshAfter(args: seq<string>, i: nat, command: seq<string>, w: Wsh)
    requires i < |args| && !Dash(args[i]) && args[i + 1..] == command && (command == [] || !Dash(command[0]))
    ensures RshOptions(args, i, w) == Some((i, w)) && Options(args, i + 1, w) == Parsed(w.(argv := command))
  {
    if command != [] { assert args[i + 1] == args[i + 1..][0]; }
  }

  /** What the parser turns away: help, an option it does not know, one without its value, and
      rsh mode without a host. */
  lemma Refused(wsh: string, option: string, rest: seq<string>)
    ensures option in ["-h", "--help"] ==> Options([wsh, option] + rest, 1, NO_OPTIONS) == Rejected
    ensures Dash(option) && option !in ["--socket", "--user", "--dir", "--env", "--rsh"] ==>
              Options([wsh, option] + rest, 1, NO_OPTIONS) == Rejected
    ensures option in ["--socket", "--user", "--dir", "--env"] ==> Options([wsh, option], 1, NO_OPTIONS) == Rejected
    ensures Options([wsh, "--rsh"], 1, NO_OPTIONS) == Aborted
  {
  }

  // ---- Flags with a value, taken two arguments at a time --------------------------------------

  function Flagged(w: Wsh, flag: string, value: string): Wsh {
    if flag == "--socket" then w.(socket := Some(value))
    else if flag == "--user" then w.(user := Some(value))
    else if flag == "--dir" then w.(dir := Some(value))
    else w.(env := w.env + [value])
  }

  predicate IsFlag(s: string) { s == "--socket" || s == "--user" || s == "--dir" || s == "--env" }

  /** n flags with their values stand at i. */
  predicate FlagsAt(args: seq<string>, i: nat, n: nat)
    decreases n
  {
    n == 0 || (i + 2 <= |args| && IsFlag(args[i]) && FlagsAt(args, i + 2, n - 1))
  }

  /** What n flags at i make of w. */
  function Consume(args: seq<string>, i: nat, n: nat, w: Wsh): Wsh
    decreases n
  {
    if n == 0 || i + 2 > |args| then w else Consume(args, i + 2, n - 1, Flagged(w, args[i], args[i + 1]))
  }

  lemma FlagParses(args: seq<string>, i: nat, w: Wsh)
    requires i + 2 <= |args| && IsFlag(args[i])
    ensures Options(args, i, w) == Options(args, i + 2, Flagged(w, args[i], args[i + 1]))
  {
  }

  lemma {:induction false} FlagsAreConsumed(args: seq<string>, i: nat, n: nat, w: Wsh)
    requires i <= |args| && FlagsAt(args, i, n)
    ensures i + 2 * n <= |args| && Options(args, i, w) == Options(args, i + 2 * n, Consume(args, i, n, w))
    decreases n
  {
    if n > 0 {
      FlagParses(args, i, w);
      FlagsAreConsumed(args, i + 2, n - 1, Flagged(w, args[i], args[i + 1]));
    }
  }

  lemma {:induction false} ConsumeMore(args: seq<string>, i: nat, n: nat, m: nat, w: Wsh)
    requires i + 2 * n <= |args| && FlagsAt(args, i, n) && FlagsAt(args, i + 2 * n, m)
    ensures FlagsAt(args, i, n + m)
    ensures Consume(args, i, n + m, w) == Consume(args, i + 2 * n, m, Consume(args, i, n, w))
    decreases n
  {
    if n > 0 {
      ConsumeMore(args, i + 2, n - 1, m, Flagged(w, args[i], args[i + 1]));
    }
  }

  lemma {:induction false} EnvFlagsParse(args: seq<string>, i: nat, env: seq<string>, w: Wsh)
    requires i + 2 * |env| <= |args| && args[i..i + 2 * |env|] == EnvFlags(env)
    ensures FlagsAt(args, i, |env|) && Consume(args, i, |env|, w) == w.(env := w.env + env)
    decreases |env|
  {
    if env == [] {
      assert w.env + env == w.env;
    } else {
      var flags := args[i..i + 2 * |env|];
      assert args[i] == flags[0] == "--env" && args[i + 1] == flags[1] == env[0];
      assert args[i + 2..i + 2 * |env|] == flags[2..] == EnvFlags(env[1..]);
      EnvFlagsParse(args, i + 2, env[1..], w.(env := w.env + [env[0]]));
      assert w.env + [env[0]] + env[1..] == w.env + env;
    }
  }

  lemma {:induction false} EnvFlagsSize(env: seq<string>)
    ensures |EnvFlags(env)| == 2 * |env|
  {
    if env != [] { EnvFlagsSize(env[1..]); }
  }

  lemma ArgvShape(wsh: string, sock: string, spec: ProcessSpec)
    ensures var args := WshArgv(wsh, sock, spec);
            var k := 5 + 2 * |spec.env|;
            && k < |args| && args[5..k] == EnvFlags(spec.env)
            && args[1..5] == ["--socket", sock, "--user", UserOf(spec)]
            && args[k..] == (if spec.dir != "" then ["--dir", spec.dir] else []) + ([spec.path] + spec.args)
  {
    EnvFlagsSize(spec.env);
  }

  lemma HeadParses(args: seq<string>, sock: string, user: string)
    requires |args| >= 5 && args[1..5] == ["--socket", sock, "--user", user]
    ensures FlagsAt(args, 1, 2) && Consume(args, 1, 2, NO_OPTIONS) == Wsh([], [], Some(sock), Some(user), None)
  {
    var head := args[1..5];
    assert args[1] == head[0] && args[2] == head[1] && args[3] == head[2] && args[4] == head[3];
    assert FlagsAt(args, 5, 0) && FlagsAt(args, 3, 1);
    var w := Flagged(NO_OPTIONS, args[1], args[2]);
    assert Consume(args, 3, 1, w) == Consume(args, 5, 0, Flagged(w, args[3], args[4]));
  }

  lemma HeadAndEnvParse(args: seq<string>, sock: string, user: string, env: seq<string>)
    requires 5 + 2 * |env| <= |args| && args[5..5 + 2 * |env|] == EnvFlags(env)
    requires args[1..5] == ["--socket", sock, "--user", user]
    ensures FlagsAt(args, 1, 2 + |env|)
    ensures Consume(args, 1, 2 + |env|, NO_OPTIONS) == Wsh([], env, Some(sock), Some(user), None)
  {
    HeadParses(args, sock, user);
    EnvFlagsParse(args, 5, env, Wsh([], [], Some(sock), Some(user), None));
    assert [] + env == env;
    ConsumeMore(args, 1, 2, |env|, NO_OPTIONS);
  }

  /** An optional --dir flag at k. */
  lemma DirParses(args: seq<string>, k: nat, w: Wsh, dir: string, rest: seq<string>) returns (n: nat)
    requires k <= |args| && args[k..] == (if dir != "" then ["--dir", dir] else []) + rest
    ensures FlagsAt(args, k, n) && k + 2 * n <= |args| && args[k + 2 * n..] == rest
    ensures Consume(args, k, n, w) == if dir == "" then w else w.(dir := Some(dir))
  {
    var tail := args[k..];
    if dir == "" {
      assert [] + rest == rest;
      return 0;
    }
    assert args[k] == tail[0] && args[k + 1] == tail[1] && args[k + 2..] == tail[2..];
    assert FlagsAt(args, k + 2, 0);
    n := 1;
  }

  lemma ArgsParse(args: seq<string>, sock: string, user: string, env: seq<string>, dir: string, rest: seq<string>)
      returns (n: nat)
    requires var k := 5 + 2 * |env|;
             && k <= |args| && args[5..k] == EnvFlags(env)
             && args[1..5] == ["--socket", sock, "--user", user]
             && args[k..] == (if dir != "" then ["--dir", dir] else []) + rest
    ensures FlagsAt(args, 1, n) && 1 + 2 * n <= |args| && args[1 + 2 * n..] == rest
    ensures Consume(args, 1, n, NO_OPTIONS) ==
              Wsh([], env, Some(sock), Some(user), if dir == "" then None else Some(dir))
  {
    HeadAndEnvParse(args, sock, user, env);
    n := DirParses(args, 5 + 2 * |env|, Wsh([], env, Some(sock), Some(user), None), dir, rest);
    ConsumeMore(args, 1, 2 + |env|, n, NO_OPTIONS);
    n := 2 + |env| + n;
  }

  /** Whatever the environment strings are, the flags are parsed as meant, up to the path. */
  lemma FlagsParse(wsh: string, sock: string, spec: ProcessSpec) returns (k: nat, w: Wsh)
    ensures var args := WshArgv(wsh, sock, spec);
            k < |args| && args[k..] == [spec.path] + spec.args && Options(args, 1, NO_OPTIONS) == Options(args, k, w)
    ensures w == Wsh([], spec.env, Some(sock), Some(UserOf(spec)), if spec.dir == "" then None else Some(spec.dir))
  {
    var args := WshArgv(wsh, sock, spec);
    ArgvShape(wsh, sock, spec);
    var n := ArgsParse(args, sock, UserOf(spec), spec.env, spec.dir, [spec.path] + spec.args);
    FlagsAreConsumed(args, 1, n, NO_OPTIONS);
    k := 1 + 2 * n;
    w := Wsh([], spec.env, Some(sock), Some(UserOf(spec)), if spec.dir == "" then None else Some(spec.dir));
  }

  /** The remaining argv is a suffix; an option in front is never part of it, and an
      option alone is never accepted. */
  lemma {:induction false} OptionsShorten(args: seq<string>, i: nat, w: Wsh)
    requires i <= |args| && Options(args, i, w).Parsed?
    ensures |Options(args, i, w).w.argv| <= |args| - i
    ensures i < |args| && Dash(args[i]) ==> |args| - i >= 2 && |Options(args, i, w).w.argv| < |args| - i
    decreases |args| - i
  {
    if i < |args| && Dash(args[i]) {
      if |args| - i >= 2 && args[i] == "--socket" { OptionsShorten(args, i + 2, w.(socket := Some(args[i + 1]))); }
      else if |args| - i >= 2 && args[i] == "--user" { OptionsShorten(args, i + 2, w.(user := Some(args[i + 1]))); }
      else if |args| - i >= 2 && args[i] == "--dir" { OptionsShorten(args, i + 2, w.(dir := Some(args[i + 1]))); }
      else if |args| - i >= 2 && args[i] == "--env" { OptionsShorten(args, i + 2, w.(env := w.env + [args[i + 1]])); }
      else {
        var (k, w') := RshOptions(args, i + 1, w).value;
        OptionsShorten(args, k + 1, w');
      }
    }
  }

  lemma {:induction false} UnpackCount(buf: string, off: nat, count: nat)
    ensures Unpack(buf, off, count).Some? ==> |Unpack(buf, off, count).value| == count
    decreases count
  {
    if count > 0 && CString(buf, off).Some? {
      UnpackCount(buf, CString(buf, off).value.1, count - 1);
    }
  }

  lemma ReceivedIsSent(ss: seq<string>)
    requires Total(ss) <= BUF_SIZE && forall s :: s in ss ==> NulFree(s)
    ensures Received(ss) == Some(ss)
  {
    assert ss[..|ss|] == ss;
    ArrayRoundTrip(Packed(ss) + Zeros(BUF_SIZE - Total(ss)), ss);
  }

  ghost predicate NoNuls(wsh: string, sock: string, spec: ProcessSpec) {
    && NulFree(wsh) && NulFree(sock) && NulFree(spec.path) && NulFree(spec.dir)
    && (forall s :: s in spec.args ==> NulFree(s)) && (forall s :: s in spec.env ==> NulFree(s))
  }

  ghost predicate Fits(spec: ProcessSpec) {
    Total([spec.path] + spec.args) <= BUF_SIZE && Total(spec.env) <= BUF_SIZE && |spec.dir| < DIR_SIZE
  }

  ghost predicate HostReady(host: Host, spec: ProcessSpec) {
    && (if spec.privileged then "root" else "vcap") in host.users
    && host.rlimits && host.ids && host.home && (spec.dir != "" ==> host.dir)
  }

  /** What was asked for: Path followed by Args, with Env followed by HOME, USER and PATH, as
      root if privileged and as vcap otherwise. */
  ghost predicate RunsAsAsked(wsh: string, sock: string, spec: ProcessSpec, host: Host) {
    var user := if spec.privileged then "root" else "vcap";
    && user in host.users
    && var pw := host.users[user];
       var path := "PATH=" + if pw.uid == 0 then "/usr/local/sbin:/usr/local/bin:/usr/sbin:/usr/bin:/sbin:/bin"
                             else "/usr/local/bin:/usr/bin:/bin";
       Run(wsh, sock, spec, host) ==
         Some(Program(user, pw.uid, pw.gid, [spec.path] + spec.args,
                      spec.env + ["HOME=" + pw.dir, "USER=" + pw.name, path], spec.dir))
  }

  lemma {:induction false} EnvFlagsHold(env: seq<string>)
    ensures forall s :: s in EnvFlags(env) <==> s in env || (s == "--env" && env != [])
  {
    if env != [] {
      EnvFlagsHold(env[1..]);
      assert env == [env[0]] + env[1..];
      assert EnvFlags(env) == ["--env", env[0]] + EnvFlags(env[1..]);
    }
  }

  lemma NulsInArgv(wsh: string, sock: string, spec: ProcessSpec)
    ensures (forall s :: s in WshArgv(wsh, sock, spec) ==> NulFree(s)) <==> NoNuls(wsh, sock, spec)
  {
    var head := [wsh, "--socket", sock, "--user", UserOf(spec)];
    var dir := if spec.dir != "" then ["--dir", spec.dir] else [];
    var args := WshArgv(wsh, sock, spec);
    assert args == head + EnvFlags(spec.env) + dir + [spec.path] + spec.args;
    assert forall s :: s in args <==>
             (s in head || s in EnvFlags(spec.env) || s in dir || s == spec.path || s in spec.args);
    EnvFlagsHold(spec.env);
    assert head[0] == wsh && head[2] == sock && (spec.dir != "" ==> dir[1] == spec.dir);
    assert NulFree("--socket") && NulFree("--user") && NulFree("--env") && NulFree("--dir") && NulFree(UserOf(spec));
  }

  lemma CommandArrives(w: Wsh, command: seq<string>, host: Host)
    requires (forall s :: s in command ==> NulFree(s)) && (forall s :: s in w.env ==> NulFree(s))
    requires Size(w.dir) < DIR_SIZE && Total(command) <= BUF_SIZE
             && Total(w.env) <= BUF_SIZE && Size(w.user) < USER_SIZE
    requires UserName(w) in host.users && host.rlimits && host.ids && host.home && (Size(w.dir) > 0 ==> host.dir)
    requires command != []
    ensures var pw := host.users[UserName(w)];
            Launch(w.(argv := command), host) ==
              Some(Program(UserName(w), pw.uid, pw.gid, command, ChildEnv(pw, w.env),
                           if w.dir.None? then "" else w.dir.value))
  {
    assert UserName(w.(argv := command)) == UserName(w);
    ReceivedIsSent(command);
    ReceivedIsSent(w.env);
  }

  /** A command line that starts with an option never arrives as it was. */
  lemma DashedIsCut(args: seq<string>, k: nat, w: Wsh, host: Host)
    requires k < |args| && Dash(args[k]) && Options(args, k, w).Parsed?
    ensures Launch(Options(args, k, w).w, host).Some? ==> |Launch(Options(args, k, w).w, host).value.argv| < |args| - k
  {
    OptionsShorten(args, k, w);
    var w' := Options(args, k, w).w;
    if Launch(w', host).Some? && w'.argv != [] {
      UnpackCount(Packed(w'.argv) + Zeros(BUF_SIZE - Total(w'.argv)), 0, |w'.argv|);
    }
  }

  /** A request without a command runs the user's login shell, or /bin/sh. */
  lemma NoCommandRunsShell(w: Wsh, host: Host)
    requires w.argv == [] && Launch(w, host).Some?
    ensures var shell := host.users[UserName(w)].shell;
            Launch(w, host).value.argv == [if shell != "" then shell else "/bin/sh"]
    ensures w.user == None || w.user == Some("") ==> Launch(w, host).value.user == "root"
  {
  }

  /** The program that was asked for runs exactly when no string holds a NUL, Path is no
      option, everything fits its buffer and the child can be set up. */
  lemma PipelineIsExact(wsh: string, sock: string, spec: ProcessSpec, host: Host)
    ensures RunsAsAsked(wsh, sock, spec, host) <==>
              NoNuls(wsh, sock, spec) && !Dash(spec.path) && Fits(spec) && HostReady(host, spec)
  {
    NulsInArgv(wsh, sock, spec);
    if NoNuls(wsh, sock, spec) {
      var args := WshArgv(wsh, sock, spec);
      var k, w := FlagsParse(wsh, sock, spec);
      var command := [spec.path] + spec.args;
      assert args[k] == args[k..][0] == spec.path && |args| - k == |command|;
      if Dash(spec.path) {
        if Options(args, k, w).Parsed? { DashedIsCut(args, k, w, host); }
      } else {
        assert Options(args, k, w) == Parsed(w.(argv := command));
        if Fits(spec) && HostReady(host, spec) {
          CommandArrives(w, command, host);
          EnvironmentIs(host.users[UserName(w)], spec.env);
        }
      }
    }
  }
}
