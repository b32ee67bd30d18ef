/**
 * Startup of the clipboard image server (server.ts): the command-line scan that
 * picks a transport, the `PORT` default and the configuration handed to the
 * protocol runtime's `start`.
 */
module Transport {
  import opened Wrappers

  datatype TransportType = Stdio | HttpStream

  /** The command-line spelling of a transport type. */
  function TransportName(t: TransportType): string
  {
    match t
    case Stdio => "stdio"
    case HttpStream => "httpStream"
  }

  /** The transport a `--transport` value names: only the two exact spellings are accepted. */
  function TransportNamed(s: string): (r: Option<TransportType>)
    ensures r.Some? ==> TransportName(r.value) == s
  {
    if s == "httpStream" then Some(HttpStream)
    else if s == "stdio" then Some(Stdio)
    else None
  }

  lemma TransportNamedInverse(t: TransportType)
    ensures TransportNamed(TransportName(t)) == Some(t)
  {
  }

  /** What `parseArgs` ends in: `process.exit(code)` or the parsed arguments. */
  datatype ParseOutcome = Exit(code: int) | Args(transportType: TransportType)

  predicate IsTransportFlag(token: string)
  {
    token == "--transport" || token == "-t"
  }

  predicate IsHelpFlag(token: string)
  {
    token == "--help" || token == "-h"
  }

  /** `args[i + 1]`, which is `undefined` past the end of the list. */
  function TokenAfter(args: seq<string>, i: nat): (r: Option<string>)
    ensures r.Some? <==> i + 1 < |args|
    ensures r.Some? ==> r.value == args[i + 1]
  {
    if i + 1 < |args| then Some(args[i + 1]) else None
  }

  /** The transport after reading the value `next` of a `--transport` flag. */
  function Selected(next: Option<string>, current: TransportType): (t: TransportType)
    ensures next.Some? && TransportNamed(next.value).Some? ==> t == TransportNamed(next.value).value
    ensures next.None? || TransportNamed(next.value).None? ==> t == current
  {
    if next.Some? && TransportNamed(next.value).Some? then TransportNamed(next.value).value else current
  }

  /**
   * The scan from position i on, with `current` the transport chosen so far:
   * a `--transport`/`-t` flag reads and skips the next token, a `--help`/`-h`
   * flag exits with status 0, anything else is ignored.
   */
  function ParseFrom(args: seq<string>, i: nat, current: TransportType): (r: ParseOutcome)
    decreases |args| + 1 - i
    ensures r.Exit? ==> r.code == 0
  {
    if i >= |args| then Args(current)
    else if IsTransportFlag(args[i]) then ParseFrom(args, i + 2, Selected(TokenAfter(args, i), current))
    else if IsHelpFlag(args[i]) then Exit(0)
    else ParseFrom(args, i + 1, current)
  }

  /** `parseArgs` on the tokens after the program and script names; the default is stdio. */
  function Parse(args: seq<string>): ParseOutcome
  {
    ParseFrom(args, 0, Stdio)
  }

  /** The loop of `parseArgs`, proved to compute Parse. */
  method ParseArgs(args: seq<string>) returns (r: ParseOutcome)
    ensures r == Parse(args)
  {
    var transportType := Stdio;
    var i := 0;
    while i < |args|
      invariant 0 <= i <= |args| + 1
      invariant Parse(args) == ParseFrom(args, i, transportType)
      decreases |args| + 1 - i
    {
      if IsTransportFlag(args[i]) {
        var nextArg := TokenAfter(args, i);
        if nextArg == Some("httpStream") || nextArg == Some("stdio") {
          transportType := TransportNamed(nextArg.value).value;
        }
        i := i + 1;  // the value token is consumed
      } else if IsHelpFlag(args[i]) {
        return Exit(0);
      }
      i := i + 1;
    }
    return Args(transportType);
  }

  /**
   * The positions, from i on, that the scan reads as flags; the token after a
   * `--transport` flag is consumed as its value and never read as a flag.
   */
  function FlagPositions(args: seq<string>, i: nat): (ps: set<nat>)
    decreases |args| + 1 - i
    ensures forall p :: p in ps ==> i <= p < |args|
  {
    if i >= |args| then {}
    else if IsTransportFlag(args[i]) then {i} + FlagPositions(args, i + 2)
    else {i} + FlagPositions(args, i + 1)
  }

  /** Position p holds a `--transport` flag followed by a recognised transport name. */
  predicate SetsTransport(args: seq<string>, p: nat)
  {
    p + 1 < |args| && IsTransportFlag(args[p]) && TransportNamed(args[p + 1]).Some?
  }

  /** The scan exits exactly when some token it reads as a flag is `--help` or `-h`. */
  lemma {:induction false} ExitIffHelpFlagRead(args: seq<string>, i: nat, current: TransportType)
    decreases |args| + 1 - i
    ensures ParseFrom(args, i, current).Exit? <==>
            exists p :: p in FlagPositions(args, i) && IsHelpFlag(args[p])
  {
    if i < |args| {
      if IsTransportFlag(args[i]) {
        ExitIffHelpFlagRead(args, i + 2, Selected(TokenAfter(args, i), current));
      } else if !IsHelpFlag(args[i]) {
        ExitIffHelpFlagRead(args, i + 1, current);
      } else {
        assert i in FlagPositions(args, i);
      }
    }
  }

  /** Without a recognised `--transport` value the transport chosen so far is kept. */
  lemma {:induction false} KeepsCurrentUnlessSet(args: seq<string>, i: nat, current: TransportType)
    decreases |args| + 1 - i
    requires forall p :: p in FlagPositions(args, i) ==> !SetsTransport(args, p)
    ensures ParseFrom(args, i, current).Args? ==> ParseFrom(args, i, current).transportType == current
  {
    if i < |args| {
      assert i in FlagPositions(args, i);
      if IsTransportFlag(args[i]) {
        assert !SetsTransport(args, i);
        KeepsCurrentUnlessSet(args, i + 2, current);
      } else if !IsHelpFlag(args[i]) {
        KeepsCurrentUnlessSet(args, i + 1, current);
      }
    }
  }

  /** No tokens, or no recognised `--transport` value read: the transport is stdio. */
  lemma DefaultIsStdio(args: seq<string>)
    requires forall p :: p in FlagPositions(args, 0) ==> !SetsTransport(args, p)
    ensures Parse(args).Args? ==> Parse(args).transportType == Stdio
    ensures args == [] ==> Parse(args) == Args(Stdio)
  {
    KeepsCurrentUnlessSet(args, 0, Stdio);
  }

  /** A flag position reached from i leaves the positions read after it among those read from i. */
  lemma {:induction false} FlagPositionsFrom(args: seq<string>, i: nat, p: nat)
    decreases |args| + 1 - i
    requires p in FlagPositions(args, i)
    ensures FlagPositions(args, p) <= FlagPositions(args, i)
  {
    if i != p {
      if IsTransportFlag(args[i]) {
        FlagPositionsFrom(args, i + 2, p);
      } else {
        FlagPositionsFrom(args, i + 1, p);
      }
    }
  }

  /** Unless it exits first, the scan reaches every flag position with some transport chosen. */
  lemma {:induction false} ScanReaches(args: seq<string>, i: nat, p: nat, current: TransportType)
    decreases |args| + 1 - i
    requires p in FlagPositions(args, i)
    ensures ParseFrom(args, i, current).Exit? ||
            exists t :: ParseFrom(args, i, current) == ParseFrom(args, p, t)
  {
    if i != p {
      if IsTransportFlag(args[i]) {
        ScanReaches(args, i + 2, p, Selected(TokenAfter(args, i), current));
      } else if !IsHelpFlag(args[i]) {
        ScanReaches(args, i + 1, p, current);
      }
    }
  }

  /** Of several `--transport` flags with a recognised value, the last one read wins. */
  lemma LastRecognisedValueWins(args: seq<string>, p: nat)
    requires p in FlagPositions(args, 0) && SetsTransport(args, p)
    requires forall q :: q in FlagPositions(args, 0) && q > p ==> !SetsTransport(args, q)
    ensures Parse(args).Args? ==> Parse(args).transportType == TransportNamed(args[p + 1]).value
  {
    var chosen := TransportNamed(args[p + 1]).value;
    FlagPositionsFrom(args, 0, p);
    assert FlagPositions(args, p) == {p} + FlagPositions(args, p + 2);
    KeepsCurrentUnlessSet(args, p + 2, chosen);
    ScanReaches(args, 0, p, Stdio);
  }

  /** The token after a `--transport` flag is never read as a flag, whatever it is. */
  lemma {:induction false} ValueTokenIsSkipped(args: seq<string>, i: nat, p: nat)
    decreases |args| + 1 - i
    requires p in FlagPositions(args, i) && IsTransportFlag(args[p])
    ensures p + 1 !in FlagPositions(args, i)
  {
    if i != p {
      if IsTransportFlag(args[i]) {
        ValueTokenIsSkipped(args, i + 2, p);
      } else {
        ValueTokenIsSkipped(args, i + 1, p);
      }
    }
  }

  /** Worked cases of the scan. */
  lemma ParseExamples()
    ensures Parse([]) == Args(Stdio)
    ensures Parse(["--transport", "httpStream"]) == Args(HttpStream)
    ensures Parse(["-t", "httpStream", "--transport", "stdio"]) == Args(Stdio)
    ensures Parse(["--transport", "bogus"]) == Args(Stdio)
    ensures Parse(["--transport", "--help"]) == Args(Stdio)
    ensures Parse(["-t", "httpStream", "--transport"]) == Args(HttpStream)
    ensures Parse(["--transport", "httpStream", "-h"]) == Exit(0)
    ensures Parse(["-t", "stdio", "--help", "-t", "httpStream"]) == Exit(0)
  {
  }

  const DefaultPort: int := 4000
  const HttpEndpoint: string := "/mcp"

  /**
   * `process.env.PORT ? parseInt(process.env.PORT) : 4000`: an unset or empty
   * variable gives the default, any other value is handed to `parseInt`.
   */
  function Port(env: Option<string>, parseInt: string -> int): (port: int)
    ensures env == None || env == Some("") ==> port == DefaultPort
    ensures env.Some? && env.value != "" ==> port == parseInt(env.value)
  {
    if env.Some? && env.value != "" then parseInt(env.value) else DefaultPort
  }

  datatype HttpStreamOptions = HttpStreamOptions(port: int, endpoint: string)

  /** The `startConfig` object passed to the runtime's `start`. */
  datatype StartConfig = StdioConfig | HttpStreamConfig(httpStream: HttpStreamOptions)

  /** The `transportType` field of a start configuration. */
  function TransportTypeOf(config: StartConfig): TransportType
  {
    match config
    case StdioConfig => Stdio
    case HttpStreamConfig(_) => HttpStream
  }

  /** The `startConfig` conditional. */
  function BuildStartConfig(t: TransportType, port: int): (config: StartConfig)
    ensures TransportTypeOf(config) == t
    ensures config.HttpStreamConfig? ==> config.httpStream == HttpStreamOptions(port, HttpEndpoint)
  {
    match t
    case HttpStream => HttpStreamConfig(HttpStreamOptions(port, HttpEndpoint))
    case Stdio => StdioConfig
  }

  /** `process.argv.slice(2)`: the tokens after the program and script names. */
  function UserArgs(argv: seq<string>): (args: seq<string>)
    ensures |argv| >= 2 ==> argv == argv[..2] + args
    ensures |argv| < 2 ==> args == []
  {
    if |argv| >= 2 then argv[2..] else []
  }

  datatype StartupOutcome = ExitProcess(code: int) | StartServer(config: StartConfig)

  /** The top level of server.ts up to the call of `start`. */
  function Startup(argv: seq<string>, env: Option<string>, parseInt: string -> int): (r: StartupOutcome)
    ensures r.ExitProcess? <==> Parse(UserArgs(argv)).Exit?
    ensures r.ExitProcess? ==> r.code == 0
    ensures r.StartServer? ==> TransportTypeOf(r.config) == Parse(UserArgs(argv)).transportType
    ensures r.StartServer? && r.config.HttpStreamConfig? ==>
              r.config.httpStream == HttpStreamOptions(Port(env, parseInt), HttpEndpoint)
  {
    match Parse(UserArgs(argv))
    case Exit(code) => ExitProcess(code)
    case Args(t) => StartServer(BuildStartConfig(t, Port(env, parseInt)))
  }

  /** Start-up with no flags, and with `--transport httpStream` and PORT=8080. */
  lemma StartupScenarios(node: string, script: string, parseInt: string -> int)
    requires parseInt("8080") == 8080
    ensures Startup([node, script], None, parseInt) == StartServer(StdioConfig)
    ensures Startup([node, script, "--transport", "httpStream"], Some("8080"), parseInt)
            == StartServer(HttpStreamConfig(HttpStreamOptions(8080, "/mcp")))
    ensures Startup([node, script, "--transport", "httpStream"], Some(""), parseInt)
            == StartServer(HttpStreamConfig(HttpStreamOptions(4000, "/mcp")))
    ensures Startup([node, script, "-t", "stdio", "--help", "-t", "httpStream"], None, parseInt) == ExitProcess(0)
  {
    assert UserArgs([node, script]) == [];
    assert UserArgs([node, script, "--transport", "httpStream"]) == ["--transport", "httpStream"];
    assert UserArgs([node, script, "-t", "stdio", "--help", "-t", "httpStream"])
        == ["-t", "stdio", "--help", "-t", "httpStream"];
    ParseExamples();
  }
}
