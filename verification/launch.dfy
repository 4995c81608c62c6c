/** Launching another application through the LiMo application-management
    service, and forwarding the arguments to an instance that is already
    running as an `exec` signal. */
module Launch {
  import opened Optional
  import opened CStrings
  import opened Config
  import opened Gconf
  import opened Bus

  // ---------------------------------------------------------------------------
  // The LiMo service, as seen from the library
  // ---------------------------------------------------------------------------

  /** The two LiMo error codes the library compares against. Their values live
      in a header that is not part of this model; the library relies on them
      differing from success, from the shutdown code -1 and from each other. */
  datatype AmsCodes = AmsCodes(alreadyRunning: int, transportError: int) {
    predicate Valid() {
      && alreadyRunning != 0 && alreadyRunning != Failure
      && transportError != 0 && transportError != alreadyRunning
    }
  }

  /** What happened to the launch call: no proxy could be obtained, the call
      itself failed, or the service replied with an error code and an
      instance id. */
  datatype AmsReply = NoProxy | CallFailed | Replied(errorCode: int, instId: int)

  /** The two ways the caller hands over arguments. */
  datatype ArgStyle = VaList | ArgVector

  /** The `app_launch_call` request: application id and argument string
      (`None` is a NULL string). */
  datatype LaunchRequest = LaunchRequest(appId: int, args: Option<string>)

  /** Result of a launch helper: its code, the request it made (if it got as
      far as calling) and the instance id the reply filled in. */
  datatype LaunchResult = LaunchResult(code: int, request: Option<LaunchRequest>, instId: Option<int>)

  // ---------------------------------------------------------------------------
  // Argument strings
  // ---------------------------------------------------------------------------

  const Delim: string := [ArgDelimiter]

  /** Arguments with the delimiter between consecutive ones, built left to
      right as the va-list helper does. */
  function Join(args: seq<string>): string
    requires |args| >= 1
  {
    if |args| == 1 then args[0] else Join(args[..|args| - 1]) + Delim + args[|args| - 1]
  }

  /** The va-list argument string: NULL for no arguments. */
  function JoinVa(args: seq<string>): Option<string> {
    if args == [] then None else Some(Join(args))
  }

  /** The argv argument string: the delimiter before every argument. */
  function JoinArgv(args: seq<string>): string {
    if args == [] then "" else JoinArgv(args[..|args| - 1]) + Delim + args[|args| - 1]
  }

  function ArgString(args: seq<string>, style: ArgStyle): Option<string> {
    match style
    case VaList => JoinVa(args)
    case ArgVector => Some(JoinArgv(args))
  }

  /** Splitting at every occurrence of `d`; the receiver's view of an argument
      string. */
  function SplitAll(s: string, d: char): (parts: seq<string>)
    ensures |parts| >= 1
    decreases |s|
  {
    var p := SplitFirst(s, d);
    if |p| < 2 then [s] else [p[0]] + SplitAll(p[1], d)
  }

  predicate DelimiterFree(args: seq<string>) {
    forall i :: 0 <= i < |args| ==> ArgDelimiter !in args[i]
  }

  /** Peeling off the first argument of a joined string. */
  lemma {:induction false} JoinCons(args: seq<string>)
    requires |args| >= 2
    ensures Join(args) == args[0] + Delim + Join(args[1..])
    decreases |args|
  {
    if |args| > 2 {
      JoinCons(args[..|args| - 1]);
      assert args[..|args| - 1][1..] == args[1..][..|args[1..]| - 1];
    } else {
      assert args[..1] == [args[0]];
    }
  }

  /** The va-list string splits back into exactly the arguments, provided no
      argument contains the delimiter itself. */
  lemma {:induction false} SplitJoin(args: seq<string>)
    requires |args| >= 1 && DelimiterFree(args)
    ensures SplitAll(Join(args), ArgDelimiter) == args
    decreases |args|
  {
    if |args| == 1 {
      assert ArgDelimiter !in args[0];
      assert |SplitFirst(args[0], ArgDelimiter)| < 2;
    } else {
      JoinCons(args);
      SplitFirstAt(args[0], ArgDelimiter, Join(args[1..]));
      assert args[0] + Delim + Join(args[1..]) == args[0] + [ArgDelimiter] + Join(args[1..]);
      SplitJoin(args[1..]);
      assert [args[0]] + args[1..] == args;
    }
  }

  /** The argv string is the va-list string with one more delimiter in front;
      an empty argument list gives the empty string, not NULL. */
  lemma {:induction false} ArgvIsDelimitedVa(args: seq<string>)
    ensures args == [] ==> JoinArgv(args) == "" && JoinVa(args) == None
    ensures args != [] ==> JoinArgv(args) == Delim + JoinVa(args).value
    decreases |args|
  {
    if |args| > 1 {
      ArgvIsDelimitedVa(args[..|args| - 1]);
    } else if |args| == 1 {
      assert args[..0] == [];
    }
  }

  /** Delimiter counts: n - 1 in the va-list string, n in the argv string. */
  lemma {:induction false} DelimiterCounts(args: seq<string>)
    requires DelimiterFree(args)
    ensures args != [] ==> multiset(Join(args))[ArgDelimiter] == |args| - 1
    ensures multiset(JoinArgv(args))[ArgDelimiter] == |args|
    decreases |args|
  {
    if args != [] {
      var init := args[..|args| - 1];
      assert DelimiterFree(init) by {
        forall i | 0 <= i < |init| ensures ArgDelimiter !in init[i] {
          assert init[i] == args[i];
        }
      }
      DelimiterCounts(init);
      var last := args[|args| - 1];
      assert multiset(last)[ArgDelimiter] == 0;
      if |args| > 1 {
        assert multiset(Join(init) + Delim + last) == multiset(Join(init)) + multiset(Delim) + multiset(last);
      } else {
        assert Join(args) == last;
      }
      assert multiset(JoinArgv(init) + Delim + last) == multiset(JoinArgv(init)) + multiset(Delim) + multiset(last);
    }
  }

  /** The va-list helper's loop: the first argument is copied, every further
      one is appended after a delimiter. */
  method BuildVaArgs(values: seq<string>) returns (args: Option<string>)
    ensures args.None? <==> values == []
    ensures args.Some? && DelimiterFree(values) ==> SplitAll(args.value, ArgDelimiter) == values
    ensures args == JoinVa(values)
  {
    if |values| == 0 {
      return None;
    }
    var acc := values[0];
    var i := 1;
    assert values[..1] == [values[0]];
    while i < |values|
      invariant 1 <= i <= |values|
      invariant acc == Join(values[..i])
    {
      assert values[..i + 1][..i] == values[..i];
      acc := acc + Delim + values[i];
      i := i + 1;
    }
    assert values[..|values|] == values;
    if DelimiterFree(values) {
      SplitJoin(values);
    }
    return Some(acc);
  }

  /** The argv helper's loop: every argument is appended after a delimiter. */
  method BuildArgvArgs(values: seq<string>) returns (args: string)
    ensures values == [] ==> args == ""
    ensures values != [] && DelimiterFree(values) ==>
              |args| > 0 && args[0] == ArgDelimiter && SplitAll(args[1..], ArgDelimiter) == values
    ensures args == JoinArgv(values)
  {
    var acc := "";
    var i := 0;
    while i < |values|
      invariant 0 <= i <= |values|
      invariant acc == JoinArgv(values[..i])
    {
      assert values[..i + 1][..i] == values[..i];
      acc := acc + Delim + values[i];
      i := i + 1;
    }
    assert values[..|values|] == values;
    if values != [] && DelimiterFree(values) {
      ArgvIsDelimitedVa(values);
      SplitJoin(values);
      assert acc[1..] == Join(values);
    }
    return acc;
  }

  // ---------------------------------------------------------------------------
  // Launch helpers and the exec entry points
  // ---------------------------------------------------------------------------

  /** `ClpAppMgrAppLaunchWithArgs` / `ClpAppMgrAppLaunchWithArgv`: refuse with
      -1 while the system shuts down, otherwise call `app_launch_call` and
      pass the service's error code through. */
  function LaunchWith(reg: Registry, codes: AmsCodes, appId: int, values: seq<string>, style: ArgStyle, reply: AmsReply): (r: LaunchResult)
    requires codes.Valid()
    ensures GetBool(reg, ShutdownKey) ==> r == LaunchResult(Failure, None, None)
    ensures !GetBool(reg, ShutdownKey) ==> (r.request.Some? <==> !reply.NoProxy?)
    ensures r.request.Some? ==> r.request.value == LaunchRequest(appId, ArgString(values, style))
    ensures r.code == 0 <==> !GetBool(reg, ShutdownKey) && reply.Replied? && reply.errorCode == 0
    ensures !GetBool(reg, ShutdownKey) && reply.Replied? ==>
              r.code == reply.errorCode && r.instId == Some(reply.instId)
    ensures !GetBool(reg, ShutdownKey) && !reply.Replied? ==>
              r.code == codes.transportError && r.instId.None?
  {
    if GetBool(reg, ShutdownKey) then LaunchResult(Failure, None, None)
    else
      var request := LaunchRequest(appId, ArgString(values, style));
      match reply
      case NoProxy => LaunchResult(codes.transportError, None, None)
      case CallFailed => LaunchResult(codes.transportError, Some(request), None)
      case Replied(e, inst) => LaunchResult(e, Some(request), Some(inst))
  }

  /** The `exec` signal forwarded to a running single-instance application:
      addressed by the unsplit application name, carrying the count and
      `[application] + args`. */
  function ExecSignal(application: string, args: seq<string>): (m: Message)
    requires |args| + 1 < UInt32Limit
    ensures IsSignal(m, AppMgrInterface + "." + application, SignalExec)
    ensures m.path == AppMgrObject + "/" + application
    ensures ListDecodable(m.body)
    ensures ListCount(m.body) == |args| + 1
    ensures ListItems(m.body) == [application] + args
    ensures m.body == EncodeList(application, args)
  {
    Message(SignalKind, AppMgrObject + "/" + application, AppMgrInterface + "." + application, SignalExec,
            EncodeList(application, args))
  }

  /** The fixed arrays the callers copy forwarded arguments into: 255 slots
      after the application name on the va-list paths; a signed count on the
      argv path. */
  predicate WithinCapacity(args: seq<string>, style: ArgStyle) {
    match style
    case VaList => |args| < NameSize
    case ArgVector => |args| + 1 < Int32Limit
  }

  /** What an exec entry point did: its result code, the launch request and
      the `exec` signal it got onto the bus. */
  datatype ExecOutcome = ExecOutcome(code: int, request: Option<LaunchRequest>, signal: Option<Message>)

  /** The application id the launch is made for. */
  function AppIdOf(reg: Registry, application: string): int {
    GetInt(reg, AppKey(Some(application), "/info/AppID"))
  }

  /** Whether the service reported that the application already runs. */
  predicate AlreadyRunning(reg: Registry, codes: AmsCodes, reply: AmsReply) {
    !GetBool(reg, ShutdownKey) && reply.Replied? && reply.errorCode == codes.alreadyRunning
  }

  /** Whether the service launched a fresh instance. */
  predicate Launched(reg: Registry, reply: AmsReply) {
    !GetBool(reg, ShutdownKey) && reply.Replied? && reply.errorCode == 0 && reply.instId > 0
  }

  /** `clp_app_mgr_exec`, `clp_app_mgr_exec_application` (style `VaList`) and
      `clp_app_mgr_exec_argv` (style `ArgVector`). An application that already
      runs gets its arguments in an `exec` signal instead. */
  function Exec(reg: Registry, codes: AmsCodes, application: string, args: seq<string>, style: ArgStyle,
                reply: AmsReply, oracle: SendOracle): (out: ExecOutcome)
    requires codes.Valid() && WithinCapacity(args, style)
    ensures GetBool(reg, ShutdownKey) ==> out == ExecOutcome(Failure, None, None)
    ensures !GetBool(reg, ShutdownKey) && !reply.NoProxy? ==>
              out.request == Some(LaunchRequest(AppIdOf(reg, application), ArgString(args, style)))
    ensures out.code == Success <==>
              Launched(reg, reply) || (AlreadyRunning(reg, codes, reply) && oracle.created && oracle.sent)
    ensures AlreadyRunning(reg, codes, reply) ==>
              out.code == (if !oracle.created then DbusCallFail else if !oracle.sent then OutOfMemory else Success)
    ensures !AlreadyRunning(reg, codes, reply) && !Launched(reg, reply) ==> out.code == Failure
    ensures out.signal.Some? <==> AlreadyRunning(reg, codes, reply) && oracle.created && oracle.sent
    ensures out.signal.Some? ==> out.signal.value == ExecSignal(application, args)
  {
    var launch := LaunchWith(reg, codes, AppIdOf(reg, application), args, style, reply);
    if launch.code == codes.alreadyRunning then
      if !oracle.created then ExecOutcome(DbusCallFail, launch.request, None)
      else if !oracle.sent then ExecOutcome(OutOfMemory, launch.request, None)
      else ExecOutcome(Success, launch.request, Some(ExecSignal(application, args)))
    else if launch.code != 0 || launch.instId.value <= 0 then
      ExecOutcome(Failure, launch.request, None)
    else
      ExecOutcome(Success, launch.request, None)
  }
}
