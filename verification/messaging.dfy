/** Outbound signals addressed to another application: `stop`, `Message`,
    and the `stop` the two close functions send before killing the instance. */
module Messaging {
  import opened Optional
  import opened CStrings
  import opened Config
  import opened Gconf
  import opened Bus

  // ---------------------------------------------------------------------------
  // Addressing by instance name
  // ---------------------------------------------------------------------------

  /** What `stop` and `send_message` append to the manager's prefixes: the
      target name split at its first ':' and glued back together. */
  function TargetSuffix(target: string): (t: string)
    ensures ':' !in target ==> t == target
    ensures ':' in target ==>
              var i := IndexOf(target, ':');
              t == target[..i] + target[i + 1..]
    ensures |t| == |target| || |t| == |target| - 1
  {
    ConcatParts(SplitFirst(target, ':'))
  }

  function TargetInterface(target: string): string {
    AppMgrInterface + "." + TargetSuffix(target)
  }

  function TargetObject(target: string): string {
    AppMgrObject + "/" + TargetSuffix(target)
  }

  /** The suffix of an instance name `app:id` is `app` followed directly by
      the id. */
  lemma SuffixOfInstanceName(app: string, id: string)
    requires ':' !in app
    ensures TargetSuffix(app + ":" + id) == app + id
  {
    SplitFirstAt(app, ':', id);
    assert app + ":" + id == app + [':'] + id;
  }

  /** What sending one signal produced: the result code and the signal that
      reached the bus. */
  datatype SendOutcome = SendOutcome(code: int, signal: Option<Message>)

  /** `clp_app_mgr_stop`: a `stop` signal without arguments to the target's
      address. */
  function Stop(target: string, oracle: SendOracle): (out: SendOutcome)
    ensures out.code == Success <==> oracle.created && oracle.sent
    ensures !oracle.created ==> out.code == DbusCallFail
    ensures oracle.created && !oracle.sent ==> out.code == OutOfMemory
    ensures out.signal.Some? <==> out.code == Success
    ensures out.signal.Some? ==>
              && IsSignal(out.signal.value, TargetInterface(target), SignalStop)
              && out.signal.value.path == TargetObject(target)
              && out.signal.value.body == []
  {
    if !oracle.created then SendOutcome(DbusCallFail, None)
    else if !oracle.sent then SendOutcome(OutOfMemory, None)
    else SendOutcome(Success, Some(Message(SignalKind, TargetObject(target), TargetInterface(target), SignalStop, [])))
  }

  /** `clp_app_mgr_send_message`: a `Message` signal whose payload is the
      count and `[target] + messages`. Whether the signal could be queued does
      not affect the result. At most 256 messages fit the copy buffer. */
  function SendMessage(target: string, messages: seq<string>, oracle: SendOracle): (out: SendOutcome)
    requires |messages| <= MaxSize
    ensures out.code == (if oracle.created then Success else DbusCallFail)
    ensures out.signal.Some? <==> oracle.created && oracle.sent
    ensures out.signal.Some? ==>
              && IsSignal(out.signal.value, TargetInterface(target), SignalMessage)
              && out.signal.value.path == TargetObject(target)
              && ListDecodable(out.signal.value.body)
              && ListCount(out.signal.value.body) == |messages| + 1
              && ListItems(out.signal.value.body) == [target] + messages
              && out.signal.value.body == EncodeList(target, messages)
  {
    if !oracle.created then SendOutcome(DbusCallFail, None)
    else
      var m := Message(SignalKind, TargetObject(target), TargetInterface(target), SignalMessage,
                       EncodeList(target, messages));
      SendOutcome(Success, if oracle.sent then Some(m) else None)
  }

  // ---------------------------------------------------------------------------
  // Closing by name
  // ---------------------------------------------------------------------------

  /** The address the close functions build in two 256-byte buffers, from the
      unsplit name. */
  function CloseInterface(app: string): (r: string)
    ensures r == Truncate(AppMgrInterface + "." + app, MaxSize - 1)
  {
    StrlCatTwice(AppMgrInterface, ".", app, MaxSize);
    StrlCat(StrlCat(AppMgrInterface, ".", MaxSize), app, MaxSize)
  }

  function CloseObject(app: string): (r: string)
    ensures r == Truncate(AppMgrObject + "/" + app, MaxSize - 1)
  {
    StrlCatTwice(AppMgrObject, "/", app, MaxSize);
    StrlCat(StrlCat(AppMgrObject, "/", MaxSize), app, MaxSize)
  }

  /** For a plain application name that fits the buffers, the close address is
      the address `stop` uses. A name carrying ':' is addressed differently:
      the close functions keep the ':'. */
  lemma CloseAddressIsStopAddress(app: string)
    requires ':' !in app
    requires |AppMgrObject| + 1 + |app| < MaxSize
    ensures CloseInterface(app) == TargetInterface(app)
    ensures CloseObject(app) == TargetObject(app)
  {
  }

  /** What a close function did: its result code, the `stop` signal it sent
      and the instance id it asked the service to kill. */
  datatype CloseOutcome = CloseOutcome(code: int, signal: Option<Message>, killed: Option<int>)

  /** `clp_app_mgr_close_by_name`: look up the last instance id, send `stop`
      to the unsplit name (ignoring whether it could be queued), then kill
      that instance; `killResult` is the service's answer. */
  function CloseByName(reg: Registry, app: string, oracle: SendOracle, killResult: int): (out: CloseOutcome)
    ensures !oracle.created ==> out == CloseOutcome(DbusCallFail, None, None)
    ensures oracle.created ==>
              && out.killed == Some(GetInt(reg, AppKey(Some(app), "/LastInstId")))
              && out.code == (if killResult != 0 then Failure else Success)
    ensures out.signal.Some? <==> oracle.created && oracle.sent
    ensures out.signal.Some? ==>
              && IsSignal(out.signal.value, CloseInterface(app), SignalStop)
              && out.signal.value.path == CloseObject(app)
  {
    var inst := GetInt(reg, AppKey(Some(app), "/LastInstId"));
    if !oracle.created then CloseOutcome(DbusCallFail, None, None)
    else
      var m := Message(SignalKind, CloseObject(app), CloseInterface(app), SignalStop, []);
      CloseOutcome(if killResult != 0 then Failure else Success, if oracle.sent then Some(m) else None, Some(inst))
  }

  /** The red-key gate: the `X-RedKeyKill` property is exactly "true" or
      exactly "TRUE". */
  function RedKeyGate(flag: Option<string>): (open: bool)
    ensures open <==> flag == Some("true") || flag == Some("TRUE")
  {
    StrCmp0(flag, Some("true")) == 0 || StrCmp0(flag, Some("TRUE")) == 0
  }

  /** `clp_app_mgr_close_by_red_key`: `close_by_name` behind the gate; a closed
      gate does nothing and reports success. */
  function CloseByRedKey(reg: Registry, app: string, flag: Option<string>, oracle: SendOracle, killResult: int): (out: CloseOutcome)
    ensures !RedKeyGate(flag) ==> out == CloseOutcome(Success, None, None)
    ensures RedKeyGate(flag) ==> out == CloseByName(reg, app, oracle, killResult)
    ensures flag == Some("True") ==> out.killed.None?
  {
    if RedKeyGate(flag) then CloseByName(reg, app, oracle, killResult)
    else CloseOutcome(Success, None, None)
  }
}
