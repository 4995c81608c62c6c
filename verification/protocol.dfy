/** End-to-end properties: the addresses `init` derives for an instance are
    the addresses the senders build from its instance name, so a `stop` or a
    `Message` sent to that name reaches the handler the receiver registered;
    the `exec` forwarding and the close functions, which address by the
    application name alone, reach a single-instance application and miss a
    multi-instance one. */
module Protocol {
  import opened Optional
  import opened CStrings
  import opened Config
  import opened Gconf
  import opened Bus
  import opened Registration
  import opened Dispatch
  import opened Messaging
  import opened Launch
  import opened Catalog

  /** The receiving process right after a successful `init` from a fresh
      process. */
  function Receiver(reg: Registry, name: string, pid: int): (c: Context)
    ensures c.Valid() && c.initDone
  {
    Init(Initial(), reg, name, pid, true).ctx
  }

  /** The instance suffix `init` uses for the application named `name`. */
  function SuffixFor(reg: Registry, name: string): string {
    var app := AppNameOf(name);
    var appId := GetInt(reg, AppKey(app, "/info/AppID"));
    InstanceSuffix(MultiInstance(reg, appId), GetInt(reg, AppKey(app, "/LastInstId")))
  }

  predicate IsMulti(reg: Registry, name: string) {
    MultiInstance(reg, GetInt(reg, AppKey(AppNameOf(name), "/info/AppID")))
  }

  /** A registration name whose application part carries no ':' and whose
      longest address, the object path, fits the 256-byte buffers. */
  predicate Addressable(reg: Registry, name: string) {
    && name != []
    && ':' !in AppNameOf(name).value
    && |AppMgrObject| + 1 + |AppNameOf(name).value| + |SuffixFor(reg, name)| < MaxSize
  }

  lemma Regroup(p: string, s: string, a: string, x: string)
    ensures p + (s + a + x) == p + s + (a + x)
  {
  }

  /** The instance name's suffix, as the senders compute it, is the
      application name followed by the instance suffix. */
  lemma {:induction false} TargetSuffixOfInstance(reg: Registry, name: string)
    requires Addressable(reg, name)
    ensures Receiver(reg, name, 0).instanceName.Some?
    ensures TargetSuffix(Receiver(reg, name, 0).instanceName.value) == AppNameOf(name).value + SuffixFor(reg, name)
  {
    var app := AppNameOf(name).value;
    var inst := GetInt(reg, AppKey(AppNameOf(name), "/LastInstId"));
    if IsMulti(reg, name) {
      SuffixOfInstanceName(app, IntToDecimal(inst));
    }
  }

  /** The addresses `init` derives are the addresses `stop` and
      `send_message` build from the instance name: the receiver listens at
      its instance name. */
  lemma {:induction false} InitAddressIsTargetAddress(reg: Registry, name: string, pid: int)
    requires Addressable(reg, name)
    ensures Listening(Receiver(reg, name, pid))
  {
    var c := Receiver(reg, name, pid);
    var app := AppNameOf(name).value;
    var suffix := SuffixFor(reg, name);
    TargetSuffixOfInstance(reg, name);
    assert c.instanceName == Receiver(reg, name, 0).instanceName;
    assert Extension(".", Some(app), suffix) == "." + app + suffix;
    assert Extension("/", Some(app), suffix) == "/" + app + suffix;
    Regroup(AppMgrInterface, ".", app, suffix);
    Regroup(AppMgrObject, "/", app, suffix);
  }

  /** What the getters report after registration: the application name, and
      as instance name that name with the instance id after a ':' when the
      application is multi-instance. */
  lemma ReceiverIdentity(reg: Registry, name: string, pid: int)
    requires name != []
    ensures var c := Receiver(reg, name, pid);
            && GetName(c) == AppNameOf(name)
            && c.instId == GetInt(reg, AppKey(AppNameOf(name), "/LastInstId"))
            && GetInstanceName(c) == Some(if IsMulti(reg, name) then AppNameOf(name).value + ":" + IntToDecimal(c.instId)
                                      else AppNameOf(name).value)
  {
  }

  /** A `stop` on the receiver's own interface reaches the stop handler. */
  lemma FilterOwnStop(c: Context, selfPid: int, m: Message, h: Handler)
    requires c.Valid() && c.initDone && c.slots.stop == Some(h)
    requires IsSignal(m, c.iface, SignalStop)
    ensures Decodable(c, m)
    ensures Filter(c, selfPid, m) == DispatchOutcome([StopCalled(h)], NotYetHandled)
  {
    OwnInterfaceIsDistinct(c.iface);
    assert Classify(c.iface, m) == Unmatched;
  }

  /** A `Message` on the receiver's own interface reaches the message
      handler. */
  lemma FilterOwnMessage(c: Context, selfPid: int, m: Message, h: Handler)
    requires c.Valid() && c.initDone && c.slots.message == Some(h)
    requires IsSignal(m, c.iface, SignalMessage) && ListDecodable(m.body) && ListCount(m.body) > 0
    ensures Decodable(c, m)
    ensures Filter(c, selfPid, m) == DispatchOutcome([MessageCalled(h, ListCount(m.body), Some(ListItems(m.body)))], Handled)
  {
    OwnInterfaceIsDistinct(c.iface);
    assert Classify(c.iface, m) == OwnMessage;
  }

  /** An `exec` on the receiver's own interface reaches the exec handler. */
  lemma FilterOwnExec(c: Context, selfPid: int, m: Message, h: Handler)
    requires c.Valid() && c.initDone && c.slots.exec == Some(h)
    requires IsSignal(m, c.iface, SignalExec) && ListDecodable(m.body) && ListCount(m.body) > 0
    ensures Decodable(c, m)
    ensures Filter(c, selfPid, m) == DispatchOutcome([ExecCalled(h, ListCount(m.body), ListItems(m.body))], Handled)
  {
    OwnInterfaceIsDistinct(c.iface);
    assert Classify(c.iface, m) == OwnExec;
  }

  /** A signal none of the tests match is passed on without a call. */
  lemma FilterUnmatched(c: Context, selfPid: int, m: Message)
    requires c.Valid() && c.initDone
    requires Classify(c.iface, m) == Unmatched && !IsSignal(m, c.iface, SignalStop)
    ensures Decodable(c, m)
    ensures Filter(c, selfPid, m) == DispatchOutcome([], NotYetHandled)
  {
  }

  /** A context that listens where the senders address its instance name:
      `init` completed and both buffers hold the addresses built from the
      instance name. */
  predicate Listening(c: Context) {
    && c.Valid() && c.initDone && c.instanceName.Some?
    && c.iface == TargetInterface(c.instanceName.value)
    && c.objectPath == TargetObject(c.instanceName.value)
  }

  /** Registering handlers afterwards changes neither the name nor the
      addresses. */
  lemma RegisterKeepsListening(c: Context, k: SlotKind, h: Option<Handler>)
    requires Listening(c) && k != PostInitSlot
    ensures Listening(Register(c, k, h))
    ensures Register(c, k, h).instanceName == c.instanceName
  {
  }

  /** A `stop` sent to a listening instance's name reaches its stop handler
      through the filter's first test, which reports the signal unhandled. */
  lemma StopReachesInstance(c: Context, h: Handler, oracle: SendOracle, selfPid: int)
    requires Listening(c) && c.slots.stop == Some(h)
    ensures var out := Stop(GetInstanceName(c).value, oracle);
            out.signal.Some? ==>
              && Decodable(c, out.signal.value)
              && Filter(c, selfPid, out.signal.value) == DispatchOutcome([StopCalled(h)], NotYetHandled)
  {
    var out := Stop(GetInstanceName(c).value, oracle);
    if out.signal.Some? {
      FilterOwnStop(c, selfPid, out.signal.value, h);
    }
  }

  /** A `Message` sent to a listening instance's name reaches its message
      handler with the count and the list the sender encoded: the instance
      name followed by the messages. */
  lemma MessageReachesInstance(c: Context, h: Handler, messages: seq<string>, oracle: SendOracle, selfPid: int)
    requires Listening(c) && c.slots.message == Some(h)
    requires |messages| <= MaxSize
    ensures var out := SendMessage(GetInstanceName(c).value, messages, oracle);
            out.signal.Some? ==>
              && Decodable(c, out.signal.value)
              && Filter(c, selfPid, out.signal.value)
                 == DispatchOutcome([MessageCalled(h, |messages| + 1, Some([GetInstanceName(c).value] + messages))], Handled)
  {
    var out := SendMessage(GetInstanceName(c).value, messages, oracle);
    if out.signal.Some? {
      FilterOwnMessage(c, selfPid, out.signal.value, h);
    }
  }

  /** The `exec` forwarded by application name reaches a listening
      single-instance application, whose instance name is the application
      name, with the count and `[application] + args`. */
  lemma ExecReachesSingleInstance(c: Context, h: Handler, app: string, args: seq<string>, selfPid: int)
    requires Listening(c) && c.slots.exec == Some(h)
    requires c.instanceName == Some(app) && ':' !in app
    requires |args| + 1 < UInt32Limit
    ensures var m := ExecSignal(app, args);
            && Decodable(c, m)
            && Filter(c, selfPid, m) == DispatchOutcome([ExecCalled(h, |args| + 1, [app] + args)], Handled)
  {
    FilterOwnExec(c, selfPid, ExecSignal(app, args), h);
  }

  /** A signal addressed by the application name alone matches none of the
      filter's tests on a listening multi-instance application, whose
      interface carries the instance id. */
  lemma {:induction false} PlainNameMissesMultiInstance(c: Context, app: string, id: int, m: Message)
    requires Listening(c) && c.instanceName == Some(app + ":" + IntToDecimal(id)) && ':' !in app
    requires m.kind == SignalKind && m.iface == AppMgrInterface + "." + app
    ensures c.iface != m.iface
    ensures Classify(c.iface, m) == Unmatched
  {
    SuffixOfInstanceName(app, IntToDecimal(id));
    assert |c.iface| > |m.iface|;
    OwnInterfaceIsDistinct(c.iface);
    OwnInterfaceIsDistinct(m.iface);
  }

  /** The `exec` forwarded by application name does not reach a listening
      multi-instance application: the filter passes it on unhandled. */
  lemma ExecMissesMultiInstance(c: Context, app: string, id: int, args: seq<string>, selfPid: int)
    requires Listening(c) && c.instanceName == Some(app + ":" + IntToDecimal(id)) && ':' !in app
    requires |args| + 1 < UInt32Limit
    ensures Filter(c, selfPid, ExecSignal(app, args)) == DispatchOutcome([], NotYetHandled)
  {
    var m := ExecSignal(app, args);
    PlainNameMissesMultiInstance(c, app, id, m);
    FilterUnmatched(c, selfPid, m);
  }

  /** The `stop` of `close_by_name` reaches the stop handler of a listening
      single-instance application. */
  lemma CloseStopReachesSingleInstance(c: Context, h: Handler, reg: Registry, app: string,
                                       oracle: SendOracle, killResult: int, selfPid: int)
    requires Listening(c) && c.slots.stop == Some(h)
    requires c.instanceName == Some(app) && ':' !in app
    ensures var out := CloseByName(reg, app, oracle, killResult);
            out.signal.Some? ==>
              && Decodable(c, out.signal.value)
              && Filter(c, selfPid, out.signal.value) == DispatchOutcome([StopCalled(h)], NotYetHandled)
  {
    var out := CloseByName(reg, app, oracle, killResult);
    assert |AppMgrObject| + 1 + |app| < MaxSize by {
      assert c.objectPath == AppMgrObject + "/" + app;
    }
    CloseAddressIsStopAddress(app);
    if out.signal.Some? {
      FilterOwnStop(c, selfPid, out.signal.value, h);
    }
  }

  /** The `stop` of `close_by_name` misses a listening multi-instance
      application, which only the kill request that follows reaches. */
  lemma CloseStopMissesMultiInstance(c: Context, reg: Registry, app: string, id: int,
                                     oracle: SendOracle, killResult: int, selfPid: int)
    requires Listening(c) && c.instanceName == Some(app + ":" + IntToDecimal(id)) && ':' !in app
    ensures var out := CloseByName(reg, app, oracle, killResult);
            out.signal.Some? ==>
              && Decodable(c, out.signal.value)
              && Filter(c, selfPid, out.signal.value) == DispatchOutcome([], NotYetHandled)
  {
    var out := CloseByName(reg, app, oracle, killResult);
    SuffixOfInstanceName(app, IntToDecimal(id));
    assert |AppMgrObject| + 1 + |app| < MaxSize by {
      assert |c.objectPath| < MaxSize;
      assert c.objectPath == AppMgrObject + "/" + (app + IntToDecimal(id));
    }
    CloseAddressIsStopAddress(app);
    if out.signal.Some? {
      PlainNameMissesMultiInstance(c, app, id, out.signal.value);
      FilterUnmatched(c, selfPid, out.signal.value);
    }
  }

  /** The instance name `init` derives parses back to the instance: the
      explicit id for a multi-instance application, the first running
      instance otherwise. */
  lemma InstanceNameParsesBack(reg: Registry, name: string, pid: int)
    requires Addressable(reg, name) && AppNameOf(name).value != []
    ensures var c := Receiver(reg, name, pid);
            && c.instanceName.Some? && c.instanceName.value != []
            && ParseInstanceName(c.instanceName.value)
               == (if IsMulti(reg, name) then Explicit(AppNameOf(name).value, c.instId)
                   else FirstRunning(AppNameOf(name).value))
  {
    var c := Receiver(reg, name, pid);
    var app := AppNameOf(name).value;
    ReceiverIdentity(reg, name, pid);
    if IsMulti(reg, name) {
      assert c.instanceName.value == FormatInstanceName(app, c.instId);
      ParseFormatted(app, c.instId);
    }
  }
}
