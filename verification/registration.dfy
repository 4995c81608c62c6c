/** The process-wide registration context: the identity `init` derives from
    the registration name and the registry, the two static address buffers,
    the signal-match rules installed on the bus, and the callback slots. */
module Registration {
  import opened Optional
  import opened CStrings
  import opened Config
  import opened Gconf

  /** An application callback, identified only by which function it is. */
  datatype Handler = Handler(id: nat)

  /** The callback slots of the context. */
  datatype SlotKind =
    | StopSlot | ExecSlot | RotateSlot | DeathSlot
    | FocusGainedSlot | FocusLostSlot | MessageSlot | PostInitSlot

  /** One optional handler per slot; `None` is a NULL function pointer. */
  datatype Slots = Slots(
    stop: Option<Handler>,
    exec: Option<Handler>,
    rotate: Option<Handler>,
    death: Option<Handler>,
    focusGained: Option<Handler>,
    focusLost: Option<Handler>,
    message: Option<Handler>,
    postInit: Option<Handler>)
  {
    function Get(k: SlotKind): Option<Handler> {
      match k
      case StopSlot => stop
      case ExecSlot => exec
      case RotateSlot => rotate
      case DeathSlot => death
      case FocusGainedSlot => focusGained
      case FocusLostSlot => focusLost
      case MessageSlot => message
      case PostInitSlot => postInit
    }

    /** Overwrites one slot; every other slot keeps its handler. */
    function With(k: SlotKind, h: Option<Handler>): (r: Slots)
      ensures r.Get(k) == h
      ensures forall k' :: k' != k ==> r.Get(k') == Get(k')
    {
      match k
      case StopSlot => this.(stop := h)
      case ExecSlot => this.(exec := h)
      case RotateSlot => this.(rotate := h)
      case DeathSlot => this.(death := h)
      case FocusGainedSlot => this.(focusGained := h)
      case FocusLostSlot => this.(focusLost := h)
      case MessageSlot => this.(message := h)
      case PostInitSlot => this.(postInit := h)
    }
  }

  const NoHandlers: Slots := Slots(None, None, None, None, None, None, None, None)

  /** The registration context together with the library's two static address
      buffers (`iface`, `objectPath`) and the match rules added so far. */
  datatype Context = Context(
    pid: int,
    appId: int,
    instId: int,
    appName: Option<string>,
    instanceName: Option<string>,
    connected: bool,
    initDone: bool,
    slots: Slots,
    iface: string,
    objectPath: string,
    matches: seq<MatchRule>)
  {
    /** The buffers hold NUL-terminated strings of at most 255 characters and
        start with the manager's interface and object path; once `init` has
        completed they are strictly longer than those prefixes. */
    predicate Valid() {
      && |iface| < MaxSize && |objectPath| < MaxSize
      && AppMgrInterface <= iface && AppMgrObject <= objectPath
      && (initDone ==> |iface| > |AppMgrInterface| && |objectPath| > |AppMgrObject|)
    }
  }

  /** The context as the process starts: zeroed, with the buffers holding the
      manager's interface and object path. */
  function Initial(): (c: Context)
    ensures c.Valid() && !c.initDone && !c.connected
  {
    Context(0, 0, 0, None, None, false, false, NoHandlers, AppMgrInterface, AppMgrObject, [])
  }

  /** `clp_app_mgr_get_name`: the application name `init` recorded, if any. */
  function GetName(c: Context): (r: Option<string>)
    ensures r == c.appName
  {
    c.appName
  }

  /** `clp_app_mgr_get_instance_name`: the instance name `init` recorded, if any. */
  function GetInstanceName(c: Context): (r: Option<string>)
    ensures r == c.instanceName
  {
    c.instanceName
  }

  // ---------------------------------------------------------------------------
  // Identity
  // ---------------------------------------------------------------------------

  /** The application name: the registration name up to its first '.'; NULL
      for the empty name (splitting it yields no element). */
  function AppNameOf(name: string): (app: Option<string>)
    ensures app.None? <==> name == []
    ensures app.Some? ==> '.' !in app.value && app.value <= name
    ensures app.Some? && app.value != name ==> name[|app.value|] == '.'
  {
    Head(SplitFirst(name, '.'))
  }

  /** Whether the registry marks the application id as multi-instance. */
  predicate MultiInstance(reg: Registry, appId: int) {
    GetBool(reg, LimoAppsDir + "/" + IntToDecimal(appId) + "/AppMultiInstance")
  }

  /** The text appended to both address buffers after the application name. */
  function InstanceSuffix(multi: bool, instId: int): string {
    if multi then IntToDecimal(instId) else ""
  }

  /** The instance name: the application name, or `app:instId` for a
      multi-instance application; NULL when the application name is NULL. */
  function InstanceNameOf(app: Option<string>, multi: bool, instId: int): Option<string> {
    match app
    case None => None
    case Some(a) => Some(if multi then a + ":" + IntToDecimal(instId) else a)
  }

  /** A signal-match rule: deliver every signal of one interface. */
  datatype MatchRule = SignalsOn(iface: string)

  /** The rule's text, built in a 256-byte buffer. */
  function RuleText(r: MatchRule): (t: string)
    ensures t == Truncate("type='signal',interface='" + r.iface + "'", MaxSize - 1)
  {
    StrlCatTwice("type='signal',interface='", r.iface, "'", MaxSize);
    StrlCat(StrlCat("type='signal',interface='", r.iface, MaxSize), "'", MaxSize)
  }

  /** What `init` appends to a buffer: the separator, the application name
      (nothing when it is NULL) and the instance suffix. */
  function Extension(sep: string, app: Option<string>, suffix: string): string {
    sep + app.GetOr("") + suffix
  }

  lemma Regroup3(b: string, s: string, x: string)
    ensures b + s + x == b + (s + "" + x)
  {
  }

  lemma Regroup4(b: string, s: string, a: string, x: string)
    ensures b + s + a + x == b + (s + a + x)
  {
  }

  /** Appends `sep`, the application name (skipped when NULL) and the instance
      suffix to a static buffer, one `g_strlcat` at a time. */
  function ExtendBuffer(buf: string, sep: string, app: Option<string>, suffix: string): (r: string)
    requires |buf| < MaxSize
    ensures r == Truncate(buf + Extension(sep, app, suffix), MaxSize - 1)
  {
    match app
    case None =>
      StrlCatTwice(buf, sep, suffix, MaxSize);
      Regroup3(buf, sep, suffix);
      StrlCat(StrlCat(buf, sep, MaxSize), suffix, MaxSize)
    case Some(name) =>
      StrlCatThrice(buf, sep, name, suffix, MaxSize);
      Regroup4(buf, sep, name, suffix);
      StrlCat(StrlCat(StrlCat(buf, sep, MaxSize), name, MaxSize), suffix, MaxSize)
  }

  // ---------------------------------------------------------------------------
  // init / async_init / register
  // ---------------------------------------------------------------------------

  /** What `init` leaves behind: the context, the registry key it wrote the
      process id to, and its return code. */
  datatype InitOutcome = InitOutcome(ctx: Context, pidKey: string, code: int)

  /** The identity step of `init`: name, ids, instance name and the two
      buffers, derived before the bus is contacted. Slots, connection, init
      flag and match rules are untouched. */
  function Identify(ctx: Context, reg: Registry, name: string, pid: int): (c: Context)
    requires ctx.Valid()
    ensures c.Valid()
    ensures |c.iface| > |AppMgrInterface| && |c.objectPath| > |AppMgrObject|
    ensures c.appName == AppNameOf(name) && c.pid == pid
    ensures var app := AppNameOf(name);
            var appId := GetInt(reg, AppKey(app, "/info/AppID"));
            var inst := GetInt(reg, AppKey(app, "/LastInstId"));
            var multi := MultiInstance(reg, appId);
            && c.appId == appId && c.instId == inst
            && c.instanceName == InstanceNameOf(app, multi, inst)
            && c.iface == Truncate(ctx.iface + Extension(".", app, InstanceSuffix(multi, inst)), MaxSize - 1)
            && c.objectPath == Truncate(ctx.objectPath + Extension("/", app, InstanceSuffix(multi, inst)), MaxSize - 1)
    ensures c.slots == ctx.slots && c.connected == ctx.connected
    ensures c.initDone == ctx.initDone && c.matches == ctx.matches
  {
    var app := AppNameOf(name);
    var appId := GetInt(reg, AppKey(app, "/info/AppID"));
    var inst := GetInt(reg, AppKey(app, "/LastInstId"));
    var multi := MultiInstance(reg, appId);
    var suffix := InstanceSuffix(multi, inst);
    var iface := ExtendBuffer(ctx.iface, ".", app, suffix);
    var obj := ExtendBuffer(ctx.objectPath, "/", app, suffix);
    assert AppMgrInterface <= ctx.iface + Extension(".", app, suffix);
    assert AppMgrObject <= ctx.objectPath + Extension("/", app, suffix);
    assert |ctx.iface + Extension(".", app, suffix)| > |AppMgrInterface|;
    assert |ctx.objectPath + Extension("/", app, suffix)| > |AppMgrObject|;
    ctx.(pid := pid, appId := appId, instId := inst, appName := app,
         instanceName := InstanceNameOf(app, multi, inst),
         iface := iface, objectPath := obj)
  }

  /** The connected step of `init`: every handler slot but the post-init one
      is cleared, the init flag is set and three match rules are added (the
      own interface, the manager's and the window manager's). Name, ids and
      buffers are kept. */
  function Connect(named: Context): (c: Context)
    requires named.Valid()
    requires |named.iface| > |AppMgrInterface| && |named.objectPath| > |AppMgrObject|
    ensures c.Valid() && c.connected && c.initDone
    ensures forall k :: k != PostInitSlot ==> c.slots.Get(k).None?
    ensures c.slots.postInit == named.slots.postInit
    ensures c.matches == named.matches + [SignalsOn(c.iface), SignalsOn(AppMgrInterface), SignalsOn(WinMgrInterface)]
    ensures c.(slots := named.slots, connected := named.connected, initDone := named.initDone, matches := named.matches) == named
  {
    var slots := NoHandlers.(postInit := named.slots.postInit);
    assert forall k :: k != PostInitSlot ==> slots.Get(k).None?;
    var rules := [SignalsOn(named.iface), SignalsOn(AppMgrInterface), SignalsOn(WinMgrInterface)];
    named.(connected := true, initDone := true, slots := slots, matches := named.matches + rules)
  }

  /** Registration. The name and addresses are derived and stored before the
      bus is contacted, so a failed connection still leaves them changed; the
      handler slots, the match rules and the init flag are only touched once
      the connection exists. The buffers are appended to, never reset. The
      registry reads see the registry as it was on entry. */
  function Init(ctx: Context, reg: Registry, name: string, pid: int, connectOk: bool): (out: InitOutcome)
    requires ctx.Valid()
    ensures out.ctx.Valid()
    ensures out.pidKey == AppKey(AppNameOf(name), "/info/PID")
    ensures var named := Identify(ctx, reg, name, pid);
            && out.ctx.(slots := named.slots, connected := named.connected, initDone := named.initDone, matches := named.matches) == named
    ensures out.code == (if connectOk then Success else DbusCallFail)
    ensures connectOk ==>
              && out.ctx.connected && out.ctx.initDone
              && (forall k :: k != PostInitSlot ==> out.ctx.slots.Get(k).None?)
              && out.ctx.slots.postInit == ctx.slots.postInit
              && out.ctx.matches == ctx.matches + [SignalsOn(out.ctx.iface), SignalsOn(AppMgrInterface), SignalsOn(WinMgrInterface)]
    ensures !connectOk ==>
              && out.ctx.slots == ctx.slots && out.ctx.connected == ctx.connected
              && out.ctx.initDone == ctx.initDone && out.ctx.matches == ctx.matches
  {
    var named := Identify(ctx, reg, name, pid);
    var pidKey := AppKey(AppNameOf(name), "/info/PID");
    if !connectOk then InitOutcome(named, pidKey, DbusCallFail)
    else InitOutcome(Connect(named), pidKey, Success)
  }

  /** What `async_init` leaves behind: as for `init`, plus the calls it made
      to the post-init handler. */
  datatype AsyncOutcome = AsyncOutcome(ctx: Context, pidKey: string, code: int, postInitCalls: seq<Handler>)

  /** Asynchronous registration: stores the post-init handler, runs `init`
      and ignores its result, then calls the handler once. The result reports
      only whether there was a handler to call. */
  function AsyncInit(ctx: Context, reg: Registry, name: string, pid: int, connectOk: bool, handler: Option<Handler>): (out: AsyncOutcome)
    requires ctx.Valid()
    ensures out.code == (if handler.Some? then Success else Failure)
    ensures out.postInitCalls == (if handler.Some? then [handler.value] else [])
    ensures out.ctx.slots.postInit == handler
    ensures out.pidKey == AppKey(AppNameOf(name), "/info/PID")
    ensures out.ctx == Init(ctx.(slots := ctx.slots.With(PostInitSlot, handler)), reg, name, pid, connectOk).ctx
  {
    var withHandler := ctx.(slots := ctx.slots.With(PostInitSlot, handler));
    var init := Init(withHandler, reg, name, pid, connectOk);
    match handler
    case Some(h) => AsyncOutcome(init.ctx, init.pidKey, Success, [h])
    case None => AsyncOutcome(init.ctx, init.pidKey, Failure, [])
  }

  /** The `register_*` setters: each overwrites exactly one slot and nothing
      else (the post-init slot has no setter). */
  function Register(ctx: Context, k: SlotKind, h: Option<Handler>): (r: Context)
    requires k != PostInitSlot
    ensures r.slots.Get(k) == h
    ensures forall k' :: k' != k ==> r.slots.Get(k') == ctx.slots.Get(k')
    ensures r.(slots := ctx.slots) == ctx
    ensures ctx.Valid() ==> r.Valid()
  {
    ctx.(slots := ctx.slots.With(k, h))
  }

  // ---------------------------------------------------------------------------
  // Properties
  // ---------------------------------------------------------------------------

  /** Handlers registered before `init` do not survive a successful `init`. */
  lemma HandlersRegisteredBeforeInitAreLost(ctx: Context, k: SlotKind, h: Handler, reg: Registry, name: string, pid: int)
    requires ctx.Valid() && k != PostInitSlot
    ensures Init(Register(ctx, k, Some(h)), reg, name, pid, true).ctx.slots.Get(k) == None
  {
  }

  /** Truncating, appending `t` and truncating again equals appending `t`
      twice before one truncation. */
  lemma {:induction false} AppendTwice(buf: string, t: string, n: nat)
    ensures Truncate(Truncate(buf + t, n) + t, n) == Truncate(buf + t + t, n)
  {
    TruncateAppend(buf + t, t, n);
  }

  /** A second `init` under the same single-instance name does not rebuild the
      addresses: it appends the application name to the buffers once more. */
  lemma {:induction false} ReinitAppendsAgain(reg: Registry, name: string, pid: int, connectOk: bool)
    requires name != []
    requires !MultiInstance(reg, GetInt(reg, AppKey(AppNameOf(name), "/info/AppID")))
    ensures var app := AppNameOf(name).value;
            var first := Init(Initial(), reg, name, pid, connectOk).ctx;
            var second := Init(first, reg, name, pid, connectOk).ctx;
            && first.iface == Truncate(AppMgrInterface + ("." + app), MaxSize - 1)
            && second.iface == Truncate(AppMgrInterface + ("." + app) + ("." + app), MaxSize - 1)
            && second.objectPath == Truncate(AppMgrObject + ("/" + app) + ("/" + app), MaxSize - 1)
  {
    var app := AppNameOf(name).value;
    var first := Init(Initial(), reg, name, pid, connectOk).ctx;
    var i1 := Identify(Initial(), reg, name, pid);
    assert first.iface == i1.iface && first.objectPath == i1.objectPath;
    var i2 := Identify(first, reg, name, pid);
    assert Init(first, reg, name, pid, connectOk).ctx.iface == i2.iface;
    assert Init(first, reg, name, pid, connectOk).ctx.objectPath == i2.objectPath;
    assert Extension(".", Some(app), "") == "." + app;
    assert Extension("/", Some(app), "") == "/" + app;
    AppendTwice(AppMgrInterface, "." + app, MaxSize - 1);
    AppendTwice(AppMgrObject, "/" + app, MaxSize - 1);
  }
}
