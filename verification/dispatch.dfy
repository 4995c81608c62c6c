/** The inbound signal filter (`message_func`): which handler an incoming
    signal reaches, with which decoded arguments, and whether the filter
    reports the signal as handled. */
module Dispatch {
  import opened Optional
  import opened Config
  import opened Bus
  import opened Registration

  /** One call the filter made into the application. */
  datatype Invocation =
    | StopCalled(h: Handler)
    | FocusGainedCalled(h: Handler)
    | FocusLostCalled(h: Handler)
    | ExecCalled(h: Handler, count: nat, params: seq<string>)
    | DeathCalled(h: Handler, pid: int)
    | MessageCalled(h: Handler, count: nat, messages: Option<seq<string>>)

  datatype HandlerResult = Handled | NotYetHandled

  datatype DispatchOutcome = DispatchOutcome(calls: seq<Invocation>, result: HandlerResult)

  /** The branches of the else-if chain that follows the stand-alone test for
      `stop` on the application's own interface. */
  datatype Rule =
    | ManagerStop | FocusGained | FocusLost | ManagerRotate
    | OwnExec | ManagerAppExit | OwnMessage | Unmatched

  /** An own interface as `init` leaves it: the manager's interface extended
      by at least one character. */
  predicate OwnInterface(own: string) {
    AppMgrInterface <= own && |own| > |AppMgrInterface|
  }

  /** An own interface differs from both fixed interfaces the chain tests. */
  lemma OwnInterfaceIsDistinct(own: string)
    ensures OwnInterface(own) ==> own != AppMgrInterface && own != WinMgrInterface
  {
    if OwnInterface(own) {
      assert own[8] == AppMgrInterface[8] == 'a';
    }
  }

  /** The else-if chain, in source order. */
  function Classify(own: string, m: Message): (r: Rule)
    ensures OwnInterface(own) ==>
              && (r == ManagerStop <==> IsSignal(m, AppMgrInterface, SignalStop))
              && (r == FocusGained <==> IsSignal(m, WinMgrInterface, SignalUaGained))
              && (r == FocusLost <==> IsSignal(m, WinMgrInterface, SignalUaLost))
              && (r == ManagerRotate <==> IsSignal(m, AppMgrInterface, SignalRotate))
              && (r == OwnExec <==> IsSignal(m, own, SignalExec))
              && (r == ManagerAppExit <==> IsSignal(m, AppMgrInterface, SignalAppExit))
              && (r == OwnMessage <==> IsSignal(m, own, SignalMessage))
  {
    OwnInterfaceIsDistinct(own);
    if IsSignal(m, AppMgrInterface, SignalStop) then ManagerStop
    else if IsSignal(m, WinMgrInterface, SignalUaGained) then FocusGained
    else if IsSignal(m, WinMgrInterface, SignalUaLost) then FocusLost
    else if IsSignal(m, AppMgrInterface, SignalRotate) then ManagerRotate
    else if IsSignal(m, own, SignalExec) then OwnExec
    else if IsSignal(m, AppMgrInterface, SignalAppExit) then ManagerAppExit
    else if IsSignal(m, own, SignalMessage) then OwnMessage
    else Unmatched
  }

  // ---------------------------------------------------------------------------
  // Reference: the chain as an ordered rule table
  // ---------------------------------------------------------------------------

  datatype Entry = Entry(iface: string, member: string, rule: Rule)

  /** The chain's tests as data, in order. */
  function Table(own: string): seq<Entry> {
    [ Entry(AppMgrInterface, SignalStop, ManagerStop),
      Entry(WinMgrInterface, SignalUaGained, FocusGained),
      Entry(WinMgrInterface, SignalUaLost, FocusLost),
      Entry(AppMgrInterface, SignalRotate, ManagerRotate),
      Entry(own, SignalExec, OwnExec),
      Entry(AppMgrInterface, SignalAppExit, ManagerAppExit),
      Entry(own, SignalMessage, OwnMessage) ]
  }

  /** The rule of the first entry the message matches. */
  function FirstMatch(t: seq<Entry>, m: Message): (r: Rule)
    ensures r == Unmatched <==> forall i :: 0 <= i < |t| ==> !IsSignal(m, t[i].iface, t[i].member) || t[i].rule == Unmatched
  {
    if t == [] then Unmatched
    else if IsSignal(m, t[0].iface, t[0].member) && t[0].rule != Unmatched then t[0].rule
    else
      var r := FirstMatch(t[1..], m);
      assert forall i :: 1 <= i < |t| ==> t[i] == t[1..][i - 1];
      r
  }

  /** First-match looks at the head entry before the rest. */
  lemma FirstMatchCons(e: Entry, t: seq<Entry>, m: Message)
    ensures FirstMatch([e] + t, m) == (if IsSignal(m, e.iface, e.member) && e.rule != Unmatched then e.rule else FirstMatch(t, m))
  {
    assert ([e] + t)[1..] == t;
  }

  /** The chain is exactly first-match over the rule table; in particular a
      message matching none of the seven tests falls through to the end. */
  lemma ClassifyIsFirstMatch(own: string, m: Message)
    ensures Classify(own, m) == FirstMatch(Table(own), m)
  {
    var e0 := Entry(AppMgrInterface, SignalStop, ManagerStop);
    var e1 := Entry(WinMgrInterface, SignalUaGained, FocusGained);
    var e2 := Entry(WinMgrInterface, SignalUaLost, FocusLost);
    var e3 := Entry(AppMgrInterface, SignalRotate, ManagerRotate);
    var e4 := Entry(own, SignalExec, OwnExec);
    var e5 := Entry(AppMgrInterface, SignalAppExit, ManagerAppExit);
    var e6 := Entry(own, SignalMessage, OwnMessage);
    var t6: seq<Entry> := [e6];
    var t5 := [e5] + t6;
    var t4 := [e4] + t5;
    var t3 := [e3] + t4;
    var t2 := [e2] + t3;
    var t1 := [e1] + t2;
    assert Table(own) == [e0] + t1;
    FirstMatchCons(e6, [], m);
    assert [e6] + [] == t6;
    FirstMatchCons(e5, t6, m);
    FirstMatchCons(e4, t5, m);
    FirstMatchCons(e3, t4, m);
    FirstMatchCons(e2, t3, m);
    FirstMatchCons(e1, t2, m);
    FirstMatchCons(e0, t1, m);
  }

  // ---------------------------------------------------------------------------
  // The filter
  // ---------------------------------------------------------------------------

  /** The payload parts the filter reads without checking: the pid of the
      focus signals always, and the list or pid of the other signals when a
      handler is registered to receive them. */
  predicate Decodable(ctx: Context, m: Message) {
    match Classify(ctx.iface, m)
    case FocusGained => |m.body| >= 1 && m.body[0].Int32?
    case FocusLost => |m.body| >= 1 && m.body[0].Int32?
    case OwnExec => ctx.slots.exec.Some? ==> ListDecodable(m.body)
    case OwnMessage => ctx.slots.message.Some? ==> ListDecodable(m.body)
    case ManagerAppExit => ctx.slots.death.Some? ==> |m.body| >= 1 && m.body[0].UInt32?
    case _ => true
  }

  /** The call a registered stop handler receives. */
  function StopCalls(ctx: Context): seq<Invocation> {
    if ctx.slots.stop.Some? then [StopCalled(ctx.slots.stop.value)] else []
  }

  /** The slot a rule delivers to. */
  function SlotOf(rule: Rule): Option<SlotKind> {
    match rule
    case ManagerStop => Some(StopSlot)
    case FocusGained => Some(FocusGainedSlot)
    case FocusLost => Some(FocusLostSlot)
    case OwnExec => Some(ExecSlot)
    case ManagerAppExit => Some(DeathSlot)
    case OwnMessage => Some(MessageSlot)
    case _ => None
  }

  function HandlerOf(inv: Invocation): Handler {
    inv.h
  }

  /** The else-if chain's part of the filter. */
  function DispatchChain(ctx: Context, selfPid: int, m: Message): (out: DispatchOutcome)
    requires Decodable(ctx, m)
    ensures |out.calls| <= 1
    ensures var slot := SlotOf(Classify(ctx.iface, m));
            out.calls != [] ==> slot.Some? && ctx.slots.Get(slot.value) == Some(HandlerOf(out.calls[0]))
    ensures out.result == NotYetHandled <==>
              || Classify(ctx.iface, m) == Unmatched
              || (Classify(ctx.iface, m) == OwnExec && ctx.slots.exec.Some? && ListCount(m.body) == 0)
    ensures Classify(ctx.iface, m) == FocusGained && m.body[0].i == selfPid && ctx.slots.focusGained.Some? ==>
              out == DispatchOutcome([FocusGainedCalled(ctx.slots.focusGained.value)], Handled)
    ensures Classify(ctx.iface, m) == FocusLost && m.body[0].i == selfPid && ctx.slots.focusLost.Some? ==>
              out == DispatchOutcome([FocusLostCalled(ctx.slots.focusLost.value)], Handled)
    ensures (Classify(ctx.iface, m) == FocusGained || Classify(ctx.iface, m) == FocusLost) && m.body[0].i != selfPid ==>
              out == DispatchOutcome([], Handled)
    ensures Classify(ctx.iface, m) == OwnExec && ctx.slots.exec.Some? && ListCount(m.body) == 0 ==>
              out == DispatchOutcome([], NotYetHandled)
    ensures Classify(ctx.iface, m) == OwnExec && ctx.slots.exec.Some? && ListCount(m.body) > 0 ==>
              out == DispatchOutcome([ExecCalled(ctx.slots.exec.value, ListCount(m.body), ListItems(m.body))], Handled)
  {
    match Classify(ctx.iface, m)
    case ManagerStop => DispatchOutcome(StopCalls(ctx), Handled)
    case FocusGained =>
      var h := ctx.slots.focusGained;
      DispatchOutcome(if m.body[0].i == selfPid && h.Some? then [FocusGainedCalled(h.value)] else [], Handled)
    case FocusLost =>
      var h := ctx.slots.focusLost;
      DispatchOutcome(if m.body[0].i == selfPid && h.Some? then [FocusLostCalled(h.value)] else [], Handled)
    case ManagerRotate => DispatchOutcome([], Handled)
    case OwnExec =>
      (match ctx.slots.exec
       case None => DispatchOutcome([], Handled)
       case Some(h) =>
         if ListCount(m.body) == 0 then DispatchOutcome([], NotYetHandled)
         else DispatchOutcome([ExecCalled(h, ListCount(m.body), ListItems(m.body))], Handled))
    case ManagerAppExit =>
      (match ctx.slots.death
       case None => DispatchOutcome([], Handled)
       case Some(h) => DispatchOutcome([DeathCalled(h, UInt32AsInt32(m.body[0].u))], Handled))
    case OwnMessage =>
      (match ctx.slots.message
       case None => DispatchOutcome([], Handled)
       case Some(h) =>
         var n := ListCount(m.body);
         DispatchOutcome([MessageCalled(h, n, if n == 0 then None else Some(ListItems(m.body)))], Handled))
    case Unmatched => DispatchOutcome([], NotYetHandled)
  }

  /** `message_func`. The filter is installed by `init`, so the context has
      its own interface. A `stop` on that interface reaches the stop handler
      through the stand-alone first test and then falls through the whole
      chain. */
  function Filter(ctx: Context, selfPid: int, m: Message): (out: DispatchOutcome)
    requires ctx.Valid() && ctx.initDone
    requires Decodable(ctx, m)
    ensures |out.calls| <= 1
    ensures forall i :: 0 <= i < |out.calls| ==>
              var slot := SlotOf(Classify(ctx.iface, m));
              if IsSignal(m, ctx.iface, SignalStop) then out.calls[i].StopCalled? && ctx.slots.stop == Some(HandlerOf(out.calls[i]))
              else slot.Some? && ctx.slots.Get(slot.value) == Some(HandlerOf(out.calls[i]))
    ensures out.result == NotYetHandled <==>
              || Classify(ctx.iface, m) == Unmatched
              || (Classify(ctx.iface, m) == OwnExec && ctx.slots.exec.Some? && ListCount(m.body) == 0)
    ensures IsSignal(m, ctx.iface, SignalStop) ==> out == DispatchOutcome(StopCalls(ctx), NotYetHandled)
    ensures IsSignal(m, AppMgrInterface, SignalStop) ==> out == DispatchOutcome(StopCalls(ctx), Handled)
    ensures IsSignal(m, AppMgrInterface, SignalRotate) ==> out == DispatchOutcome([], Handled)
    ensures ((IsSignal(m, WinMgrInterface, SignalUaGained) || IsSignal(m, WinMgrInterface, SignalUaLost))
              && m.body[0].i != selfPid) ==> out == DispatchOutcome([], Handled)
    ensures IsSignal(m, WinMgrInterface, SignalUaGained) && m.body[0].i == selfPid && ctx.slots.focusGained.Some? ==>
              out == DispatchOutcome([FocusGainedCalled(ctx.slots.focusGained.value)], Handled)
    ensures IsSignal(m, WinMgrInterface, SignalUaLost) && m.body[0].i == selfPid && ctx.slots.focusLost.Some? ==>
              out == DispatchOutcome([FocusLostCalled(ctx.slots.focusLost.value)], Handled)
    ensures IsSignal(m, ctx.iface, SignalExec) && ctx.slots.exec.Some? && ListCount(m.body) > 0 ==>
              out == DispatchOutcome([ExecCalled(ctx.slots.exec.value, ListCount(m.body), ListItems(m.body))], Handled)
    ensures IsSignal(m, ctx.iface, SignalExec) && ctx.slots.exec.Some? && ListCount(m.body) == 0 ==>
              out == DispatchOutcome([], NotYetHandled)
    ensures IsSignal(m, ctx.iface, SignalMessage) && ctx.slots.message.Some? ==>
              && out.calls == [MessageCalled(ctx.slots.message.value, ListCount(m.body),
                                             if ListCount(m.body) == 0 then None else Some(ListItems(m.body)))]
    ensures IsSignal(m, AppMgrInterface, SignalAppExit) && ctx.slots.death.Some? ==>
              && out.calls == [DeathCalled(ctx.slots.death.value, UInt32AsInt32(m.body[0].u))]
              && out.calls[0].pid % UInt32Limit == m.body[0].u
  {
    OwnInterfaceIsDistinct(ctx.iface);
    var first := if IsSignal(m, ctx.iface, SignalStop) then StopCalls(ctx) else [];
    var chain := DispatchChain(ctx, selfPid, m);
    assert IsSignal(m, ctx.iface, SignalStop) ==> Classify(ctx.iface, m) == Unmatched;
    assert IsSignal(m, WinMgrInterface, SignalUaGained) ==> Classify(ctx.iface, m) == FocusGained;
    assert IsSignal(m, WinMgrInterface, SignalUaLost) ==> Classify(ctx.iface, m) == FocusLost;
    assert IsSignal(m, ctx.iface, SignalExec) ==> Classify(ctx.iface, m) == OwnExec;
    DispatchOutcome(first + chain.calls, chain.result)
  }
}
