/** Content handling: choosing the default handler of a MIME type from the
    mime cache and the handler's desktop entry, and splitting a service entry
    `svc,menu`. Both files are given as their lines. */
module Mime {
  import opened Optional
  import opened CStrings
  import opened Config
  import opened Gconf

  /** The type content gets when nothing better is known; it is never handled. */
  const OctetStream: string := "application/octet-stream"

  /** Line cap of the split that reads both files. */
  const MaxLines: nat := 100

  // ---------------------------------------------------------------------------
  // Lines of the form key=value
  // ---------------------------------------------------------------------------

  /** The text before the first '='. */
  function LineKey(line: string): string {
    Head(SplitFirst(line, '=')).GetOr("")
  }

  /** The text after the first '='; absent when the line has none. */
  function LineValue(line: string): (v: Option<string>)
    ensures v.Some? <==> '=' in line
    ensures v.Some? ==> line == LineKey(line) + "=" + v.value
  {
    Second(SplitFirst(line, '='))
  }

  /** Both scans read lines from index 1 and stop at the first empty line. */
  function ScanEnd(lines: seq<string>, i: nat): (e: nat)
    requires i <= |lines|
    ensures i <= e <= |lines|
    ensures forall j :: i <= j < e ==> lines[j] != ""
    ensures e < |lines| ==> lines[e] == ""
    decreases |lines| - i
  {
    if i == |lines| || lines[i] == "" then i else ScanEnd(lines, i + 1)
  }

  // ---------------------------------------------------------------------------
  // The mime cache
  // ---------------------------------------------------------------------------

  predicate Matches(mime: string, line: string) {
    CaseEq(mime, LineKey(line))
  }

  /** Which lines' keys are the type, compared without regard to case. */
  function MatchFlags(cache: seq<string>, mime: string): (f: seq<bool>)
    ensures |f| == |cache|
    ensures forall j :: 0 <= j < |cache| ==> f[j] == Matches(mime, cache[j])
  {
    seq(|cache|, j requires 0 <= j < |cache| => Matches(mime, cache[j]))
  }

  /** The first position from `i` up to `e` whose flag is set. */
  function FirstSet(flags: seq<bool>, i: nat, e: nat): (k: Option<nat>)
    requires i <= e <= |flags|
    ensures k.Some? ==> i <= k.value < e && flags[k.value]
    ensures k.Some? ==> forall j :: i <= j < k.value ==> !flags[j]
    ensures k.None? ==> forall j :: i <= j < e ==> !flags[j]
    decreases e - i
  {
    if i == e then None
    else if flags[i] then Some(i)
    else FirstSet(flags, i + 1, e)
  }

  /** The first scanned cache line whose key is the type, compared without
      regard to case. */
  function FindMime(cache: seq<string>, mime: string, i: nat, e: nat): (k: Option<nat>)
    requires i <= e <= |cache|
    ensures k.Some? ==> i <= k.value < e && Matches(mime, cache[k.value])
    ensures k.Some? ==> forall j :: i <= j < k.value ==> !Matches(mime, cache[j])
    ensures k.None? ==> forall j :: i <= j < e ==> !Matches(mime, cache[j])
  {
    FirstSet(MatchFlags(cache, mime), i, e)
  }

  /** The matching cache line of a type, if any. */
  function CacheLine(cache: seq<string>, mime: string): Option<nat>
    requires 1 <= |cache|
  {
    FindMime(cache, mime, 1, ScanEnd(cache, 1))
  }

  /** The default handler's desktop entry: the first ';'-separated item of
      the line's value. */
  function DesktopEntry(value: string): string
    requires value != ""
  {
    Head(SplitFirst(value, ';')).value
  }

  /** The default application: the entry up to its first '.'. */
  function AppOfEntry(entry: string): string
    requires entry != ""
  {
    SplitFirst(entry, '.')[0]
  }

  // ---------------------------------------------------------------------------
  // The desktop entry
  // ---------------------------------------------------------------------------

  predicate IsExecTypeKey(key: string) {
    CaseEq("ExecType", key) || CaseEq("X-ExecType", key)
  }

  predicate IsServicesKey(key: string) {
    CaseEq("Services", key) || CaseEq("X-Services", key)
  }

  /** An ExecType line asks for a bus call when its value is "dbus" in any
      case; a line without '=' counts too, because the case-insensitive
      comparison with a missing value reports equality. */
  predicate AsksForBus(line: string) {
    IsExecTypeKey(LineKey(line)) && (LineValue(line).None? || CaseEq("dbus", LineValue(line).value))
  }

  /** A Services line with a non-empty value names a service. */
  predicate NamesService(line: string) {
    IsServicesKey(LineKey(line)) && LineValue(line).Some? && LineValue(line).value != ""
  }

  /** The service a Services line names: the first ';' item up to its first
      ','; absent when that item is empty. */
  function ServiceOf(line: string): Option<string>
    requires NamesService(line)
  {
    Head(SplitFirst(Head(SplitFirst(LineValue(line).value, ';')).value, ','))
  }

  /** What the desktop scan gathered. */
  datatype DesktopInfo = DesktopInfo(bus: bool, found: bool, service: Option<string>)

  /** A desktop file the scan can read: a Services line inside the scanned
      part carries a value. */
  predicate DesktopReadable(lines: seq<string>) {
    && 1 <= |lines| <= MaxLines
    && forall j :: 1 <= j < ScanEnd(lines, 1) && IsServicesKey(LineKey(lines[j])) ==> '=' in lines[j]
  }

  /** What one desktop line contributes to the scan. */
  datatype LineFacts = LineFacts(bus: bool, names: bool, service: Option<string>)

  function FactsOf(line: string): LineFacts {
    LineFacts(AsksForBus(line), NamesService(line), if NamesService(line) then ServiceOf(line) else None)
  }

  function Facts(lines: seq<string>): (f: seq<LineFacts>)
    ensures |f| == |lines|
    ensures forall i :: 0 <= i < |lines| ==> f[i] == FactsOf(lines[i])
  {
    seq(|lines|, i requires 0 <= i < |lines| => FactsOf(lines[i]))
  }

  /** The scan over the facts of lines 1 up to `e`: the bus flag and the found
      flag stick once set; each line that names a service replaces it. */
  function Scan(facts: seq<LineFacts>, e: nat): (d: DesktopInfo)
    requires 1 <= e <= |facts|
    ensures !d.found ==> d.service.None?
    decreases e
  {
    if e == 1 then DesktopInfo(false, false, None)
    else
      var d := Scan(facts, e - 1);
      var f := facts[e - 1];
      DesktopInfo(d.bus || f.bus, d.found || f.names, if f.names then f.service else d.service)
  }

  /** The scan of a desktop file's lines 1 up to `e`. */
  function ScanDesktop(lines: seq<string>, e: nat): (d: DesktopInfo)
    requires 1 <= e <= |lines|
    ensures !d.found ==> d.service.None?
  {
    Scan(Facts(lines), e)
  }

  lemma {:induction false} ScanBus(facts: seq<LineFacts>, e: nat)
    requires 1 <= e <= |facts|
    ensures Scan(facts, e).bus <==> exists j :: 1 <= j < e && facts[j].bus
    decreases e
  {
    if e > 1 {
      ScanBus(facts, e - 1);
    }
  }

  /** The bus flag is set exactly when some scanned line asks for a bus call. */
  lemma ScanBusFlag(lines: seq<string>, e: nat)
    requires 1 <= e <= |lines|
    ensures ScanDesktop(lines, e).bus <==> exists j :: 1 <= j < e && AsksForBus(lines[j])
  {
    var facts := Facts(lines);
    ScanBus(facts, e);
    if ScanDesktop(lines, e).bus {
      var j :| 1 <= j < e && facts[j].bus;
      assert AsksForBus(lines[j]);
    }
  }

  /** The last position before `e`, from 1 on, whose line names a service. */
  function LastNamed(facts: seq<LineFacts>, e: nat): (j: Option<nat>)
    requires 1 <= e <= |facts|
    ensures j.Some? ==> 1 <= j.value < e && facts[j.value].names
    ensures j.Some? ==> forall l :: j.value < l < e ==> !facts[l].names
    ensures j.None? ==> forall l :: 1 <= l < e ==> !facts[l].names
    decreases e
  {
    if e == 1 then None
    else if facts[e - 1].names then Some(e - 1)
    else LastNamed(facts, e - 1)
  }

  /** The last scanned line before `e` that names a service. */
  function LastNaming(lines: seq<string>, e: nat): (j: Option<nat>)
    requires 1 <= e <= |lines|
    ensures j.Some? ==> 1 <= j.value < e && NamesService(lines[j.value])
    ensures j.Some? ==> forall l :: j.value < l < e ==> !NamesService(lines[l])
    ensures j.None? ==> forall l :: 1 <= l < e ==> !NamesService(lines[l])
  {
    var facts := Facts(lines);
    var j := LastNamed(facts, e);
    assert forall l :: 1 <= l < e ==> facts[l].names == NamesService(lines[l]);
    j
  }

  lemma {:induction false} ScanKeepsLast(facts: seq<LineFacts>, e: nat)
    requires 1 <= e <= |facts|
    ensures Scan(facts, e).found <==> LastNamed(facts, e).Some?
    ensures Scan(facts, e).service ==
              (if LastNamed(facts, e).Some? then facts[LastNamed(facts, e).value].service else None)
    decreases e
  {
    if e > 1 {
      ScanKeepsLast(facts, e - 1);
    }
  }

  /** A service is found exactly when some scanned line names one, and it is
      the one the last such line names. */
  lemma ScanKeepsLastService(lines: seq<string>, e: nat)
    requires 1 <= e <= |lines|
    ensures ScanDesktop(lines, e).found <==> LastNaming(lines, e).Some?
    ensures ScanDesktop(lines, e).service ==
              (if LastNaming(lines, e).Some? then ServiceOf(lines[LastNaming(lines, e).value]) else None)
  {
    var facts := Facts(lines);
    ScanKeepsLast(facts, e);
    assert LastNaming(lines, e) == LastNamed(facts, e);
  }

  // ---------------------------------------------------------------------------
  // clp_app_mgr_handle_mime
  // ---------------------------------------------------------------------------

  /** What handling the content did. `Invoke` is a service invocation, which
      launches the application with the listed arguments; its result is not
      looked at. */
  datatype MimeAction =
    | NoAction
    | RemoteCall(service: Option<string>, objectPath: Option<string>, iface: Option<string>,
                 member: Option<string>, mimeType: string, data: string)
    | Invoke(app: string, args: seq<string>)

  datatype MimeOutcome = MimeOutcome(code: int, action: MimeAction)

  /** The inputs the handler can process without dereferencing a missing
      string: a non-empty cache; a matching line with a non-empty value; the
      desktop file of a non-empty entry present and readable. */
  predicate Handleable(mime: Option<string>, data: Option<string>, cache: seq<string>, desktop: map<string, seq<string>>) {
    mime.Some? && data.Some? && StrCmp(mime.value, OctetStream) != 0 ==>
      && 1 <= |cache| <= MaxLines
      && (CacheLine(cache, mime.value).Some? ==>
            var v := LineValue(cache[CacheLine(cache, mime.value).value]);
            && v.Some? && v.value != ""
            && (DesktopEntry(v.value) != "" ==>
                  DesktopEntry(v.value) in desktop && DesktopReadable(desktop[DesktopEntry(v.value)])))
  }

  /** The handler's choice once the desktop entry is scanned. */
  function Decide(reg: Registry, app: string, d: DesktopInfo, mime: string, data: string): (a: MimeAction)
    ensures d.bus && d.found ==>
              a == RemoteCall(GetString(reg, AppKey(Some(app), "/info/DBusService")),
                              GetString(reg, AppKey(Some(app), "/info/DBusObjPath")),
                              GetString(reg, AppKey(Some(app), "/info/DBusInterface")),
                              d.service, mime, data)
    ensures !d.bus && d.found ==>
              a == Invoke(app, if d.service.None? then [] else [d.service.value, data])
    ensures !d.bus && !d.found ==> a == Invoke(app, [data])
    ensures d.bus && !d.found ==> a == NoAction
  {
    if d.bus && d.found then
      RemoteCall(GetString(reg, AppKey(Some(app), "/info/DBusService")),
                 GetString(reg, AppKey(Some(app), "/info/DBusObjPath")),
                 GetString(reg, AppKey(Some(app), "/info/DBusInterface")),
                 d.service, mime, data)
    else if !d.bus && d.found then
      // The argument list ends at the first missing string.
      Invoke(app, if d.service.None? then [] else [d.service.value, data])
    else if !d.bus then Invoke(app, [data])
    else NoAction
  }

  /** `clp_app_mgr_handle_mime`: refuse missing inputs and the octet-stream
      type; find the type's first line in the cache; take its first desktop
      entry (an empty one fails); scan that entry's file and act on what it
      says. Any matched line with a non-empty entry reports success. */
  function HandleMime(reg: Registry, mime: Option<string>, data: Option<string>,
                      cache: seq<string>, desktop: map<string, seq<string>>): (out: MimeOutcome)
    requires Handleable(mime, data, cache, desktop)
    ensures mime.None? || data.None? ==> out == MimeOutcome(Failure, NoAction)
    ensures mime == Some(OctetStream) ==> out == MimeOutcome(Failure, NoAction)
    ensures out.code == Success || out.code == Failure
    ensures out.code == Failure ==> out.action == NoAction
    ensures out.code == Success <==>
              && mime.Some? && data.Some? && mime.value != OctetStream
              && CacheLine(cache, mime.value).Some?
              && DesktopEntry(LineValue(cache[CacheLine(cache, mime.value).value]).value) != ""
    ensures out.code == Success ==>
              var entry := DesktopEntry(LineValue(cache[CacheLine(cache, mime.value).value]).value);
              var lines := desktop[entry];
              out.action == Decide(reg, AppOfEntry(entry), ScanDesktop(lines, ScanEnd(lines, 1)), mime.value, data.value)
  {
    if mime.None? || data.None? then MimeOutcome(Failure, NoAction)
    else if StrCmp(mime.value, OctetStream) == 0 then MimeOutcome(Failure, NoAction)
    else
      match CacheLine(cache, mime.value)
      case None => MimeOutcome(Failure, NoAction)
      case Some(k) =>
        var entry := DesktopEntry(LineValue(cache[k]).value);
        if entry == "" then MimeOutcome(Failure, NoAction)
        else
          var lines := desktop[entry];
          var d := ScanDesktop(lines, ScanEnd(lines, 1));
          MimeOutcome(Success, Decide(reg, AppOfEntry(entry), d, mime.value, data.value))
  }

  /** The handler's decision table, stated over the desktop file's lines:
      a bus request together with a service gives a remote call naming the
      last service; a service alone gives an invocation with that service and
      the content; neither gives an invocation with the content alone; a bus
      request without a service does nothing. */
  lemma ActionFollowsDesktop(reg: Registry, mime: string, data: string,
                             cache: seq<string>, desktop: map<string, seq<string>>)
    requires Handleable(Some(mime), Some(data), cache, desktop)
    requires HandleMime(reg, Some(mime), Some(data), cache, desktop).code == Success
    ensures var entry := DesktopEntry(LineValue(cache[CacheLine(cache, mime).value]).value);
            var lines := desktop[entry];
            var e := ScanEnd(lines, 1);
            var app := AppOfEntry(entry);
            var bus := exists j :: 1 <= j < e && AsksForBus(lines[j]);
            var named := LastNaming(lines, e);
            var action := HandleMime(reg, Some(mime), Some(data), cache, desktop).action;
            && (bus && named.Some? ==>
                  action == RemoteCall(GetString(reg, AppKey(Some(app), "/info/DBusService")),
                                       GetString(reg, AppKey(Some(app), "/info/DBusObjPath")),
                                       GetString(reg, AppKey(Some(app), "/info/DBusInterface")),
                                       ServiceOf(lines[named.value]), mime, data))
            && (!bus && named.Some? ==>
                  action == Invoke(app, match ServiceOf(lines[named.value])
                                        case None => []
                                        case Some(svc) => [svc, data]))
            && (!bus && named.None? ==> action == Invoke(app, [data]))
            && (bus && named.None? ==> action == NoAction)
  {
    var entry := DesktopEntry(LineValue(cache[CacheLine(cache, mime).value]).value);
    var lines := desktop[entry];
    var e := ScanEnd(lines, 1);
    ScanBusFlag(lines, e);
    ScanKeepsLastService(lines, e);
  }

  /** Only the first matching cache line counts: lines after it, and any
      lines after the first empty line, do not change the outcome. */
  lemma {:induction false} FirstCacheLineWins(reg: Registry, mime: string, data: string,
                                               cache: seq<string>, more: seq<string>,
                                               desktop: map<string, seq<string>>)
    requires 1 <= |cache| && |cache + more| <= MaxLines
    requires CacheLine(cache, mime).Some?
    requires Handleable(Some(mime), Some(data), cache, desktop)
    ensures Handleable(Some(mime), Some(data), cache + more, desktop)
    ensures HandleMime(reg, Some(mime), Some(data), cache + more, desktop)
            == HandleMime(reg, Some(mime), Some(data), cache, desktop)
  {
    CacheLineOfExtension(cache, more, mime);
    var k := CacheLine(cache, mime).value;
    assert (cache + more)[k] == cache[k];
  }

  /** The matching line is found again when lines are appended. */
  lemma {:induction false} CacheLineOfExtension(cache: seq<string>, more: seq<string>, mime: string)
    requires 1 <= |cache|
    requires CacheLine(cache, mime).Some?
    ensures CacheLine(cache + more, mime) == CacheLine(cache, mime)
  {
    var k := CacheLine(cache, mime).value;
    var e := ScanEnd(cache, 1);
    var e2 := ScanEnd(cache + more, 1);
    assert forall j :: 0 <= j < |cache| ==> (cache + more)[j] == cache[j];
    assert k < e;
    assert forall j :: 1 <= j < e ==> (cache + more)[j] != "";
    assert e <= e2;
    FindMimePrefix(cache, cache + more, mime, 1, e, e2);
  }

  /** The first set flag stays first in any flag sequence that agrees up to
      it. */
  lemma {:induction false} FirstSetPrefix(fa: seq<bool>, fb: seq<bool>, i: nat, ea: nat, eb: nat)
    requires i <= ea <= |fa| && ea <= eb <= |fb|
    requires forall j :: 0 <= j < |fa| && j < |fb| ==> fa[j] == fb[j]
    requires FirstSet(fa, i, ea).Some?
    ensures FirstSet(fb, i, eb) == FirstSet(fa, i, ea)
    decreases ea - i
  {
    if !fa[i] {
      FirstSetPrefix(fa, fb, i + 1, ea, eb);
    }
  }

  /** The search finds the same line in any sequence that agrees with this one
      up to the match. */
  lemma FindMimePrefix(a: seq<string>, b: seq<string>, mime: string, i: nat, ea: nat, eb: nat)
    requires i <= ea <= |a| && i <= eb <= |b| && ea <= eb
    requires forall j :: 0 <= j < |a| && j < |b| ==> a[j] == b[j]
    requires FindMime(a, mime, i, ea).Some?
    ensures FindMime(b, mime, i, eb) == FindMime(a, mime, i, ea)
  {
    var fa := MatchFlags(a, mime);
    var fb := MatchFlags(b, mime);
    assert forall j :: 0 <= j < |fa| && j < |fb| ==> fa[j] == fb[j];
    FirstSetPrefix(fa, fb, i, ea, eb);
  }

  // ---------------------------------------------------------------------------
  // Service entries
  // ---------------------------------------------------------------------------

  /** An entry `svc,menu` of a Services line as discovery reports it: the
      service name and its menu text, which defaults to the service name. The
      caller skips empty entries. */
  function ServiceEntry(entry: string): (r: (string, string))
    requires entry != ""
    ensures ',' !in entry ==> r == (entry, entry)
    ensures ',' in entry ==> entry == r.0 + "," + r.1 && ',' !in r.0
  {
    var parts := SplitFirst(entry, ',');
    if |parts| < 2 then (parts[0], parts[0]) else (parts[0], parts[1])
  }

  /** `svc,menu` splits into its two halves and a bare `svc` names itself. */
  lemma ServiceEntrySplit(svc: string, menu: string)
    requires ',' !in svc && svc != ""
    ensures ServiceEntry(svc + "," + menu) == (svc, menu)
    ensures ServiceEntry(svc) == (svc, svc)
  {
    SplitFirstAt(svc, ',', menu);
    assert svc + "," + menu == svc + [','] + menu;
  }
}
