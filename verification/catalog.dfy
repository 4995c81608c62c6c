/** Queries over the registry's application directories (installed
    applications, priority by pid), the menu-position comparator and the
    `app:id` instance-name format. */
module Catalog {
  import opened Optional
  import opened CStrings
  import opened Config
  import opened Gconf
  import opened Bus

  // ---------------------------------------------------------------------------
  // Installed applications
  // ---------------------------------------------------------------------------

  /** The key `<dir>/info/<name>`. */
  function InfoKey(dir: string, name: string): string {
    dir + "/info/" + name
  }

  /** One installed application as reported to the caller. */
  datatype InstalledApp = InstalledApp(
    name: string,
    execName: Option<string>,
    genericName: Option<string>,
    icon: string,
    noDisplay: bool,
    menuPath: string,
    menuPos: int)

  /** A directory with a Name must have a Command: splitting a NULL command
      crashes the query. */
  predicate Readable(reg: Registry, dir: string) {
    GetString(reg, InfoKey(dir, "Name")).Some? ==> GetString(reg, InfoKey(dir, "Command")).Some?
  }

  predicate AllReadable(reg: Registry, dirs: seq<string>) {
    forall i :: 0 <= i < |dirs| ==> Readable(reg, dirs[i])
  }

  /** Reading one directory: nothing without a Name; the executable is the
      Command up to its first space; the icon falls back to `noIcon` and the
      menu path to "/". */
  function ReadApp(reg: Registry, dir: string, noIcon: string): (a: Option<InstalledApp>)
    requires Readable(reg, dir)
    ensures a.Some? <==> GetString(reg, InfoKey(dir, "Name")).Some?
    ensures a.Some? ==>
              var command := GetString(reg, InfoKey(dir, "Command")).value;
              && a.value.name == GetString(reg, InfoKey(dir, "Name")).value
              && (a.value.execName.None? <==> command == "")
              && (a.value.execName.Some? ==>
                    var e := a.value.execName.value;
                    && e <= command && ' ' !in e
                    && (|e| < |command| ==> command[|e|] == ' '))
              && a.value.genericName == GetString(reg, InfoKey(dir, "GenericName"))
              && a.value.icon == GetString(reg, InfoKey(dir, "Icon")).GetOr(noIcon)
              && a.value.noDisplay == GetBool(reg, InfoKey(dir, "NoDisplay"))
              && a.value.menuPath == GetString(reg, InfoKey(dir, "MenuPath")).GetOr("/")
              && a.value.menuPos == GetInt(reg, InfoKey(dir, "MenuPos"))
  {
    match GetString(reg, InfoKey(dir, "Name"))
    case None => None
    case Some(name) =>
      var command := GetString(reg, InfoKey(dir, "Command")).value;
      Some(InstalledApp(
        name,
        Head(SplitFirst(command, ' ')),
        GetString(reg, InfoKey(dir, "GenericName")),
        GetString(reg, InfoKey(dir, "Icon")).GetOr(noIcon),
        GetBool(reg, InfoKey(dir, "NoDisplay")),
        GetString(reg, InfoKey(dir, "MenuPath")).GetOr("/"),
        GetInt(reg, InfoKey(dir, "MenuPos"))))
  }

  /** The class filter: no class keeps everything; "menu" and "/" keep the
      top-level entries; any other class keeps the menu paths it prefixes.
      The `strcmp` tests are written as the equalities they decide. */
  predicate Keeps(cls: Option<string>, menuPath: string) {
    match cls
    case None => true
    case Some(c) =>
      if c == "menu" || c == "/" then menuPath == "/"
      else c <= menuPath
  }

  /** What one read contributes to the result: the application, when there
      is one and the class keeps it. */
  function Kept(read: Option<InstalledApp>, cls: Option<string>): seq<InstalledApp> {
    match read
    case None => []
    case Some(a) => if Keeps(cls, a.menuPath) then [a] else []
  }

  /** The class filter over a sequence of results, order preserved. */
  function Filtered(results: seq<Option<InstalledApp>>, cls: Option<string>): (apps: seq<InstalledApp>)
    ensures |apps| <= |results|
    ensures forall k :: 0 <= k < |apps| ==> Keeps(cls, apps[k].menuPath)
  {
    if results == [] then [] else Kept(results[0], cls) + Filtered(results[1..], cls)
  }

  /** Filtering distributes over concatenation. */
  lemma {:induction false} FilteredConcat(r1: seq<Option<InstalledApp>>, r2: seq<Option<InstalledApp>>, cls: Option<string>)
    ensures Filtered(r1 + r2, cls) == Filtered(r1, cls) + Filtered(r2, cls)
    decreases |r1|
  {
    if r1 == [] {
      assert r1 + r2 == r2;
    } else {
      assert (r1 + r2)[0] == r1[0] && (r1 + r2)[1..] == r1[1..] + r2;
      FilteredConcat(r1[1..], r2, cls);
    }
  }

  /** Filtering one more result appends what that result contributes. */
  lemma FilteredSnoc(results: seq<Option<InstalledApp>>, r: Option<InstalledApp>, cls: Option<string>)
    ensures Filtered(results + [r], cls) == Filtered(results, cls) + Kept(r, cls)
  {
    FilteredConcat(results, [r], cls);
    assert Filtered([r], cls) == Kept(r, cls) + Filtered([], cls);
  }

  /** Exactly the read applications the class keeps survive the filter. */
  lemma {:induction false} FilteredMembers(results: seq<Option<InstalledApp>>, cls: Option<string>, a: InstalledApp)
    ensures a in Filtered(results, cls) <==> Keeps(cls, a.menuPath) && Some(a) in results
    decreases |results|
  {
    if results != [] {
      FilteredMembers(results[1..], cls, a);
      assert results == [results[0]] + results[1..];
    }
  }

  /** Reading every directory, in listing order. */
  function ReadAll(reg: Registry, dirs: seq<string>, noIcon: string): (results: seq<Option<InstalledApp>>)
    requires AllReadable(reg, dirs)
    ensures |results| == |dirs|
    ensures forall i :: 0 <= i < |dirs| ==> results[i] == ReadApp(reg, dirs[i], noIcon)
  {
    seq(|dirs|, i requires 0 <= i < |dirs| => ReadApp(reg, dirs[i], noIcon))
  }

  /** The applications the query returns for these directories, in directory
      order. */
  function Selected(reg: Registry, dirs: seq<string>, cls: Option<string>, noIcon: string): (apps: seq<InstalledApp>)
    requires AllReadable(reg, dirs)
    ensures |apps| <= |dirs|
    ensures forall k :: 0 <= k < |apps| ==> Keeps(cls, apps[k].menuPath)
  {
    Filtered(ReadAll(reg, dirs, noIcon), cls)
  }

  /** Exactly the applications read from the directories that the class
      keeps are selected. */
  lemma SelectedMembers(reg: Registry, dirs: seq<string>, cls: Option<string>, noIcon: string, a: InstalledApp)
    requires AllReadable(reg, dirs)
    ensures a in Selected(reg, dirs, cls, noIcon) <==>
              Keeps(cls, a.menuPath) && exists i :: 0 <= i < |dirs| && ReadApp(reg, dirs[i], noIcon) == Some(a)
  {
    var results := ReadAll(reg, dirs, noIcon);
    FilteredMembers(results, cls, a);
    if Some(a) in results {
      var i :| 0 <= i < |results| && results[i] == Some(a);
      assert ReadApp(reg, dirs[i], noIcon) == Some(a);
    }
  }

  lemma AllReadableConcat(reg: Registry, d1: seq<string>, d2: seq<string>)
    requires AllReadable(reg, d1) && AllReadable(reg, d2)
    ensures AllReadable(reg, d1 + d2)
  {
    forall i | 0 <= i < |d1 + d2| ensures Readable(reg, (d1 + d2)[i]) {
      if i >= |d1| {
        assert (d1 + d2)[i] == d2[i - |d1|];
      }
    }
  }

  lemma ReadAllConcat(reg: Registry, d1: seq<string>, d2: seq<string>, noIcon: string)
    requires AllReadable(reg, d1) && AllReadable(reg, d2)
    ensures AllReadable(reg, d1 + d2)
    ensures ReadAll(reg, d1 + d2, noIcon) == ReadAll(reg, d1, noIcon) + ReadAll(reg, d2, noIcon)
  {
    AllReadableConcat(reg, d1, d2);
    var r := ReadAll(reg, d1 + d2, noIcon);
    var r1 := ReadAll(reg, d1, noIcon);
    var r2 := ReadAll(reg, d2, noIcon);
    forall i | 0 <= i < |r| ensures r[i] == (r1 + r2)[i] {
      if i < |d1| {
        assert (d1 + d2)[i] == d1[i];
      } else {
        assert (d1 + d2)[i] == d2[i - |d1|];
      }
    }
  }

  /** Selection distributes over concatenation: each directory's contribution
      lands after those of the directories listed before it. */
  lemma SelectedConcat(reg: Registry, d1: seq<string>, d2: seq<string>, cls: Option<string>, noIcon: string)
    requires AllReadable(reg, d1) && AllReadable(reg, d2)
    ensures AllReadable(reg, d1 + d2)
    ensures Selected(reg, d1 + d2, cls, noIcon) == Selected(reg, d1, cls, noIcon) + Selected(reg, d2, cls, noIcon)
  {
    ReadAllConcat(reg, d1, d2, noIcon);
    FilteredConcat(ReadAll(reg, d1, noIcon), ReadAll(reg, d2, noIcon), cls);
  }

  /** One more directory adds what its read contributes. */
  lemma FilteredStep(reg: Registry, dirs: seq<string>, i: nat, cls: Option<string>, noIcon: string)
    requires AllReadable(reg, dirs) && i < |dirs|
    ensures var results := ReadAll(reg, dirs, noIcon);
            Filtered(results[..i + 1], cls) == Filtered(results[..i], cls) + Kept(ReadApp(reg, dirs[i], noIcon), cls)
  {
    var results := ReadAll(reg, dirs, noIcon);
    assert results[..i + 1] == results[..i] + [results[i]];
    FilteredSnoc(results[..i], results[i], cls);
  }

  /** `clp_app_mgr_get_installed_apps`: walk the directories in listing
      order, appending every readable application the class keeps. */
  method InstalledApps(reg: Registry, cls: Option<string>, noIcon: string) returns (apps: seq<InstalledApp>)
    requires AllReadable(reg, reg.dirs)
    ensures apps == Selected(reg, reg.dirs, cls, noIcon)
    ensures forall k :: 0 <= k < |apps| ==> Keeps(cls, apps[k].menuPath)
  {
    var dirs := reg.dirs;
    ghost var results := ReadAll(reg, dirs, noIcon);
    apps := [];
    var i := 0;
    while i < |dirs|
      invariant 0 <= i <= |dirs|
      invariant apps == Filtered(results[..i], cls)
    {
      FilteredStep(reg, dirs, i, cls, noIcon);
      match ReadApp(reg, dirs[i], noIcon) {
        case None =>
        case Some(a) =>
          if Keeps(cls, a.menuPath) {
            apps := apps + [a];
          }
      }
      i := i + 1;
    }
    assert results[..|dirs|] == results;
  }

  // ---------------------------------------------------------------------------
  // Priority by pid
  // ---------------------------------------------------------------------------

  /** The answer to a priority query: the result code and the value written to
      the caller's unsigned out-parameter. */
  datatype PriorityAnswer = PriorityAnswer(code: int, priority: Option<uint32>)

  function PidOf(reg: Registry, dir: string): int {
    GetInt(reg, InfoKey(dir, "PID"))
  }

  /** The directory walk: the first directory from `i` on whose recorded PID
      is `pid`. */
  function FirstWithPid(reg: Registry, dirs: seq<string>, pid: int, i: nat): (k: Option<nat>)
    requires i <= |dirs|
    ensures k.Some? ==> i <= k.value < |dirs| && PidOf(reg, dirs[k.value]) == pid
    ensures k.Some? ==> forall j :: i <= j < k.value ==> PidOf(reg, dirs[j]) != pid
    ensures k.None? ==> forall j :: i <= j < |dirs| ==> PidOf(reg, dirs[j]) != pid
    decreases |dirs| - i
  {
    if i == |dirs| then None
    else if PidOf(reg, dirs[i]) == pid then Some(i)
    else FirstWithPid(reg, dirs, pid, i + 1)
  }

  /** `clp_app_mgr_get_priority`: the first directory whose recorded PID is
      `pid` answers, its Priority stored as an unsigned 32-bit value. */
  function PriorityOf(reg: Registry, dirs: seq<string>, pid: int): (r: PriorityAnswer)
    ensures r.code == Success <==> exists i :: 0 <= i < |dirs| && PidOf(reg, dirs[i]) == pid
    ensures r.code != Success ==> r == PriorityAnswer(Failure, None)
    ensures r.code == Success ==>
              exists i :: 0 <= i < |dirs| && PidOf(reg, dirs[i]) == pid
                          && (forall j :: 0 <= j < i ==> PidOf(reg, dirs[j]) != pid)
                          && r.priority == Some(GetInt(reg, InfoKey(dirs[i], "Priority")) % UInt32Limit)
  {
    match FirstWithPid(reg, dirs, pid, 0)
    case None => PriorityAnswer(Failure, None)
    case Some(k) => PriorityAnswer(Success, Some(GetInt(reg, InfoKey(dirs[k], "Priority")) % UInt32Limit))
  }

  /** Only the first matching directory matters: appending directories after
      it, or directories whose PID differs before it, does not change the
      answer. */
  lemma PriorityIgnoresOthers(reg: Registry, before: seq<string>, dir: string, after: seq<string>, pid: int)
    requires forall j :: 0 <= j < |before| ==> PidOf(reg, before[j]) != pid
    requires PidOf(reg, dir) == pid
    ensures PriorityOf(reg, before + [dir] + after, pid) == PriorityOf(reg, [dir], pid)
  {
    var dirs := before + [dir] + after;
    assert dirs[|before|] == dir;
    assert forall j :: 0 <= j < |before| ==> dirs[j] == before[j];
    assert FirstWithPid(reg, dirs, pid, 0) == Some(|before|);
    assert FirstWithPid(reg, [dir], pid, 0) == Some(0);
  }

  // ---------------------------------------------------------------------------
  // Menu position
  // ---------------------------------------------------------------------------

  predicate IsInt32(x: int) {
    -Int32Limit <= x < Int32Limit
  }

  /** `clp_app_mgr_menupos_compare`: the difference of the two positions. The
      subtraction is on 32-bit integers, so it is defined only when the
      difference fits. */
  function MenuPosCompare(a: InstalledApp, b: InstalledApp): (r: int)
    requires IsInt32(a.menuPos - b.menuPos)
    ensures r < 0 <==> a.menuPos < b.menuPos
    ensures r == 0 <==> a.menuPos == b.menuPos
    ensures r > 0 <==> a.menuPos > b.menuPos
  {
    a.menuPos - b.menuPos
  }

  /** The comparator is antisymmetric and its order is transitive, so it is a
      valid total preorder for sorting. */
  lemma MenuPosOrder(a: InstalledApp, b: InstalledApp, c: InstalledApp)
    requires IsInt32(a.menuPos - b.menuPos) && IsInt32(b.menuPos - c.menuPos) && IsInt32(a.menuPos - c.menuPos)
    requires IsInt32(b.menuPos - a.menuPos)
    ensures MenuPosCompare(a, b) < 0 <==> MenuPosCompare(b, a) > 0
    ensures MenuPosCompare(a, b) <= 0 && MenuPosCompare(b, c) <= 0 ==> MenuPosCompare(a, c) <= 0
  {
  }

  // ---------------------------------------------------------------------------
  // Instance names
  // ---------------------------------------------------------------------------

  /** `sprintf("%s:%d")` into a `NAME_SIZE` buffer, which the result must fit
      together with its terminator. */
  function FormatInstanceName(app: string, instId: int): (s: string)
    requires |app| + 1 + |IntToDecimal(instId)| < NameSize
    ensures |s| < NameSize
    ensures |s| == |app| + 1 + |IntToDecimal(instId)|
    ensures s[..|app|] == app && s[|app|] == ':' && s[|app| + 1..] == IntToDecimal(instId)
  {
    var s := app + ":" + IntToDecimal(instId);
    assert s[..|app|] == app;
    assert s[|app| + 1..] == IntToDecimal(instId);
    s
  }

  /** Which instance a name designates. */
  datatype InstanceRef = FirstRunning(app: string) | Explicit(app: string, instId: int)

  /** The instance-name parse: split at the first ':'; a missing or empty
      suffix means the first running instance of the application, otherwise
      the suffix is read with `atoi`. An empty name has no element 1 to look
      at. */
  function ParseInstanceName(s: string): (r: InstanceRef)
    requires s != []
    ensures ':' !in s ==> r == FirstRunning(s)
    ensures ':' in s ==> r.app == s[..IndexOf(s, ':')] && ':' !in r.app
    ensures r.Explicit? ==> r.instId == Atoi(s[IndexOf(s, ':') + 1..])
    ensures r.Explicit? <==> ':' in s && IndexOf(s, ':') < |s| - 1
  {
    var parts := SplitFirst(s, ':');
    match Second(parts)
    case None => FirstRunning(parts[0])
    case Some(suffix) =>
      if CaseEq(suffix, "") then FirstRunning(parts[0]) else Explicit(parts[0], Atoi(suffix))
  }

  /** Formatting and then parsing an instance name gives back the application
      and the instance id. */
  lemma {:induction false} ParseFormatted(app: string, instId: int)
    requires ':' !in app
    requires |app| + 1 + |IntToDecimal(instId)| < NameSize
    ensures ParseInstanceName(FormatInstanceName(app, instId)) == Explicit(app, instId)
  {
    var d := IntToDecimal(instId);
    SplitFirstAt(app, ':', d);
    assert app + ":" + d == app + [':'] + d;
    AtoiOfDecimal(instId);
    assert !CaseEq(d, "");
  }

  /** The suffix is read leniently: a non-numeric suffix names instance 0,
      not the first running instance. */
  lemma ParseNonNumericSuffix()
    ensures ParseInstanceName("app:x") == Explicit("app", 0)
  {
    var s := "app:x";
    assert s[3] == ':' && ':' !in s[..3];
    assert IndexOf(s, ':') == 3;
    assert s[4..] == "x";
    assert SkipSpaces("x") == "x";
    assert LeadingDigits("x") == [];
  }

  /** Text after the suffix's leading digits is ignored. */
  lemma ParseTrailingText()
    ensures ParseInstanceName("app:7x") == Explicit("app", 7)
  {
    var s := "app:7x";
    assert s[3] == ':' && ':' !in s[..3];
    assert IndexOf(s, ':') == 3;
    assert s[4..] == "7x";
    assert SkipSpaces("7x") == "7x";
    assert LeadingDigits("x") == [];
    assert LeadingDigits("7x") == "7";
    assert "7"[..0] == [];
    assert DigitsValue("7") == 7;
  }
}
