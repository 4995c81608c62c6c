/** Well-known names, bounds and result codes shared by the library and the
    Application-Manager daemon. */
module Config {

  // Bus endpoints ---------------------------------------------------------

  /** The Application-Manager service, interface and object path; per-application
      addresses are built by extending the interface and the object path. */
  const AppMgrService: string := "org.clp.appmanager"
  const AppMgrInterface: string := "org.clp.appmanager"
  const AppMgrObject: string := "/org/clp/appmanager"

  /** The window manager, source of the user-interaction signals. */
  const WinMgrService: string := "org.clp.matchboxwm"
  const WinMgrInterface: string := "org.clp.matchboxwm"
  const WinMgrObject: string := "/org/clp/matchboxwm"

  /** The LiMo application-management service that actually launches processes. */
  const AmsService: string := "am.dbus.interface"
  const AmsInterface: string := "am.dbus.interface"
  const AmsObject: string := "/app_manager"

  /** Method the launch helpers call on the LiMo service. */
  const LaunchMethod: string := "app_launch_call"

  // Signal members --------------------------------------------------------

  const SignalStop: string := "stop"
  const SignalExec: string := "exec"
  const SignalRotate: string := "rotate"
  const SignalAppExit: string := "AppExit"
  const SignalUaGained: string := "UserInteractionGained"
  const SignalUaLost: string := "UserInteractionLost"
  const SignalMessage: string := "Message"

  // Registry --------------------------------------------------------------

  /** Root of the per-application registry directories. */
  const AppsDir: string := "/appmgr"
  /** Root of the LiMo per-application-id information. */
  const LimoAppsDir: string := "/LiMo/System/AppInfo"
  /** Flag the launch helpers consult before contacting the daemon. */
  const ShutdownKey: string := "/appmgr/Shutdown"

  // Bounds ----------------------------------------------------------------

  /** Maximum size of an application name. */
  const NameSize: nat := 256
  /** Size of the address and match-rule buffers. */
  const MaxSize: nat := 256

  /** Separator the launch helpers place between arguments (byte 0x10). */
  const ArgDelimiter: char := 16 as char

  // Result codes ----------------------------------------------------------

  const Failure: int := -1
  const Success: int := 0
  const OutOfMemory: int := 0xd0
  const DbusCallFail: int := 0xd1
  const DbusReplyFail: int := 0xd2
  const LibNotifyFail: int := 0xd3
  const GtkFail: int := 0xd4
  const DlAppFail: int := 0xd5
  const InitFailure: int := 0xd6

  /** Facts about the constants that the protocol relies on: the manager's
      service name is its interface name; the window-manager and manager
      interfaces differ, so focus rules and manager rules never match the same
      message; launches go to the LiMo service, not to the manager; the member
      names the dispatcher distinguishes are pairwise different; and the result
      codes are pairwise different. */
  lemma ConstantsConsistent()
    ensures AppMgrService == AppMgrInterface
    ensures WinMgrInterface != AppMgrInterface
    ensures AmsService != AppMgrService && AmsObject != AppMgrObject
    ensures AppsDir <= ShutdownKey
    ensures |{SignalStop, SignalExec, SignalRotate, SignalAppExit, SignalUaGained, SignalUaLost, SignalMessage}| == 7
    ensures |{Failure, Success, OutOfMemory, DbusCallFail, DbusReplyFail, LibNotifyFail, GtkFail, DlAppFail, InitFailure}| == 9
  {
  }
}
