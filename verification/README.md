# Application-manager client library, modelled in Dafny

This project models the client side of the CLP application manager: the
library an application links to register with the manager over D-Bus, launch
other applications, receive the manager's signals, address other instances,
and read the installed-application catalogue and the MIME associations. The
bus, the GConf registry and the desktop/MIME files are inputs (a registry
snapshot, line sequences, oracles saying whether a message could be created
and queued); everything the library decides from them is a pure function.

Modules, in dependency order:

- `Optional` — the `Option` datatype.
- `CStrings` — the C and GLib string operations the library relies on:
  `g_strlcat` truncation, `g_strsplit(s, sep, 2)`, `strcmp`, `g_strcmp0`,
  `g_strcasecmp`, `sprintf("%d")` and `atoi`.
- `Config` — the interface, object and member names, registry paths, buffer
  sizes and result codes.
- `Gconf` — the registry as typed maps with GConf's defaults.
- `Bus` — messages, the `(uint32 count, string array)` payload and its
  decoding.
- `Registration` — the process-wide context: identity, the two static address
  buffers, the match rules and the callback slots; `init`, `async_init`,
  `register_*`.
- `Launch` — the launch helpers and the three `exec` entry points.
- `Dispatch` — the inbound filter `message_func`.
- `Messaging` — `stop`, `send_message`, `close_by_name`, `close_by_red_key`.
- `Catalog` — installed applications, priority by pid, the menu-position
  comparator, instance names.
- `Mime` — `handle_mime` and the service-entry split.
- `Protocol` — end-to-end properties that join the sender and receiver sides.

The code behaves as follows, which a caller may not expect:

- The `exec` and `Message` handlers receive the decoded count and that many
  strings, starting with element 0. Element 0 is the target's own name, so the
  handler does see it.
- `init` does not undo its work when the connection fails. It stores the
  name, the ids and the extended address buffers before it contacts the bus,
  so a failed connection leaves them changed.
- Parameter checks only log. An empty or over-long name never stops `init`,
  `exec`, `stop` or `send_message`, and no operation here requires a
  non-empty name.
- A malformed inbound payload is not caught. The filter reads the arguments
  without checking their types, so well-typed payloads are a precondition
  (`Dispatch.Decodable`).
- The message signal's member name is `Message`, with a capital M.

Behaviour of the code that the proofs make explicit:

- A `stop` on the application's own interface reaches the stop handler and is
  then reported as not handled, because the test for it stands apart from the
  else-if chain.
- An `exec` with count 0 and a registered handler is reported as not handled
  and calls no handler.
- A second `init` appends to the address buffers again instead of rebuilding
  them.
- `exec` forwarding and the close functions address by the application name
  alone. They reach a single-instance application and miss a multi-instance
  one.

## Model

| member | source | states |
|---|---|---|
| Config.ConstantsConsistent | src/clp-app-mgr-config.h:22-61 | The manager's service name equals its interface name. The window-manager interface differs from the manager's. Launches go to the LiMo service, not the manager. The seven member names the filter tests are distinct, and so are the nine result codes. |
| Bus.EncodeList | src/limo-app-mgr-lib.c:3681-3689 | The forwarded payload decodes to a count of n+1 that equals the array length, with the target's own name as element 0. |
| Bus.UInt32AsInt32 | src/limo-app-mgr-lib.c:1247-1253 | The unsigned pid handed to the death handler is the same 32-bit value read as a signed int. |
| Registration.AppNameOf | src/limo-app-mgr-lib.c:208-209 | The application name is NULL exactly for the empty name. Otherwise it is the '.'-free prefix of the name that ends at the first '.'. |
| Registration.ExtendBuffer | src/limo-app-mgr-lib.c:227-230 | Appending separator, application name and instance suffix with successive `g_strlcat`s equals one 255-character truncation of the whole concatenation. |
| Registration.RuleText | src/limo-app-mgr-lib.c:293-306 | A match rule is the interface quoted inside `type='signal',interface='…'`, truncated to 255 characters. |
| Registration.Identify | src/limo-app-mgr-lib.c:208-263 | The app id and the instance id come from the registry. The instance name is `app` or `app:instId` as the registry marks the app multi-instance. Both buffers are extended by the name and the decimal id. Slots, flags and rules are untouched. |
| Registration.Connect | src/limo-app-mgr-lib.c:274-310 | Once connected, the seven handler slots are cleared and the post-init slot is kept. The init flag is set. The three match rules are appended in order: own interface, manager, window manager. Name, ids and address buffers are unchanged. |
| Registration.Init | src/limo-app-mgr-lib.c:195-312 | Identity is stored even when the connection fails, which returns DBUS_CALL_FAIL. On success the seven handler slots are cleared and the post-init slot is kept. Three match rules are added: own interface, manager, window manager. |
| Registration.AsyncInit | src/limo-app-mgr-lib.c:157-173 | The post-init handler is stored before `init` runs, and `init`'s result is ignored. The PID key is the same as `init`'s. The call returns FAILURE exactly when the handler is NULL; otherwise it calls the handler once. |
| Registration.GetInstanceName | src/limo-app-mgr-lib.c:115-120 | Returns the instance name `init` stored, or NULL before any `init`. |
| Registration.GetName | src/limo-app-mgr-lib.c:130-135 | Returns the application name `init` stored, or NULL before any `init`. |
| Registration.Register | src/limo-app-mgr-lib.c:321-380 | A `register_*` setter overwrites its own slot and changes nothing else in the context. |
| Registration.HandlersRegisteredBeforeInitAreLost | src/limo-app-mgr-lib.c:282-289 | A handler registered before a successful `init` is gone afterwards. |
| Registration.ReinitAppendsAgain | src/limo-app-mgr-lib.c:227-230 | A second `init` of a single-instance application appends `.app` and `/app` to the static buffers a second time. |
| Launch.SplitJoin | src/limo-app-mgr-lib.c:540-549 | Splitting the va-list argument string at byte 0x10 gives back the arguments, when none of them contains that byte. |
| Launch.ArgvIsDelimitedVa | src/limo-app-mgr-lib.c:719-723 | The argv string is the va-list string with one more delimiter in front. No arguments give "" on the argv path and NULL on the va-list path. |
| Launch.DelimiterCounts | src/limo-app-mgr-lib.c:700-723 | n arguments give n-1 delimiters on the va-list path and n on the argv path. |
| Launch.BuildVaArgs | src/limo-app-mgr-lib.c:540-549 | The va-list loop produces NULL for no arguments, and otherwise a string that splits back into the arguments. |
| Launch.BuildArgvArgs | src/limo-app-mgr-lib.c:719-723 | The argv loop produces "" for no arguments, and otherwise a delimiter followed by a string that splits back into the arguments. |
| Launch.LaunchWith | src/limo-app-mgr-lib.c:515-588 | With the shutdown flag set the result is -1 and no launch call is made. Otherwise the call carries the app id and the argument string. Its error code is passed through; a missing proxy or a failed call yields the transport error. |
| Launch.ExecSignal | src/limo-app-mgr-lib.c:449-479 | The forwarded `exec` signal goes to the unsplit application name's address and decodes to `(n+1, [application] + args)`. Its body is exactly that encoded list, with nothing after it. |
| Launch.Exec | src/limo-app-mgr-lib.c:423-503 | SUCCESS means a fresh instance (code 0 and id > 0) or an already running one that got exactly one `exec` signal. Message creation failure gives DBUS_CALL_FAIL and send failure gives OUT_OF_MEMORY. Everything else, shutdown included, is FAILURE. |
| Dispatch.OwnInterfaceIsDistinct | src/clp-app-mgr-config.h:23-27 | An interface that `init` extended differs from both fixed interfaces. |
| Dispatch.Classify | src/limo-app-mgr-lib.c:1159-1292 | Each branch of the else-if chain is taken exactly when the message is that signal on that interface. |
| Dispatch.ClassifyIsFirstMatch | src/limo-app-mgr-lib.c:1159-1292 | The chain equals first-match over the seven-entry rule table, and a message matching none falls through. |
| Dispatch.DispatchChain | src/limo-app-mgr-lib.c:1159-1295 | At most one handler is called, from the slot of the matched rule. The result is NOT_YET_HANDLED exactly for an unmatched message or an `exec` of count 0 with a handler, and that `exec` calls nothing. A focus signal calls the registered focus handler exactly when its pid is the own pid. An `exec` with a positive count calls the exec handler with the count and list. |
| Dispatch.Filter | src/limo-app-mgr-lib.c:1145-1296 | Own-interface `stop`: the stop handler, NOT_YET_HANDLED. Manager `stop`: the stop handler, HANDLED. `rotate` does nothing. Focus signals: the registered focus handler is called for the own pid and nothing for any other pid. `AppExit`: the death handler gets the pid. `exec` with a positive count and `Message`: the decoded count and list. `exec` with count 0 and a handler: no call, NOT_YET_HANDLED. |
| Messaging.TargetSuffix | src/limo-app-mgr-lib.c:894-896 | The suffix is the target with its first ':' removed, and the target itself when there is none. |
| Messaging.SuffixOfInstanceName | src/limo-app-mgr-lib.c:894-896 | The suffix of `app:id` is `app` followed directly by `id`. |
| Messaging.Stop | src/limo-app-mgr-lib.c:885-921 | SUCCESS exactly when the signal was created and queued. The argument-less `stop` then goes to the target's split-and-joined address. The failure codes are DBUS_CALL_FAIL and OUT_OF_MEMORY. |
| Messaging.SendMessage | src/limo-app-mgr-lib.c:3638-3703 | SUCCESS whenever the signal could be created, whether or not it was queued. The `Message` signal decodes to `(n+1, [target] + messages)`, and its body is exactly that encoded list. |
| Messaging.CloseInterface | src/limo-app-mgr-lib.c:1071-1075 | The close interface is the manager interface, '.', and the unsplit name, truncated to 255 characters. |
| Messaging.CloseObject | src/limo-app-mgr-lib.c:1072-1077 | The close object path is the manager object, '/', and the unsplit name, truncated to 255 characters. |
| Messaging.CloseAddressIsStopAddress | src/limo-app-mgr-lib.c:1071-1077 | For a ':'-free name that fits the buffer, the close address is the `stop` address. |
| Messaging.CloseByName | src/limo-app-mgr-lib.c:1054-1100 | If the `stop` signal cannot be created, the call returns DBUS_CALL_FAIL and kills nothing. Otherwise it sends `stop` to the unsplit name, without checking that it was queued, then kills the registry's last instance id. The kill answer decides SUCCESS or FAILURE. |
| Messaging.RedKeyGate | src/limo-app-mgr-lib.c:999 | The gate opens exactly for the property values "true" and "TRUE". |
| Messaging.CloseByRedKey | src/limo-app-mgr-lib.c:989-1039 | With the gate open it behaves as `close_by_name`. With the gate closed it does nothing and reports SUCCESS, even for "True". |
| Catalog.ReadApp | src/limo-app-mgr-lib.c:3405-3472 | A directory without Name yields nothing. The executable is the Command up to its first space, and none for an empty Command. Icon and MenuPath are read, or take their defaults when missing. GenericName, NoDisplay and MenuPos are the registry's values. |
| Catalog.Filtered | src/limo-app-mgr-lib.c:3476-3496 | Every application the filter returns is one its class keeps, and there are no more of them than reads. |
| Catalog.FilteredMembers | src/limo-app-mgr-lib.c:3476-3496 | An application is returned exactly when it was read and its class keeps it. |
| Catalog.FilteredConcat | src/limo-app-mgr-lib.c:3476-3496 | Appending to the result list preserves directory order: filtering distributes over concatenation. |
| Catalog.Selected | src/limo-app-mgr-lib.c:3391-3504 | The query returns at most one application per directory, each kept by the class. |
| Catalog.SelectedMembers | src/limo-app-mgr-lib.c:3403-3496 | An application is returned exactly when some directory reads as it and the class keeps it. |
| Catalog.SelectedConcat | src/limo-app-mgr-lib.c:3403-3496 | The applications of earlier directories come before those of later ones. |
| Catalog.InstalledApps | src/limo-app-mgr-lib.c:3391-3504 | The directory walk returns exactly the selection. |
| Catalog.FirstWithPid | src/limo-app-mgr-lib.c:3295-3320 | The walk stops at the first directory whose PID is the pid, and finds none only when no directory has it. |
| Catalog.PriorityOf | src/limo-app-mgr-lib.c:3286-3324 | SUCCESS exactly when some directory records the pid. The answer is the first such directory's Priority as an unsigned value; otherwise FAILURE with nothing written. |
| Catalog.PriorityIgnoresOthers | src/limo-app-mgr-lib.c:3295-3320 | Directories after the first match, and non-matching ones before it, do not change the answer. |
| Catalog.MenuPosCompare | src/limo-app-mgr-lib.c:3375-3378 | The comparator's sign orders the two menu positions. |
| Catalog.MenuPosOrder | src/limo-app-mgr-lib.c:3375-3378 | The comparator is antisymmetric and transitive. |
| Catalog.FormatInstanceName | src/limo-app-mgr-lib.c:1711 | An instance name is the app name, ':', and the decimal id. |
| Catalog.ParseInstanceName | src/limo-app-mgr-lib.c:1738-1748 | A name names an explicit instance exactly when a ':' is followed by at least one character. Otherwise it names the first running instance of the part before the ':'. An explicit id is `atoi` of the text after the ':'. |
| Catalog.ParseNonNumericSuffix | src/limo-app-mgr-lib.c:1738-1748 | A non-numeric suffix names instance 0 and not the first running instance: `app:x` parses to instance 0 of `app`. |
| Catalog.ParseTrailingText | src/limo-app-mgr-lib.c:1738-1748 | Text after the suffix's digits is ignored: `app:7x` parses to instance 7 of `app`. |
| Catalog.ParseFormatted | src/limo-app-mgr-lib.c:1738-1748 | Parsing a formatted instance name gives back its application and id. |
| Mime.LineValue | src/limo-app-mgr-lib.c:2026 | A line has a value exactly when it contains '='; key, '=' and value rebuild it. |
| Mime.ScanEnd | src/limo-app-mgr-lib.c:2024-2028 | The scan stops at the first empty line. |
| Mime.FindMime | src/limo-app-mgr-lib.c:2024-2031 | The matched line is the first one whose key equals the type up to case; none matches when none is found. |
| Mime.CacheLineOfExtension | src/limo-app-mgr-lib.c:2024-2031 | Lines after the first match do not change which line matches. |
| Mime.ScanDesktop | src/limo-app-mgr-lib.c:2044-2063 | A scan that found no Services line reports no service. |
| Mime.ScanBusFlag | src/limo-app-mgr-lib.c:2049-2051 | The bus flag is set exactly when some scanned ExecType or X-ExecType line says "dbus" in any case, or has no value. |
| Mime.ScanKeepsLastService | src/limo-app-mgr-lib.c:2053-2061 | A service is found exactly when some Services line has a value, and the last such line names it. |
| Mime.HandleMime | src/limo-app-mgr-lib.c:1995-2107 | NULL inputs and octet-stream fail. SUCCESS exactly when a cache line matches with a non-empty first entry, and then the action follows that entry's desktop file. FAILURE never acts. |
| Mime.ActionFollowsDesktop | src/limo-app-mgr-lib.c:2041-2092 | On SUCCESS the action follows the desktop file's lines. If some ExecType line asks for a bus call and some Services line names a service, the action is a remote call to the registry's service, path and interface, passing the last such line's service. With a service but no bus request, the application is invoked with the service and the content; when the first entry of that Services value is empty, it is invoked with no arguments. With neither, the application is invoked with the content. A bus request without a service does nothing. |
| Mime.FirstCacheLineWins | src/limo-app-mgr-lib.c:2024-2093 | The handler's outcome depends only on the first matching cache line. |
| Mime.ServiceEntry | src/limo-app-mgr-lib.c:1933-1936 | `svc,menu` splits at its first ','; an entry without ',' is both service and menu. |
| Mime.ServiceEntrySplit | src/limo-app-mgr-lib.c:1933-1936 | `svc,menu` gives `(svc, menu)` and `svc` gives `(svc, svc)`. |
| Protocol.TargetSuffixOfInstance | src/limo-app-mgr-lib.c:894-896 | Splitting and rejoining a derived instance name gives the application name followed by the instance suffix `init` appended. |
| Protocol.InitAddressIsTargetAddress | src/limo-app-mgr-lib.c:227-263 | The interface and object `init` derives are those the senders build from the instance name. |
| Protocol.ReceiverIdentity | src/limo-app-mgr-lib.c:252-263 | After a successful `init`, `get_name` returns the application name. `get_instance_name` returns the application name, followed by ':' and the last instance id for a multi-instance application. |
| Protocol.RegisterKeepsListening | src/limo-app-mgr-lib.c:321-380 | Registering handlers leaves the name and addresses unchanged. |
| Protocol.FilterOwnStop | src/limo-app-mgr-lib.c:1151-1158 | A `stop` on the own interface calls the stop handler and is reported as not handled. |
| Protocol.FilterOwnExec | src/limo-app-mgr-lib.c:1201-1243 | An `exec` on the own interface with a non-zero count calls the exec handler with the count and the list. |
| Protocol.FilterOwnMessage | src/limo-app-mgr-lib.c:1256-1287 | A `Message` on the own interface with a non-zero count calls the message handler with the count and the list. |
| Protocol.FilterUnmatched | src/limo-app-mgr-lib.c:1288-1292 | A signal no test matches calls nothing and is reported as not handled. |
| Protocol.StopReachesInstance | src/limo-app-mgr-lib.c:894-903 | A queued `stop` to the name that instance's `get_instance_name` returns reaches its stop handler. |
| Protocol.MessageReachesInstance | src/limo-app-mgr-lib.c:3655-3692 | A queued `Message` to the name that instance's `get_instance_name` returns reaches its message handler as `(n+1, [name] + messages)`. |
| Protocol.ExecReachesSingleInstance | src/limo-app-mgr-lib.c:449-479 | A forwarded `exec` reaches a single-instance application's handler as `(n+1, [app] + args)`. |
| Protocol.PlainNameMissesMultiInstance | src/limo-app-mgr-lib.c:449-450 | A signal addressed by the bare application name matches no test of a multi-instance receiver. |
| Protocol.ExecMissesMultiInstance | src/limo-app-mgr-lib.c:449-450 | A forwarded `exec` to a multi-instance application is passed on unhandled. |
| Protocol.CloseStopReachesSingleInstance | src/limo-app-mgr-lib.c:1071-1079 | The close functions' `stop` reaches a single-instance application's stop handler. |
| Protocol.CloseStopMissesMultiInstance | src/limo-app-mgr-lib.c:1071-1079 | The close functions' `stop` misses a multi-instance application. |
| Protocol.InstanceNameParsesBack | src/limo-app-mgr-lib.c:1738-1748 | The instance name `init` derives parses back to the explicit instance, or to the first running instance for a single-instance application. |

## Left out

- Bus connection, marshalling, flushing and match registration are outside the model. Match rules are recorded in the context; whether a message could be created or queued is an oracle input.
- GConf reads and writes are not performed. The registry is a snapshot parameter, and the PID that `init` writes is reported as the key it goes to.
- The `mimeinfo.cache` and `.desktop` files are not read. Their contents are line sequences, split at newlines and handed in.
- The `sleep(2)` in the close functions is left out, and so is the kill call: its result is a parameter.
- `clp_app_mgr_close` only forwards its own instance id to the kill call, so it adds nothing beyond `Messaging.CloseByName`'s kill step.
- `get_property` is a parameter: the red-key flag is handed to `Messaging.CloseByRedKey`.
- Window-manager requests, theme handling, `power_off`, `restore`, the `rotate` stub, logging and `load_libsegfault` are I/O or process control.
- Service discovery (`get_services`) is not modelled beyond the entry split. The rest of it walks desktop files, and `service_invoke` is a launch request whose result `handle_mime` ignores.
- `get_application_id` and `get_application_instance_info` are not modelled beyond the instance-name format and parse. The running-instance list and the instance info come from the LiMo service.
- Memory ownership and leaks are not modelled.
- The values of APPMGR_ERROR_APP_ALREADY_RUNNING and APPMGR_ERROR_INTERNAL_TRANSPORT_ERROR are not modelled: app-manager.h is not part of this model. They are the parameters `Launch.AmsCodes`, assumed distinct from 0, from -1 and from each other.
- The values of CLP_APP_MGR_NO_ICON and APPLICATION_INFO_PATH are not modelled because their headers are not part of this model. The default icon is a parameter, and the info path matters only through the empty-entry test.
- Launch.Exec: the va-list paths read the caller's list after the helper has consumed it, which ISO/IEC 9899:1999 section 7.15 leaves indeterminate. The model forwards the full caller list, as `exec_argv` does.
- Launch.Exec: requires the forwarded arguments to fit the 256-slot array (va-list paths) or a signed 32-bit count (argv path). Overflow is not modelled.
- Messaging.SendMessage: requires at most 256 messages, the size of its copy array.
- Dispatch.Filter: requires well-typed payloads (`Dispatch.Decodable`); the code does not check argument types.
- Catalog.ReadApp: requires a Command wherever a Name is present. A NULL Command crashes the query.
- Catalog.MenuPosCompare: requires the difference to fit in 32 bits. The wrap-around of the C subtraction for far-apart positions is not modelled.
- Catalog.FormatInstanceName: requires the name to fit the NAME_SIZE buffer; a longer one overflows it.
- Catalog.ParseInstanceName: requires a non-empty name. Splitting the empty name yields no element 1 to test.
- Mime.HandleMime: requires inputs the code handles without a crash (`Mime.Handleable`): 1 to 100 cache lines, a matched line with a non-empty value, and the entry's desktop file present, 1 to 100 lines long, with a value on every scanned Services line. More than 100 lines would leave the rest glued to line 100 by `g_strsplit`; that is not modelled.
- CStrings.StrlCat: lengths count characters, while the library counts bytes. The 255-character truncations in `Registration.ExtendBuffer`, `Registration.RuleText`, `Messaging.CloseInterface` and `Messaging.CloseObject` therefore agree with the code only for ASCII names, which are the only names D-Bus accepts in interface names and object paths.
- `atoi` overflow and 32-bit wrap of registry integers are not modelled; registry integers are unbounded.
- `init` adds its filter again on each call; the model records only the match rules.
