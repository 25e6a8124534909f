# BlazeNeuro desktop environment, modelled in Dafny

This project models the logic of the BlazeNeuro desktop environment's window
manager and of the small pieces of logic inside its GTK front ends, and
proves what that logic guarantees.

- **Window manager** (`wm.dfy`, module `WindowManager`, class `Manager`).
  - The client registry: a 256-slot array with a count. It is appended to on
    map, shrunk with a `memmove` on unmap or destroy, and rotated in place by
    Alt+Tab. It is mirrored into the root window's `_NET_CLIENT_LIST` property
    of the Extended Window Manager Hints (EWMH).
  - Placement of newly mapped windows between the 32-pixel top bar and the
    72-pixel dock.
  - Dock detection.
  - Focus and `_NET_ACTIVE_WINDOW`.
  - The Alt-drag move/resize state machine.
  - Closing a window: the ICCCM `WM_DELETE_WINDOW` request (section 4.2.8.1
    of the ICCCM) when the window supports it, `XKillClient` otherwise.
  - The Alt+F4, Alt+Tab, Alt+Space and Alt+Return bindings.
  - Adoption at startup of windows that already exist.
  - The `while (running)` event loop and the SIGTERM flag.
- **The X server** (`x11.dfy`) is a value, `Display`. Each request the window
  manager sends is a function from one server state to the next. A request
  on a window that no longer exists has no effect, because the window manager
  logs and ignores the resulting X error. Atoms are represented by their
  names. The twelve CARDINALs of `_NET_WM_STRUT_PARTIAL` decode into a record
  in the order given by the EWMH section "Application Window Properties".
- **Launcher** (`launcher.dfy`).
  - The de-duplicated application list built by `load_apps`, including its
    prepend-then-reverse loop.
  - The substring search capped at eight rows.
  - The wrap-around selection and the Return key.
- **Notes** (`notes.dfy`): the word and character counter.
- **Task viewer** (`tasks.dfy`).
  - The `/proc` name check.
  - The `fgets` / newline-cut / "(unknown)" rules for the process name.
  - `atoi` on a digit string.
  - The `pid > 1` kill guard.
- **File manager** (`files.dfy`).
  - The dotfile filter.
  - The suffix-to-icon classifier.
  - `populate_files` and the 4096-byte `current_path`.
- **Dock** (`dock.dfy`): the application table and its count, the dock's
  geometry, its strut array, and the command line a button runs.
- **Top bar** (`topbar.dfy`): the bar's geometry and its strut array.
- **Shared modules**:
  - `wrappers.dfy`: `Option`;
  - `c_int.dfy`: C's truncating `/` and `%`;
  - `sequences.dfy`: first-occurrence removal, rotation, capping and list
    reversal;
  - `text.dfy`: ASCII lower-casing, `strstr` and `g_str_has_suffix`.

Some behaviours of the window manager's code that a reader might not expect,
all of which the model follows:

- `focus_window` raises the window and publishes it as active, but it does
  not reorder the registry.
- `add_client` has no duplicate check, so the registry can hold a window
  twice, and the model allows that too.
- Alt+Tab rotates the registry without republishing `_NET_CLIENT_LIST`. The
  invariant kept by every handler is therefore that the published list holds
  the registry's windows as a multiset, not in the same order.
- `scan_existing` does not exclude docks.
- Any mouse button other than 1 starts a resize.

## Model

| member | source | states |
|---|---|---|
| WindowManager.Placement | blazeneuro-de/src/wm/wm.c:187-202 | The width is the requested one if positive, else 2/3 of the screen (C division), capped at the screen width. The height is computed the same way against `sh - 32 - 72`. The window lies inside the screen and inside the band between the top bar and the dock. It is centred, with odd slack going right or down, and it is non-empty whenever the space allows |
| WindowManager.FocusWindow | blazeneuro-de/src/wm/wm.c:167-171 | Focusing changes only the input focus, the stacking order and `_NET_ACTIVE_WINDOW`, and the last becomes the window |
| WindowManager.FocusRaises | blazeneuro-de/src/wm/wm.c:167-171 | A viewable window gets the input focus. An existing top-level ends up at the top of the stacking order, which stays a permutation of itself. Otherwise the stacking order is unchanged |
| WindowManager.AdvertisesDelete | blazeneuro-de/src/wm/wm.c:140-148 | The scan finds the delete protocol exactly when `WM_DELETE_WINDOW` is among the window's `WM_PROTOCOLS` atoms |
| WindowManager.MoveTarget | blazeneuro-de/src/wm/wm.c:270-275 | The window moves by exactly the pointer's travel since the press, with no clamping |
| WindowManager.ResizeTarget | blazeneuro-de/src/wm/wm.c:276-282 | The size is never below 100 x 60. Each dimension equals the start size plus the pointer's travel when that is at least its floor, and equals the floor otherwise |
| WindowManager.Adoptable | blazeneuro-de/src/wm/wm.c:338-342 | A window is adopted exactly when it is among the queried windows, exists, is viewable and is not override-redirect |
| WindowManager.RemoveClientAt | blazeneuro-de/src/wm/wm.c:100-111 | Removing a window whose first occurrence is at index `i` deletes exactly that index, keeps the other entries in order, and republishes the result |
| WindowManager.AddThenRemove | blazeneuro-de/src/wm/wm.c:92-111 | Registering a new window and then unregistering it restores the registry and the published list |
| WindowManager.RemoveClientForgets | blazeneuro-de/src/wm/wm.c:100-111 | Unmap or destroy takes exactly one copy of the window out of the registry, so the count drops by one if the window was registered. Nothing changes for an unregistered window. A published list in sync stays in sync |
| WindowManager.ScanRegistersViewable | blazeneuro-de/src/wm/wm.c:334-356 | The startup scan appends the adoptable windows, in stacking order, to the registry until it holds 256 |
| WindowManager.ScanKeepsAttributes | blazeneuro-de/src/wm/wm.c:334-356 | The scan neither moves nor focuses anything. It changes only the managed set and `_NET_CLIENT_LIST` |
| WindowManager.ScanManagesViewable | blazeneuro-de/src/wm/wm.c:343-350 | Every adoptable window gets the client event mask and the Alt-button grabs, even when the registry is already full |
| WindowManager.ScanPublishes | blazeneuro-de/src/wm/wm.c:338-356 | After the scan, `_NET_CLIENT_LIST` is the registry if anything was added, and is untouched otherwise |
| WindowManager.Manager.constructor | blazeneuro-de/src/wm/wm.c:374-386 | At startup the registry is empty, no drag is in progress, the loop flag is set and the screen size is recorded |
| WindowManager.Manager.AddClient | blazeneuro-de/src/wm/wm.c:92-98 | With room, the window is appended with no duplicate check and the registry is published. A full table is left unchanged |
| WindowManager.Manager.FindClient | blazeneuro-de/src/wm/wm.c:101-102 | The search returns the index of the first occurrence, or the count when the window is absent |
| WindowManager.Manager.ShiftLeft | blazeneuro-de/src/wm/wm.c:103-104 | The `memmove` closes the gap: the first `n-1` slots are the old entries without index `i` |
| WindowManager.Manager.RemoveClient | blazeneuro-de/src/wm/wm.c:100-111 | The new registry and server are `RemoveClientFrom` of the old ones: the first occurrence is dropped and the list republished, or nothing happens |
| WindowManager.Manager.RemoveAt | blazeneuro-de/src/wm/wm.c:102-109 | The registry loses index `i`, the count drops by one, and the list is republished |
| WindowManager.Manager.RotateClients | blazeneuro-de/src/wm/wm.c:301-303 | The in-place rotation moves the first client to the end |
| WindowManager.Manager.SendDelete | blazeneuro-de/src/wm/wm.c:135-164 | The function returns whether the window supports `WM_DELETE_WINDOW`. It then sends that ClientMessage, or kills the client if there is no support |
| WindowManager.Manager.HandleMapRequest | blazeneuro-de/src/wm/wm.c:174-217 | A window whose first window-type atom is DOCK is mapped as it is and not registered. Any other window is placed, gets the client mask and grabs, is mapped, appended to the registry and focused. The published list stays in sync |
| WindowManager.Manager.HandleConfigureRequest | blazeneuro-de/src/wm/wm.c:219-229 | The requested geometry fields named in the value mask are applied as asked, to any window |
| WindowManager.Manager.HandleButtonPress | blazeneuro-de/src/wm/wm.c:239-259 | A press with no subwindow changes nothing. Any other press focuses the subwindow. With Alt held, the press also records the anchor and the start geometry and starts a move for button 1 or a resize for any other button |
| WindowManager.Manager.HandleButtonRelease | blazeneuro-de/src/wm/wm.c:261-265 | A release always ends the drag, and the anchors keep their values |
| WindowManager.Manager.HandleMotion | blazeneuro-de/src/wm/wm.c:267-284 | With no drag target nothing happens. Otherwise the target is moved to `MoveTarget` or resized to `ResizeTarget` |
| WindowManager.Manager.CycleClients | blazeneuro-de/src/wm/wm.c:297-305 | With more than one client, the registry is rotated left and the old second client is focused. With fewer, nothing changes |
| WindowManager.Manager.HandleKeyPress | blazeneuro-de/src/wm/wm.c:286-320 | Without Alt, or for any other key, nothing changes. Alt+F4 closes the focused window unless the focus is None or the root. Alt+Tab cycles. Alt+Space and Alt+Return request the launcher and the terminal |
| WindowManager.Manager.Adopt | blazeneuro-de/src/wm/wm.c:343-351 | One adoption step: client mask and grabs, then `add_client` |
| WindowManager.Manager.ScanExisting | blazeneuro-de/src/wm/wm.c:334-356 | The new registry and server are the `Scan` of the stacking order, whose properties are the `Scan*` lemmas |
| WindowManager.Manager.HandleEvent | blazeneuro-de/src/wm/wm.c:423-433 | The new registry, server, drag state and spawn log are `Step` of the old ones. Other events change nothing, unmap and destroy unregister the window, and each other kind gives its handler's result. The published list stays in sync and the loop flag is untouched |
| WindowManager.Manager.Terminate | blazeneuro-de/src/wm/wm.c:328-331 | SIGTERM clears the loop flag and changes nothing else |
| WindowManager.Manager.Run | blazeneuro-de/src/wm/wm.c:422-434 | Events are handled in order until they run out, and none when the flag is already clear. The final state is `Steps` of the events over the initial state, and the published list stays in sync throughout |
| WindowManager.StepKeepsSync | blazeneuro-de/src/wm/wm.c:423-433 | No single event takes the registry over 256 windows or out of sync with `_NET_CLIENT_LIST` |
| WindowManager.StepsKeepSync | blazeneuro-de/src/wm/wm.c:422-434 | Any sequence of events keeps the registry within its table and in sync with `_NET_CLIENT_LIST` |
| Sequences.RemoveFirstMultiset | blazeneuro-de/src/wm/wm.c:100-111 | Removing the first occurrence takes exactly one copy out of the multiset |
| Sequences.RemoveFirstAt | blazeneuro-de/src/wm/wm.c:101-104 | Removal at the first occurrence equals deleting that index and keeping the rest in order |
| Sequences.RotateLeft | blazeneuro-de/src/wm/wm.c:301-303 | A rotation keeps the length and the multiset. With two or more elements the old second element is first and the old first is last |
| Sequences.RotatedSplit | blazeneuro-de/src/wm/wm.c:297-305 | After `k` Alt+Tabs the first `k` clients have moved, in order, to the end |
| Sequences.RotationPeriod | blazeneuro-de/src/wm/wm.c:297-305 | `n` Alt+Tabs on `n` clients restore the original order |
| Sequences.RotatedFront | blazeneuro-de/src/wm/wm.c:297-305 | After `k < n` Alt+Tabs the front client is the original `k`-th |
| Sequences.CappedAppend | blazeneuro-de/src/wm/wm.c:92-98 | Appending to a bounded table keeps the element exactly while there is room |
| Sequences.ReversePrepended | blazeneuro-de/src/launcher/launcher.c:64-66 | Prepending a sequence onto a list and reversing the result gives the reversed old list followed by the sequence in its original order |
| Sequences.ReverseReverse | blazeneuro-de/src/launcher/launcher.c:66 | `g_list_reverse` is an involution |
| Launcher.MakeEntry | blazeneuro-de/src/launcher/launcher.c:50-62 | The entry's id is the app id and its name is the display name, or the id when there is none. Its lower-cased name is the name lower-cased character by character. Its icon is the serialized icon, or "application-x-executable" when there is no icon or no serialization |
| Launcher.LoadedDistinct | blazeneuro-de/src/launcher/launcher.c:46-48 | No two loaded entries share an app id |
| Launcher.LoadedComplete | blazeneuro-de/src/launcher/launcher.c:44-48 | Every shown application that has an id has its id in the list |
| Launcher.LoadedKeepsFirst | blazeneuro-de/src/launcher/launcher.c:44-54 | Every entry is built from the first shown application with its id, so hidden and id-less applications and later duplicates are dropped |
| Launcher.LoadedInOrder | blazeneuro-de/src/launcher/launcher.c:42-66 | The entries of any prefix of the enumeration come first and in the same order, so survivors keep their input order |
| Launcher.MatchesMembers | blazeneuro-de/src/launcher/launcher.c:142 | An entry matches exactly when its lower-cased name contains the query |
| Launcher.MatchesInOrder | blazeneuro-de/src/launcher/launcher.c:139-148 | The matches among a prefix of the list come first, in list order |
| Launcher.SearchResults | blazeneuro-de/src/launcher/launcher.c:132-148 | An empty query shows nothing. Otherwise at most eight rows are shown, forming a prefix of the matches in list order, each a listed entry containing the lower-cased query. When fewer than eight are shown, every match is shown |
| Launcher.NextIndex | blazeneuro-de/src/launcher/launcher.c:167-168 | Down keeps the selection within the rows, moves to the next row, and wraps from the last row to the first. From -1 it selects row 0 |
| Launcher.PrevIndex | blazeneuro-de/src/launcher/launcher.c:174-175 | Up keeps the selection within the rows, moves to the previous row, and wraps from the first row to the last. From -1 it selects the second-to-last row |
| Launcher.NextPrevInverse | blazeneuro-de/src/launcher/launcher.c:167-179 | On a selected row, Up undoes Down and Down undoes Up |
| Launcher.ReturnTarget | blazeneuro-de/src/launcher/launcher.c:181-187 | Return launches the selected row when the index is in range, otherwise the first row, and nothing when there are no rows |
| Launcher.PrependLoaded | blazeneuro-de/src/launcher/launcher.c:42-65 | The loop prepends the de-duplicated entries, which leaves them reversed in front of the old list |
| Launcher.MatchRows | blazeneuro-de/src/launcher/launcher.c:137-148 | The counting loop collects the first eight matches in list order |
| Launcher.Launcher.constructor | blazeneuro-de/src/launcher/launcher.c:23-26 | Startup state: no applications, no rows, selection -1 |
| Launcher.Launcher.LoadApps | blazeneuro-de/src/launcher/launcher.c:38-70 | After loading, `all_apps` is the old list reversed followed by the de-duplicated applications in input order |
| Launcher.Launcher.OnSearchChanged | blazeneuro-de/src/launcher/launcher.c:122-153 | The rows become `SearchResults` of the query. The selection is 0 when there are rows and -1 otherwise, so a row is selected exactly when rows are shown |
| Launcher.Launcher.LaunchResult | blazeneuro-de/src/launcher/launcher.c:95-106 | The row's app id is asked to be launched, and the main loop quits |
| Launcher.Launcher.OnKeyPress | blazeneuro-de/src/launcher/launcher.c:156-194 | Escape quits. Down and Up move the selection with wrap-around when there are rows. Return launches `ReturnTarget`. Other keys are not consumed, and the selection stays valid |
| Text.IsSubstringAt | blazeneuro-de/src/launcher/launcher.c:142 | The `strstr` test holds exactly when the query occurs at some position of the name |
| Text.LowerOfUpper | blazeneuro-de/src/files/files.c:48 | Lower-casing an upper-cased name gives the lower-cased name |
| Notes.WordsAreRuns | blazeneuro-de/src/notes/notes.c:88-99 | The word count is the number of maximal runs of non-space characters |
| Notes.WordsSnoc | blazeneuro-de/src/notes/notes.c:93-98 | A space never adds a word. A non-space character adds one exactly when it starts the text or follows a space |
| Notes.AllSpaceNoWords | blazeneuro-de/src/notes/notes.c:91-99 | Empty or all-white-space text has no words |
| Notes.WordsAtMostChars | blazeneuro-de/src/notes/notes.c:87-99 | There are never more words than characters |
| Notes.WordsConcat | blazeneuro-de/src/notes/notes.c:91-99 | The count of a join is the sum of the counts, less one when the join glues two words together |
| Notes.CountWords | blazeneuro-de/src/notes/notes.c:81-99 | The loop counts the word runs and the code points. `in_word` holds exactly when the previous character is not white space |
| Tasks.IsNumericName | blazeneuro-de/src/tasks/tasks.c:26-32 | The check is true exactly for a present, non-empty name made only of ASCII digits |
| Tasks.DecimalString | blazeneuro-de/src/tasks/tasks.c:59 | The decimal text of a process id is non-empty, all digits, and has no leading zero |
| Tasks.DecimalRoundTrip | blazeneuro-de/src/tasks/tasks.c:59 | `atoi` of the decimal text of a process id gives the id back |
| Tasks.DecimalLeadingZero | blazeneuro-de/src/tasks/tasks.c:59 | A leading zero does not change the value `atoi` reads |
| Tasks.ReadLine | blazeneuro-de/src/tasks/tasks.c:50-54 | `fgets` fails exactly on an empty file. Otherwise it yields a non-empty prefix of the file of at most 255 characters that runs up to and including the first newline. It stops early only at the 255-character cap or the end of the file |
| Tasks.CutName | blazeneuro-de/src/tasks/tasks.c:57 | The name is the longest prefix of the line with no newline or NUL |
| Tasks.DisplayName | blazeneuro-de/src/tasks/tasks.c:65 | An empty name is shown as "(unknown)", and any other name as it is |
| Tasks.RowFor | blazeneuro-de/src/tasks/tasks.c:42-66 | An entry gets a row exactly when its name is numeric and its `comm` file opens and is non-empty. The row shows the directory name and carries `atoi` of the name. The name is "(unknown)" when `comm` starts with a newline or NUL. Otherwise it is `comm` up to its first newline or NUL, its 255th character or its end, whichever comes first |
| Tasks.CutLineIsCommName | blazeneuro-de/src/tasks/tasks.c:50-57 | Cutting the line `fgets` reads at the first newline or NUL leaves the prefix of `comm` that stops at its first newline or NUL, at 255 characters, or at its end |
| Tasks.RowsAreProcesses | blazeneuro-de/src/tasks/tasks.c:41-67 | Every row comes from a numeric `/proc` entry and carries that entry's id |
| Tasks.TaskViewer.constructor | blazeneuro-de/src/tasks/tasks.c:24 | The list starts empty and nothing has been signalled |
| Tasks.TaskViewer.RefreshProcesses | blazeneuro-de/src/tasks/tasks.c:34-71 | The store is cleared, then filled with `Rows` of the listing in directory order. It stays empty when `/proc` cannot be opened |
| Tasks.TaskViewer.OnKill | blazeneuro-de/src/tasks/tasks.c:84-99 | With a selected row whose id is above 1, that id gets SIGTERM and the list is refreshed. Otherwise nothing changes. No signal ever goes to an id of 1 or below |
| Files.IconIsTableLookup | blazeneuro-de/src/files/files.c:44-64 | The chain of suffix tests picks the icon of the first group in the suffix table that matches the lower-cased name |
| Files.IsImageGroup | blazeneuro-de/src/files/files.c:49-51 | The image branch tests exactly `.png`, `.jpg`, `.jpeg` and `.svg` |
| Files.IsAudioGroup | blazeneuro-de/src/files/files.c:52-54 | The audio branch tests exactly `.mp3`, `.wav` and `.flac` |
| Files.IsVideoGroup | blazeneuro-de/src/files/files.c:55-56 | The video branch tests exactly `.mp4` and `.mkv` |
| Files.IsPdfGroup | blazeneuro-de/src/files/files.c:57-58 | The PDF branch tests exactly `.pdf` |
| Files.IsScriptGroup | blazeneuro-de/src/files/files.c:59-61 | The script branch tests exactly `.c`, `.py`, `.js` and `.h` |
| Files.IsPackageGroup | blazeneuro-de/src/files/files.c:62-64 | The package branch tests exactly `.zip`, `.tar` and `.gz` |
| Files.DirectoryIsFolder | blazeneuro-de/src/files/files.c:44 | A directory gets "folder", whatever its name ends with |
| Files.UnknownSuffixIsGeneric | blazeneuro-de/src/files/files.c:44 | A file with no recognised suffix gets "text-x-generic" |
| Files.FirstMatchingGroup | blazeneuro-de/src/files/files.c:49-64 | A matching group selects its icon when no earlier group matches |
| Files.NoMatchIsDefault | blazeneuro-de/src/files/files.c:44-64 | When no group matches, the default icon is kept |
| Files.IconIgnoresCase | blazeneuro-de/src/files/files.c:48 | A name, its upper-cased form and its lower-cased form get the same icon |
| Files.Shown | blazeneuro-de/src/files/files.c:39 | The entries shown are exactly those whose name does not start with '.' |
| Files.ListingIsShownEntries | blazeneuro-de/src/files/files.c:38-77 | There is one row per non-dot entry, in read order, with its name, kind and icon. No dotfile appears |
| Files.StoredPath | blazeneuro-de/src/files/files.c:18-31 | `current_path` is a prefix of the path of at most 4095 characters, and is the whole path when that fits |
| Files.FileManager.constructor | blazeneuro-de/src/files/files.c:17-18 | The path and the store start empty |
| Files.FileManager.PopulateFiles | blazeneuro-de/src/files/files.c:29-79 | The store is cleared, the path stored truncated, and the rows are `Listing` of the directory. The store stays empty when the directory cannot be opened |
| Dock.Length | blazeneuro-de/src/dock/dock.c:147-148 | The count is the index of the first entry without a name, and every earlier entry has one |
| Dock.LengthAt | blazeneuro-de/src/dock/dock.c:147-148 | The count stops exactly at the first nameless entry |
| Dock.CountApps | blazeneuro-de/src/dock/dock.c:147-148 | The counting loop computes `Length` of the table |
| Dock.TenApps | blazeneuro-de/src/dock/dock.c:26-38 | The table holds ten applications before its sentinel, each with a command |
| Dock.DockWidthPerApp | blazeneuro-de/src/dock/dock.c:149 | An empty dock is 16 pixels wide, its border, and each application widens it by exactly one 64-pixel icon cell |
| Dock.DockGeometry | blazeneuro-de/src/dock/dock.c:150-154 | The dock is `dock_w` x 64. It is centred on the monitor when it fits, with odd slack on the right, and its bottom edge is 8 pixels above the monitor's |
| Dock.DockIs656Wide | blazeneuro-de/src/dock/dock.c:26-38 | With the shipped table the dock is 656 pixels wide |
| Dock.DockStrutValues | blazeneuro-de/src/dock/dock.c:85-88 | The strut reserves 72 pixels at the bottom across `[0, width]`, and every other field is 0 |
| Dock.DockStruts | blazeneuro-de/src/dock/dock.c:80-92 | Nothing is published without a primary monitor. Otherwise the twelve values are published, and the bottom reservation equals the window manager's `dock_h` |
| Dock.DockWithinReservation | blazeneuro-de/src/dock/dock.c:85-88 | Read in root-window coordinates with inclusive ends, the strut claims the screen's bottom 72 rows across columns 0 to the monitor's width. The dock lies inside that strip when the primary monitor starts at column 0, shares the screen's bottom edge and is at least as wide as the dock |
| Dock.PlacementClearsPanels | blazeneuro-de/src/wm/wm.c:188-200 | A window placed by the window manager stays clear of the strips that the top bar and the dock reserve |
| Dock.Words | blazeneuro-de/src/dock/dock.c:67 | The argument vector of a command line has non-empty words with no spaces |
| Dock.WordEnd | blazeneuro-de/src/dock/dock.c:67 | The first word ends at the first space |
| Dock.WordsOfWord | blazeneuro-de/src/dock/dock.c:67 | A command line with no space is parsed as the program alone |
| Dock.LaunchPassesAmpersand | blazeneuro-de/src/dock/dock.c:66-67 | As written, clicking a dock button runs the program with the argument "&" |
| Dock.IntendedArgv | blazeneuro-de/src/dock/dock.c:63-69 | The intended argument vector is the program alone |
| Dock.DockCommandIsWord | blazeneuro-de/src/dock/dock.c:27-36 | Every command in the table is one word |
| Dock.ButtonArgv | blazeneuro-de/src/dock/dock.c:125-136 | What button `i` is evidently meant to run: `dock_apps[i].exec` with no arguments. As written it also passes "&" (see Findings) |
| Topbar.TopStrutValues | blazeneuro-de/src/topbar/topbar.c:40-43 | The strut reserves 32 pixels at the top across `[0, width]`, and every other field is 0 |
| Topbar.TopStruts | blazeneuro-de/src/topbar/topbar.c:29-48 | The zero-filled array with three slots set is the twelve values published, and its top reservation equals the window manager's `topbar_h` |
| Topbar.BarGeometry | blazeneuro-de/src/topbar/topbar.c:132-133 | The bar sits at the primary monitor's origin. It is as tall as the top reservation and as wide as the reservation's end column minus its start column |
| Topbar.BarInsideReservation | blazeneuro-de/src/topbar/topbar.c:40-43 | Read in root-window coordinates with inclusive ends, the strut claims rows 0 to 31 across columns 0 to the monitor's width. The bar lies inside that strip exactly when the primary monitor's top edge is at row 0 and its left edge at column 0 or 1. With the monitor at the origin, the strip is one column wider than the bar |
| CInt.Quot | blazeneuro-de/src/wm/wm.c:193-200 | C division by a positive divisor truncates toward zero, so the remainder takes the sign of the dividend |
| CInt.Rem | blazeneuro-de/src/launcher/launcher.c:167-175 | C `%` by a positive count: the dividend is the divisor times `Quot` plus the remainder, and the remainder lies in `[0, b)` for a non-negative dividend |

## Left out

- The X transport is left out: opening the display, `XNextEvent`, `XSync`, cursors, key grabs on the root, atom interning and the `setup_ewmh` property writes. Events arrive as a sequence, and the server is a value.
- The startup probe for another window manager and the X error handlers are left out. Their only effect, ignoring a failed request, is built into the request functions.
- `fork`/`execlp` for Alt+Space and Alt+Return are not modelled; the programs are recorded in a `spawned` log. SIGCHLD reaping is left out. SIGTERM is modelled only as the `running` flag.
- `WindowManager.Manager.HandleMapRequest`: the C code reads an uninitialised `XWindowAttributes` when the window has vanished. The model reads a zero geometry instead.
- `WindowManager.IsDock`: for a `_NET_WM_WINDOW_TYPE` property of length zero the C code reads one atom beyond the data. The model treats such a window as not a dock.
- Changes the X server makes by itself are not applied to the `Display`. A client unmapping or destroying its window does not clear `mapped`, `geometry` or the stacking order, and the server's focus revert is not modelled. On unmap and destroy the model only unregisters the window, which is all the window manager's own code does.
- `WindowManager.Manager.HandleConfigureRequest` applies position and size only. The border width, sibling and stack mode of the request are not modelled.
- Integers are unbounded. The 32-bit `int` of the placement, drag and dock arithmetic and `atoi`'s overflow are not modelled.
- `CInt.Quot` is written as a case split for small quotients that is equivalent to C division. The equivalence is stated by its contract, not by a single expression.
- `g_utf8_strdown` is modelled on the ASCII letters only (`Text.Lower`). Other characters are left unchanged.
- `Notes.IsSpace` is a fixed list of code points standing for `g_unichar_isspace`. The text is assumed to hold no NUL. The label formatting and the load, save and autosave of notes are left out.
- Reading `/proc`, `kill`, `g_dir_*`, `g_file_test` and `g_app_info_*` become inputs of the model. Launch requests are recorded in the `launched` log, whether or not `g_desktop_app_info_new` would succeed.
- `Files.BuildFilename` is a simplified `g_build_filename` that joins the path and the name with one separator. `g_path_get_dirname`, going up a directory and activating an item are not modelled. The path label is the stored path.
- Strings are sequences of characters: the bytes of C strings and the `snprintf` path buffer of the task viewer are not modelled.
- `_NET_WM_STRUT_PARTIAL` values are root-window coordinates, and their end columns are inclusive. The top bar and the dock compute them from the primary monitor's width alone. On a layout where the primary monitor is not at the screen's left edge, or for the dock not on its bottom edge, the strips they reserve do not hold them. The model states when they do (`Topbar.BarInsideReservation`, `Dock.DockWithinReservation`) and does not model multi-monitor layouts further.
- `Topbar.TopStruts` assumes the primary monitor exists. The top bar does not check for it, and a missing monitor is undefined behaviour in C.
- `Dock.Words` models `g_shell_parse_argv` without quotes, escapes or tabs, which do not occur in the table.
- The calculator, terminal, settings and desktop programs, the theme and CSS loading, the widget construction, the timers and the top bar clock are not modelled. They are floating-point code, file I/O or GTK plumbing with no logic of their own.

## Findings

| source | as written | input that shows it | evidently intended | confidence | as-written member | corrected member |
|---|---|---|---|---|---|---|
| blazeneuro-de/src/dock/dock.c:66-67 | `launch_app` appends " &" to the command and hands it to `g_spawn_command_line_async`, which runs no shell, so "&" becomes the program's first argument | clicking "Files" runs `blazeneuro-files` with argv `["blazeneuro-files", "&"]` | run the program with no arguments; the spawn is already asynchronous | not executed | Dock.LaunchPassesAmpersand | Dock.ButtonArgv |
