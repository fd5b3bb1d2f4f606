/**
 * The module-level state of the Electron main process (src/main/index.ts) and
 * its IPC and application-event handlers: the zero-or-one floating window
 * slot, the global shortcut table and its debounce, the clipboard.
 *
 * Windows are named by the number of the BrowserWindow construction that made
 * them. The host's asynchronous 'closed' and 'did-finish-load' events are
 * separate methods, so any interleaving of handlers and events is a sequence
 * of method calls. OS answers to shortcut registration are parameters.
 */
module MainProcess {
  import opened Common
  import opened ShortcutTable

  /** Window size in pixels. */
  datatype Size = Size(width: int, height: int)

  const InitialSize := Size(250, 150)
  const RunawayLimit := 500

  /** One 'templates-data' message sent to a window's renderer. */
  datatype Send = Send(window: nat, templates: seq<Template>)

  /** One 'template-copied' message sent to the main window. */
  datatype Notice = Notice(title: string, content: string)

  /** What an IPC handler's promise delivers: `{success: true}`, `{success: false, ...}`, or a rejected promise (an uncaught exception). */
  datatype Reply = Ok | Failed | Rejected

  datatype RegisterReply = Registered(count: nat) | RegisterFailed

  /** What a firing of a bound accelerator does. */
  datatype Firing = Swallowed | Delivered(content: string, autoPaste: bool)

  /** The 'resize' listener of a floating window (src/main/index.ts:89-99). */
  function ResizeGuard(s: Size): (r: Size)
    ensures r.width <= RunawayLimit && r.height <= RunawayLimit
    ensures (s.width > RunawayLimit || s.height > RunawayLimit) <==> r != s
    ensures (s.width > RunawayLimit || s.height > RunawayLimit) ==> r == InitialSize
  {
    if s.width > RunawayLimit || s.height > RunawayLimit then InitialSize else s
  }

  /** The guard never changes the size it produces. */
  lemma ResizeGuardIdempotent(s: Size)
    ensures ResizeGuard(ResizeGuard(s)) == ResizeGuard(s)
  {
  }

  /** Snapshot of the windows part of the state. */
  datatype WindowState = WindowState(
    slot: Option<nat>, live: set<nat>, pending: set<nat>,
    onLoad: map<nat, seq<Template>>, sizes: map<nat, Size>, nextId: nat, sends: seq<Send>)

  /** Snapshot of the shortcut and clipboard part of the state. */
  datatype TableState = TableState(
    currentTemplates: seq<Template>, registered: seq<Entry>, bindings: map<string, Handler>,
    lastShortcutTime: map<string, int>, clipboard: string, notices: seq<Notice>)

  class MainState {
    /** `floatingWindow`: the window the variable holds, if any. */
    var slot: Option<nat>
    /** Constructed floating windows that are not destroyed. */
    var live: set<nat>
    /** Windows whose 'closed' event is still to be delivered to the listener attached at creation. */
    var pending: set<nat>
    /** The one-shot 'did-finish-load' listeners, with the list each captured. */
    var onLoad: map<nat, seq<Template>>
    var sizes: map<nat, Size>
    var nextId: nat
    var sends: seq<Send>

    var currentTemplates: seq<Template>
    /** `registeredShortcuts`, in insertion order. */
    var registered: seq<Entry>
    /** The callbacks the OS holds (`globalShortcut`). */
    var bindings: map<string, Handler>
    var lastShortcutTime: map<string, int>
    var clipboard: string
    var notices: seq<Notice>

    function Windows(): WindowState
      reads this
    {
      WindowState(slot, live, pending, onLoad, sizes, nextId, sends)
    }

    function Table(): TableState
      reads this
    {
      TableState(currentTemplates, registered, bindings, lastShortcutTime, clipboard, notices)
    }

    /**
     * No live floating window is ever out of reach of the variable, a
     * destroyed window still held will have its 'closed' event delivered,
     * and the OS holds a callback only for an accelerator of the table.
     */
    ghost predicate Valid()
      reads this
    {
      && (forall w :: w in live ==> slot == Some(w))
      && (slot.Some? && slot.value !in live ==> slot.value in pending)
      && live * pending == {}
      && (forall w :: w in live ==> w in sizes)
      && (forall w :: w in live || w in pending || w in onLoad || w in sizes ==> w < nextId)
      && (slot.Some? ==> slot.value < nextId)
      && DistinctKeys(registered)
      && (forall s :: s in bindings ==> Claimed(registered, s))
    }

    /** The state at application start: no floating window, empty tables. */
    constructor ()
      ensures Valid()
      ensures slot == None && live == {} && pending == {} && onLoad == map[] && sizes == map[] && nextId == 0 && sends == []
      ensures Table() == TableState([], [], map[], map[], "", [])
    {
      slot := None;
      live := {};
      pending := {};
      onLoad := map[];
      sizes := map[];
      nextId := 0;
      sends := [];
      currentTemplates := [];
      registered := [];
      bindings := map[];
      lastShortcutTime := map[];
      clipboard := "";
      notices := [];
    }

    /** `floatingWindow !== null && !floatingWindow.isDestroyed()` */
    predicate IsLive()
      reads this
    {
      slot.Some? && slot.value in live
    }

    /** `is-floating-templates-open` (src/main/index.ts:248-250). */
    method IsOpen() returns (isOpen: bool)
      requires Valid()
      ensures isOpen <==> slot.Some? && slot.value in live
      ensures isOpen <==> live != {}
    {
      isOpen := slot.Some? && slot.value in live;
    }

    /** createFloatingTemplatesWindow plus the 'closed' listener attached right after it. */
    method NewWindow() returns (w: nat)
      requires Valid() && slot == None
      modifies this
      ensures Valid()
      ensures w == old(nextId) && slot == Some(w) && live == {w}
      ensures sizes == old(sizes)[w := InitialSize] && nextId == w + 1
      ensures pending == old(pending) && onLoad == old(onLoad) && sends == old(sends)
      ensures Table() == old(Table())
    {
      w := nextId;
      nextId := nextId + 1;
      live := live + {w};
      sizes := sizes[w := InitialSize];
      slot := Some(w);
    }

    /**
     * `show-floating-templates` (src/main/index.ts:191-203): an empty
     * variable gets a new window; otherwise the held window is focused, which
     * throws when it is already destroyed.
     */
    method ShowFloating() returns (r: Reply)
      requires Valid()
      modifies this
      ensures Valid()
      ensures old(slot).None? ==> r == Ok && slot == Some(old(nextId)) && live == {old(nextId)} && nextId == old(nextId) + 1
      ensures old(slot).None? ==> sizes == old(sizes)[old(nextId) := InitialSize]
      ensures old(slot).Some? ==> Windows() == old(Windows()) && (r == Ok <==> old(IsLive())) && (r != Ok ==> r == Rejected)
      ensures pending == old(pending) && onLoad == old(onLoad) && sends == old(sends)
      ensures Table() == old(Table())
    {
      if slot.None? {
        var _ := NewWindow();
        r := Ok;
      } else if slot.value in live {
        r := Ok;
      } else {
        r := Rejected;
      }
    }

    /**
     * `close()` on the held window, then the variable set to null
     * (src/main/index.ts:205-212 and 239-246, identical handlers). Closing
     * an already destroyed window throws before the variable is reset.
     */
    method CloseFloating() returns (r: Reply)
      requires Valid()
      modifies this
      ensures Valid()
      ensures old(slot).None? ==> r == Ok && Windows() == old(Windows())
      ensures old(IsLive()) ==> r == Ok && slot == None && live == {} && pending == old(pending) + {old(slot).value}
      ensures old(slot).Some? && !old(IsLive()) ==> r == Rejected && Windows() == old(Windows())
      ensures r == Ok ==> slot == None && live == {}
      ensures onLoad == old(onLoad) && sizes == old(sizes) && nextId == old(nextId) && sends == old(sends)
      ensures Table() == old(Table())
    {
      if slot.Some? {
        var w := slot.value;
        if w !in live {
          return Rejected;
        }
        live := live - {w};
        pending := pending + {w};
        slot := None;
      }
      r := Ok;
    }

    /**
     * `create-floating-templates` (src/main/index.ts:214-237): an empty
     * variable gets a new window that will receive the list when it has
     * loaded; a held window is focused and sent a non-empty list at once.
     */
    method CreateFloating(templates: seq<Template>) returns (r: Reply)
      requires Valid()
      modifies this
      ensures Valid()
      ensures old(slot).None? ==> r == Ok && slot == Some(old(nextId)) && live == {old(nextId)} && nextId == old(nextId) + 1
      ensures old(slot).None? ==> onLoad == old(onLoad)[old(nextId) := templates] && sends == old(sends)
      ensures old(slot).None? ==> sizes == old(sizes)[old(nextId) := InitialSize] && pending == old(pending)
      ensures old(IsLive()) ==> r == Ok && slot == old(slot) && live == old(live) && onLoad == old(onLoad)
      ensures old(IsLive()) ==> sends == old(sends) + (if |templates| > 0 then [Send(old(slot).value, templates)] else [])
      ensures old(slot).Some? && !old(IsLive()) ==> r == Rejected && Windows() == old(Windows())
      ensures old(slot).Some? ==> sizes == old(sizes) && nextId == old(nextId) && pending == old(pending)
      ensures Table() == old(Table())
    {
      if slot.None? {
        var w := NewWindow();
        onLoad := onLoad[w := templates];
      } else {
        if slot.value !in live {
          return Rejected;
        }
        if |templates| > 0 {
          sends := sends + [Send(slot.value, templates)];
        }
      }
      r := Ok;
    }

    /**
     * A window's one-shot 'did-finish-load' listener (src/main/index.ts:223-227).
     * It sends the list it captured to whatever window the variable holds
     * at that moment, provided the list is non-empty.
     */
    method OnFinishLoad(w: nat)
      requires Valid() && w in onLoad && w in live
      modifies this
      ensures Valid()
      ensures onLoad == old(onLoad) - {w}
      ensures sends == old(sends) + (if old(IsLive()) && |old(onLoad)[w]| > 0 then [Send(old(slot).value, old(onLoad)[w])] else [])
      ensures slot == old(slot) && live == old(live) && pending == old(pending) && sizes == old(sizes) && nextId == old(nextId)
      ensures Table() == old(Table())
    {
      var templates := onLoad[w];
      onLoad := onLoad - {w};
      if slot.Some? && slot.value in live && |templates| > 0 {
        sends := sends + [Send(slot.value, templates)];
      }
    }

    /** `update-floating-templates` (src/main/index.ts:252-260). */
    method UpdateFloating(templates: seq<Template>) returns (r: Reply)
      requires Valid()
      modifies this
      ensures Valid()
      ensures r == Ok <==> old(IsLive())
      ensures r != Ok ==> r == Failed
      ensures sends == old(sends) + (if old(IsLive()) then [Send(old(slot).value, templates)] else [])
      ensures slot == old(slot) && live == old(live) && pending == old(pending)
      ensures onLoad == old(onLoad) && sizes == old(sizes) && nextId == old(nextId)
      ensures Table() == old(Table())
    {
      if slot.Some? && slot.value in live {
        sends := sends + [Send(slot.value, templates)];
        r := Ok;
      } else {
        r := Failed;
      }
    }

    /**
     * `resize-floating-window` (src/main/index.ts:275-287): setSize on the
     * live window, after which its 'resize' listener applies the runaway
     * guard. `setSizeThrows` is the host's answer.
     */
    method ResizeFloatingWindow(width: int, height: int, setSizeThrows: bool) returns (r: Reply)
      requires Valid()
      modifies this
      ensures Valid()
      ensures r == Ok <==> old(IsLive()) && !setSizeThrows
      ensures r != Ok ==> r == Failed && sizes == old(sizes)
      ensures r == Ok ==> sizes == old(sizes)[old(slot).value := ResizeGuard(Size(width, height))]
      ensures slot == old(slot) && live == old(live) && pending == old(pending)
      ensures onLoad == old(onLoad) && nextId == old(nextId) && sends == old(sends)
      ensures Table() == old(Table())
    {
      if slot.Some? && slot.value in live {
        if setSizeThrows {
          r := Failed;
        } else {
          sizes := sizes[slot.value := ResizeGuard(Size(width, height))];
          r := Ok;
        }
      } else {
        r := Failed;
      }
    }

    /** The user or the window manager closes the live floating window. */
    method HostClosesWindow()
      requires Valid() && IsLive()
      modifies this
      ensures Valid()
      ensures live == {} && pending == old(pending) + {old(slot).value}
      ensures slot == old(slot) && onLoad == old(onLoad) && sizes == old(sizes) && nextId == old(nextId) && sends == old(sends)
      ensures Table() == old(Table())
    {
      pending := pending + {slot.value};
      live := live - {slot.value};
    }

    /**
     * Delivery of window w's 'closed' event to its listener, which resets the
     * variable only while it still holds w. This is the intended behaviour
     * of the listener at src/main/index.ts:195-197 and 218-220; see
     * OnClosedAsWritten.
     */
    method OnClosed(w: nat)
      requires Valid() && w in pending
      modifies this
      ensures Valid()
      ensures pending == old(pending) - {w}
      ensures slot == (if old(slot) == Some(w) then None else old(slot))
      ensures live == old(live) && onLoad == old(onLoad) && sizes == old(sizes) && nextId == old(nextId) && sends == old(sends)
      ensures Table() == old(Table())
    {
      if slot == Some(w) {
        assert w !in live by {
          assert w !in live * pending;
        }
        slot := None;
      }
      pending := pending - {w};
    }

    /** The listener as written: `floatingWindow = null`, whichever window closed. */
    method OnClosedAsWritten(w: nat)
      requires w in pending
      modifies this
      ensures pending == old(pending) - {w} && slot == None
      ensures live == old(live) && onLoad == old(onLoad) && sizes == old(sizes) && nextId == old(nextId) && sends == old(sends)
      ensures Table() == old(Table())
    {
      pending := pending - {w};
      slot := None;
    }

    /** The main window's 'closed' listener (src/main/index.ts:34-39). */
    method OnMainWindowClosed()
      requires Valid()
      modifies this
      ensures Valid()
      ensures old(IsLive()) ==> slot == None && live == {} && pending == old(pending) + {old(slot).value}
      ensures !old(IsLive()) ==> Windows() == old(Windows())
      ensures onLoad == old(onLoad) && sizes == old(sizes) && nextId == old(nextId) && sends == old(sends)
      ensures Table() == old(Table())
    {
      if slot.Some? && slot.value in live {
        pending := pending + {slot.value};
        live := live - {slot.value};
        slot := None;
      }
    }

    /**
     * The cleanup shared by 'before-quit' and 'window-all-closed': the OS
     * forgets every accelerator, and a held live window loses its listeners
     * and is destroyed; the variable is reset in any case. The table itself
     * is not cleared.
     */
    method ForceCleanup()
      requires Valid()
      modifies this
      ensures Valid()
      ensures slot == None && live == {} && bindings == map[]
      ensures old(IsLive()) ==> pending == old(pending) - {old(slot).value} && onLoad == old(onLoad) - {old(slot).value}
      ensures !old(IsLive()) ==> pending == old(pending) && onLoad == old(onLoad)
      ensures sizes == old(sizes) && nextId == old(nextId) && sends == old(sends)
      ensures registered == old(registered) && currentTemplates == old(currentTemplates)
      ensures lastShortcutTime == old(lastShortcutTime) && clipboard == old(clipboard) && notices == old(notices)
    {
      var p, o, l := pending, onLoad, live;
      if slot.Some? && slot.value in live {
        var w := slot.value;
        p, o, l := p - {w}, o - {w}, l - {w};
      }
      bindings, slot, pending, onLoad, live := map[], None, p, o, l;
    }

    /** 'before-quit' (src/main/index.ts:456-471). */
    method BeforeQuit()
      requires Valid()
      modifies this
      ensures Valid()
      ensures slot == None && live == {} && bindings == map[]
      ensures old(IsLive()) ==> pending == old(pending) - {old(slot).value} && onLoad == old(onLoad) - {old(slot).value}
      ensures !old(IsLive()) ==> pending == old(pending) && onLoad == old(onLoad)
      ensures sizes == old(sizes) && nextId == old(nextId) && sends == old(sends)
      ensures registered == old(registered) && currentTemplates == old(currentTemplates)
      ensures lastShortcutTime == old(lastShortcutTime) && clipboard == old(clipboard) && notices == old(notices)
    {
      ForceCleanup();
    }

    /** 'window-all-closed' (src/main/index.ts:474-492); quitting the application is not modelled. */
    method WindowAllClosed()
      requires Valid()
      modifies this
      ensures Valid()
      ensures slot == None && live == {} && bindings == map[]
      ensures old(IsLive()) ==> pending == old(pending) - {old(slot).value} && onLoad == old(onLoad) - {old(slot).value}
      ensures !old(IsLive()) ==> pending == old(pending) && onLoad == old(onLoad)
      ensures sizes == old(sizes) && nextId == old(nextId) && sends == old(sends)
      ensures registered == old(registered) && currentTemplates == old(currentTemplates)
      ensures lastShortcutTime == old(lastShortcutTime) && clipboard == old(clipboard) && notices == old(notices)
    {
      ForceCleanup();
    }

    /**
     * `register-global-shortcuts` (src/main/index.ts:304-431). The list is
     * stored and pushed to a live floating window, the OS bindings and the
     * table are cleared, and the loop at 321-424 runs with `answers[i]` as
     * the OS answer for template i. A missing list (`templates` null) stores
     * [] and then fails when its length is read.
     */
    method RegisterGlobalShortcuts(templates: Option<seq<Template>>, answers: seq<OsAnswer>, autoPaste: bool)
      returns (r: RegisterReply)
      requires Valid()
      requires templates.Some? ==> |answers| == |templates.value|
      modifies this
      ensures Valid()
      ensures currentTemplates == (if templates.Some? then templates.value else [])
      ensures sends == old(sends) + (if old(IsLive()) then [Send(old(slot).value, currentTemplates)] else [])
      ensures templates.None? ==> r == RegisterFailed && registered == [] && bindings == map[]
      ensures templates.Some? ==>
        && registered == Rebuild(templates.value, answers, autoPaste).entries
        && bindings == Rebuild(templates.value, answers, autoPaste).bindings
        && r == (if Rebuild(templates.value, answers, autoPaste).aborted then RegisterFailed else Registered(|registered|))
      ensures slot == old(slot) && live == old(live) && pending == old(pending)
      ensures onLoad == old(onLoad) && sizes == old(sizes) && nextId == old(nextId)
      ensures lastShortcutTime == old(lastShortcutTime) && clipboard == old(clipboard) && notices == old(notices)
    {
      var ts := if templates.Some? then templates.value else [];
      var sent := if slot.Some? && slot.value in live then sends + [Send(slot.value, ts)] else sends;
      var entries: seq<Entry>, binds: map<string, Handler>, aborted := [], map[], true;
      if templates.Some? {
        entries, binds, aborted := RegisterAll(ts, answers, autoPaste);
        KeysDistinct(ts, answers, autoPaste, |ts|);
        BindingsMatchEntries(ts, answers, autoPaste, |ts|);
      }
      currentTemplates, sends, registered, bindings := ts, sent, entries, binds;
      r := if aborted then RegisterFailed else Registered(|entries|);
    }

    /** `unregister-global-shortcuts` (src/main/index.ts:433-443); the debounce times survive. */
    method UnregisterGlobalShortcuts() returns (r: Reply)
      requires Valid()
      modifies this
      ensures Valid()
      ensures r == Ok && registered == [] && bindings == map[]
      ensures lastShortcutTime == old(lastShortcutTime) && currentTemplates == old(currentTemplates)
      ensures clipboard == old(clipboard) && notices == old(notices)
      ensures Windows() == old(Windows())
    {
      bindings := map[];
      registered := [];
      r := Ok;
    }

    /** `get-registered-shortcuts` (src/main/index.ts:445-450): the table in insertion order. */
    method GetRegisteredShortcuts() returns (entries: seq<Entry>)
      requires Valid()
      ensures entries == registered
      ensures DistinctKeys(entries)
    {
      entries := registered;
    }

    /** `request-templates-data` (src/main/index.ts:263-265). */
    method RequestTemplatesData() returns (templates: seq<Template>)
      ensures templates == currentTemplates
    {
      templates := currentTemplates;
    }

    /** `copy-to-clipboard` (src/main/index.ts:268-272). */
    method CopyToClipboard(text: string) returns (done: bool)
      modifies this
      ensures done && clipboard == text
      ensures Windows() == old(Windows())
      ensures currentTemplates == old(currentTemplates) && registered == old(registered) && bindings == old(bindings)
      ensures lastShortcutTime == old(lastShortcutTime) && notices == old(notices)
    {
      clipboard := text;
      done := true;
    }

    /**
     * The OS invokes the callback bound to accelerator s at time `now`
     * (src/main/index.ts:340-363). A firing the debounce lets through copies
     * the captured template's content to the clipboard and tells the main
     * window; the paste keystroke itself is not modelled.
     */
    method Fire(s: string, now: int) returns (r: Firing)
      requires Valid() && s in bindings
      modifies this
      ensures Valid()
      ensures (r.Delivered?, lastShortcutTime) == Debounce(old(lastShortcutTime), s, now)
      ensures r.Swallowed? ==> clipboard == old(clipboard) && notices == old(notices)
      ensures r.Delivered? ==>
        && r == Delivered(old(bindings)[s].template.content, old(bindings)[s].autoPaste)
        && clipboard == old(bindings)[s].template.content
        && notices == old(notices) + [Notice(old(bindings)[s].template.title, old(bindings)[s].template.content)]
      ensures Windows() == old(Windows())
      ensures currentTemplates == old(currentTemplates) && registered == old(registered) && bindings == old(bindings)
    {
      var lastTime := if s in lastShortcutTime then lastShortcutTime[s] else 0;
      if now - lastTime < DebounceMs {
        return Swallowed;
      }
      lastShortcutTime := lastShortcutTime[s := now];
      var t := bindings[s].template;
      clipboard := t.content;
      notices := notices + [Notice(t.title, t.content)];
      r := Delivered(t.content, bindings[s].autoPaste);
    }
  }

  /**
   * With the listener as written, a close followed by a new window before
   * the first window's 'closed' event arrives leaves the new window live but
   * out of reach: is-open reports false while it is on screen.
   */
  method OrphanedWindowAsWritten() returns (m: MainState, isOpen: bool)
    ensures m.live == {1} && m.slot == None && !isOpen
    ensures !m.Valid()
  {
    m := new MainState();
    var _ := m.ShowFloating();
    var _ := m.CloseFloating();
    var _ := m.ShowFloating();
    m.OnClosedAsWritten(0);
    isOpen := m.IsLive();
  }

  /** The same trace with the intended listener keeps the second window reachable. */
  method SameTraceCorrected() returns (m: MainState, isOpen: bool)
    ensures m.Valid() && m.live == {1} && m.slot == Some(1) && isOpen
  {
    m := new MainState();
    var _ := m.ShowFloating();
    var _ := m.CloseFloating();
    var _ := m.ShowFloating();
    m.OnClosed(0);
    isOpen := m.IsOpen();
  }
}
