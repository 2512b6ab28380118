/**
 * The debug logger of the modular calculator: a mutable level, messages gated by severity, and
 * an optional on-page panel that keeps the 50 newest messages.
 */
module DebugUtils {
  import opened Wrappers
  import opened JsValues

  /** The severities passed to `log` by the four wrappers. */
  const ErrorLevel: int := 1
  const WarnLevel: int := 2
  const InfoLevel: int := 3
  const DebugLevel: int := 4

  /** The panel keeps at most this many entries. */
  const MaxEntries: nat := 50

  /** A line written to the console; the timestamp and the JSON text of the data are left out. */
  datatype LogLine = LogLine(category: string, message: string, data: JsValue)

  /** A panel entry: `[category] message`, and the data as its title when the data is truthy. */
  datatype PanelEntry = PanelEntry(text: string, title: Option<JsValue>)

  /** The entry `updateDebugUI(category, message, data)` appends. */
  function EntryOf(category: string, message: string, data: JsValue): (e: PanelEntry)
    ensures e.title.Some? <==> Truthy(data)
    ensures e.title.Some? ==> e.title.value == data
  {
    PanelEntry("[" + category + "] " + message, if Truthy(data) then Some(data) else None)
  }

  /** `log` emits a message of severity `level` exactly when the debug level reaches it. */
  predicate Emits(debugLevel: int, level: int)
  {
    debugLevel >= level
  }

  /** The entries left after the trimming loop: the newest `MaxEntries` of them, oldest first. */
  function KeepNewest(entries: seq<PanelEntry>): (kept: seq<PanelEntry>)
    ensures |kept| == if |entries| <= MaxEntries then |entries| else MaxEntries
    ensures kept == entries[|entries| - |kept|..]
  {
    if |entries| <= MaxEntries then entries else entries[|entries| - MaxEntries..]
  }

  /** The panel after `updateDebugUI`: unchanged when there is none, otherwise appended to and trimmed. */
  function UpdatedPanel(panel: Option<seq<PanelEntry>>, e: PanelEntry): Option<seq<PanelEntry>>
  {
    match panel
    case None => None
    case Some(children) => Some(KeepNewest(children + [e]))
  }

  /**
   * After an update the panel holds at most 50 entries with the new one last; while there is
   * room nothing is removed, and a full panel loses exactly its oldest entry.
   */
  lemma {:induction false} UpdateKeepsNewest(children: seq<PanelEntry>, e: PanelEntry)
    ensures var kept := UpdatedPanel(Some(children), e).value;
      |kept| <= MaxEntries && kept[|kept| - 1] == e
      && (|children| < MaxEntries ==> kept == children + [e])
      && (|children| == MaxEntries ==> kept == children[1..] + [e])
  {
    var all := children + [e];
    var kept := KeepNewest(all);
    assert kept[|kept| - 1] == all[|all| - 1];
    if |children| == MaxEntries {
      assert kept == all[1..];
      assert all[1..] == children[1..] + [e];
    }
  }

  /** The panel after several updates in turn. */
  function UpdatesOf(panel: Option<seq<PanelEntry>>, es: seq<PanelEntry>): (r: Option<seq<PanelEntry>>)
    ensures r.Some? <==> panel.Some?
    decreases |es|
  {
    if es == [] then panel else UpdatesOf(UpdatedPanel(panel, es[0]), es[1..])
  }

  /** A panel of at most 50 entries stays within 50 entries, however many updates follow. */
  lemma {:induction false} UpdatesStayBounded(children: seq<PanelEntry>, es: seq<PanelEntry>)
    requires |children| <= MaxEntries
    ensures |UpdatesOf(Some(children), es).value| <= MaxEntries
    decreases |es|
  {
    if es != [] {
      UpdateKeepsNewest(children, es[0]);
      UpdatesStayBounded(UpdatedPanel(Some(children), es[0]).value, es[1..]);
    }
  }

  /**
   * The severities: at level 0 or below nothing is emitted, at level 1 only errors, and raising
   * the level never silences a message that was emitted before.
   */
  lemma SeverityGating(debugLevel: int, level: int, higher: int)
    requires debugLevel <= higher
    ensures debugLevel <= 0 ==>
      (!Emits(debugLevel, ErrorLevel) && !Emits(debugLevel, WarnLevel)
       && !Emits(debugLevel, InfoLevel) && !Emits(debugLevel, DebugLevel))
    ensures debugLevel == 1 ==>
      (Emits(debugLevel, ErrorLevel) && !Emits(debugLevel, WarnLevel)
       && !Emits(debugLevel, InfoLevel) && !Emits(debugLevel, DebugLevel))
    ensures Emits(debugLevel, level) ==> Emits(higher, level)
  {
  }

  /** `debugUtils` with the module's `debugLevel`, the console it writes to and the document's panel. */
  class DebugUtils {
    var debugLevel: int
    var console: seq<LogLine>
    /** The children of the element `debugPanel`, or `None` while the document has no such element. */
    var panel: Option<seq<PanelEntry>>

    /** The logger as loaded: level 0, nothing written yet, the document's panel as it is. */
    constructor(panel: Option<seq<PanelEntry>>)
      ensures debugLevel == 0 && console == [] && this.panel == panel
    {
      debugLevel := 0;
      console := [];
      this.panel := panel;
    }

    /** `setLevel(level)`. */
    method SetLevel(level: int)
      modifies this
      ensures debugLevel == level
      ensures console == old(console) && panel == old(panel)
    {
      debugLevel := level;
    }

    /** `getLevel()`: the level last set, 0 before any `setLevel`. */
    method GetLevel() returns (level: int)
      ensures level == debugLevel
    {
      level := debugLevel;
    }

    /** `log(level, category, message, data)`: a console line and a panel entry when the level allows it. */
    method Log(level: int, category: string, message: string, data: JsValue)
      modifies this
      ensures debugLevel == old(debugLevel)
      ensures Emits(debugLevel, level) ==>
        console == old(console) + [LogLine(category, message, data)]
        && panel == UpdatedPanel(old(panel), EntryOf(category, message, data))
      ensures !Emits(debugLevel, level) ==> console == old(console) && panel == old(panel)
    {
      if debugLevel >= level {
        console := console + [LogLine(category, message, data)];
        UpdateDebugUI(category, message, data);
      }
    }

    /** `error(...)`: severity 1, the message after `"ERROR: "`. */
    method Error(category: string, message: string, data: JsValue)
      modifies this
      ensures debugLevel == old(debugLevel)
      ensures Emits(debugLevel, ErrorLevel) ==>
        console == old(console) + [LogLine(category, "ERROR: " + message, data)]
        && panel == UpdatedPanel(old(panel), EntryOf(category, "ERROR: " + message, data))
      ensures !Emits(debugLevel, ErrorLevel) ==> console == old(console) && panel == old(panel)
    {
      Log(ErrorLevel, category, "ERROR: " + message, data);
    }

    /** `warn(...)`: severity 2, the message after `"WARNING: "`. */
    method Warn(category: string, message: string, data: JsValue)
      modifies this
      ensures debugLevel == old(debugLevel)
      ensures Emits(debugLevel, WarnLevel) ==>
        console == old(console) + [LogLine(category, "WARNING: " + message, data)]
        && panel == UpdatedPanel(old(panel), EntryOf(category, "WARNING: " + message, data))
      ensures !Emits(debugLevel, WarnLevel) ==> console == old(console) && panel == old(panel)
    {
      Log(WarnLevel, category, "WARNING: " + message, data);
    }

    /** `info(...)`: severity 3, the message as given. */
    method Info(category: string, message: string, data: JsValue)
      modifies this
      ensures debugLevel == old(debugLevel)
      ensures Emits(debugLevel, InfoLevel) ==>
        console == old(console) + [LogLine(category, message, data)]
        && panel == UpdatedPanel(old(panel), EntryOf(category, message, data))
      ensures !Emits(debugLevel, InfoLevel) ==> console == old(console) && panel == old(panel)
    {
      Log(InfoLevel, category, message, data);
    }

    /** `debug(...)`: severity 4, the message as given. */
    method Debug(category: string, message: string, data: JsValue)
      modifies this
      ensures debugLevel == old(debugLevel)
      ensures Emits(debugLevel, DebugLevel) ==>
        console == old(console) + [LogLine(category, message, data)]
        && panel == UpdatedPanel(old(panel), EntryOf(category, message, data))
      ensures !Emits(debugLevel, DebugLevel) ==> console == old(console) && panel == old(panel)
    {
      Log(DebugLevel, category, message, data);
    }

    /** `initializeDebugUI()`: adds an empty panel when the document has none, so a second call changes nothing. */
    method InitializeDebugUI()
      modifies this
      ensures panel.Some?
      ensures old(panel).Some? ==> panel == old(panel)
      ensures old(panel).None? ==> panel == Some([])
      ensures debugLevel == old(debugLevel) && console == old(console)
    {
      if panel.None? {
        panel := Some([]);
      }
    }

    /**
     * `updateDebugUI(category, message, data)`: with a panel, appends the entry and removes the
     * first child while more than 50 remain; without one, changes nothing.
     */
    method UpdateDebugUI(category: string, message: string, data: JsValue)
      modifies this
      ensures panel == UpdatedPanel(old(panel), EntryOf(category, message, data))
      ensures debugLevel == old(debugLevel) && console == old(console)
    {
      if panel.Some? {
        var all := panel.value + [EntryOf(category, message, data)];
        panel := Some(all);
        while |panel.value| > MaxEntries
          invariant panel.Some?
          invariant debugLevel == old(debugLevel) && console == old(console)
          invariant panel.value == all[|all| - |panel.value|..]
          invariant |all| <= MaxEntries ==> panel.value == all
          invariant |all| > MaxEntries ==> |panel.value| >= MaxEntries
          decreases |panel.value|
        {
          panel := Some(panel.value[1..]);
        }
      }
    }
  }
}
