/**
 * The persisted application data (src/renderer/src/utils/dataManager.ts):
 * one record under the main storage key, the previous record under the
 * backup key, a shallow merge on save, defaults under a missing load, and the
 * repair of templates stored without `updatedAt`.
 *
 * Stored strings are modelled by what parsing them gives: an empty string,
 * text that does not parse to an object, or a parsed document.
 */
module DataManager {
  import opened Common
  import ShortcutTable

  const DataVersion := "1.0.0"
  const StorageKey := "akel-app-data"
  const BackupKey := "akel-app-data-backup"

  datatype Theme = Light | Dark | System

  datatype Settings = Settings(
    theme: Theme, pinTemplates: bool, autoSave: bool, autoPaste: bool, language: string,
    showTemplateContent: Option<bool>, emojiFolder: Option<string>, lastBackup: Option<string>)

  /**
   * An `AppData` object as the code handles it: every top-level field may be
   * missing in a parsed document or in a `Partial<AppData>` argument.
   */
  datatype Data = Data(templates: Option<seq<Template>>, settings: Option<Settings>, version: Option<string>)

  /** A template as parsed from storage: `updatedAt` may be missing. */
  datatype RawTemplate = RawTemplate(t: Template, updatedAt: Option<int>)

  datatype Json = Json(templates: Option<seq<RawTemplate>>, settings: Option<Settings>, version: Option<string>)

  /** What a stored string parses to. */
  datatype Text = Blank | Garbage | Doc(json: Json)

  predicate Complete(d: Data) {
    d.templates.Some? && d.settings.Some? && d.version.Some?
  }

  const WelcomeContent := "Hello! Welcome to our service. We're excited to have you on board!"
  const FollowUpContent := "Thank you for the meeting today. Here are the key points we discussed:\n\n1. \n2. \n3. \n\nNext steps:\n- \n- \n\nBest regards"
  const QuickContent := "Thanks for reaching out! I'll get back to you shortly."

  /** The three templates of the defaults, created at `now`. */
  function DefaultTemplates(now: int): (ts: seq<Template>)
    ensures |ts| == 3
  {
    [Template("default-1", "Welcome Email", WelcomeContent, Some("👋"), Some("Ctrl+Shift+1"), true, now, now),
     Template("default-2", "Meeting Follow-up", FollowUpContent, Some("📝"), Some("Ctrl+Shift+2"), false, now, now),
     Template("default-3", "Quick Response", QuickContent, Some("⚡"), Some("Ctrl+Shift+3"), true, now, now)]
  }

  const DefaultSettings := Settings(System, false, true, false, "en", None, Some("./src/assets/emoji"), None)

  /** `getDefaultData` (lines 151-193), with every `new Date()` read as `now`. */
  function DefaultData(now: int): (d: Data)
    ensures Complete(d) && d.version == Some(DataVersion)
  {
    Data(Some(DefaultTemplates(now)), Some(DefaultSettings), Some(DataVersion))
  }

  /** The defaults: three templates, two pinned, with distinct shortcuts the main process will try; pinning off. */
  lemma DefaultDataShape(now: int)
    ensures var ts := DefaultData(now).templates.value;
      && |ts| == 3 && |Pinned(ts)| == 2
      && (forall i :: 0 <= i < 3 ==> ShortcutTable.Eligible(ts[i]))
      && (forall i, j :: 0 <= i < j < 3 ==> ShortcutOf(ts[i]) != ShortcutOf(ts[j]))
      && !DefaultData(now).settings.value.pinTemplates
  {
    var ts := DefaultTemplates(now);
    assert ts[..2][..1][..0] == [];
    assert '+' in ShortcutOf(ts[0]) by { assert ShortcutOf(ts[0])[4] == '+'; }
    assert '+' in ShortcutOf(ts[1]) by { assert ShortcutOf(ts[1])[4] == '+'; }
    assert '+' in ShortcutOf(ts[2]) by { assert ShortcutOf(ts[2])[4] == '+'; }
    assert ShortcutOf(ts[0])[11] != ShortcutOf(ts[1])[11];
    assert ShortcutOf(ts[0])[11] != ShortcutOf(ts[2])[11];
    assert ShortcutOf(ts[1])[11] != ShortcutOf(ts[2])[11];
  }

  /** The date repair of lines 70-74 and 94-99: a missing `updatedAt` becomes `createdAt`. */
  function Revive(r: RawTemplate): Template
  {
    r.t.(updatedAt := match r.updatedAt case Some(u) => u case None => r.t.createdAt)
  }

  function ReviveAll(rs: seq<RawTemplate>): seq<Template>
  {
    seq(|rs|, i requires 0 <= i < |rs| => Revive(rs[i]))
  }

  /** The repair touches dates only: each record keeps its place and fields, and a stored `updatedAt` is kept. */
  lemma RepairOnlyDates(rs: seq<RawTemplate>, i: nat)
    requires i < |rs|
    ensures |ReviveAll(rs)| == |rs|
    ensures ReviveAll(rs)[i].(updatedAt := rs[i].t.updatedAt) == rs[i].t
    ensures rs[i].updatedAt.Some? ==> ReviveAll(rs)[i].updatedAt == rs[i].updatedAt.value
  {
  }

  /** The parsed document with its dates repaired. */
  function Parsed(j: Json): Data
  {
    Data(match j.templates case Some(rs) => Some(ReviveAll(rs)) case None => None, j.settings, j.version)
  }

  /**
   * `{...base, ...top}`: each field present in top wins. Layering over a
   * complete object gives a complete one, and a complete top hides the base.
   */
  function Over(base: Data, top: Data): (d: Data)
    ensures Complete(base) ==> Complete(d)
    ensures Complete(top) ==> d == top
  {
    Data(
      if top.templates.Some? then top.templates else base.templates,
      if top.settings.Some? then top.settings else base.settings,
      if top.version.Some? then top.version else base.version)
  }

  /** `JSON.stringify` of a data object: dates are written, so each template keeps its `updatedAt`. */
  function Encode(d: Data): (j: Json)
    ensures Parsed(j) == d
  {
    var j := Json(
      match d.templates case Some(ts) => Some(seq(|ts|, i requires 0 <= i < |ts| => RawTemplate(ts[i], Some(ts[i].updatedAt)))) case None => None,
      d.settings, d.version);
    assert d.templates.Some? ==> ReviveAll(j.templates.value) == d.templates.value;
    j
  }

  /** The string stored under a key, as a parse result; a missing key reads as Blank, both being falsy. */
  function Read(store: map<string, Text>, key: string): Text
  {
    if key in store then store[key] else Blank
  }

  /** `loadBackup` (lines 88-107): the raw backup document, not layered over the defaults. */
  function LoadBackup(store: map<string, Text>): Option<Data>
  {
    match Read(store, BackupKey)
    case Doc(j) => Some(Parsed(j))
    case _ => None
  }

  /**
   * `loadData` (lines 59-85): defaults when nothing is stored, the stored
   * document over the defaults, and the backup or the defaults when the
   * stored text does not parse.
   */
  function LoadData(store: map<string, Text>, now: int): (d: Data)
    ensures Read(store, StorageKey) == Blank ==> d == DefaultData(now)
    ensures Read(store, StorageKey).Doc? ==> d == Over(DefaultData(now), Parsed(Read(store, StorageKey).json)) && Complete(d)
    ensures Read(store, StorageKey) == Garbage ==> d == (if LoadBackup(store).Some? then LoadBackup(store).value else DefaultData(now))
  {
    match Read(store, StorageKey)
    case Blank => DefaultData(now)
    case Doc(j) => Over(DefaultData(now), Parsed(j))
    case Garbage =>
      match LoadBackup(store)
      case Some(b) => b
      case None => DefaultData(now)
  }

  /** A stored record without `updatedAt` loads with its creation date there. */
  lemma MissingUpdatedAtRepaired(store: map<string, Text>, now: int, i: nat)
    requires Read(store, StorageKey).Doc? && Read(store, StorageKey).json.templates.Some?
    requires i < |Read(store, StorageKey).json.templates.value|
    requires Read(store, StorageKey).json.templates.value[i].updatedAt.None?
    ensures LoadData(store, now).templates.value[i].updatedAt == LoadData(store, now).templates.value[i].createdAt
  {
  }

  /** What `saveData` writes (lines 37-42): the merge over the current data, stamped with the current version. */
  function Merged(current: Data, patch: Data): (d: Data)
    ensures d.version == Some(DataVersion)
    ensures Complete(current) ==> Complete(d)
  {
    Over(current, patch).(version := Some(DataVersion))
  }

  class Storage {
    /** `localStorage`, which may hold keys of other code too. */
    var store: map<string, Text>

    constructor (initial: map<string, Text>)
      ensures store == initial
    {
      store := initial;
    }

    /**
     * `saveData` (lines 35-56) at time `now`. `backupOk` and `mainOk` are
     * whether the two `setItem` calls succeed; the first failure ends the
     * call with false.
     */
    method SaveData(patch: Data, now: int, backupOk: bool, mainOk: bool) returns (ok: bool)
      modifies this
      ensures var rotate := Read(old(store), StorageKey) != Blank;
        var afterBackup := if rotate && backupOk then old(store)[BackupKey := old(store)[StorageKey]] else old(store);
        && ok == ((!rotate || backupOk) && mainOk)
        && store == (if ok then afterBackup[StorageKey := Doc(Encode(Merged(LoadData(old(store), now), patch)))]
                     else afterBackup)
    {
      var current := LoadData(store, now);
      var updated := Merged(current, patch);
      if Read(store, StorageKey) != Blank {
        if !backupOk {
          return false;
        }
        store := store[BackupKey := store[StorageKey]];
      }
      if !mainOk {
        return false;
      }
      store := store[StorageKey := Doc(Encode(updated))];
      ok := true;
    }

    /** `clearData` (lines 196-199). */
    method ClearData()
      modifies this
      ensures store == old(store) - {StorageKey, BackupKey}
    {
      store := store - {StorageKey};
      store := store - {BackupKey};
    }
  }

  /** Layering is associative, and spreading the same top again changes nothing. */
  lemma OverAssociative(a: Data, b: Data, c: Data)
    ensures Over(Over(a, b), c) == Over(a, Over(b, c))
    ensures Over(Over(a, b), b) == Over(a, b)
  {
  }

  /** Saving the same patch twice writes what saving it once wrote; two patches in turn save as their layering. */
  lemma MergedTwice(current: Data, p: Data, q: Data)
    ensures Merged(Merged(current, p), p) == Merged(current, p)
    ensures Merged(Merged(current, p), q) == Merged(current, Over(p, q))
  {
  }

  /** `loadBackup` gives back the record a save rotated there, and nothing when the backup does not parse. */
  lemma LoadBackupReadsBackup(store: map<string, Text>, d: Data)
    ensures Read(store, BackupKey) == Doc(Encode(d)) ==> LoadBackup(store) == Some(d)
    ensures !Read(store, BackupKey).Doc? ==> LoadBackup(store).None?
  {
  }

  /** After a save, loading gives back what was written, with defaults in any field the merge lacked. */
  lemma SaveThenLoad(store: map<string, Text>, d: Data, later: int)
    requires Read(store, StorageKey) == Doc(Encode(d))
    ensures LoadData(store, later) == Over(DefaultData(later), d)
    ensures Complete(d) ==> LoadData(store, later) == d
  {
  }

  /** After a successful save over an earlier record, the backup holds that record; with none, the backup is untouched. */
  lemma BackupRotation(before: map<string, Text>, after: map<string, Text>, written: Text, backupOk: bool)
    requires var rotate := Read(before, StorageKey) != Blank;
      var afterBackup := if rotate && backupOk then before[BackupKey := before[StorageKey]] else before;
      (!rotate || backupOk) && after == afterBackup[StorageKey := written]
    ensures Read(before, StorageKey) != Blank ==> Read(after, BackupKey) == Read(before, StorageKey)
    ensures Read(before, StorageKey) == Blank ==> Read(after, BackupKey) == Read(before, BackupKey)
    ensures Read(after, StorageKey) == written
  {
  }

  /** A record whose text was lost falls back to the previous record, itself left as stored. */
  lemma GarbageFallsBackToBackup(store: map<string, Text>, now: int, d: Data)
    requires Read(store, StorageKey) == Garbage && Read(store, BackupKey) == Doc(Encode(d))
    ensures LoadData(store, now) == d
  {
  }

  /** Settings given to a save replace the stored settings as a whole. */
  lemma SettingsReplacedWhole(current: Data, s: Settings, ts: Option<seq<Template>>)
    ensures Merged(current, Data(ts, Some(s), None)).settings == Some(s)
    ensures ts.None? ==> Merged(current, Data(ts, Some(s), None)).templates == current.templates
  {
  }
}
