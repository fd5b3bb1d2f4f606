/**
 * The language configuration editor (src/renderer/src/utils/languageManager.ts):
 * the static `config` object, mutated in place by each operation before the
 * configuration file is written. The outcome of that write is a parameter
 * of each operation; a failed write rejects the call but leaves the change
 * in memory.
 */
module LanguageManager {
  import opened Common

  datatype Language = Language(code: string, name: string, nativeName: string)

  /** A language's table: translation key to text. */
  type Table = map<string, string>

  datatype Config = Config(defaultLanguage: string, supported: seq<Language>, translations: map<string, Table>)

  /** The configuration `resetToDefault` installs (lines 152-162). */
  const DefaultConfig := Config(
    "en",
    [Language("en", "English", "English"), Language("zh", "Chinese", "中文")],
    map["en" := map[], "zh" := map[]])

  /** `supportedLanguages.find(lang => lang.code === code)`, as an index. */
  function FindCode(ls: seq<Language>, code: string): (r: Option<nat>)
    ensures r.Some? ==> r.value < |ls| && ls[r.value].code == code
    ensures r.Some? ==> forall j :: 0 <= j < r.value ==> ls[j].code != code
    ensures r.None? <==> forall j :: 0 <= j < |ls| ==> ls[j].code != code
    decreases |ls|
  {
    if ls == [] then None
    else if ls[0].code == code then Some(0)
    else match FindCode(ls[1..], code)
      case Some(k) => Some(k + 1)
      case None => None
  }

  /** The list after the upsert of lines 101-107. */
  function Upsert(ls: seq<Language>, code: string, name: string, nativeName: string): seq<Language>
  {
    match FindCode(ls, code)
    case Some(k) => ls[k := Language(code, name, nativeName)]
    case None => ls + [Language(code, name, nativeName)]
  }

  predicate DistinctCodes(ls: seq<Language>) {
    forall i, j :: 0 <= i < j < |ls| ==> ls[i].code != ls[j].code
  }

  /** The upsert introduces no second entry for a code. */
  lemma UpsertKeepsDistinct(ls: seq<Language>, code: string, name: string, nativeName: string)
    requires DistinctCodes(ls)
    ensures DistinctCodes(Upsert(ls, code, name, nativeName))
  {
  }

  /** After the upsert the code names exactly the new entry, and no other code changed. */
  lemma UpsertFindsEntry(ls: seq<Language>, code: string, name: string, nativeName: string)
    ensures var r := Upsert(ls, code, name, nativeName);
      && FindCode(r, code).Some? && r[FindCode(r, code).value] == Language(code, name, nativeName)
      && (forall c :: c != code ==> FindCode(r, c) == FindCode(ls, c))
      && |r| == |ls| + (if FindCode(ls, code).None? then 1 else 0)
  {
    var r := Upsert(ls, code, name, nativeName);
    match FindCode(ls, code)
    case Some(k) =>
      FindCodeAt(r, code, k);
      forall c | c != code
        ensures FindCode(r, c) == FindCode(ls, c)
      {
        FindCodeSameCodes(ls, r, c);
      }
    case None =>
      FindCodeAt(r, code, |ls|);
      forall c | c != code
        ensures FindCode(r, c) == FindCode(ls, c)
      {
        FindCodeAppend(ls, Language(code, name, nativeName), c);
      }
  }

  /** The first entry with the code is at k. */
  lemma {:induction false} FindCodeAt(ls: seq<Language>, code: string, k: nat)
    requires k < |ls| && ls[k].code == code && forall j :: 0 <= j < k ==> ls[j].code != code
    ensures FindCode(ls, code) == Some(k)
    decreases k
  {
    if k > 0 {
      FindCodeAt(ls[1..], code, k - 1);
    }
  }

  /** Lists that agree on whether each entry has code c agree on where c is found. */
  lemma {:induction false} FindCodeSameCodes(a: seq<Language>, b: seq<Language>, c: string)
    requires |a| == |b| && forall j :: 0 <= j < |a| ==> (a[j].code == c <==> b[j].code == c)
    ensures FindCode(a, c) == FindCode(b, c)
    decreases |a|
  {
    if a != [] {
      FindCodeSameCodes(a[1..], b[1..], c);
    }
  }

  /** Appending an entry with another code does not change where c is found. */
  lemma {:induction false} FindCodeAppend(ls: seq<Language>, e: Language, c: string)
    requires e.code != c
    ensures FindCode(ls + [e], c) == FindCode(ls, c)
    decreases |ls|
  {
    if ls != [] {
      assert (ls + [e])[1..] == ls[1..] + [e];
      FindCodeAppend(ls[1..], e, c);
    }
  }

  /** A second identical upsert changes nothing. */
  lemma UpsertIdempotent(ls: seq<Language>, code: string, name: string, nativeName: string)
    ensures Upsert(Upsert(ls, code, name, nativeName), code, name, nativeName) == Upsert(ls, code, name, nativeName)
  {
    UpsertFindsEntry(ls, code, name, nativeName);
  }

  /** The table `translations[language]` once a missing one is created empty (lines 69-71, 85-87, 110-112). */
  function TableOrEmpty(ts: map<string, Table>, language: string): Table
  {
    if language in ts then ts[language] else map[]
  }

  /** `getTranslations` (lines 47-49): an existing table, even an empty one, or else the default language's. */
  function GetTranslations(c: Config, language: string): Option<Table>
  {
    if language in c.translations then Some(c.translations[language])
    else if c.defaultLanguage in c.translations then Some(c.translations[c.defaultLanguage])
    else None
  }

  /** A key just added to a language reads back from that language, and every other language reads as before. */
  lemma AddedKeyReadBack(c: Config, language: string, key: string, value: string, other: string)
    requires other != language
    ensures var c2 := c.(translations := c.translations[language := TableOrEmpty(c.translations, language)[key := value]]);
      && GetTranslations(c2, language).Some?
      && key in GetTranslations(c2, language).value && GetTranslations(c2, language).value[key] == value
      && (other in c.translations ==> GetTranslations(c2, other) == GetTranslations(c, other))
  {
  }

  /** A language without a table reads the default language's, and reads nothing only when that is missing too. */
  lemma MissingTableFallsBack(c: Config, language: string)
    requires language !in c.translations
    ensures GetTranslations(c, language) == GetTranslations(c, c.defaultLanguage)
  {
  }

  /** The supplied keys read back after `updateTranslations`; the other keys of the language keep their texts. */
  lemma UpdatedKeysReadBack(c: Config, language: string, updates: Table, k: string)
    ensures var t := GetTranslations(c.(translations := c.translations[language := TableOrEmpty(c.translations, language) + updates]), language);
      && t.Some?
      && (k in updates ==> k in t.value && t.value[k] == updates[k])
      && (k !in updates && language in c.translations && k in c.translations[language] ==> k in t.value && t.value[k] == c.translations[language][k])
  {
  }

  /** After a reset every supported language has an empty table, and lookups fall back to nothing. */
  lemma DefaultConfigShape()
    ensures |DefaultConfig.supported| == 2 && DistinctCodes(DefaultConfig.supported)
    ensures forall i :: 0 <= i < |DefaultConfig.supported| ==> TableOrEmpty(DefaultConfig.translations, DefaultConfig.supported[i].code) == map[]
    ensures forall l :: GetTranslations(DefaultConfig, l) == Some(map[])
  {
  }

  class Manager {
    var config: Config

    constructor (initial: Config)
      ensures config == initial
    {
      config := initial;
    }

    /** `updateDefaultLanguage` (lines 54-62). */
    method UpdateDefaultLanguage(language: string, saveOk: bool) returns (ok: bool)
      modifies this
      ensures config == old(config).(defaultLanguage := language)
      ensures ok == saveOk
    {
      config := config.(defaultLanguage := language);
      ok := saveOk;
    }

    /** `addTranslation` (lines 67-78): one key of one language set. */
    method AddTranslation(language: string, key: string, value: string, saveOk: bool) returns (ok: bool)
      modifies this
      ensures config.defaultLanguage == old(config).defaultLanguage && config.supported == old(config).supported
      ensures config.translations == old(config).translations[language := TableOrEmpty(old(config).translations, language)[key := value]]
      ensures ok == saveOk
    {
      var ts := config.translations;
      if language !in ts {
        ts := ts[language := map[]];
      }
      ts := ts[language := ts[language][key := value]];
      config := config.(translations := ts);
      ok := saveOk;
    }

    /** `updateTranslations` (lines 83-94): `Object.assign`, the supplied keys win. */
    method UpdateTranslations(language: string, updates: Table, saveOk: bool) returns (ok: bool)
      modifies this
      ensures config.defaultLanguage == old(config).defaultLanguage && config.supported == old(config).supported
      ensures config.translations == old(config).translations[language := TableOrEmpty(old(config).translations, language) + updates]
      ensures ok == saveOk
    {
      var ts := config.translations;
      if language !in ts {
        ts := ts[language := map[]];
      }
      ts := ts[language := ts[language] + updates];
      config := config.(translations := ts);
      ok := saveOk;
    }

    /** `addSupportedLanguage` (lines 99-119): upsert the entry, give the code a table if it has none. */
    method AddSupportedLanguage(code: string, name: string, nativeName: string, saveOk: bool) returns (ok: bool)
      modifies this
      ensures config.defaultLanguage == old(config).defaultLanguage
      ensures config.supported == Upsert(old(config).supported, code, name, nativeName)
      ensures config.translations == old(config).translations[code := TableOrEmpty(old(config).translations, code)]
      ensures ok == saveOk
    {
      var ls := config.supported;
      var i := 0;
      while i < |ls| && ls[i].code != code
        invariant 0 <= i <= |ls|
        invariant forall j :: 0 <= j < i ==> ls[j].code != code
      {
        i := i + 1;
      }
      if i < |ls| {
        FindCodeAt(ls, code, i);
        ls := ls[i := ls[i].(name := name, nativeName := nativeName)];
      } else {
        ls := ls + [Language(code, name, nativeName)];
      }
      var ts := config.translations;
      if code !in ts {
        ts := ts[code := map[]];
      }
      config := Config(config.defaultLanguage, ls, ts);
      ok := saveOk;
    }

    /** `resetToDefault` (lines 150-168). */
    method ResetToDefault(saveOk: bool) returns (ok: bool)
      modifies this
      ensures config == DefaultConfig && ok == saveOk
    {
      config := DefaultConfig;
      ok := saveOk;
    }
  }

  /** Adding one key leaves every other key and every other language as it was. */
  lemma AddTranslationLocal(ts: map<string, Table>, language: string, key: string, value: string, l: string, k: string)
    requires l != language || k != key
    requires l in ts && k in ts[l]
    ensures var after := ts[language := TableOrEmpty(ts, language)[key := value]];
      l in after && k in after[l] && after[l][k] == ts[l][k]
  {
  }

  /** The merge overrides exactly the supplied keys. */
  lemma UpdateTranslationsExact(ts: map<string, Table>, language: string, updates: Table, k: string)
    ensures var t := (ts[language := TableOrEmpty(ts, language) + updates])[language];
      && (k in updates ==> k in t && t[k] == updates[k])
      && (k !in updates ==> (k in t <==> k in TableOrEmpty(ts, language)))
      && (k !in updates && k in t ==> t[k] == TableOrEmpty(ts, language)[k])
  {
  }
}
