/** The options page: seven on/off options, loaded from storage, toggled one
    at a time, reset together, exported and imported, with the rule that the
    attempt counts are off while standings colouring is off. */
module OptionsPage {
  import opened Wrappers

  const OptionKeys: seq<string> := ["multiGraph", "colorizeStandings", "showAttempts", "hideSolved",
                                    "darkMode", "ratingPredictor", "recommendedQuestions"]

  const KeySet: set<string> := set k | k in OptionKeys

  /** The values the page starts from: everything on except dark mode. */
  const InitialOptions: map<string, bool> := map k | k in KeySet :: k != "darkMode"

  /** Every option on, the value a reset gives. */
  const AllOn: map<string, bool> := map k | k in KeySet :: true

  /** A JSON value of an imported file: a boolean or anything else. */
  datatype JsonValue = JBool(b: bool) | JOther

  /** `toggleOption`'s change of the value: a known option flips, an unknown
      key changes nothing. */
  function Toggled(options: map<string, bool>, key: string): (r: map<string, bool>)
    ensures r.Keys == options.Keys
    ensures key in options ==> r[key] == !options[key]
    ensures forall k :: k in options && k != key ==> r[k] == options[k]
  {
    if key in options then options[key := !options[key]] else options
  }

  /** `updateDependentOptions`'s change of the values: with standings
      colouring off, the attempt counts are switched off too. */
  function Dependent(options: map<string, bool>): (r: map<string, bool>)
    ensures Consistent(r)
    ensures r.Keys == options.Keys
    ensures forall k :: k in options && k != "showAttempts" ==> r[k] == options[k]
  {
    if "colorizeStandings" in options && !options["colorizeStandings"]
       && "showAttempts" in options && options["showAttempts"]
    then options["showAttempts" := false]
    else options
  }

  /** The dependent-option rule holds. */
  predicate Consistent(options: map<string, bool>) {
    "colorizeStandings" in options && !options["colorizeStandings"] && "showAttempts" in options ==> !options["showAttempts"]
  }

  /** The entries of an imported settings object applied in order: only known
      options with boolean values are taken. */
  function Imported(options: map<string, bool>, entries: seq<(string, JsonValue)>): (r: map<string, bool>)
    ensures r.Keys == options.Keys
  {
    if entries == [] then options
    else
      var before := Imported(options, entries[..|entries| - 1]);
      var (key, value) := entries[|entries| - 1];
      if key in before && value.JBool? then before[key := value.b] else before
  }

  /** The entries `exportSettings` writes, one per option in page order. */
  function Exported(options: map<string, bool>): (entries: seq<(string, JsonValue)>)
    requires KeySet <= options.Keys
    ensures |entries| == |OptionKeys|
  {
    seq(|OptionKeys|, i requires 0 <= i < |OptionKeys| => (OptionKeys[i], JBool(options[OptionKeys[i]])))
  }

  // ------------------------------------------------------------------ lemmas

  /** Toggling twice restores the values. */
  lemma ToggleFacts(options: map<string, bool>, key: string)
    ensures Toggled(Toggled(options, key), key) == options
  {
  }

  /** Once the rule holds, the dependent-option update changes nothing. */
  lemma DependentFacts(options: map<string, bool>)
    ensures Consistent(options) ==> Dependent(options) == options
  {
  }

  /** Importing keeps the set of options; an option no boolean entry names
      keeps its value, and a known option takes the value of the last boolean
      entry that names it. */
  lemma {:induction false} ImportedFacts(options: map<string, bool>, entries: seq<(string, JsonValue)>)
    ensures forall k :: k in options && (forall i :: 0 <= i < |entries| ==> !(entries[i].0 == k && entries[i].1.JBool?)) ==>
      Imported(options, entries)[k] == options[k]
    ensures forall i :: (&& 0 <= i < |entries| && entries[i].0 in options && entries[i].1.JBool?
                         && forall j :: i < j < |entries| ==> entries[j].0 != entries[i].0) ==>
      Imported(options, entries)[entries[i].0] == entries[i].1.b
  {
    if entries != [] {
      var init := entries[..|entries| - 1];
      ImportedFacts(options, init);
      assert forall i :: 0 <= i < |init| ==> init[i] == entries[i];
    }
  }

  /** Importing what was exported gives the same values back. */
  lemma ExportImport(options: map<string, bool>)
    requires options.Keys == KeySet
    ensures Imported(options, Exported(options)) == options
  {
    var entries := Exported(options);
    ImportedFacts(options, entries);
    forall k | k in options ensures Imported(options, entries)[k] == options[k] {
      var i :| 0 <= i < |OptionKeys| && OptionKeys[i] == k;
      assert entries[i].0 == k;
      forall j | i < j < |entries| ensures entries[j].0 != k {
        assert OptionKeys[j] != OptionKeys[i];
      }
    }
    assert Imported(options, entries).Keys == options.Keys;
  }

  /** `updateDependentOptions`'s change of storage: when the rule switches
      the attempt counts off, the nested toggle saves them as off, unless that
      save fails (`nestedSaved` false), whose error the toggle swallows. */
  function DependentSaved(storage: map<string, bool>, options: map<string, bool>, nestedSaved: bool): map<string, bool> {
    if "colorizeStandings" in options && !options["colorizeStandings"]
       && "showAttempts" in options && options["showAttempts"] && nestedSaved
    then storage["showAttempts" := false]
    else storage
  }

  /** The dependent update saves exactly the value it gives the attempt
      counts, when the nested save succeeds: an option saved with its value
      before stays saved with its value after, and nothing else in storage
      changes.  A failed nested save leaves storage as it was, so the stored
      attempt counts can stay on while the page shows them off. */
  lemma DependentKeepsSaved(options: map<string, bool>, saved: map<string, bool>, key: string, nestedSaved: bool)
    requires options.Keys == KeySet && key in KeySet && key in saved && saved[key] == options[key]
    ensures nestedSaved || key != "showAttempts" ==>
      key in DependentSaved(saved, options, nestedSaved) && DependentSaved(saved, options, nestedSaved)[key] == Dependent(options)[key]
    ensures !nestedSaved ==> DependentSaved(saved, options, nestedSaved) == saved
    ensures forall k :: k != "showAttempts" ==>
      (k in DependentSaved(saved, options, nestedSaved) <==> k in saved) &&
      (k in saved ==> DependentSaved(saved, options, nestedSaved)[k] == saved[k])
  {
  }

  // ------------------------------------------------------------------ import

  /** Names every object inherits from `Object.prototype`.  `this.options[key]`
      is truthy for them although they are not options. */
  const InheritedNames: set<string> := {
    "constructor", "toString", "toLocaleString", "valueOf", "hasOwnProperty", "isPrototypeOf",
    "propertyIsEnumerable", "__proto__", "__defineGetter__", "__defineSetter__",
    "__lookupGetter__", "__lookupSetter__"}

  /** An entry `importSettings` cannot apply: an inherited name passes the
      option test, and updating its (missing) toggle element throws, which
      ends the import. */
  predicate Throws(entry: (string, JsonValue)) {
    entry.0 in InheritedNames && entry.1.JBool?
  }

  /** How many entries the import applies before one throws: the position of
      the first throwing entry, or all of them. */
  function FirstThrowing(entries: seq<(string, JsonValue)>): (n: nat)
    ensures n <= |entries|
    ensures forall j :: 0 <= j < n ==> !Throws(entries[j])
    ensures n < |entries| ==> Throws(entries[n])
    decreases |entries|
  {
    if entries == [] then 0
    else if Throws(entries[0]) then 0
    else
      var n := FirstThrowing(entries[1..]);
      assert forall j :: 1 <= j < 1 + n ==> entries[j] == entries[1..][j - 1];
      1 + n
  }

  /** Storage after the import loop: each known option named with a boolean is
      saved with that value. */
  function SavedByImport(options: map<string, bool>, storage: map<string, bool>,
                         entries: seq<(string, JsonValue)>): map<string, bool>
    decreases |entries|
  {
    if entries == [] then storage
    else
      var before := SavedByImport(options, storage, entries[..|entries| - 1]);
      var (key, value) := entries[|entries| - 1];
      if key in options && value.JBool? then before[key := value.b] else before
  }

  /** Some entry names `k` with a boolean. */
  predicate NamedWithBool(entries: seq<(string, JsonValue)>, k: string) {
    exists i :: 0 <= i < |entries| && entries[i].0 == k && entries[i].1.JBool?
  }

  /** The import saves every option an entry sets, with the value it ends up
      with, and leaves every other stored key as it was. */
  lemma SavedByImportFacts(options: map<string, bool>, storage: map<string, bool>,
                           entries: seq<(string, JsonValue)>)
    ensures forall k :: k in options && NamedWithBool(entries, k) ==>
      k in SavedByImport(options, storage, entries) && k in Imported(options, entries) &&
      SavedByImport(options, storage, entries)[k] == Imported(options, entries)[k]
    ensures forall k :: !(k in options && NamedWithBool(entries, k)) ==>
      (k in SavedByImport(options, storage, entries) <==> k in storage) &&
      (k in storage ==> SavedByImport(options, storage, entries)[k] == storage[k])
  {
    SavedByImportSets(options, storage, entries);
    SavedByImportKeeps(options, storage, entries);
  }

  lemma {:induction false} SavedByImportSets(options: map<string, bool>, storage: map<string, bool>,
                                             entries: seq<(string, JsonValue)>)
    ensures forall k :: k in options && NamedWithBool(entries, k) ==>
      k in SavedByImport(options, storage, entries) && k in Imported(options, entries) &&
      SavedByImport(options, storage, entries)[k] == Imported(options, entries)[k]
    decreases |entries|
  {
    if entries != [] {
      var init := entries[..|entries| - 1];
      var (key, value) := entries[|entries| - 1];
      SavedByImportSets(options, storage, init);
      ImportedFacts(options, init);
      forall k | k in options && NamedWithBool(entries, k)
        ensures k in SavedByImport(options, storage, entries) && k in Imported(options, entries) &&
                SavedByImport(options, storage, entries)[k] == Imported(options, entries)[k]
      {
        if key != k || !value.JBool? {
          var i :| 0 <= i < |entries| && entries[i].0 == k && entries[i].1.JBool?;
          assert init[i] == entries[i];
        }
      }
    }
  }

  lemma {:induction false} SavedByImportKeeps(options: map<string, bool>, storage: map<string, bool>,
                                              entries: seq<(string, JsonValue)>)
    ensures forall k :: !(k in options && NamedWithBool(entries, k)) ==>
      (k in SavedByImport(options, storage, entries) <==> k in storage) &&
      (k in storage ==> SavedByImport(options, storage, entries)[k] == storage[k])
    decreases |entries|
  {
    if entries != [] {
      var init := entries[..|entries| - 1];
      SavedByImportKeeps(options, storage, init);
      assert forall i :: 0 <= i < |init| ==> init[i] == entries[i];
    }
  }

  /** No option key is an inherited name, so an exported file imports whole. */
  lemma ExportedImportsWhole(options: map<string, bool>)
    requires KeySet <= options.Keys
    ensures FirstThrowing(Exported(options)) == |Exported(options)|
  {
    var entries := Exported(options);
    forall i | 0 <= i < |entries| ensures !Throws(entries[i]) {
      assert entries[i].0 == OptionKeys[i];
    }
  }

  // ----------------------------------------------------------------- storage

  /** `getStorageOptions`: every requested key, with its stored value or, when
      nothing is stored for it, `true`; `None` when the read fails. */
  method GetStorageOptions(stored: Option<map<string, bool>>, keys: seq<string>) returns (result: Option<map<string, bool>>)
    ensures stored.None? ==> result.None?
    ensures stored.Some? ==> result.Some? && result.value.Keys == (set k | k in keys)
    ensures stored.Some? ==> forall k :: k in keys ==>
      result.value[k] == (if k in stored.value then stored.value[k] else true)
  {
    if stored.None? {
      return None;
    }
    var finalResult: map<string, bool> := map[];
    for i := 0 to |keys|
      invariant finalResult.Keys == set k | k in keys[..i]
      invariant forall k :: k in keys[..i] ==> finalResult[k] == (if k in stored.value then stored.value[k] else true)
    {
      var key := keys[i];
      finalResult := finalResult[key := if key in stored.value then stored.value[key] else true];
    }
    assert keys[..|keys|] == keys;
    return Some(finalResult);
  }

  /** The loop of `loadStoredValues`: each known option takes the value read
      for it. */
  method ApplyStored(options: map<string, bool>, values: map<string, bool>) returns (r: map<string, bool>)
    requires options.Keys == KeySet && KeySet <= values.Keys
    ensures r.Keys == KeySet && forall k :: k in KeySet ==> r[k] == values[k]
  {
    r := options;
    for i := 0 to |OptionKeys|
      invariant r.Keys == KeySet
      invariant forall k :: k in OptionKeys[..i] ==> r[k] == values[k]
    {
      var key := OptionKeys[i];
      if key in r {
        r := r[key := values[key]];
      }
    }
    assert OptionKeys[..|OptionKeys|] == OptionKeys;
  }

  /** The loop of `importSettings`: each known option named with a boolean
      takes that value, which is also saved, until an entry throws; `completed`
      says whether every entry was handled. */
  method ImportEntries(options: map<string, bool>, storage: map<string, bool>, entries: seq<(string, JsonValue)>)
    returns (imported: map<string, bool>, saved: map<string, bool>, completed: bool)
    ensures var n := FirstThrowing(entries);
      && completed == (n == |entries|)
      && imported == Imported(options, entries[..n])
      && saved == SavedByImport(options, storage, entries[..n])
  {
    imported, saved := options, storage;
    for i := 0 to |entries|
      invariant forall j :: 0 <= j < i ==> !Throws(entries[j])
      invariant imported == Imported(options, entries[..i])
      invariant saved == SavedByImport(options, storage, entries[..i])
    {
      ImportedFacts(options, entries[..i]);
      var (key, value) := entries[i];
      assert entries[..i + 1][..i] == entries[..i];
      if key in InheritedNames && value.JBool? {
        assert Throws(entries[i]);
        return imported, saved, false;
      }
      if key in imported && value.JBool? {
        imported := imported[key := value.b];
        saved := saved[key := value.b];
      }
    }
    assert entries[..|entries|] == entries;
    completed := true;
  }

  // -------------------------------------------------------------------- page

  /** The loop of `resetAllOptions` over a cleared storage: each option is
      switched on and saved in turn. */
  method SwitchAllOn(options: map<string, bool>) returns (on: map<string, bool>, saved: map<string, bool>)
    requires options.Keys == KeySet
    ensures on == AllOn && saved == AllOn
  {
    on, saved := options, map[];
    for i := 0 to |OptionKeys|
      invariant on.Keys == KeySet
      invariant forall k :: k in saved <==> k in OptionKeys[..i]
      invariant forall k :: k in saved ==> saved[k]
      invariant forall k :: k in OptionKeys[..i] ==> on[k]
    {
      var key := OptionKeys[i];
      on := on[key := true];
      saved := saved[key := true];
    }
    assert OptionKeys[..|OptionKeys|] == OptionKeys;
  }

  class OptionsPageManager {
    /** The option values (`this.options[key].value`). */
    var options: map<string, bool>
    /** The extension's storage. */
    var storage: map<string, bool>
    /** Whether the attempt-count option is shown greyed out. */
    var showAttemptsGreyed: bool

    predicate Valid()
      reads this
    {
      options.Keys == KeySet
    }

    constructor (storage0: map<string, bool>)
      ensures Valid() && options == InitialOptions && storage == storage0 && !showAttemptsGreyed
    {
      options := InitialOptions;
      storage := storage0;
      showAttemptsGreyed := false;
    }

    /** `loadStoredValues`: every option takes its stored value, or `true`
      when none is stored, so with nothing stored every option is on, dark
      mode included although the page starts with it off; a failed read
      (`readOk` false) changes nothing and reports the failure. */
    method LoadStoredValues(readOk: bool) returns (ok: bool)
      requires Valid()
      modifies this
      ensures Valid() && ok == readOk
      ensures storage == old(storage) && showAttemptsGreyed == old(showAttemptsGreyed)
      ensures !readOk ==> options == old(options)
      ensures readOk ==> forall k :: k in KeySet ==> options[k] == (if k in storage then storage[k] else true)
      ensures readOk && storage.Keys !! KeySet ==> options == AllOn
    {
      var storedOptions := GetStorageOptions(if readOk then Some(storage) else None, OptionKeys);
      if storedOptions.None? {
        return false;
      }
      options := ApplyStored(options, storedOptions.value);
      return true;
    }

    /** `updateDependentOptions`: greys the attempt-count option out while
      standings colouring is off and then switches it off if it is on.  The
      switch-off is a nested toggle, which sets the value before its save; a
      failed save (`nestedSaved` false) is swallowed and leaves storage alone;
      after a successful one the toggle's own update finds the rule holding
      and only greys. */
    method UpdateDependentOptions(nestedSaved: bool)
      requires Valid()
      modifies this
      ensures Valid()
      ensures options == Dependent(old(options))
      ensures showAttemptsGreyed == !options["colorizeStandings"]
      ensures storage == DependentSaved(old(storage), old(options), nestedSaved)
    {
      var colorizeEnabled := options["colorizeStandings"];
      if colorizeEnabled {
        showAttemptsGreyed := false;
      } else {
        showAttemptsGreyed := true;
        if options["showAttempts"] {
          options := options["showAttempts" := false];
          if nestedSaved {
            storage := storage["showAttempts" := false];
            showAttemptsGreyed := true;
          }
        }
      }
    }

    /** `toggleOption`: an unknown key changes nothing; a known option flips
      and is saved, and the dependent rule is applied after a successful save
      (`saved` is the save's outcome; a failed save skips both;
      `nestedSaved` is the outcome of the rule's own nested save). */
    method ToggleOption(key: string, saved: bool, nestedSaved: bool)
      requires Valid()
      modifies this
      ensures Valid()
      ensures key !in KeySet || !saved ==> showAttemptsGreyed == old(showAttemptsGreyed)
      ensures key !in KeySet ==> options == old(options) && storage == old(storage)
      ensures key in KeySet && !saved ==> options == Toggled(old(options), key) && storage == old(storage)
      ensures key in KeySet && saved ==>
        && options == Dependent(Toggled(old(options), key))
        && storage == DependentSaved(old(storage)[key := !old(options)[key]], Toggled(old(options), key), nestedSaved)
        && showAttemptsGreyed == !options["colorizeStandings"]
      ensures key in KeySet && saved ==> Consistent(options) && key in storage
      ensures key in KeySet && saved && (nestedSaved || key != "showAttempts") ==> storage[key] == options[key]
    {
      if key !in options {
        return;
      }
      var newValue := !options[key];
      options := options[key := newValue];
      assert options == Toggled(old(options), key);
      if !saved {
        return;
      }
      storage := storage[key := newValue];
      ghost var toggled, savedBefore := options, storage;
      UpdateDependentOptions(nestedSaved);
      DependentFacts(toggled);
      DependentKeepsSaved(toggled, savedBefore, key, nestedSaved);
    }

    /** `resetAllOptions`: nothing happens unless the user confirms; then
      storage is cleared and every option is switched on and saved. */
    method ResetAllOptions(confirmed: bool)
      requires Valid()
      modifies this
      ensures Valid()
      ensures !confirmed ==> options == old(options) && storage == old(storage) && showAttemptsGreyed == old(showAttemptsGreyed)
      ensures confirmed ==> options == AllOn && storage == AllOn && !showAttemptsGreyed
    {
      if !confirmed {
        return;
      }
      // the storage is cleared, then every option is switched on and saved
      options, storage := SwitchAllOn(options);
      // with colouring on, the rule makes no nested save
      UpdateDependentOptions(true);
    }

    /** `exportSettings`: the settings object, one entry per option with its
      current value. */
    method ExportSettings() returns (settings: seq<(string, JsonValue)>)
      requires Valid()
      ensures settings == Exported(options)
    {
      settings := [];
      for i := 0 to |OptionKeys|
        invariant |settings| == i
        invariant forall j :: 0 <= j < i ==> settings[j] == (OptionKeys[j], JBool(options[OptionKeys[j]]))
      {
        var key := OptionKeys[i];
        settings := settings + [(key, JBool(options[key]))];
      }
    }

    /** `importSettings`: entries of a parsed file (`None` when reading or
      parsing fails, which changes nothing) are applied in order, known
      options with boolean values only, each saved; then the dependent rule
      is applied.  An entry naming an inherited property with a boolean value
      throws: the entries before it stay applied and saved, and the rule is
      not applied.  `nestedSaved` is the outcome of the rule's nested save. */
    method ImportSettings(file: Option<seq<(string, JsonValue)>>, nestedSaved: bool)
      requires Valid()
      modifies this
      ensures Valid()
      ensures file.None? ==> options == old(options) && storage == old(storage) && showAttemptsGreyed == old(showAttemptsGreyed)
      ensures file.Some? && FirstThrowing(file.value) == |file.value| ==>
        var imported := Imported(old(options), file.value);
        && options == Dependent(imported) && Consistent(options)
        && storage == DependentSaved(SavedByImport(old(options), old(storage), file.value), imported, nestedSaved)
        && showAttemptsGreyed == !options["colorizeStandings"]
      ensures file.Some? && FirstThrowing(file.value) < |file.value| ==>
        var applied := file.value[..FirstThrowing(file.value)];
        && options == Imported(old(options), applied)
        && storage == SavedByImport(old(options), old(storage), applied)
        && showAttemptsGreyed == old(showAttemptsGreyed)
    {
      if file.None? {
        return;
      }
      var entries := file.value;
      var completed;
      options, storage, completed := ImportEntries(options, storage, entries);
      ImportedFacts(old(options), entries[..FirstThrowing(entries)]);
      if !completed {
        return;
      }
      assert entries[..|entries|] == entries;
      UpdateDependentOptions(nestedSaved);
      DependentFacts(Imported(old(options), entries));
    }
  }
}
