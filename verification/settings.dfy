/** The mod's configuration (`Main.ModSettings`) and the static `Main.Settings`
    field that `Main.Init` replaces once at start-up. */
module Settings {

  /** The `Autosaves` group read by the newer autosave policy. */
  datatype AutosaveSettings = AutosaveSettings(
    enableAll: bool,
    disableAll: bool,
    arrivedAtPlanet: bool,
    eventResolved: bool,
    contractAccepted: bool,
    contractCompleted: bool,
    financialReport: bool)

  /** `ModSettings`: one toggle per hooked checkpoint, the legacy
      all-or-nothing autosave switch, and the two settings the patches read
      that the record in Main.cs does not declare. */
  datatype ModSettings = ModSettings(
    runPostSaveSerialization: bool,
    runPostSaveRefresh: bool,
    runPostLoadComplete: bool,
    runPostHeadAttachedState: bool,
    runFirstRound: bool,
    runOnNewRound: bool,
    resolveCompleteContract: bool,
    noAutosaves: bool,
    overrideSaveSystem: bool,
    autosaves: AutosaveSettings)

  /** The settings read by the patches but not declared, and so given no
      initialiser, by `ModSettings` in Main.cs. Their default is left free. */
  datatype Undeclared = Undeclared(overrideSaveSystem: bool, autosaves: AutosaveSettings)

  /** `new ModSettings()`: the property initialisers of Main.cs, with the
      undeclared settings taken from `u`. */
  function Defaults(u: Undeclared): (d: ModSettings)
    ensures d.runPostSaveSerialization && d.runPostSaveRefresh && d.runPostLoadComplete
    ensures d.runPostHeadAttachedState && d.runFirstRound
    ensures !d.runOnNewRound && !d.resolveCompleteContract && !d.noAutosaves
    ensures d.overrideSaveSystem == u.overrideSaveSystem && d.autosaves == u.autosaves
  {
    ModSettings(
      runPostSaveSerialization := true,
      runPostSaveRefresh := true,
      runPostLoadComplete := true,
      runPostHeadAttachedState := true,
      runFirstRound := true,
      runOnNewRound := false,
      resolveCompleteContract := false,
      noAutosaves := false,
      overrideSaveSystem := u.overrideSaveSystem,
      autosaves := u.autosaves)
  }

  /** What `JsonConvert.DeserializeObject<ModSettings>` hands back: a record,
      null (which it returns for an empty document), or an exception. */
  datatype Parse = Parsed(value: ModSettings) | ParsedNull | ParseFailed

  /** The classes `Harmony.CreateAndPatchAll` can be given: the three classes
      of FlushPatch.cs and the three under Patches/. */
  datatype PatchClass =
    | GcPostSaveSerialization  // FlushPatch.cs, checkpoint dispatcher
    | LegacySaveSystem         // FlushPatch.cs, VMMWSGC.SaveSystem
    | LegacyLoadSystem         // FlushPatch.cs, VMMWSGC.LoadSystem
    | PatchesFlush             // Patches/Flush.cs
    | PatchesSaveSystem        // Patches/SaveSystem.cs
    | PatchesToast             // Patches/Toast.cs

  /** The static class `Main`: the `Settings` field every hook reads, and the
      set of classes Harmony has patched into the game so far. */
  class Main {
    /** The defaults of the undeclared settings, whatever they are. */
    const undeclared: Undeclared
    var settings: ModSettings
    var patched: set<PatchClass>

    /** The static initialiser: `Settings = new ModSettings()`, nothing patched. */
    constructor (undeclared: Undeclared)
      ensures this.undeclared == undeclared
      ensures settings == Defaults(undeclared)
      ensures patched == {}
    {
      this.undeclared := undeclared;
      settings := Defaults(undeclared);
      patched := {};
    }

    /** `Main.Init`: patch the dispatcher and the legacy save class, then take
        the parsed settings, or a fresh default record if parsing threw or
        gave null (the log line right after the parse dereferences the null,
        and the same catch handles that exception). */
    method Init(parse: Parse)
      modifies this
      ensures patched == old(patched) + {GcPostSaveSerialization, LegacySaveSystem}
      ensures parse.Parsed? ==> settings == parse.value
      ensures !parse.Parsed? ==> settings == Defaults(undeclared)
    {
      patched := patched + {GcPostSaveSerialization};
      patched := patched + {LegacySaveSystem};
      match parse {
        case Parsed(value) =>
          settings := value;
        case ParsedNull =>
          settings := Defaults(undeclared);
        case ParseFailed =>
          settings := Defaults(undeclared);
      }
    }
  }

  /** Defaults are all-or-nothing: two default records can differ only in the
      undeclared settings, so no value of a declared setting survives a
      failed parse. */
  lemma DefaultsFixDeclared(u1: Undeclared, u2: Undeclared)
    ensures Defaults(u1).(overrideSaveSystem := u2.overrideSaveSystem, autosaves := u2.autosaves)
         == Defaults(u2)
  {
  }
}
