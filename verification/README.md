# VMMWSGC decision logic in Dafny

VMMWSGC is a BattleTech mod. It hooks the game with Harmony and does two things.

- It empties the process working set (`Gc.RunGc`) after a fixed set of game methods: save serialisation, save refresh, load complete, head-attached state, first round, new round and contract resolution. Each checkpoint has its own setting.
- It intercepts the save pipeline. It can decide whether an autosave goes ahead. It can skip compression when writing a save. On reading, it sniffs the first four bytes of a save: a gzip header is decoded, an uncompressed game save is passed through, and anything else is left to the game's own loader.

This project models those decision procedures and proves what they promise:

- `common.dfy`: byte payloads, the `(bool, __result)` pair a Harmony prefix returns (`PrefixResult`), and how a hook call ends (returns, or an exception escapes).
- `settings.dfy`: `ModSettings`, its defaults, and the static `Main` class, whose `Init` either takes the parsed settings or falls back to a fresh default record.
- `save_system.dfy`: the newer hooks of `Patches/SaveSystem.cs`. These are the autosave policy, the compression bypass and the header-sniffing reader. Each is a pure function over `seq<bv8>`. The two codec hooks also have methods over `array<bv8>`, which show the result is a new array and the input is never written.
- `flush.dfy`: the checkpoint dispatcher of `Patches/Flush.cs`. It returns the number of `RunGc` calls a hooked call makes, and a fold over a sequence of calls counts the reclamations of a whole run.
- `flush_patch.dfy`: the older hooks of `FlushPatch.cs`. `Main.Init` installs the dispatcher and the older `SaveSystem` class; the older `LoadSystem` is modelled but not installed by `Init`. They are the same dispatcher, a one-switch autosave policy, and a codec pair that always goes through gzip. This file also relates them to the newer hooks.

External pieces are parameters of the model:

- The gzip writer of the older `SaveSystem.CompressBytesNew` is `gzipStored: Bytes -> Bytes`; it is `System.IO.Compression.GZipStream`.
- A gzip reader is a `Bytes -> Gunzip` parameter, with the outcomes `Ok(bytes)`, `IOError` and `OtherError`. `gunzip` stands for whichever decoder the hook in question calls. The newer reader (Patches/SaveSystem.cs) calls `System.IO.Compression.GZipStream`. The older `LoadSystem.DecompressBytesNew` calls `Ionic.Zlib.GZipStream`, a bundled third-party library (FlushPatch.cs imports `Ionic.Zlib` and not `System.IO.Compression`). Lemmas that compare the two readers take two decoders, `sysGunzip` and `ionicGunzip`.
- The JSON parser's result is a `Parse` value: a record, null, or a failure.
- `RunGc` is counted, not performed.

Each hook reads the settings it is passed. Every hook is a function of those settings, so no hook can change them.

### Behaviour worth noting

- Autosave precedence: `EnableAll` is tested before `DisableAll` (Patches/SaveSystem.cs:43-55), so allow-all wins when both are set. See `SaveSystem.EnableAllWins`.
- Decode failures: only an `IOException` from the gzip reader is caught and declined. Any other exception escapes the newer reader. The older reader catches nothing.
- Write/read round trip: bypassing compression gives a save that reads back unchanged only when it starts with the uncompressed header `08 01 12 3A`. A payload without it is handed to the game's loader (`SaveSystem.EmptyPayloadNotTakenBack`).
- Undeclared settings: `ModSettings` in `Main.cs` declares neither `OverrideSaveSystem` nor the `Autosaves` group, though the patches read both. The model adds them as the `Undeclared` part of the record and leaves their default free, since no initialiser for them exists.
- Null parse result: `JsonConvert.DeserializeObject` can return null. The log line that follows the parse then dereferences null, and the same `catch` restores the defaults. `Main.Init` models this as the `ParsedNull` case.
- Installed hooks: `Main.Init` installs only `GcPostSaveSerialization` and the older `VMMWSGC.SaveSystem`. The older `LoadSystem` and the classes under `Patches/` are not installed by it.

## Model

| member | source | states |
|---|---|---|
| `Settings.Main.constructor` | VMMWSGC/Main.cs:30 | Before `Init`, `Settings` is the default record. |
| `Settings.Main.Init` | VMMWSGC/Main.cs:31-55 | `Init` patches exactly `GcPostSaveSerialization` and the older `SaveSystem`. A parsed record becomes `Settings` exactly. A parse that throws or gives null leaves a fresh, fully default record. |
| `Settings.Defaults` | VMMWSGC/Main.cs:57-67 | The default record has `RunPostSaveSerialization`, `RunPostSaveRefresh`, `RunPostLoadComplete`, `RunPostHeadAttachedState` and `RunFirstRound` true, and `RunOnNewRound`, `ResolveCompleteContract` and `NoAutosaves` false; the undeclared settings are taken as given. |
| `Settings.DefaultsFixDeclared` | VMMWSGC/Main.cs:57-67 | Two default records differ only in the undeclared settings, so every declared setting has one fixed default. |
| `SaveSystem.NoAutoSave` | VMMWSGC/Patches/SaveSystem.cs:40-106 | A save is allowed iff `EnableAll` is set, or `DisableAll` is clear and the reason is on the per-reason allow list with its setting on. |
| `SaveSystem.EnableAllWins` | VMMWSGC/Patches/SaveSystem.cs:43-48 | With `EnableAll` set, every reason is allowed, even when `DisableAll` is also set. |
| `SaveSystem.DisableAllRefuses` | VMMWSGC/Patches/SaveSystem.cs:50-55 | With `EnableAll` clear and `DisableAll` set, every reason is refused. |
| `SaveSystem.PerReasonPolicy` | VMMWSGC/Patches/SaveSystem.cs:58-105 | With both global flags clear, each of the five named reasons is allowed iff its own setting is on, and every other reason is refused. |
| `SaveSystem.PolicyReadsOnlyAutosaves` | VMMWSGC/Patches/SaveSystem.cs:40-106 | The policy's decision depends on the `Autosaves` group alone. |
| `SaveSystem.Take4` | VMMWSGC/Patches/SaveSystem.cs:141 | `Take(4)` gives the prefix of length min(4, length) of the payload. |
| `SaveSystem.StartsWithIff` | VMMWSGC/Patches/SaveSystem.cs:141 | A four-byte header matches iff the payload has at least four bytes and they equal the header, so a shorter payload matches nothing. |
| `SaveSystem.HeadersExclusive` | VMMWSGC/Patches/SaveSystem.cs:138-139 | No payload starts with both the gzip header and the uncompressed header. |
| `SaveSystem.CompressBytesNew` | VMMWSGC/Patches/SaveSystem.cs:113-126 | With the override on, the hook takes over and its result is the input. With it off, it returns true with a null result. |
| `SaveSystem.DecompressBytesNew` | VMMWSGC/Patches/SaveSystem.cs:133-177 | The returned pair is well formed. An exception escapes iff the override is on, the gzip header matches and decoding fails with something other than an `IOException`. Any bytes taken over are either the input under the uncompressed header or the gzip decoding of the input under the gzip header. |
| `SaveSystem.DecompressOverrideOff` | VMMWSGC/Patches/SaveSystem.cs:174-176 | With the override off, the hook returns true and null for every payload. |
| `SaveSystem.DecompressUncompressed` | VMMWSGC/Patches/SaveSystem.cs:165-170 | With the override on and the prefix `08 01 12 3A`, the hook returns false and hands the input back unchanged. |
| `SaveSystem.DecompressUnknownDeclines` | VMMWSGC/Patches/SaveSystem.cs:165-176 | With the override on and a payload shorter than four bytes or matching neither header, the hook returns true and null. |
| `SaveSystem.DecompressCompressed` | VMMWSGC/Patches/SaveSystem.cs:141-163 | With the override on and the gzip header: a successful decode is taken over; an `IOException` gives true and null; any other failure escapes. |
| `SaveSystem.UncompressedRoundTrip` | VMMWSGC/Patches/SaveSystem.cs:113-170 | With the override on, a payload carrying the uncompressed header is written unchanged and read back unchanged. |
| `SaveSystem.EmptyPayloadNotTakenBack` | VMMWSGC/Patches/SaveSystem.cs:113-176 | The bypass round trip needs that header: an empty payload is written as it is but then declined on read. |
| `SaveSystem.CompressBytesPrefix` | VMMWSGC/Patches/SaveSystem.cs:113-126 | On arrays, the hook agrees with `CompressBytesNew`. A non-null result is a new array, and the input array is not modified. |
| `SaveSystem.DecompressBytesPrefix` | VMMWSGC/Patches/SaveSystem.cs:133-177 | On arrays, the hook agrees with `DecompressBytesNew`, including the escaping exception. A non-null result is a new array, and the input array is never modified. |
| `Flush.PostLoad` | VMMWSGC/Patches/Flush.cs:39-105 | A call runs `RunGc` at most once, and exactly once iff the method name is one of the seven checkpoints and that checkpoint's toggle is on. |
| `Flush.UnknownNameIsNoOp` | VMMWSGC/Patches/Flush.cs:102-103 | A name outside the seven never runs `RunGc`, whatever the settings. |
| `Flush.OneToggleConsulted` | VMMWSGC/Patches/Flush.cs:41-104 | Settings that agree on the name's one toggle give the same outcome, so a call consults exactly one toggle. |
| `Flush.CheckpointsInjective` | VMMWSGC/Patches/Flush.cs:41-104 | Different checkpoint names consult different toggles. |
| `Flush.LoadCompleteName` | VMMWSGC/Patches/Flush.cs:60-66 | `RunPostLoadComplete` is reached iff the name is exactly `NotifyLoadCcomplete`. The correctly spelt `NotifyLoadComplete` does nothing. |
| `Flush.DefaultsReclaimAtFirstFive` | VMMWSGC/Main.cs:59-63 | With default settings, the first five checkpoints each run `RunGc` once. |
| `Flush.DefaultsSkipRoundAndContract` | VMMWSGC/Main.cs:64-65 | With default settings, `BeginNewRound` and `ResolveCompleteContract` never run `RunGc`. |
| `Flush.GcRunsAtMostCalls` | VMMWSGC/Patches/Flush.cs:41-104 | Over any sequence of hooked calls, `RunGc` runs at most once per call. |
| `Flush.GcRunsNoneEnabled` | VMMWSGC/Patches/Flush.cs:41-104 | A sequence of calls in which no call names a checkpoint whose toggle is on never runs `RunGc`. |
| `Flush.DefaultMissionNeverReclaims` | VMMWSGC/Patches/Flush.cs:86-101 | With default settings, any number of new rounds and contract resolutions never run `RunGc`. |
| `FlushPatch.PostLoad` | VMMWSGC/FlushPatch.cs:50-116 | The older dispatcher runs `RunGc` at most once per call, and never for a name outside the seven. |
| `FlushPatch.SameTableAsFlush` | VMMWSGC/FlushPatch.cs:52-115 | For every name and settings, the older dispatcher behaves exactly like `Flush.PostLoad`, so it has the same name-to-toggle table. |
| `FlushPatch.NoAutoSave` | VMMWSGC/FlushPatch.cs:126-134 | The older policy refuses a save exactly when `NoAutosaves` is set and allows it otherwise, whatever the reason. |
| `FlushPatch.ReasonIgnored` | VMMWSGC/FlushPatch.cs:126-134 | The older autosave policy gives the same answer for every reason. |
| `FlushPatch.DefaultsAllowEverySave` | VMMWSGC/Main.cs:66 | `NoAutosaves` defaults to false, so by default the older policy allows every save. |
| `FlushPatch.OneSwitchAsGlobalFlags` | VMMWSGC/FlushPatch.cs:126-134 | The older policy equals the newer one with `EnableAll` = not `NoAutosaves` and `DisableAll` = `NoAutosaves`, so it refuses exactly when `NoAutosaves` is set. |
| `FlushPatch.CompressBytesNew` | VMMWSGC/FlushPatch.cs:138-155 | With the override off, it returns true and null. With the override on, it returns false with the gzip-wrapped payload. |
| `FlushPatch.DecompressBytesNew` | VMMWSGC/FlushPatch.cs:164-182 | With the override off, it returns true and null. With the override on, it never declines: a successful decode is taken over, and every decode failure escapes, since there is no header check and nothing is caught. |
| `FlushPatch.RoundTrip` | VMMWSGC/FlushPatch.cs:138-182 | With the override on, the older writer and reader give the payload back whenever the older reader's decoder `ionicGunzip` inverts the `System.IO.Compression` writer. |
| `FlushPatch.OlderSaveReadByNewerReader` | VMMWSGC/FlushPatch.cs:138-155 | A save from the older writer that starts with the gzip header is read back unchanged by the newer reader. |
| `FlushPatch.NewerReaderDeclinesWhereOlderThrows` | VMMWSGC/FlushPatch.cs:164-182 | Each reader with its own decoder: on a gzip save where the newer reader's `System.IO.Compression` decoder raises an `IOException`, the newer reader declines; if the older reader's `Ionic.Zlib` decoder also fails, the older reader lets that failure escape, and if it succeeds, the older reader takes over with its output. |
| `FlushPatch.UncompressedSaveNeedsNewerReader` | VMMWSGC/FlushPatch.cs:164-182 | An uncompressed save is handed back as it is by the newer reader, whatever its decoder. The older reader feeds it to its own decoder `ionicGunzip` and either takes over with that decoder's output or throws. |

## Left out

- `Gc.RunGc` and the `EmptyWorkingSet` call into psapi.dll are an operating-system call inside a catch-all. The model only counts how often `RunGc` runs.
- `Toast.PostInvisibleToast` calls `RunGc` unconditionally, with no setting and no decision. It is not part of this model.
- GZip compression and decompression (`System.IO.Compression.GZipStream`, `Ionic.Zlib.GZipStream`, `MemoryStream.CopyTo`) are foreign libraries. They are the parameters `gzipStored`, `gunzip`, `sysGunzip` and `ionicGunzip`. DEFLATE is not modelled.
- The failure types of the two decoders are not modelled: which failures `System.IO.Compression` reports as `IOException`, and that DotNetZip reports corrupt data as `ZlibException`, are left to the decoder parameter's `IOError` / `OtherError` outcome.
- JSON parsing (`JsonConvert.DeserializeObject`) is a foreign library. Its result is the `Parse` value given to `Main.Init`. How missing fields get initialisers inside the parser is not modelled.
- Harmony attributes, `MethodBase` reflection, the assembly-version lookup, the `directory` argument of `Init` and every `s_log.Log` call are plumbing and logging, and are left out.
- A null `bytes` argument to the codec hooks is not modelled; the hooks would throw on `bytes.Length` / `Take(4)`.
- Exceptions from the older gzip writer are not modelled: it writes into an in-memory stream.
- The settings record is passed to each hook as a parameter instead of being read from the static field `Main.Settings`. Aliasing between that field and a hook's reads is therefore not modelled.
