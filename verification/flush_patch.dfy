/** The older hooks of FlushPatch.cs: the dispatcher
    `GcPostSaveSerialization.PostLoad`, the one-switch autosave policy
    `SaveSystem.NoAutoSave`, and the codec pair `SaveSystem.CompressBytesNew`
    / `LoadSystem.DecompressBytesNew`, which always goes through gzip.
    `Main.Init` installs `GcPostSaveSerialization` and `SaveSystem`; the class
    `LoadSystem` is modelled here but is not installed by `Init`. */
module FlushPatch {
  import opened Common
  import opened Settings
  import Flush
  import SaveSystem

  /** `GcPostSaveSerialization.PostLoad`: the number of `Gc.RunGc` calls made
      for a call of the hooked method `name`. */
  function PostLoad(s: ModSettings, name: string): (gcRuns: nat)
    ensures gcRuns <= 1
    ensures name !in Flush.Checkpoints ==> gcRuns == 0
  {
    match name
    case "SaveSerializationComplete" => if s.runPostSaveSerialization then 1 else 0
    case "NotifyRefresh" => if s.runPostSaveRefresh then 1 else 0
    case "NotifyLoadCcomplete" => if s.runPostLoadComplete then 1 else 0
    case "OnHeadAttachedStateCompleteListener" => if s.runPostHeadAttachedState then 1 else 0
    case "StartFirstRound" => if s.runFirstRound then 1 else 0
    case "BeginNewRound" => if s.runOnNewRound then 1 else 0
    case "ResolveCompleteContract" => if s.resolveCompleteContract then 1 else 0
    case _ => 0
  }

  /** The older dispatcher has the same name-to-toggle table as the newer one:
      for every name and every settings record they reclaim alike. */
  lemma SameTableAsFlush(s: ModSettings, name: string)
    ensures PostLoad(s, name) == Flush.PostLoad(s, name)
    ensures PostLoad(s, name) == 1 <==> name in Flush.Checkpoints && Flush.Enabled(s, Flush.Checkpoints[name])
  {
  }

  /** `SaveSystem.NoAutoSave` (FlushPatch.cs): every save is refused when
      `NoAutosaves` is set and allowed otherwise, whatever the reason. */
  function NoAutoSave(s: ModSettings, reason: SaveSystem.SaveReason): (allow: bool)
    ensures allow != s.noAutosaves
  {
    !s.noAutosaves
  }

  /** The reason never matters to the older policy. */
  lemma ReasonIgnored(s: ModSettings, r1: SaveSystem.SaveReason, r2: SaveSystem.SaveReason)
    ensures NoAutoSave(s, r1) == NoAutoSave(s, r2)
  {
  }

  /** By default the older policy allows every save. */
  lemma DefaultsAllowEverySave(u: Undeclared, reason: SaveSystem.SaveReason)
    ensures NoAutoSave(Defaults(u), reason)
  {
  }

  /** The one switch is the newer policy with its two global flags set from
      it: `EnableAll` = not `NoAutosaves`, `DisableAll` = `NoAutosaves`. */
  lemma OneSwitchAsGlobalFlags(s: ModSettings, reason: SaveSystem.SaveReason)
    ensures NoAutoSave(s, reason) ==
      SaveSystem.NoAutoSave(s.(autosaves := s.autosaves.(enableAll := !s.noAutosaves, disableAll := s.noAutosaves)), reason)
  {
  }

  /** `SaveSystem.CompressBytesNew` (FlushPatch.cs): with the override on, the
      payload is written through a `GZipStream` at `NoCompression` and the
      stream's bytes are taken; `gzipStored` stands for that writer. */
  function CompressBytesNew(s: ModSettings, bytes: Bytes, gzipStored: Bytes -> Bytes): (r: PrefixResult)
    ensures r.WellFormed()
    ensures r.runOriginal <==> !s.overrideSaveSystem
    ensures r.result.Some? ==> r.result.value == gzipStored(bytes)
  {
    if s.overrideSaveSystem then Handled(gzipStored(bytes)) else RunOriginal
  }

  /** `LoadSystem.DecompressBytesNew`: with the override on, every payload is
      sent through `gunzip` with no header check and nothing caught, so the
      hook either takes over or throws; it never declines. FlushPatch.cs
      imports `Ionic.Zlib`, so `gunzip` here is DotNetZip's `GZipStream`,
      not the decoder of the newer reader. */
  function DecompressBytesNew(s: ModSettings, bytes: Bytes, gunzip: Bytes -> Gunzip): (r: Completion)
    ensures r.Returned? ==> r.value.WellFormed()
    ensures !s.overrideSaveSystem ==> r == Returned(RunOriginal)
    ensures s.overrideSaveSystem ==> r != Returned(RunOriginal)
    ensures s.overrideSaveSystem && gunzip(bytes).Ok? ==> r == Returned(Handled(gunzip(bytes).bytes))
    ensures r.Threw? <==> s.overrideSaveSystem && !gunzip(bytes).Ok?
  {
    if !s.overrideSaveSystem then
      Returned(RunOriginal)
    else
      match gunzip(bytes)
      case Ok(decoded) => Returned(Handled(decoded))
      case IOError => Threw(IOException)
      case OtherError => Threw(OtherException)
  }

  /** Saving and loading through the older pair gives the payload back
      whenever the older reader's DotNetZip decoder inverts the
      `System.IO.Compression` writer. */
  lemma RoundTrip(s: ModSettings, bytes: Bytes, gzipStored: Bytes -> Bytes, ionicGunzip: Bytes -> Gunzip)
    requires s.overrideSaveSystem
    requires ionicGunzip(gzipStored(bytes)) == Ok(bytes)
    ensures CompressBytesNew(s, bytes, gzipStored).result == Some(gzipStored(bytes))
    ensures DecompressBytesNew(s, CompressBytesNew(s, bytes, gzipStored).result.value, ionicGunzip) == Returned(Handled(bytes))
  {
  }

  /** A save written by the older writer is read by the newer reader: its
      gzip header sends it through the newer reader's decoder `sysGunzip`
      (both are `System.IO.Compression`), which gives the payload back. */
  lemma OlderSaveReadByNewerReader(s: ModSettings, bytes: Bytes, gzipStored: Bytes -> Bytes, sysGunzip: Bytes -> Gunzip)
    requires s.overrideSaveSystem
    requires |gzipStored(bytes)| >= 4 && gzipStored(bytes)[..4] == SaveSystem.CompressedHeader
    requires sysGunzip(gzipStored(bytes)) == Ok(bytes)
    ensures SaveSystem.DecompressBytesNew(s, CompressBytesNew(s, bytes, gzipStored).result.value, sysGunzip)
         == Returned(Handled(bytes))
  {
    SaveSystem.DecompressCompressed(s, gzipStored(bytes), sysGunzip);
  }

  /** Each reader with its own decoder, on a gzip save that the newer
      reader's decoder rejects with an `IOException`: the newer reader
      declines and leaves the load to the game, while the older reader
      depends on DotNetZip alone; it lets a DotNetZip failure escape, and
      takes over when DotNetZip decodes the save. */
  lemma NewerReaderDeclinesWhereOlderThrows(s: ModSettings, bytes: Bytes, sysGunzip: Bytes -> Gunzip, ionicGunzip: Bytes -> Gunzip)
    requires s.overrideSaveSystem
    requires |bytes| >= 4 && bytes[..4] == SaveSystem.CompressedHeader
    requires sysGunzip(bytes) == IOError
    ensures SaveSystem.DecompressBytesNew(s, bytes, sysGunzip) == Returned(RunOriginal)
    ensures ionicGunzip(bytes) == IOError ==> DecompressBytesNew(s, bytes, ionicGunzip) == Threw(IOException)
    ensures ionicGunzip(bytes) == OtherError ==> DecompressBytesNew(s, bytes, ionicGunzip) == Threw(OtherException)
    ensures ionicGunzip(bytes).Ok? ==> DecompressBytesNew(s, bytes, ionicGunzip) == Returned(Handled(ionicGunzip(bytes).bytes))
  {
    SaveSystem.DecompressCompressed(s, bytes, sysGunzip);
  }

  /** An uncompressed save is taken back as it is by the newer reader,
      whatever its decoder, but is fed to DotNetZip by the older one, which
      takes over with whatever DotNetZip gives or throws. */
  lemma UncompressedSaveNeedsNewerReader(s: ModSettings, bytes: Bytes, sysGunzip: Bytes -> Gunzip, ionicGunzip: Bytes -> Gunzip)
    requires s.overrideSaveSystem
    requires |bytes| >= 4 && bytes[..4] == SaveSystem.UncompressedHeader
    ensures SaveSystem.DecompressBytesNew(s, bytes, sysGunzip) == Returned(Handled(bytes))
    ensures ionicGunzip(bytes).Ok? ==> DecompressBytesNew(s, bytes, ionicGunzip) == Returned(Handled(ionicGunzip(bytes).bytes))
    ensures !ionicGunzip(bytes).Ok? ==> DecompressBytesNew(s, bytes, ionicGunzip).Threw?
  {
    SaveSystem.DecompressUncompressed(s, bytes, sysGunzip);
  }
}
