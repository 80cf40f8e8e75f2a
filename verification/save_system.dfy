/** The newer save-system hooks (`VMMWSGC.Patches.SaveSystem`): the
    autosave policy, the compression bypass on write, and header sniffing with
    fallback on read. Every hook reads the settings it is given and nothing
    else. */
module SaveSystem {
  import opened Common
  import opened Settings

  /** `BattleTech.SaveReason`: the five reasons the policy names, and every
      other member of the game's enum, told apart only by an opaque id. */
  datatype SaveReason =
    | ArrivedAtPlanet     // SIM_GAME_ARRIVED_AT_PLANET
    | EventResolved       // SIM_GAME_EVENT_RESOLVED
    | ContractAccepted    // SIM_GAME_CONTRACT_ACCEPTED
    | CompletedContract   // SIM_GAME_COMPLETED_CONTRACT
    | QuarterlyReport     // SIM_GAME_QUARTERLY_REPORT
    | OtherReason(id: nat)

  // ---------------------------------------------------------------------------
  // Autosave policy
  // ---------------------------------------------------------------------------

  /** The per-reason allow list: each named reason and the setting that lets
      it autosave. A reason outside the list is never allowed by it. */
  function AllowList(a: AutosaveSettings): map<SaveReason, bool>
  {
    map[ArrivedAtPlanet := a.arrivedAtPlanet,
        EventResolved := a.eventResolved,
        ContractAccepted := a.contractAccepted,
        CompletedContract := a.contractCompleted,
        QuarterlyReport := a.financialReport]
  }

  /** The prefix on `GameInstance.Save(SaveReason)`: true lets the save go
      ahead. `EnableAll` is tested first, so it wins over `DisableAll`. */
  function NoAutoSave(s: ModSettings, reason: SaveReason): (allow: bool)
    ensures allow <==>
      || s.autosaves.enableAll
      || (!s.autosaves.disableAll && reason in AllowList(s.autosaves) && AllowList(s.autosaves)[reason])
  {
    var a := s.autosaves;
    if a.enableAll then true
    else if a.disableAll then false
    else
      match reason
      case ArrivedAtPlanet => a.arrivedAtPlanet
      case EventResolved => a.eventResolved
      case ContractAccepted => a.contractAccepted
      case CompletedContract => a.contractCompleted
      case QuarterlyReport => a.financialReport
      case OtherReason(_) => false
  }

  /** `EnableAll` allows every save, even when `DisableAll` is set too. */
  lemma EnableAllWins(s: ModSettings, reason: SaveReason)
    requires s.autosaves.enableAll
    ensures NoAutoSave(s, reason)
  {
  }

  /** With `EnableAll` off, `DisableAll` refuses every save. */
  lemma DisableAllRefuses(s: ModSettings, reason: SaveReason)
    requires !s.autosaves.enableAll && s.autosaves.disableAll
    ensures !NoAutoSave(s, reason)
  {
  }

  /** With both global flags off, only a listed reason whose own setting is on
      is saved; every other reason is refused whatever the settings. */
  lemma PerReasonPolicy(s: ModSettings, reason: SaveReason)
    requires !s.autosaves.enableAll && !s.autosaves.disableAll
    ensures reason.OtherReason? ==> !NoAutoSave(s, reason)
    ensures reason == ArrivedAtPlanet ==> (NoAutoSave(s, reason) <==> s.autosaves.arrivedAtPlanet)
    ensures reason == EventResolved ==> (NoAutoSave(s, reason) <==> s.autosaves.eventResolved)
    ensures reason == ContractAccepted ==> (NoAutoSave(s, reason) <==> s.autosaves.contractAccepted)
    ensures reason == CompletedContract ==> (NoAutoSave(s, reason) <==> s.autosaves.contractCompleted)
    ensures reason == QuarterlyReport ==> (NoAutoSave(s, reason) <==> s.autosaves.financialReport)
  {
  }

  /** The policy depends on the `Autosaves` group alone: no other setting
      changes a decision. */
  lemma PolicyReadsOnlyAutosaves(s1: ModSettings, s2: ModSettings, reason: SaveReason)
    requires s1.autosaves == s2.autosaves
    ensures NoAutoSave(s1, reason) == NoAutoSave(s2, reason)
  {
  }

  // ---------------------------------------------------------------------------
  // Payload headers
  // ---------------------------------------------------------------------------

  /** The gzip member header with no flags: ID1, ID2, CM = 8 (deflate), FLG = 0. */
  const CompressedHeader: Bytes := [0x1F, 0x8B, 0x08, 0x00]

  /** The first four bytes of an uncompressed game save. */
  const UncompressedHeader: Bytes := [0x08, 0x01, 0x12, 0x3A]

  /** `bytes.Take(4)`: the first four bytes, or all of a shorter payload. */
  function Take4(bytes: Bytes): (t: Bytes)
    ensures |t| == if |bytes| < 4 then |bytes| else 4
    ensures t <= bytes
  {
    if |bytes| < 4 then bytes else bytes[..4]
  }

  /** `bytes.Take(4).SequenceEqual(header)` for a four-byte header. */
  predicate StartsWith(bytes: Bytes, header: Bytes)
    requires |header| == 4
  {
    Take4(bytes) == header
  }

  /** A header matches exactly when the payload has at least four bytes and
      they are the header: a payload shorter than four bytes matches none. */
  lemma StartsWithIff(bytes: Bytes, header: Bytes)
    requires |header| == 4
    ensures StartsWith(bytes, header) <==> |bytes| >= 4 && bytes[..4] == header
  {
  }

  /** No payload carries both headers. */
  lemma HeadersExclusive(bytes: Bytes)
    ensures !(StartsWith(bytes, CompressedHeader) && StartsWith(bytes, UncompressedHeader))
  {
    if StartsWith(bytes, CompressedHeader) {
      assert Take4(bytes)[0] == 0x1F;
    }
  }

  // ---------------------------------------------------------------------------
  // Codec hooks
  // ---------------------------------------------------------------------------

  /** The prefix on `SaveBlock<GameInstanceSave>.CompressBytes`: with the
      override on, the payload is stored as it is and the game's compression
      is skipped; with it off, the game compresses as usual. */
  function CompressBytesNew(s: ModSettings, bytes: Bytes): (r: PrefixResult)
    ensures r.WellFormed()
    ensures r.runOriginal <==> !s.overrideSaveSystem
    ensures r.result.Some? ==> r.result.value == bytes
  {
    if s.overrideSaveSystem then Handled(bytes) else RunOriginal
  }

  /** The prefix on `SaveBlock<string>.DecompressBytes`. With the override
      on, a gzip header sends the payload through `gunzip`, an uncompressed
      header hands the payload back as it is, and anything else declines.
      Only an `IOException` from `gunzip` is caught (and declines); any other
      exception escapes into the game. */
  function DecompressBytesNew(s: ModSettings, bytes: Bytes, gunzip: Bytes -> Gunzip): (r: Completion)
    ensures r.Returned? ==> r.value.WellFormed()
    ensures r.Threw? <==>
      s.overrideSaveSystem && StartsWith(bytes, CompressedHeader) && gunzip(bytes) == OtherError
    ensures r.Returned? && r.value.result.Some? ==>
      || (StartsWith(bytes, UncompressedHeader) && r.value.result.value == bytes)
      || (StartsWith(bytes, CompressedHeader) && gunzip(bytes) == Ok(r.value.result.value))
  {
    if !s.overrideSaveSystem then
      Returned(RunOriginal)
    else if StartsWith(bytes, CompressedHeader) then
      match gunzip(bytes)
      case Ok(decoded) => Returned(Handled(decoded))
      case IOError => Returned(RunOriginal)
      case OtherError => Threw(OtherException)
    else if StartsWith(bytes, UncompressedHeader) then
      Returned(Handled(bytes))
    else
      Returned(RunOriginal)
  }

  /** With the override off the hook always declines, whatever the payload. */
  lemma DecompressOverrideOff(s: ModSettings, bytes: Bytes, gunzip: Bytes -> Gunzip)
    requires !s.overrideSaveSystem
    ensures DecompressBytesNew(s, bytes, gunzip) == Returned(RunOriginal)
  {
  }

  /** An uncompressed save is handed back byte for byte; the decoder is not
      consulted. */
  lemma DecompressUncompressed(s: ModSettings, bytes: Bytes, gunzip: Bytes -> Gunzip)
    requires s.overrideSaveSystem
    requires |bytes| >= 4 && bytes[..4] == UncompressedHeader
    ensures DecompressBytesNew(s, bytes, gunzip) == Returned(Handled(bytes))
  {
    StartsWithIff(bytes, UncompressedHeader);
    HeadersExclusive(bytes);
  }

  /** A payload shorter than four bytes, or one whose first four bytes match
      neither header, is left to the game's own loader. */
  lemma DecompressUnknownDeclines(s: ModSettings, bytes: Bytes, gunzip: Bytes -> Gunzip)
    requires s.overrideSaveSystem
    requires |bytes| < 4 || (bytes[..4] != CompressedHeader && bytes[..4] != UncompressedHeader)
    ensures DecompressBytesNew(s, bytes, gunzip) == Returned(RunOriginal)
  {
    StartsWithIff(bytes, CompressedHeader);
    StartsWithIff(bytes, UncompressedHeader);
  }

  /** A gzip payload: decoded bytes are taken over, an `IOException` declines,
      and any other failure escapes the hook. */
  lemma DecompressCompressed(s: ModSettings, bytes: Bytes, gunzip: Bytes -> Gunzip)
    requires s.overrideSaveSystem
    requires |bytes| >= 4 && bytes[..4] == CompressedHeader
    ensures gunzip(bytes).Ok? ==> DecompressBytesNew(s, bytes, gunzip) == Returned(Handled(gunzip(bytes).bytes))
    ensures gunzip(bytes) == IOError ==> DecompressBytesNew(s, bytes, gunzip) == Returned(RunOriginal)
    ensures gunzip(bytes) == OtherError ==> DecompressBytesNew(s, bytes, gunzip) == Threw(OtherException)
  {
    StartsWithIff(bytes, CompressedHeader);
  }

  /** A save written with the override on and read back with it on comes back
      unchanged whenever it carries the uncompressed header. */
  lemma UncompressedRoundTrip(s: ModSettings, bytes: Bytes, gunzip: Bytes -> Gunzip)
    requires s.overrideSaveSystem
    requires |bytes| >= 4 && bytes[..4] == UncompressedHeader
    ensures CompressBytesNew(s, bytes).result == Some(bytes)
    ensures DecompressBytesNew(s, CompressBytesNew(s, bytes).result.value, gunzip) == Returned(Handled(bytes))
  {
    DecompressUncompressed(s, bytes, gunzip);
  }

  /** The round trip relies on that header: an empty payload is stored as it
      is but is then handed to the game's loader instead of being taken back. */
  lemma EmptyPayloadNotTakenBack(s: ModSettings, gunzip: Bytes -> Gunzip)
    requires s.overrideSaveSystem
    ensures CompressBytesNew(s, []) == Handled([])
    ensures DecompressBytesNew(s, [], gunzip) == Returned(RunOriginal)
  {
  }

  // ---------------------------------------------------------------------------
  // The same hooks over the game's arrays
  // ---------------------------------------------------------------------------

  /** `CompressBytesNew` on `byte[]`: with the override on, `__result` is a
      new array (`bytes.ToArray()`) holding the same bytes; the input array is
      left as it was. */
  method CompressBytesPrefix(s: ModSettings, bytes: array<bv8>) returns (runOriginal: bool, result: array?<bv8>)
    ensures CompressBytesNew(s, bytes[..]) ==
      PrefixResult(runOriginal, if result == null then None else Some(result[..]))
    ensures result != null ==> fresh(result)
  {
    if s.overrideSaveSystem {
      result := new bv8[bytes.Length](i reads bytes requires 0 <= i < bytes.Length => bytes[i]);
      assert result[..] == bytes[..];
      return false, result;
    }
    result := null;
    return true, result;
  }

  /** `DecompressBytesNew` on `byte[]`: `exn` is the exception that escapes,
      if any; a taken-over result is a new array, and the input array is
      never written. */
  method DecompressBytesPrefix(s: ModSettings, bytes: array<bv8>, gunzip: Bytes -> Gunzip)
    returns (exn: Option<Exception>, runOriginal: bool, result: array?<bv8>)
    ensures DecompressBytesNew(s, bytes[..], gunzip) ==
      if exn.Some? then Threw(exn.value)
      else Returned(PrefixResult(runOriginal, if result == null then None else Some(result[..])))
    ensures result != null ==> fresh(result)
  {
    exn, runOriginal, result := None, true, null;
    if s.overrideSaveSystem {
      if StartsWith(bytes[..], CompressedHeader) {
        match gunzip(bytes[..]) {
          case Ok(decoded) =>
            result := new bv8[|decoded|](i requires 0 <= i < |decoded| => decoded[i]);
            assert result[..] == decoded;
            runOriginal := false;
          case IOError =>
          case OtherError =>
            exn := Some(OtherException);
        }
      } else if StartsWith(bytes[..], UncompressedHeader) {
        result := new bv8[bytes.Length](i reads bytes requires 0 <= i < bytes.Length => bytes[i]);
        assert result[..] == bytes[..];
        runOriginal := false;
      }
    }
  }
}
