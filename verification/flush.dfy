/** The checkpoint dispatcher of `VMMWSGC.Patches.Flush`: a postfix on seven
    game methods that, by the name of the method that just ran, consults one
    setting and empties the working set (`Gc.RunGc`) when it is on. `RunGc`
    itself is an operating-system call; the model counts how often it runs. */
module Flush {
  import opened Settings

  /** The settings the dispatcher can consult, one per hooked method. */
  datatype Toggle =
    | PostSaveSerialization
    | PostSaveRefresh
    | PostLoadComplete
    | PostHeadAttachedState
    | FirstRound
    | OnNewRound
    | CompleteContract

  /** The value of one toggle in a settings record. */
  function Enabled(s: ModSettings, t: Toggle): bool
  {
    match t
    case PostSaveSerialization => s.runPostSaveSerialization
    case PostSaveRefresh => s.runPostSaveRefresh
    case PostLoadComplete => s.runPostLoadComplete
    case PostHeadAttachedState => s.runPostHeadAttachedState
    case FirstRound => s.runFirstRound
    case OnNewRound => s.runOnNewRound
    case CompleteContract => s.resolveCompleteContract
  }

  /** The hooked method names and the toggle each one consults. The load
      checkpoint is spelt as the game spells its method. */
  const Checkpoints: map<string, Toggle> :=
    map["SaveSerializationComplete" := PostSaveSerialization,
        "NotifyRefresh" := PostSaveRefresh,
        "NotifyLoadCcomplete" := PostLoadComplete,
        "OnHeadAttachedStateCompleteListener" := PostHeadAttachedState,
        "StartFirstRound" := FirstRound,
        "BeginNewRound" := OnNewRound,
        "ResolveCompleteContract" := CompleteContract]

  /** `Flush.PostLoad`: the switch on `__originalMethod.Name`. The result is
      the number of times `Gc.RunGc` runs during the call: once if the name is
      a checkpoint whose toggle is on, and not at all otherwise. */
  function PostLoad(s: ModSettings, name: string): (gcRuns: nat)
    ensures gcRuns <= 1
    ensures gcRuns == 1 <==> name in Checkpoints && Enabled(s, Checkpoints[name])
  {
    match name
    case "SaveSerializationComplete" => if s.runPostSaveSerialization then 1 else 0
    case "NotifyRefresh" => if s.runPostSaveRefresh then 1 else 0
    case "NotifyLoadCcomplete" => if s.runPostLoadComplete then 1 else 0
    case "OnHeadAttachedStateCompleteListener" => if s.runPostHeadAttachedState then 1 else 0
    case "StartFirstRound" => if s.runFirstRound then 1 else 0
    case "BeginNewRound" => if s.runOnNewRound then 1 else 0
    case "ResolveCompleteContract" => if s.resolveCompleteContract then 1 else 0
    case _ => 0
  }

  /** A name outside the seven is a no-op whatever the settings. */
  lemma UnknownNameIsNoOp(s: ModSettings, name: string)
    requires name !in Checkpoints
    ensures PostLoad(s, name) == 0
  {
  }

  /** One call consults exactly one toggle: two settings records that agree on
      the toggle of `name` give the same number of `RunGc` calls, however much
      they differ elsewhere. */
  lemma OneToggleConsulted(s1: ModSettings, s2: ModSettings, name: string)
    requires name in Checkpoints
    requires Enabled(s1, Checkpoints[name]) == Enabled(s2, Checkpoints[name])
    ensures PostLoad(s1, name) == PostLoad(s2, name)
  {
  }

  /** Distinct names consult distinct toggles. */
  lemma CheckpointsInjective(n1: string, n2: string)
    requires n1 in Checkpoints && n2 in Checkpoints && n1 != n2
    ensures Checkpoints[n1] != Checkpoints[n2]
  {
  }

  /** The load-complete toggle is reached by the exact name
      "NotifyLoadCcomplete" only; the correctly spelt name does nothing. */
  lemma LoadCompleteName(s: ModSettings, name: string)
    ensures name in Checkpoints && Checkpoints[name] == PostLoadComplete <==> name == "NotifyLoadCcomplete"
    ensures PostLoad(s, "NotifyLoadComplete") == 0
  {
  }

  /** With the default settings the first five checkpoints each reclaim once. */
  lemma DefaultsReclaimAtFirstFive(u: Undeclared)
    ensures PostLoad(Defaults(u), "SaveSerializationComplete") == 1
    ensures PostLoad(Defaults(u), "NotifyRefresh") == 1
    ensures PostLoad(Defaults(u), "NotifyLoadCcomplete") == 1
    ensures PostLoad(Defaults(u), "OnHeadAttachedStateCompleteListener") == 1
    ensures PostLoad(Defaults(u), "StartFirstRound") == 1
  {
  }

  /** With the default settings a new round and contract resolution never
      reclaim. */
  lemma DefaultsSkipRoundAndContract(u: Undeclared)
    ensures PostLoad(Defaults(u), "BeginNewRound") == 0
    ensures PostLoad(Defaults(u), "ResolveCompleteContract") == 0
  {
  }

  // ---------------------------------------------------------------------------
  // A run of the game as a sequence of hooked calls
  // ---------------------------------------------------------------------------

  /** The number of `RunGc` calls made by the postfix over a sequence of hooked
      calls, all reading the same settings. */
  function GcRuns(s: ModSettings, names: seq<string>): nat
  {
    if names == [] then 0 else GcRuns(s, names[..|names| - 1]) + PostLoad(s, names[|names| - 1])
  }

  /** At most one reclamation per hooked call. */
  lemma {:induction false} GcRunsAtMostCalls(s: ModSettings, names: seq<string>)
    ensures GcRuns(s, names) <= |names|
  {
    if names != [] {
      GcRunsAtMostCalls(s, names[..|names| - 1]);
    }
  }

  /** A toggle that is off is never acted on: if no call in the run names a
      checkpoint whose toggle is on, nothing is reclaimed. */
  lemma {:induction false} GcRunsNoneEnabled(s: ModSettings, names: seq<string>)
    requires forall i :: 0 <= i < |names| ==> !(names[i] in Checkpoints && Enabled(s, Checkpoints[names[i]]))
    ensures GcRuns(s, names) == 0
  {
    if names != [] {
      GcRunsNoneEnabled(s, names[..|names| - 1]);
    }
  }

  /** Under the default settings a mission's rounds and its resolution never
      reclaim, however many rounds it has. */
  lemma {:induction false} DefaultMissionNeverReclaims(u: Undeclared, names: seq<string>)
    requires forall i :: 0 <= i < |names| ==> names[i] == "BeginNewRound" || names[i] == "ResolveCompleteContract"
    ensures GcRuns(Defaults(u), names) == 0
  {
    forall i | 0 <= i < |names|
      ensures !(names[i] in Checkpoints && Enabled(Defaults(u), Checkpoints[names[i]]))
    {
      DefaultsSkipRoundAndContract(u);
    }
    GcRunsNoneEnabled(Defaults(u), names);
  }
}
