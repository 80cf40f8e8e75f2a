/** Values shared by the save-system hooks: byte payloads, the pair a Harmony
    prefix hands back to the host, and the exceptions that can leave a hook. */
module Common {

  datatype Option<+T> = None | Some(value: T)

  /** A `byte[]` payload as a value. A null array is not modelled. */
  type Bytes = seq<bv8>

  /** What a Harmony prefix returns to the host: `runOriginal` is the prefix's
      bool result (true lets the game's own method run), `result` is the
      `out byte[] __result` it assigned (`None` for null). */
  datatype PrefixResult = PrefixResult(runOriginal: bool, result: Option<Bytes>)
  {
    /** Every prefix in the mod either declines with a null result or takes
        over with a non-null one; no other combination is ever returned. */
    predicate WellFormed() {
      runOriginal <==> result.None?
    }
  }

  /** `__result = null; return true;` */
  const RunOriginal: PrefixResult := PrefixResult(true, None)

  /** `__result = bytes; return false;` */
  function Handled(bytes: Bytes): (r: PrefixResult)
    ensures r.WellFormed() && !r.runOriginal
  {
    PrefixResult(false, Some(bytes))
  }

  /** The two kinds of failure the hooks tell apart: `IOException` (and its
      subclasses) and everything else. */
  datatype Exception = IOException | OtherException

  /** Outcome of running a `GZipStream(..., Decompress).CopyTo` over a
      payload. Each reader is given the decoder it calls as a parameter: the
      newer reader uses `System.IO.Compression.GZipStream`, the older
      `LoadSystem` reader uses `Ionic.Zlib.GZipStream` (DotNetZip). */
  datatype Gunzip = Ok(bytes: Bytes) | IOError | OtherError

  /** How a hook call ends: it returns its pair, or an exception escapes it
      into the host. */
  datatype Completion = Returned(value: PrefixResult) | Threw(exn: Exception)
}
