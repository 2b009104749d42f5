/**
 * The shapes of the VATSIM v3 datafeed that the ATIS core reads. The feed itself is
 * produced by an external client; only the fields used by the resolver are modelled.
 */
module Feed {
  import opened Wrappers

  /** One published ATIS broadcast: its callsign (`KXYZ_ATIS`, `KXYZ_A_ATIS`, ...), the
      structured information letter if the feed gives one, and the broadcast text lines. */
  datatype Atis = Atis(callsign: string, atisCode: Option<string>, textAtis: Option<seq<string>>)

  /** A datafeed snapshot, reduced to its ordered list of ATIS broadcasts. */
  datatype V3ResponseData = V3ResponseData(atis: seq<Atis>)

  /** Why a datafeed fetch failed: the client could not be constructed, or the request
      (network, upstream or deserialisation) failed with the given message. */
  datatype FetchError = ClientNotInitialized | RequestFailed(message: string)
}
