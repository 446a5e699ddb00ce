/**
 * The configuration item a config source hands out: a key and its raw
 * payload.  Decoding a payload (YAML) is a foreign codec; consumers take
 * the decoder as a parameter.
 */
module ConfigData {
  datatype Data = Data(raw: string)

  datatype Spec = Spec(key: string, data: Data)

  /**
   * What a watcher's Watch call gave a refresh loop: specs, a deadline or
   * close error (the loop ends), or another error (the loop goes on).
   */
  datatype WatchOutcome = Specs(specs: seq<Spec>) | DeadlineOrClosed | OtherError
}
