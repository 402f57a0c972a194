/**
 * What the pipeline takes from outside: the filesystem's existence test, the
 * base64 encoding of an image file, the remote endpoint and the calendar date.
 */
module Environment {
  import opened Wrappers
  import opened Envelope

  /** The parsed JSON body of a successful completion call, kept opaque. */
  datatype Response = Response(json: string)

  /**
   * `onDisk` stands for `os.path.exists`; `encode` for reading and base64
   * encoding a file; `endpoint(payload, k)` for attempt number `k` (from 0)
   * of the POST plus the extraction of `choices[0].message.content`, `None`
   * when that attempt raises; `today` for `strftime("%Y-%m-%d")`.
   */
  datatype Env = Env(onDisk: string -> bool, encode: string -> string,
                     endpoint: (Payload, nat) -> Option<Response>, today: string)
}
