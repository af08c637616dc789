/** The error values of the adapters: Rust's std::io::Error (a kind and a display
    message) and the reason string the host binding receives. */
module Errors {

  /** The std::io::ErrorKind values the adapters produce or test for. */
  datatype ErrorKind = NotFound | InvalidInput | InvalidData | Other

  /** An io::Error as `Error::new(kind, message)` builds it; `message` is what
      `to_string()` yields. Errors that come from the operating system carry the
      text the OS gives for them. */
  datatype IoError = IoError(kind: ErrorKind, message: string)

  /** A napi::Error, of which only the reason string is observable. */
  datatype NapiError = NapiError(reason: string)

  /** `platform_error_to_napi`: prefixes the platform name (a build-time constant,
      here a parameter) to the error's message. */
  function PlatformErrorToNapi(os: string, e: IoError): (r: NapiError)
    ensures |r.reason| == |os| + |" clipboard error: "| + |e.message|
    ensures r.reason[|r.reason| - |e.message|..] == e.message
  {
    NapiError(os + " clipboard error: " + e.message)
  }
}
