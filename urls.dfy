/** The parts of the browser's URL machinery the handlers consult. Parsing
    and percent-decoding are library behaviour outside the model: they enter
    as function-typed parameters, so every property proved about the handlers
    holds whichever parser and decoder the browser supplies. */
module Urls {
  import opened Js

  /** The two components of `new URL(s)` the handlers read. The protocol
      keeps its trailing colon ("https:"); the hostname is taken to be
      already normalised (lower-cased) by the parser. */
  datatype Url = Url(protocol: string, hostname: string)

  /** `new URL(s)`: Some(parts), or None where the constructor throws. */
  type Parser = string -> Option<Url>

  /** `decodeURIComponent(s)`: Some(decoded), or None where it throws a
      URIError on a malformed escape sequence. */
  type Decoder = string -> Option<string>

  const SecureProtocol := "https:"
}
