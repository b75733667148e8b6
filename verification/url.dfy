/**
  The three URL components the detector reads. Parsing itself (the WHATWG URL
  Standard, section 4.4 "URL parsing" and section 3.5 "host parsing") is done by
  the platform's `URL` constructor and is not modelled: every operation that
  parses takes the parser as a parameter, and `None` stands for the exception
  the constructor throws.
 */
module Url {
  import opened Wrappers

  datatype ParsedUrl = ParsedUrl(protocol: string, hostname: string, pathname: string)

  /** `new URL(s)`: the parsed components, or `None` when the constructor throws. */
  type Parser = string -> Option<ParsedUrl>
}
