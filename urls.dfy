/** The parts of a WHATWG URL the modelled code reads. */
module Urls {
  import opened Wrappers

  datatype ParsedUrl = ParsedUrl(hostname: string, pathname: string)

  /** `new URL(s)`: `None` when the constructor throws. How URLs are parsed
      is not part of this model. */
  type UrlParser = string -> Option<ParsedUrl>
}
