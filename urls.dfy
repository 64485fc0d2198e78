/**
 * URLs as the app sees them. Parsing a URL string is Foundation's business and
 * enters the model as a parameter `parse: string -> Option<Url>`; a parsed web
 * URL keeps its text and its (optional) scheme. The URI representation of a
 * managed object's id is a URL of its own kind.
 */
module Urls {
  import opened Wrappers

  /** The identity CoreData gives a stored object. */
  datatype ObjectId = ObjectId(n: nat)

  datatype Url =
    | WebUrl(absoluteString: string, scheme: Option<string>)
    | ObjectUri(id: ObjectId)

  /** `URL.scheme`; object URIs use CoreData's own scheme. */
  function Scheme(u: Url): Option<string>
  {
    match u
    case WebUrl(_, scheme) => scheme
    case ObjectUri(_) => Some("x-coredata")
  }
}
