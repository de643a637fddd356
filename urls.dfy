/**
 * URLs are handled through their string form. Url resolution and the
 * predicates of the Url class are not part of this model: they are
 * supplied as uninterpreted functions.
 */
module Urls {

  type Url = string

  /** The operations of the Url class that the core consults. */
  datatype UrlOps = UrlOps(
    resolved: (Url, Url) -> Url,        // Url(u).resolved(base)
    pathExtension: Url -> string,       // Url::getPathExtension(u.path())
    hasHttpScheme: Url -> bool,
    isAbsolute: Url -> bool,
    isEmpty: Url -> bool,
    path: Url -> string)                // u.path()
}
