/** The provider entries shared by the loader and formatter registries. */
module Providers {

  /** A registry entry: a predicate reporting, per candidate identifier, whether this provider
      handles it, and the module reference of the implementation it instantiates. */
  datatype Provider = Provider(claims: seq<string> -> seq<bool>, moduleId: string)
}
