/** The catalog's reference paths: every entity's `url` is a fixed prefix
    followed by the entity's id. */
module CatalogUrl {
  import opened JsCore

  const AuthorPrefix: string := "/catalog/author/"
  const BookPrefix: string := "/catalog/book/"
  const BookInstancePrefix: string := "/catalog/bookinstance/"

  /** The id a reference path names, if the path starts with `prefix`. */
  function StripPrefix(prefix: string, path: string): (r: Option<string>)
    ensures r.Some? <==> prefix <= path
    ensures r.Some? ==> prefix + r.value == path
  {
    if prefix <= path then Some(path[|prefix|..]) else None
  }

  /** The reference path of the entity with id `id`; the id can be read back. */
  function PathFor(prefix: string, id: string): (path: string)
    ensures StripPrefix(prefix, path) == Some(id)
  {
    var path := prefix + id;
    assert path[|prefix|..] == id;
    path
  }
}
