/**
 * The asset-path rule shared by the catalog page, the catalog carousel, the
 * projects carousel and the navigation bar: a relative media path is resolved
 * against the deployment prefix `basePath`.
 */
module AssetPath {

  predicate StartsWithSlash(path: string)
  {
    |path| > 0 && path[0] == '/'
  }

  /** The path with at most one leading "/" removed. */
  function StripLeadingSlash(path: string): (r: string)
    ensures StartsWithSlash(path) ==> path == "/" + r
    ensures !StartsWithSlash(path) ==> r == path
  {
    if StartsWithSlash(path) then path[1..] else path
  }

  /**
   * `${basePath}/${path.startsWith('/') ? path.substring(1) : path}`: the result is
   * the prefix, one separator, and the path with a single leading "/" dropped, so the
   * original path can be read back from everything after the separator.
   */
  function Normalize(basePath: string, path: string): (r: string)
    ensures |r| > |basePath| && r[..|basePath| + 1] == basePath + "/"
    ensures StartsWithSlash(path) ==> "/" + r[|basePath| + 1..] == path
    ensures !StartsWithSlash(path) ==> r[|basePath| + 1..] == path
  {
    var rest := StripLeadingSlash(path);
    var r := basePath + "/" + rest;
    assert r[|basePath| + 1..] == rest;
    r
  }

  /** A path without a leading "/" appears in full after the separator. */
  lemma NormalizeUnslashed(basePath: string, path: string)
    requires !StartsWithSlash(path)
    ensures Normalize(basePath, path) == basePath + "/" + path
  {
  }

  /** Writing the path with or without one leading "/" gives the same URL. */
  lemma NormalizeIgnoresOneSlash(basePath: string, path: string)
    requires !StartsWithSlash(path)
    ensures Normalize(basePath, "/" + path) == Normalize(basePath, path)
  {
    assert ("/" + path)[1..] == path;
  }

  /** Only one leading "/" is stripped: "//x" keeps one slash. */
  lemma NormalizeStripsOnlyOne(basePath: string, x: string)
    ensures Normalize(basePath, "//" + x) == basePath + "/" + "/" + x
  {
    assert ("//" + x)[1..] == "/" + x;
  }

  /** For a fixed prefix, two paths give the same URL exactly when they agree after one leading "/" is dropped. */
  lemma NormalizeInjective(basePath: string, p: string, q: string)
    ensures Normalize(basePath, p) == Normalize(basePath, q) <==> StripLeadingSlash(p) == StripLeadingSlash(q)
  {
    var rp, rq := Normalize(basePath, p), Normalize(basePath, q);
    if rp == rq {
      assert rp[|basePath| + 1..] == StripLeadingSlash(p);
      assert rq[|basePath| + 1..] == StripLeadingSlash(q);
    }
  }
}
