/** `toAbsoluteUrl` of the player (components/VideoPlayer.tsx): a URL that
    is already absolute is kept; any other is put behind the page's origin
    with exactly one '/' between them. */
module VideoPlayer {
  import opened Wrappers
  import opened JsString

  const Http := "http://"
  const Https := "https://"

  predicate IsAbsolute(url: string) {
    StartsWith(url, Http) || StartsWith(url, Https)
  }

  /** `origin` is `window.location.origin`, or `None` where `window` is
      undefined (rendering on the server), which counts as "". */
  function ToAbsoluteUrl(url: string, origin: Option<string>): (r: string)
    ensures IsAbsolute(url) ==> r == url
    ensures EndsWith(r, url)
    ensures !IsAbsolute(url) && StartsWith(url, "/") ==> r == origin.GetOr("") + url
    ensures !IsAbsolute(url) && !StartsWith(url, "/") ==> r == origin.GetOr("") + "/" + url
    ensures !IsAbsolute(url) ==> StartsWith(r, origin.GetOr("")) && |r| <= |origin.GetOr("")| + 1 + |url|
    ensures !IsAbsolute(url) ==> r[|origin.GetOr("")|] == '/'
  {
    if IsAbsolute(url) then url
    else
      var o := origin.GetOr("");
      var path := if StartsWith(url, "/") then url else "/" + url;
      var r := o + path;
      assert r[|r| - |url|..] == url;
      assert r[..|o|] == o;
      r
  }

  /** Without a window a relative URL becomes root-relative. */
  lemma NoWindowGivesRootRelative(url: string)
    requires !IsAbsolute(url)
    ensures StartsWith(ToAbsoluteUrl(url, None), "/")
  {
    var r := ToAbsoluteUrl(url, None);
    assert r[0] == '/';
  }

  /** A second application changes nothing when the origin is empty or
      itself absolute: the first result is then root-relative or absolute. */
  lemma ToAbsoluteUrlIdempotent(url: string, origin: Option<string>)
    requires origin.GetOr("") == "" || IsAbsolute(origin.GetOr(""))
    ensures ToAbsoluteUrl(ToAbsoluteUrl(url, origin), origin) == ToAbsoluteUrl(url, origin)
  {
    var o := origin.GetOr("");
    var r := ToAbsoluteUrl(url, origin);
    if !IsAbsolute(url) {
      if o == "" {
        assert r[0] == '/';
        assert StartsWith(r, "/");
      } else {
        assert StartsWith(r, o);
        if StartsWith(o, Http) {
          assert r[..|Http|] == o[..|Http|];
        } else {
          assert r[..|Https|] == o[..|Https|];
        }
      }
    }
  }

  /** The condition is needed: an opaque origin, which browsers report as
      "null", is prefixed again on every application. */
  lemma NullOriginNotIdempotent()
    ensures ToAbsoluteUrl("a", Some("null")) == "null/a"
    ensures ToAbsoluteUrl("null/a", Some("null")) == "null/null/a"
  {
  }
}
