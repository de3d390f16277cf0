/** The editor link both inspectors open: `${urlPrefix}${root}/${path}`. */
module Editor {
  import opened Wrappers
  import opened JsString

  /** The URL passed to `window.open` for a template path. */
  function EditorUrl(urlPrefix: string, root: string, path: string): (url: string)
    ensures StartsWith(url, urlPrefix + root + "/")
    ensures url[|urlPrefix + root + "/"|..] == path
  {
    urlPrefix + root + "/" + path
  }

  /** Reads the template path back out of an editor URL built with the same
      prefix and root. */
  function PathOfUrl(urlPrefix: string, root: string, url: string): Option<string> {
    var head := urlPrefix + root + "/";
    if StartsWith(url, head) then Some(url[|head|..]) else None
  }

  /** The path can always be recovered from the URL, and a URL the reader
      accepts is the one built from the path it reads. */
  lemma EditorUrlRoundTrip(urlPrefix: string, root: string, path: string, url: string)
    ensures PathOfUrl(urlPrefix, root, EditorUrl(urlPrefix, root, path)) == Some(path)
    ensures PathOfUrl(urlPrefix, root, url) == Some(path) ==> EditorUrl(urlPrefix, root, path) == url
  {
    var head := urlPrefix + root + "/";
    if PathOfUrl(urlPrefix, root, url) == Some(path) {
      assert url == url[..|head|] + url[|head|..];
    }
  }
}
