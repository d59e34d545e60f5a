/**
 * The entry page of the central web page: whatever location the resolver
 * settles on, the page it returns is an `index.html`.
 */
module EntryPoint {
  import opened Strings

  const IndexHtml: string := "index.html"
  const Slash: string := "/"

  /** The location treated as a folder: `url` itself when it already ends in `/`. */
  function AsFolder(url: string): (dir: string)
    ensures EndsWith(dir, Slash)
    ensures EndsWith(url, Slash) <==> dir == url
    ensures !EndsWith(url, Slash) ==> dir == url + Slash
  {
    if EndsWith(url, Slash) then url else url + Slash
  }

  /**
   * A location already ending in `index.html` is kept; any other one names a
   * folder whose `index.html` is the page.
   */
  function WithIndexHtml(url: string): (page: string)
    ensures EndsWith(page, IndexHtml)
    ensures EndsWith(url, IndexHtml) <==> page == url
    ensures !EndsWith(url, IndexHtml) ==> page[..|page| - |IndexHtml|] == AsFolder(url)
  {
    if EndsWith(url, IndexHtml) then url
    else AsFolder(url) + IndexHtml
  }

  /** Normalising a page a second time changes nothing. */
  lemma WithIndexHtmlIdempotent(url: string)
    ensures WithIndexHtml(WithIndexHtml(url)) == WithIndexHtml(url)
  {
  }

  /**
   * The normalised page extends the location: the location is a prefix of the
   * page and at most `/index.html` is added.
   */
  lemma WithIndexHtmlExtends(url: string)
    ensures url <= WithIndexHtml(url)
    ensures |WithIndexHtml(url)| <= |url| + |Slash| + |IndexHtml|
  {
  }

  /** A plain folder path gains `/index.html`. */
  lemma FolderPathExample()
    ensures WithIndexHtml("/local/dir/page") == "/local/dir/page/index.html"
  {
  }

  /** A URL ending in `/` gains only `index.html`. */
  lemma SlashUrlExample()
    ensures WithIndexHtml("http://example.org/") == "http://example.org/index.html"
  {
  }

  /**
   * The suffix test is textual: a location ending in `myindex.html` is kept
   * as it is, although it names a different page.
   */
  lemma SuffixTestIsTextual()
    ensures WithIndexHtml("http://example.org/myindex.html") == "http://example.org/myindex.html"
  {
  }
}
