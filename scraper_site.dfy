/** The site the scraper reads (`main.rs`): every page is addressed by a
    path relative to one base site. */
module ScraperSite {
  import opened Text

  const BASE_SITE: string := "https://sportowefakty.wp.pl"

  /** The schedule page of the current season. */
  const RELATIVE_MAIN: string := "/zuzel/pge-ekstraliga/terminarz"

  /** `format!("{BASE_SITE}{relative}")`: the base site followed by the
      relative path, which can be read back off the end. */
  function SiteUrl(relative: string): (url: string)
    ensures StartsWith(url, BASE_SITE)
    ensures url[|BASE_SITE|..] == relative
  {
    BASE_SITE + relative
  }

  /** Different relative paths give different addresses. */
  lemma SiteUrlInjective(a: string, b: string)
    requires SiteUrl(a) == SiteUrl(b)
    ensures a == b
  {
    assert a == SiteUrl(a)[|BASE_SITE|..];
  }
}
