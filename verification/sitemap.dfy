/** The sitemap: one entry per public route, with the route's absolute URL, a
    shared modification date, a monthly change frequency and a priority that
    favours the home page. */
module Sitemap {

  const BaseUrl := "https://christianseemann.space"

  /** The routes listed, in order; the empty route is the home page. */
  const Routes: seq<string> := [
    "",
    "landing",
    "vita",
    "contact",
    "legal",
    "portfolio/globe-installation",
    "portfolio/morphonic-lab",
    "portfolio/laser-cyanotype",
    "portfolio/new-ecologies",
    "portfolio/sinks"
  ]

  const Monthly := "monthly"

  /** A sitemap entry; the date is whatever value the caller shares. */
  datatype Entry<Date> = Entry(url: string, lastModified: Date, changeFrequency: string, priority: real)

  predicate EndsWithSlash(s: string) {
    |s| > 0 && s[|s| - 1] == '/'
  }

  /** `.replace(/\/$/, "")`: at most one slash is cut, and only at the end. */
  function StripTrailingSlash(s: string): (r: string)
    ensures |s| - 1 <= |r| <= |s|
    ensures r == s[..|r|]
    ensures |r| < |s| <==> EndsWithSlash(s)
  {
    if EndsWithSlash(s) then s[..|s| - 1] else s
  }

  /** `${BASE_URL}/${path}` without a trailing slash. */
  function Url(path: string): (r: string)
    ensures path == "" ==> r == BaseUrl
    ensures path != "" ==> r == BaseUrl + "/" + StripTrailingSlash(path)
  {
    var joined := BaseUrl + "/" + path;
    if path == "" then
      assert StripTrailingSlash(joined) == BaseUrl;
      StripTrailingSlash(joined)
    else
      assert joined[..|joined| - 1] == BaseUrl + "/" + path[..|path| - 1];
      StripTrailingSlash(joined)
  }

  /** Priority 1 for the home page, 0.6 for every other route. */
  function Priority(path: string): (r: real)
    ensures r == 1.0 <==> path == ""
    ensures path != "" ==> r == 0.6
  {
    if path == "" then 1.0 else 0.6
  }

  function EntryFor<Date>(path: string, lastModified: Date): Entry<Date> {
    Entry(Url(path), lastModified, Monthly, Priority(path))
  }

  /** `routes.map(...)`. */
  function Entries<Date>(routes: seq<string>, lastModified: Date): (r: seq<Entry<Date>>)
    ensures |r| == |routes|
    ensures forall i :: 0 <= i < |r| ==> r[i] == EntryFor(routes[i], lastModified)
  {
    seq(|routes|, i requires 0 <= i < |routes| => EntryFor(routes[i], lastModified))
  }

  /** `sitemap()`, with the date it reads passed in. */
  function SiteMap<Date>(lastModified: Date): (r: seq<Entry<Date>>)
    ensures |r| == |Routes|
    ensures forall i :: 0 <= i < |r| ==>
      r[i].lastModified == lastModified && r[i].changeFrequency == Monthly
  {
    Entries(Routes, lastModified)
  }

  /** The route a URL of this site stands for. */
  function PathOf(url: string): string {
    if |url| <= |BaseUrl| + 1 then "" else url[|BaseUrl| + 1..]
  }

  /** A route without a trailing slash is recovered from its URL. */
  lemma UrlRoundTrip(path: string)
    requires !EndsWithSlash(path)
    ensures PathOf(Url(path)) == path
  {
    if path != "" {
      var u := Url(path);
      assert u == BaseUrl + "/" + path;
      assert u[|BaseUrl| + 1..] == path;
    }
  }

  /** Distinct routes without trailing slashes get distinct URLs. */
  lemma UrlInjective(p: string, q: string)
    requires !EndsWithSlash(p) && !EndsWithSlash(q) && p != q
    ensures Url(p) != Url(q)
  {
    UrlRoundTrip(p);
    UrlRoundTrip(q);
  }

  /** The URL of a route ending in a slash loses exactly that slash. */
  lemma OnlyOneSlashStripped(path: string)
    requires EndsWithSlash(path)
    ensures Url(path) == BaseUrl + "/" + path[..|path| - 1]
    ensures EndsWithSlash(path[..|path| - 1]) ==> EndsWithSlash(Url(path))
  {
  }

  /** Each entry of the sitemap is its route's: the URL names the route, the
      change frequency is monthly, the date is shared, and only the home page
      has priority 1. */
  lemma SiteMapEntries<Date>(lastModified: Date)
    ensures |SiteMap(lastModified)| == |Routes|
    ensures forall i :: 0 <= i < |Routes| ==>
      && PathOf(SiteMap(lastModified)[i].url) == Routes[i]
      && SiteMap(lastModified)[i].changeFrequency == Monthly
      && SiteMap(lastModified)[i].lastModified == lastModified
      && (SiteMap(lastModified)[i].priority == 1.0 <==> i == 0)
    ensures SiteMap(lastModified)[0].url == BaseUrl
  {
    forall i | 0 <= i < |Routes|
      ensures PathOf(SiteMap(lastModified)[i].url) == Routes[i]
      ensures Routes[i] == "" <==> i == 0
    {
      assert !EndsWithSlash(Routes[i]);
      UrlRoundTrip(Routes[i]);
    }
  }

  /** No two entries of the sitemap share a URL. */
  lemma SiteMapUrlsDistinct<Date>(lastModified: Date)
    ensures forall i, j :: 0 <= i < j < |Routes| ==>
      SiteMap(lastModified)[i].url != SiteMap(lastModified)[j].url
  {
    forall i, j | 0 <= i < j < |Routes|
      ensures SiteMap(lastModified)[i].url != SiteMap(lastModified)[j].url
    {
      assert Routes[i] != Routes[j];
      assert !EndsWithSlash(Routes[i]) && !EndsWithSlash(Routes[j]);
      UrlInjective(Routes[i], Routes[j]);
    }
  }
}
