/**
 * The site map: one entry per public page, each at the deployment's base URL,
 * refreshed monthly, with the home page ranked above the rest. The clock and
 * the environment are parameters: `now` is the generation time and
 * `vercelUrl` the `VERCEL_URL` environment variable, if set.
 */
module Sitemap {
  import opened Js

  const StaticPages: seq<string> := ["", "/about", "/programs", "/governance",
    "/membership", "/bylaws", "/contact", "/donate"]

  datatype SitemapEntry = SitemapEntry(url: string, lastModified: int, changeFrequency: string, priority: real)

  /** The deployment's base URL: `https://` and the host when one is set,
      the local development server otherwise. */
  function BaseUrl(vercelUrl: Option<string>): (r: string)
    ensures Truthy(vercelUrl) ==> r == "https://" + vercelUrl.value
    ensures !Truthy(vercelUrl) ==> r == "http://localhost:9002"
  {
    if Truthy(vercelUrl) then "https://" + vercelUrl.value else "http://localhost:9002"
  }

  /** The base is a whole origin: a scheme, then a non-empty host, and no `/`
      after the scheme when the host has none; so `base + path` is the page's
      url for the empty path and for any path starting with `/`. */
  lemma BaseUrlShape(vercelUrl: Option<string>)
    ensures var r := BaseUrl(vercelUrl);
      var scheme := if Truthy(vercelUrl) then "https://" else "http://";
      && scheme <= r && |r| > |scheme|
      && (!Truthy(vercelUrl) || '/' !in vercelUrl.value ==> '/' !in r[|scheme|..])
  {
    var r := BaseUrl(vercelUrl);
    if Truthy(vercelUrl) {
      assert r[|"https://"|..] == vercelUrl.value;
    } else {
      assert r[|"http://"|..] == "localhost:9002";
    }
  }

  /** Every page path is empty or starts with `/`. */
  lemma PathsRooted(i: nat)
    requires i < |StaticPages|
    ensures StaticPages[i] == "" || StaticPages[i][0] == '/'
  {
  }

  function PageEntry(base: string, path: string, now: int): SitemapEntry {
    SitemapEntry(base + path, now, "monthly", if path == "" then 1.0 else 0.8)
  }

  /** `sitemap()`. */
  function Sitemap(vercelUrl: Option<string>, now: int): (r: seq<SitemapEntry>)
    ensures |r| == |StaticPages|
    ensures forall i :: 0 <= i < |r| ==>
      && r[i].url == BaseUrl(vercelUrl) + StaticPages[i]
      && r[i].lastModified == now
      && r[i].changeFrequency == "monthly"
      && r[i].priority == (if StaticPages[i] == "" then 1.0 else 0.8)
  {
    seq(|StaticPages|, i requires 0 <= i < |StaticPages| => PageEntry(BaseUrl(vercelUrl), StaticPages[i], now))
  }

  /** The page paths are pairwise distinct: they differ in length or, where
      the lengths agree, at a listed position. */
  lemma StaticPagesDistinct(i: nat, j: nat)
    requires i < |StaticPages| && j < |StaticPages| && i != j
    ensures StaticPages[i] != StaticPages[j]
  {
    var p, q := StaticPages[i], StaticPages[j];
    if |p| == |q| && |p| > 1 {
      assert p[1] != q[1] || p[2] != q[2];
    }
  }

  /** Two urls on the same base are equal only when their paths are. */
  lemma {:induction false} SameBaseCancels(base: string, p: string, q: string)
    requires base + p == base + q
    ensures p == q
  {
    assert p == (base + p)[|base|..];
    assert q == (base + q)[|base|..];
  }

  /** Every page appears once: the entries' urls are pairwise distinct, and
      only the home page, the first entry, has the top priority. */
  lemma EntriesDistinct(vercelUrl: Option<string>, now: int, i: nat, j: nat)
    requires i < |StaticPages| && j < |StaticPages|
    ensures i != j ==> Sitemap(vercelUrl, now)[i].url != Sitemap(vercelUrl, now)[j].url
    ensures Sitemap(vercelUrl, now)[i].priority == 1.0 <==> i == 0
  {
    if i != j {
      StaticPagesDistinct(i, j);
      if Sitemap(vercelUrl, now)[i].url == Sitemap(vercelUrl, now)[j].url {
        SameBaseCancels(BaseUrl(vercelUrl), StaticPages[i], StaticPages[j]);
      }
    }
    if i != 0 {
      assert StaticPages[i] != "" by { StaticPagesDistinct(0, i); }
    }
  }
}
