/** Turning the `href` of a link on a careers page into the URL that is fetched. */
module Links {
  import opened Text

  /**
   * An `href` starting with "http" is taken as absolute and kept; any other
   * one is appended, after a single "/", to the page URL stripped of its
   * trailing slashes.
   */
  function Resolve(base: string, href: string): (r: string)
    ensures StartsWith(href, "http") ==> r == href
    ensures EndsWith(r, href)
  {
    if StartsWith(href, "http") then href else RStrip(base, '/') + "/" + href
  }

  /**
   * The stem in front of a relative `href` is exactly the base without its
   * trailing slashes: any prefix of the base that keeps no trailing slash and
   * leaves only slashes behind is that stem.
   */
  lemma ResolveRelative(base: string, href: string, stem: string)
    requires !StartsWith(href, "http")
    requires |stem| <= |base| && stem == base[..|stem|]
    requires |stem| == 0 || stem[|stem| - 1] != '/'
    requires forall i :: |stem| <= i < |base| ==> base[i] == '/'
    ensures Resolve(base, href) == stem + "/" + href
    ensures Resolve(base, href)[..|stem| + 1] == stem + "/"
  {
    RStripUnique(base, '/', stem);
  }

  /** However many slashes end the base, the resolved URL is the same (a relative `href` gets exactly one before it). */
  lemma ResolveIgnoresTrailingSlashes(base: string, href: string, n: nat)
    ensures Resolve(base + Slashes(n), href) == Resolve(base, href)
  {
    var s := base + Slashes(n);
    var stem := RStrip(base, '/');
    assert s[..|stem|] == stem;
    forall i | |stem| <= i < |s|
      ensures s[i] == '/'
    {
      if i >= |base| {
        assert s[i] == Slashes(n)[i - |base|];
      }
    }
    RStripUnique(s, '/', stem);
  }

  /** `n` slashes. */
  function Slashes(n: nat): (r: string)
    ensures |r| == n
    ensures forall i :: 0 <= i < n ==> r[i] == '/'
  {
    if n == 0 then "" else Slashes(n - 1) + "/"
  }

  /**
   * The test looks only at the first four characters, so a relative link
   * that happens to begin with "http" is used as it stands.
   */
  lemma HttpPrefixedRelativeKept()
    ensures Resolve("https://careers.example.com/", "httpdocs/job-1.html") == "httpdocs/job-1.html"
  {
    assert "httpdocs/job-1.html"[..4] == "http";
  }
}
