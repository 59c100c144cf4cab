/**
 * The matching pass of `scrape_jobs`: for each company, take the links of
 * its careers page, resolve each one and keep those whose text and linked
 * page text pass the classifier.  Fetching and HTML parsing happen outside
 * the model: their results are part of the input, and a request that raised
 * is `None`.
 */
module Scrape {
  import opened Wrappers
  import Classifier
  import Links

  /** One entry of the companies list; each key may be missing. */
  datatype Company = Company(name: Option<string>, url: Option<string>, location: Option<string>)

  /**
   * An `<a href>` element of a careers page: its stripped text, its `href`,
   * and the visible text of the page its resolved URL leads to (None when
   * fetching that page raised).
   */
  datatype Link = Link(text: string, href: string, description: Option<string>)

  /** A company and the links of its careers page (None when fetching the page raised). */
  datatype Source = Source(company: Company, links: Option<seq<Link>>)

  /** A matched posting, as appended to the result list. */
  datatype Job = Job(title: string, url: string, company: string, location: string)

  /** The KeyError that escapes `scrape_jobs` when a company has no "url". */
  datatype ScrapeError = MissingKey(key: string)

  /** A verdict on a (link text, page text) pair. */
  type Classify = (string, string) -> bool

  /** The verdict `scrape_jobs` uses. */
  function DataAnalyst(): Classify {
    (title: string, description: string) => Classifier.IsDataAnalystJob(title, description)
  }

  /**
   * A link is kept when its page was fetched, `accept` approves its text and
   * page text, and the company has a name (a missing name raises inside the
   * per-link handler and skips the link).
   */
  predicate Kept(accept: Classify, c: Company, l: Link) {
    l.description.Some? && accept(l.text, l.description.value) && c.name.Some?
  }

  /** The record a kept link becomes; the location defaults to "". */
  function Record(c: Company, base: string, l: Link): Job
    requires c.name.Some?
  {
    Job(l.text, Links.Resolve(base, l.href), c.name.value, c.location.GetOr(""))
  }

  /** What one link adds to the result: its record when it is kept, nothing otherwise. */
  function Emit(accept: Classify, c: Company, base: string, l: Link): seq<Job> {
    if Kept(accept, c, l) then [Record(c, base, l)] else []
  }

  /** The records of the kept links, in link order. */
  function FilterLinks(accept: Classify, c: Company, base: string, links: seq<Link>): seq<Job>
    decreases |links|
  {
    if |links| == 0 then []
    else Emit(accept, c, base, links[0]) + FilterLinks(accept, c, base, links[1..])
  }

  /** Filtering distributes over concatenation of link lists. */
  lemma {:induction false} FilterLinksAppend(accept: Classify, c: Company, base: string, a: seq<Link>, b: seq<Link>)
    ensures FilterLinks(accept, c, base, a + b) == FilterLinks(accept, c, base, a) + FilterLinks(accept, c, base, b)
    decreases |a|
  {
    if |a| == 0 {
      assert a + b == b;
    } else {
      assert (a + b)[0] == a[0];
      assert (a + b)[1..] == a[1..] + b;
      FilterLinksAppend(accept, c, base, a[1..], b);
    }
  }

  /** The body of the per-link loop: resolve the URL, classify, build the record. */
  method VisitLink(accept: Classify, c: Company, base: string, l: Link) returns (found: seq<Job>)
    ensures found == Emit(accept, c, base, l)
  {
    var jobUrl := Links.Resolve(base, l.href);
    found := [];
    if l.description.Some? {
      if accept(l.text, l.description.value) && c.name.Some? {
        found := [Job(l.text, jobUrl, c.name.value, c.location.GetOr(""))];
      }
    }
  }

  /** The per-link loop of `scrape_jobs`, appending each kept link's record. */
  method ScrapeLinks(accept: Classify, c: Company, base: string, links: seq<Link>) returns (jobs: seq<Job>)
    ensures jobs == FilterLinks(accept, c, base, links)
  {
    jobs := [];
    var i := 0;
    while i < |links|
      invariant 0 <= i <= |links|
      invariant jobs + FilterLinks(accept, c, base, links[i..]) == FilterLinks(accept, c, base, links)
    {
      var found := VisitLink(accept, c, base, links[i]);
      ghost var later := FilterLinks(accept, c, base, links[i + 1..]);
      assert links[i..][0] == links[i] && links[i..][1..] == links[i + 1..];
      assert FilterLinks(accept, c, base, links[i..]) == found + later;
      assert jobs + (found + later) == (jobs + found) + later;
      jobs := jobs + found;
      i := i + 1;
    }
    assert links[i..] == [];
  }

  /** Positions `i` and beyond of the links that are kept, in increasing order. */
  function KeptFrom(accept: Classify, c: Company, links: seq<Link>, i: nat): seq<nat>
    decreases |links| - i
  {
    if i >= |links| then []
    else (if Kept(accept, c, links[i]) then [i] else []) + KeptFrom(accept, c, links, i + 1)
  }

  /** Every position listed is in range, at or after `i`, and kept. */
  lemma {:induction false} KeptFromSound(accept: Classify, c: Company, links: seq<Link>, i: nat)
    ensures forall k :: 0 <= k < |KeptFrom(accept, c, links, i)| ==>
      i <= KeptFrom(accept, c, links, i)[k] < |links|
      && Kept(accept, c, links[KeptFrom(accept, c, links, i)[k]])
    decreases |links| - i
  {
    if i < |links| {
      KeptFromSound(accept, c, links, i + 1);
    }
  }

  /** The positions are listed in increasing order, so none twice. */
  lemma {:induction false} KeptFromSorted(accept: Classify, c: Company, links: seq<Link>, i: nat)
    ensures forall k, l :: 0 <= k < l < |KeptFrom(accept, c, links, i)| ==>
      KeptFrom(accept, c, links, i)[k] < KeptFrom(accept, c, links, i)[l]
    decreases |links| - i
  {
    if i < |links| {
      KeptFromSound(accept, c, links, i + 1);
      KeptFromSorted(accept, c, links, i + 1);
    }
  }

  /** Every kept position at or after `i` is listed. */
  lemma {:induction false} KeptFromComplete(accept: Classify, c: Company, links: seq<Link>, i: nat)
    ensures forall j :: i <= j < |links| && Kept(accept, c, links[j]) ==> j in KeptFrom(accept, c, links, i)
    decreases |links| - i
  {
    if i < |links| {
      KeptFromComplete(accept, c, links, i + 1);
    }
  }

  /** The records from position `i` on are those of the listed positions, one each, in order. */
  lemma {:induction false} FilterLinksAtKept(accept: Classify, c: Company, base: string, links: seq<Link>, i: nat)
    requires i <= |links|
    ensures var idx := KeptFrom(accept, c, links, i);
      var out := FilterLinks(accept, c, base, links[i..]);
      |out| == |idx| && forall k :: 0 <= k < |idx| ==>
        idx[k] < |links| && Kept(accept, c, links[idx[k]]) && out[k] == Record(c, base, links[idx[k]])
    decreases |links| - i
  {
    KeptFromSound(accept, c, links, i);
    if i < |links| {
      FilterLinksAtKept(accept, c, base, links, i + 1);
      assert links[i..][0] == links[i];
      assert links[i..][1..] == links[i + 1..];
    }
  }

  /**
   * The filter pass keeps exactly the links that pass: the records are those
   * of the kept links, one each, in link order, and no kept link is missed.
   */
  lemma FilterLinksExact(accept: Classify, c: Company, base: string, links: seq<Link>)
    ensures var idx := KeptFrom(accept, c, links, 0);
      var out := FilterLinks(accept, c, base, links);
      && |out| == |idx|
      && (forall k :: 0 <= k < |idx| ==>
            idx[k] < |links|
            && links[idx[k]].description.Some?
            && accept(links[idx[k]].text, links[idx[k]].description.value)
            && c.name.Some?
            && out[k] == Job(links[idx[k]].text, Links.Resolve(base, links[idx[k]].href),
                             c.name.value, c.location.GetOr("")))
      && (forall k, l :: 0 <= k < l < |idx| ==> idx[k] < idx[l])
      && (forall j :: 0 <= j < |links| && Kept(accept, c, links[j]) ==> j in idx)
  {
    KeptFromSorted(accept, c, links, 0);
    KeptFromComplete(accept, c, links, 0);
    FilterLinksAtKept(accept, c, base, links, 0);
    assert links[0..] == links;
  }

  /** Every company has a "url". */
  predicate HaveUrls(sources: seq<Source>)
    decreases |sources|
  {
    |sources| == 0 || (sources[0].company.url.Some? && HaveUrls(sources[1..]))
  }

  /**
   * A company's contribution: nothing when its careers page could not be
   * fetched. A company without a "url" never gets this far and adds nothing.
   */
  function Contribution(accept: Classify, s: Source): seq<Job> {
    match s.company.url
    case None => []
    case Some(url) =>
      match s.links
      case None => []
      case Some(links) => FilterLinks(accept, s.company, url, links)
  }

  /** The companies' contributions, in list order. */
  function Collect(accept: Classify, sources: seq<Source>): seq<Job>
    decreases |sources|
  {
    if |sources| == 0 then []
    else Contribution(accept, sources[0]) + Collect(accept, sources[1..])
  }

  /**
   * `scrape_jobs(companies)`: the KeyError raised by a company without a
   * "url" (it escapes both handlers, so nothing is returned), or else every
   * company's contribution in list order.
   */
  function ScrapeJobs(accept: Classify, sources: seq<Source>): Result<seq<Job>, ScrapeError> {
    if HaveUrls(sources) then Success(Collect(accept, sources)) else Failure(MissingKey("url"))
  }

  lemma {:induction false} HaveUrlsIff(sources: seq<Source>)
    ensures HaveUrls(sources) <==> forall i :: 0 <= i < |sources| ==> sources[i].company.url.Some?
    decreases |sources|
  {
    if |sources| > 0 {
      HaveUrlsIff(sources[1..]);
      if !HaveUrls(sources) && sources[0].company.url.Some? {
        var i :| 0 <= i < |sources[1..]| && sources[1..][i].company.url.None?;
        assert sources[i + 1].company.url.None?;
      }
    }
  }

  /** The scrape fails, with the "url" KeyError, exactly when some company lacks a "url". */
  lemma ScrapeJobsFailsIff(accept: Classify, sources: seq<Source>)
    ensures ScrapeJobs(accept, sources).Failure? <==>
      exists i :: 0 <= i < |sources| && sources[i].company.url.None?
    ensures ScrapeJobs(accept, sources).Failure? ==> ScrapeJobs(accept, sources).error == MissingKey("url")
  {
    HaveUrlsIff(sources);
  }

  /** Scraping one more company appends its contribution after the earlier ones. */
  lemma {:induction false} CollectSnoc(accept: Classify, sources: seq<Source>, s: Source)
    ensures Collect(accept, sources + [s]) == Collect(accept, sources) + Contribution(accept, s)
    decreases |sources|
  {
    var ss := sources + [s];
    if |sources| == 0 {
      assert ss[1..] == [];
    } else {
      assert ss[0] == sources[0];
      assert ss[1..] == sources[1..] + [s];
      CollectSnoc(accept, sources[1..], s);
    }
  }

  /** The suffix from position `i` on splits into company `i` and the rest. */
  lemma CollectStep(accept: Classify, sources: seq<Source>, i: nat)
    requires i < |sources|
    ensures Collect(accept, sources[i..]) == Contribution(accept, sources[i]) + Collect(accept, sources[i + 1..])
    ensures HaveUrls(sources[i..]) == (sources[i].company.url.Some? && HaveUrls(sources[i + 1..]))
  {
    assert sources[i..][0] == sources[i];
    assert sources[i..][1..] == sources[i + 1..];
  }

  /** The body of the loop over companies: run the per-link loop over the fetched page. */
  method VisitCompany(accept: Classify, s: Source) returns (found: seq<Job>)
    requires s.company.url.Some?
    ensures found == Contribution(accept, s)
  {
    found := [];
    if s.links.Some? {
      found := ScrapeLinks(accept, s.company, s.company.url.value, s.links.value);
    }
  }

  /** The loop over companies of `scrape_jobs`, stopping at the first KeyError. */
  method ScrapeAll(accept: Classify, sources: seq<Source>) returns (r: Result<seq<Job>, ScrapeError>)
    ensures r == ScrapeJobs(accept, sources)
  {
    var jobs: seq<Job> := [];
    var i := 0;
    while i < |sources|
      invariant 0 <= i <= |sources|
      invariant HaveUrls(sources) == HaveUrls(sources[i..])
      invariant jobs + Collect(accept, sources[i..]) == Collect(accept, sources)
    {
      CollectStep(accept, sources, i);
      if sources[i].company.url.None? {
        return Failure(MissingKey("url"));
      }
      var found := VisitCompany(accept, sources[i]);
      ghost var later := Collect(accept, sources[i + 1..]);
      assert jobs + (found + later) == (jobs + found) + later;
      jobs := jobs + found;
      i := i + 1;
    }
    assert sources[i..] == [];
    assert Collect(accept, sources[i..]) == [];
    assert HaveUrls(sources[i..]);
    assert jobs == jobs + Collect(accept, sources[i..]);
    assert ScrapeJobs(accept, sources) == Success(Collect(accept, sources));
    return Success(jobs);
  }

  /** A kept link's record is among the records of the links. */
  lemma {:induction false} KeptInFilter(accept: Classify, c: Company, base: string, links: seq<Link>, l: Link)
    requires l in links && Kept(accept, c, l)
    ensures Record(c, base, l) in FilterLinks(accept, c, base, links)
    decreases |links|
  {
    if links[0] != l {
      assert l in links[1..];
      KeptInFilter(accept, c, base, links[1..], l);
    }
  }

  /** A company's contribution is part of the records collected over a list holding it. */
  lemma {:induction false} ContributionInCollect(accept: Classify, sources: seq<Source>, s: Source, j: Job)
    requires s in sources && j in Contribution(accept, s)
    ensures j in Collect(accept, sources)
    decreases |sources|
  {
    if sources[0] != s {
      assert s in sources[1..];
      ContributionInCollect(accept, sources[1..], s, j);
    }
  }

  /**
   * Every kept link on the fetched careers page of a company on the list is
   * reported by a successful scrape.
   */
  lemma ScrapeJobsComplete(accept: Classify, sources: seq<Source>, s: Source, l: Link)
    requires ScrapeJobs(accept, sources).Success?
    requires s in sources && s.company.url.Some? && s.links.Some?
    requires l in s.links.value && Kept(accept, s.company, l)
    ensures Record(s.company, s.company.url.value, l) in ScrapeJobs(accept, sources).value
  {
    KeptInFilter(accept, s.company, s.company.url.value, s.links.value, l);
    ContributionInCollect(accept, sources, s, Record(s.company, s.company.url.value, l));
  }

  /** `j` is the record of a kept link on the careers page of the company of `s`. */
  ghost predicate Produced(accept: Classify, s: Source, j: Job) {
    && s.company.url.Some?
    && s.links.Some?
    && exists l :: l in s.links.value && Kept(accept, s.company, l) && j == Record(s.company, s.company.url.value, l)
  }

  lemma ContributionProvenance(accept: Classify, s: Source, j: Job)
    requires j in Contribution(accept, s)
    ensures Produced(accept, s, j)
  {
    var url := s.company.url.value;
    var links := s.links.value;
    var out := FilterLinks(accept, s.company, url, links);
    FilterLinksExact(accept, s.company, url, links);
    var idx := KeptFrom(accept, s.company, links, 0);
    var k :| 0 <= k < |out| && out[k] == j;
    var l := links[idx[k]];
    assert l in links && Kept(accept, s.company, l) && j == Record(s.company, url, l);
  }

  /**
   * Every record of a successful scrape is the record of a kept link on the
   * careers page of a company on the list.
   */
  lemma {:induction false} ScrapeJobsProvenance(accept: Classify, sources: seq<Source>)
    requires ScrapeJobs(accept, sources).Success?
    ensures forall j :: j in ScrapeJobs(accept, sources).value ==>
      exists s :: s in sources && Produced(accept, s, j)
    decreases |sources|
  {
    if |sources| > 0 {
      var rest := sources[1..];
      assert HaveUrls(rest);
      ScrapeJobsProvenance(accept, rest);
      forall j | j in ScrapeJobs(accept, sources).value
        ensures exists s :: s in sources && Produced(accept, s, j)
      {
        if j in Contribution(accept, sources[0]) {
          ContributionProvenance(accept, sources[0], j);
          assert sources[0] in sources;
        } else {
          assert j in ScrapeJobs(accept, rest).value;
          var s :| s in rest && Produced(accept, s, j);
          assert s in sources;
        }
      }
    }
  }
}
