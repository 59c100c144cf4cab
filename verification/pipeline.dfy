/** `main()` once the companies list is loaded: scrape, then build the digest. */
module Pipeline {
  import opened Wrappers
  import Classifier
  import Links
  import Scrape
  import Digest

  /**
   * The digest for one run: the KeyError of a company without a "url", or
   * the message to send (None when nothing matched).
   */
  function Run(sources: seq<Scrape.Source>): (r: Result<Option<Digest.Message>, Scrape.ScrapeError>)
    ensures r.Failure? <==> !Scrape.HaveUrls(sources)
    ensures r.Success? ==> (r.value.None? <==> Scrape.ScrapeJobs(Scrape.DataAnalyst(), sources).value == [])
    ensures r.Success? ==> r.value == Digest.Compose(Scrape.ScrapeJobs(Scrape.DataAnalyst(), sources).value)
  {
    match Scrape.ScrapeJobs(Scrape.DataAnalyst(), sources)
    case Failure(e) => Failure(e)
    case Success(jobs) => Success(Digest.Compose(jobs))
  }

  /**
   * Every job the script reports comes from a link on a company's careers
   * page whose page was fetched and whose text, the job's title, the
   * classifier accepts together with that page's text; its URL is the link
   * resolved against the company URL, and its company and location are the
   * company's.
   */
  lemma AlertsPassClassifier(sources: seq<Scrape.Source>)
    requires Scrape.ScrapeJobs(Scrape.DataAnalyst(), sources).Success?
    ensures forall j :: j in Scrape.ScrapeJobs(Scrape.DataAnalyst(), sources).value ==>
      exists s, l ::
        && s in sources && s.company.url.Some? && s.links.Some? && l in s.links.value
        && l.description.Some?
        && j.title == l.text
        && Classifier.IsDataAnalystJob(j.title, l.description.value)
        && j.url == Links.Resolve(s.company.url.value, l.href)
        && s.company.name == Some(j.company)
        && j.location == s.company.location.GetOr("")
  {
    var accept := Scrape.DataAnalyst();
    Scrape.ScrapeJobsProvenance(accept, sources);
    forall j | j in Scrape.ScrapeJobs(accept, sources).value
      ensures exists s, l ::
        && s in sources && s.company.url.Some? && s.links.Some? && l in s.links.value
        && l.description.Some?
        && j.title == l.text
        && Classifier.IsDataAnalystJob(j.title, l.description.value)
        && j.url == Links.Resolve(s.company.url.value, l.href)
        && s.company.name == Some(j.company)
        && j.location == s.company.location.GetOr("")
    {
      var s :| s in sources && Scrape.Produced(accept, s, j);
      var l :| l in s.links.value && Scrape.Kept(accept, s.company, l)
        && j == Scrape.Record(s.company, s.company.url.value, l);
      assert accept(l.text, l.description.value);
    }
  }
}
