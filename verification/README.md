# Job-alert matcher, modelled in Dafny

A model of the pure part of `job_alerts.py`, a script that scans company
careers pages for data-analyst postings and mails a digest of them. The model
covers four pieces of that script:

- **Classifier** (`is_data_analyst_job`): after lower-casing, the title must
  contain one of eight role keywords and the description at least one of
  nineteen skill keywords, each matched as a substring.
- **Link resolution**: an `href` beginning with `http` is used as it is;
  any other is joined to the careers-page URL stripped of trailing slashes,
  with one `/` between.
- **Matching pass of `scrape_jobs`**: for every company, every link on its
  page is resolved, its page fetched, and the link kept when the classifier
  accepts the link text and the page text. A kept link becomes a record of
  title, URL, company name and company location (default `""`).
- **Digest of `send_email`**: no message for an empty job list; otherwise a
  plain-text body with one `- company: [title](url) - location` line per job,
  and an HTML body that is the same text with each newline replaced by `<br>`.

Modules: `Wrappers` (Option, Result), `Text` (Python string operations),
`Classifier`, `Links`, `Scrape`, `Digest`, `Pipeline` (the `main` flow).

The network and the HTML parser stay outside the model: their results are
part of the input. A `Scrape.Source` is a company from the companies file
together with the links of its careers page (`None` when fetching the page
raised), and each `Scrape.Link` carries the link's stripped text, its `href`
and the visible text of the page at the link's resolved URL (`None` when
fetching that page raised). The scrape is generic in the classifier
(`Scrape.Classify`); `Scrape.DataAnalyst()` instantiates it with
`is_data_analyst_job`, as `Pipeline.Run` does.

`Classifier.Verdict` is the rule of `is_data_analyst_job` for any keyword
lists and threshold; `Classifier.IsDataAnalystJob` is that rule with the
script's two lists and threshold, and the general lemmas apply to it directly.

The comment above the skill count says at least two skills must match; the
code compares the count with 1. The model follows the code
(`Classifier.MinSkillMatches` is 1), and `Classifier.OneSkillSuffices`
exhibits a posting accepted on a single skill.

Two consequences of the code as written are stated as lemmas rather than
treated as defects: the skill keyword `"r"` matches any description holding
the letter r (`Classifier.LetterRIsASkill`), and a relative `href` that
happens to begin with `http` is used unresolved
(`Links.HttpPrefixedRelativeKept`).

## Model

| member | source | states |
|---|---|---|
| Text.Lower | job_alerts.py:34-35 | definition of `str.lower` on ASCII, length-preserving; characterised by Text.LowerIsLower |
| Text.Contains | job_alerts.py:38-42 | definition of Python's substring test `k in text` as a left-to-right scan; characterised by Text.ContainsIffOccurs |
| Text.ContainsIffOccurs | job_alerts.py:38 | the left-to-right scan used for `k in text` holds exactly when `k` occurs as a contiguous block of `text` at some position |
| Text.ContainsTransitive | job_alerts.py:42 | a keyword contained in a substring of a text is contained in the text |
| Text.ContainsLower | job_alerts.py:34-35 | lower-casing both text and keyword preserves a substring match |
| Text.LowerIsLower | job_alerts.py:34-35 | the lower-cased string has no upper-case ASCII letter, and a string without one is unchanged |
| Text.RStrip | job_alerts.py:59 | `rstrip("/")` returns a prefix of its input that does not end in `/`, and only `/` characters were removed |
| Text.RStripUnique | job_alerts.py:59 | any prefix with those three properties is the `rstrip` result, so the contract determines it |
| Text.RStripIdempotent | job_alerts.py:59 | stripping twice equals stripping once |
| Text.ReplaceChar | job_alerts.py:101 | replacing a character by a text without it leaves no occurrence; a string without the character is unchanged; with Text.ReplaceCharSingle and Text.ReplaceCharAppend every occurrence becomes the replacement |
| Text.ReplaceCharSingle | job_alerts.py:101 | a single character `c` becomes the replacement text and any other character stays as it is |
| Text.ReplaceCharAppend | job_alerts.py:101 | replacement distributes over concatenation |
| Text.LinesCons | job_alerts.py:92 | a newline-free piece followed by a newline splits off as the first line |
| Classifier.RoleKeywords | job_alerts.py:14-17 | definition: the eight role keywords, in the script's order |
| Classifier.SkillKeywords | job_alerts.py:19-23 | definition: the nineteen skill keywords, in the script's order |
| Classifier.Verdict | job_alerts.py:33-43 | definition of the rule for any keyword lists and threshold; characterised by Classifier.VerdictIff and Classifier.RejectsWithoutRole |
| Classifier.IsDataAnalystJob | job_alerts.py:33-43 | definition: the rule with the script's keyword lists and the code's threshold of 1; characterised by Classifier.AcceptsIff |
| Classifier.AnyInIff | job_alerts.py:38 | the role test holds exactly when some role keyword is contained in the title |
| Classifier.CountIn | job_alerts.py:42 | the skill count is at most the number of keywords, and positive exactly when some keyword matches |
| Classifier.CountInAppend | job_alerts.py:42 | counting over two keyword lists in turn adds the two counts |
| Classifier.CountInIsMatchedAtSize | job_alerts.py:42 | the count is the number of keyword entries that occur in the text, each entry adding one however often it occurs |
| Classifier.SkillMatchesBounds | job_alerts.py:19-23 | the skill count of any description lies in 0..19 and is the number of skill keywords the lower-cased description contains |
| Classifier.RejectsWithoutRole | job_alerts.py:37-39 | for any keyword lists and threshold, a title containing no role keyword after lower-casing is rejected whatever the description |
| Classifier.VerdictIff | job_alerts.py:33-43 | for any keyword lists, with a threshold of one the rule accepts if and only if the lower-cased title contains a role keyword and the lower-cased description a skill keyword |
| Classifier.AcceptsIff | job_alerts.py:33-43 | accepted if and only if the lower-cased title contains a role keyword and the lower-cased description contains at least one skill keyword |
| Classifier.OneSkillSuffices | job_alerts.py:41-43 | "Data Analyst" with description "SQL" is accepted: one skill meets the threshold |
| Classifier.LetterRIsASkill | job_alerts.py:20 | any description containing the letter r has a positive skill count |
| Classifier.CaseInsensitive | job_alerts.py:34-35 | for any keyword lists and threshold, lower-casing title or description beforehand does not change the verdict |
| Classifier.CountInMonotone | job_alerts.py:42 | a text containing another has a skill count at least as large |
| Classifier.MonotoneInDescription | job_alerts.py:42-43 | for any keyword lists and threshold, replacing an accepted description by any text containing it keeps the posting accepted |
| Classifier.MonotoneUnderExtension | job_alerts.py:42-43 | for any keyword lists and threshold, adding text before or after an accepted description keeps the posting accepted |
| Links.Resolve | job_alerts.py:59 | an `href` starting with `http` is returned unchanged, and the result always ends with the `href` |
| Links.ResolveRelative | job_alerts.py:59 | for any other `href` the result is the base without trailing slashes, one `/`, then the `href` |
| Links.ResolveIgnoresTrailingSlashes | job_alerts.py:59 | adding any number of trailing slashes to the base does not change the resolved URL |
| Links.HttpPrefixedRelativeKept | job_alerts.py:59 | the relative link `httpdocs/job-1.html` is returned as it stands |
| Scrape.FilterLinks | job_alerts.py:56-75 | definition of the per-link pass over one company's links; characterised by Scrape.FilterLinksExact |
| Scrape.FilterLinksAppend | job_alerts.py:56-75 | the matching pass over two link lists in turn yields the first list's records followed by the second's |
| Scrape.VisitLink | job_alerts.py:57-75 | one link yields its record when its page was fetched, the classifier accepts it and the company has a name, and nothing otherwise |
| Scrape.ScrapeLinks | job_alerts.py:56-75 | the per-link loop, appending as it goes, produces exactly the filtered record list |
| Scrape.KeptFromSound | job_alerts.py:56-75 | every listed kept position is in range and its link passes |
| Scrape.KeptFromSorted | job_alerts.py:56-75 | the kept positions are listed in increasing order, so each at most once |
| Scrape.KeptFromComplete | job_alerts.py:56-75 | every position whose link passes is listed |
| Scrape.FilterLinksAtKept | job_alerts.py:56-75 | the records from a position on are those of the listed kept positions, one each, in order |
| Scrape.FilterLinksExact | job_alerts.py:56-75 | the records are, in link order and one each, those of exactly the links whose page was fetched, whose text and page text the classifier accepts and whose company has a name; each holds the link text, resolved URL, company name and location or `""` |
| Scrape.ScrapeJobs | job_alerts.py:47-78 | definition of `scrape_jobs`; characterised by Scrape.ScrapeJobsFailsIff, Scrape.ScrapeJobsProvenance and Scrape.ScrapeJobsComplete |
| Scrape.HaveUrlsIff | job_alerts.py:49-50 | the check made before each company's request holds for the whole list exactly when every company has a "url" |
| Scrape.ScrapeJobsFailsIff | job_alerts.py:47-78 | the scrape fails, with the "url" KeyError, exactly when some company lacks a "url" |
| Scrape.CollectSnoc | job_alerts.py:49-77 | scraping one more company appends its contribution after the earlier companies' records |
| Scrape.CollectStep | job_alerts.py:49-77 | the companies from a position on contribute that company's records followed by the rest's, and all have a "url" exactly when it and the rest do |
| Scrape.VisitCompany | job_alerts.py:50-77 | a company with a "url" contributes nothing when its page could not be fetched, and otherwise the records of its kept links |
| Scrape.ScrapeAll | job_alerts.py:47-78 | the loop over companies, stopping at the first missing "url", computes the same result as the scrape |
| Scrape.ContributionProvenance | job_alerts.py:50-75 | every record a company contributes is the record of a kept link on its fetched careers page |
| Scrape.ScrapeJobsProvenance | job_alerts.py:47-78 | every record of a successful scrape comes from a kept link on the page of a company on the list |
| Scrape.KeptInFilter | job_alerts.py:56-73 | every kept link's record is among the records of the per-link pass |
| Scrape.ContributionInCollect | job_alerts.py:49-77 | every record a listed company contributes is among the collected records |
| Scrape.ScrapeJobsComplete | job_alerts.py:47-78 | every kept link on the fetched page of a company on the list is reported by a successful scrape; with `Scrape.DataAnalyst()` as the classifier this is the converse of Pipeline.AlertsPassClassifier |
| Digest.Entry | job_alerts.py:92 | definition of one job's line `- company: [title](url) - location` without its newline; characterised by Digest.ContentLines |
| Digest.Content | job_alerts.py:91-94 | definition of the plain-text body; characterised by Digest.ContentLines and Digest.ContentNewlines |
| Digest.ToHtml | job_alerts.py:101 | the HTML body contains no newline |
| Digest.Compose | job_alerts.py:82-102 | no message exactly when the job list is empty; otherwise the fixed subject, the plain-text body with one line per job, and an HTML body without newlines that is the plain text with newlines replaced |
| Digest.RenderedAppend | job_alerts.py:91-94 | the body of two job lists in turn is the first body followed by the second |
| Digest.ContentLines | job_alerts.py:91-94 | when no field holds a newline, the plain text splits back into exactly the jobs' lines, in input order |
| Digest.ContentNewlines | job_alerts.py:91-94 | when no field holds a newline, the plain text has exactly one newline per job |
| Digest.HtmlRendering | job_alerts.py:101 | when no field holds a newline, the HTML body is the same lines in order, each ended by `<br>` |
| Pipeline.Run | job_alerts.py:113-116 | a run fails exactly when some company lacks a "url"; otherwise the result is the digest of exactly the scraped jobs, so there is no message exactly when no job matched |
| Pipeline.AlertsPassClassifier | job_alerts.py:47-78 | every reported job's page was fetched and the classifier accepts its title and that page's text; its company and location come from a company on the list |

## Left out

- HTTP requests, timeouts and the bare `except: continue` handlers: a request that raises is a `None` in the input (`Source.links` or `Link.description`), and the company or link is skipped.
- HTML parsing (`find_all("a", href=True)`, `get_text`): the links and page texts are given as data; that the page text belongs to the link's resolved URL is the input's promise, not something the model checks.
- Reading `companies.json` (`load_companies`): the company list is an input; a key that may be missing is an `Option`.
- JSON values that are not strings (a `null` location would render as `None`): every field is a string or absent.
- The SendGrid client, the send call, its status and its error handler, and the `os.getenv` reads of sender, recipient and API key: `Digest.Compose` stops at the subject and the two bodies.
- The console messages printed by `send_email`.
- Text.Lower: Python's `str.lower` folds all of Unicode; the model folds only `A`–`Z`, so a non-ASCII character whose lower-case form is ASCII (such as the Kelvin sign) is not matched as the script would match it.
- Digest.ContentLines: the one-line-per-job property needs fields without newlines; a field with a newline (possible in a page's link text or the companies file) makes the script's line count differ from the job count.
