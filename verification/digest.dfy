/**
 * The digest `send_email` builds: one Markdown-style line per job, the same
 * text with line breaks turned into `<br>` for the HTML part, and no message
 * at all when there are no jobs.
 */
module Digest {
  import opened Wrappers
  import opened Text
  import Scrape

  /** The fixed subject line (the first character is the brain emoji). */
  const Subject: string := "\U{1F9E0} Data Analyst Job Alerts"

  /** The parts of the mail that this model builds. */
  datatype Message = Message(subject: string, plainText: string, html: string)

  /** A job's line, without its terminator: `- company: [title](url) - location`. */
  function Entry(j: Scrape.Job): string {
    "- " + j.company + ": [" + j.title + "](" + j.url + ") - " + j.location
  }

  /** The entries of `jobs` in order, each followed by `eol`. */
  function Rendered(jobs: seq<Scrape.Job>, eol: string): string
    decreases |jobs|
  {
    if |jobs| == 0 then "" else Entry(jobs[0]) + eol + Rendered(jobs[1..], eol)
  }

  /** The plain-text body: every job's line ended by a newline. */
  function Content(jobs: seq<Scrape.Job>): string {
    Rendered(jobs, "\n")
  }

  /** The HTML body: the plain text with each newline replaced by `<br>`. */
  function ToHtml(content: string): (r: string)
    ensures '\n' !in r
  {
    ReplaceChar(content, '\n', "<br>")
  }

  /** The message `send_email` hands to the mail client, or None when there is nothing to send. */
  function Compose(jobs: seq<Scrape.Job>): (r: Option<Message>)
    ensures r.None? <==> |jobs| == 0
    ensures r.Some? ==> r.value.subject == Subject
    ensures r.Some? ==> r.value.plainText == Content(jobs)
    ensures r.Some? ==> '\n' !in r.value.html && r.value.html == ToHtml(r.value.plainText)
  {
    if |jobs| == 0 then None
    else
      var content := Content(jobs);
      Some(Message(Subject, content, ToHtml(content)))
  }

  /** No field of the job holds a line break. */
  predicate SingleLine(j: Scrape.Job) {
    '\n' !in j.company && '\n' !in j.title && '\n' !in j.url && '\n' !in j.location
  }

  lemma EntrySingleLine(j: Scrape.Job)
    requires SingleLine(j)
    ensures '\n' !in Entry(j)
  {
  }

  /** Rendering a concatenation renders each part in turn. */
  lemma {:induction false} RenderedAppend(a: seq<Scrape.Job>, b: seq<Scrape.Job>, eol: string)
    ensures Rendered(a + b, eol) == Rendered(a, eol) + Rendered(b, eol)
    decreases |a|
  {
    if |a| == 0 {
      assert a + b == b;
    } else {
      assert (a + b)[0] == a[0];
      assert (a + b)[1..] == a[1..] + b;
      RenderedAppend(a[1..], b, eol);
    }
  }

  /**
   * When no field holds a line break, the plain text splits back into exactly
   * one line per job, in input order.
   */
  lemma {:induction false} ContentLines(jobs: seq<Scrape.Job>)
    requires forall i :: 0 <= i < |jobs| ==> SingleLine(jobs[i])
    ensures Lines(Content(jobs)) == seq(|jobs|, i requires 0 <= i < |jobs| => Entry(jobs[i]))
    decreases |jobs|
  {
    if |jobs| > 0 {
      var e := Entry(jobs[0]);
      var rest := Content(jobs[1..]);
      EntrySingleLine(jobs[0]);
      ContentLines(jobs[1..]);
      LinesCons(e, rest);
      assert Content(jobs) == e + "\n" + rest;
      var tail := seq(|jobs| - 1, i requires 0 <= i < |jobs| - 1 => Entry(jobs[1..][i]));
      assert Lines(Content(jobs)) == [e] + tail;
      assert forall i :: 0 <= i < |jobs| ==> ([e] + tail)[i] == Entry(jobs[i]);
    }
  }

  /** When no field holds a line break, the plain text has exactly one newline per job. */
  lemma {:induction false} ContentNewlines(jobs: seq<Scrape.Job>)
    requires forall i :: 0 <= i < |jobs| ==> SingleLine(jobs[i])
    ensures CountChar(Content(jobs), '\n') == |jobs|
    decreases |jobs|
  {
    if |jobs| > 0 {
      var e := Entry(jobs[0]);
      var rest := Content(jobs[1..]);
      EntrySingleLine(jobs[0]);
      ContentNewlines(jobs[1..]);
      assert Content(jobs) == e + ("\n" + rest);
      CountCharAppend(e, "\n" + rest, '\n');
      CountCharAppend("\n", rest, '\n');
      CountCharAbsent(e, '\n');
      assert CountChar("\n", '\n') == 1 by {
        assert "\n"[1..] == "";
      }
    }
  }

  lemma {:induction false} CountCharAppend(a: string, b: string, c: char)
    ensures CountChar(a + b, c) == CountChar(a, c) + CountChar(b, c)
    decreases |a|
  {
    if |a| > 0 {
      assert (a + b)[0] == a[0];
      assert (a + b)[1..] == a[1..] + b;
      CountCharAppend(a[1..], b, c);
    } else {
      assert a + b == b;
    }
  }

  lemma {:induction false} CountCharAbsent(s: string, c: char)
    requires c !in s
    ensures CountChar(s, c) == 0
    decreases |s|
  {
    if |s| > 0 {
      assert c !in s[1..];
      CountCharAbsent(s[1..], c);
    }
  }

  /**
   * When no field holds a line break, the HTML body is the same entries in
   * the same order, each ended by `<br>` instead of a newline.
   */
  lemma {:induction false} HtmlRendering(jobs: seq<Scrape.Job>)
    requires forall i :: 0 <= i < |jobs| ==> SingleLine(jobs[i])
    ensures ToHtml(Content(jobs)) == Rendered(jobs, "<br>")
    decreases |jobs|
  {
    if |jobs| > 0 {
      var e := Entry(jobs[0]);
      EntrySingleLine(jobs[0]);
      HtmlRendering(jobs[1..]);
      assert Content(jobs) == e + "\n" + Content(jobs[1..]);
      ReplaceCharAppend(e + "\n", Content(jobs[1..]), '\n', "<br>");
      ReplaceCharAppend(e, "\n", '\n', "<br>");
      assert ReplaceChar("\n", '\n', "<br>") == "<br>";
    }
  }
}
