/**
  Concrete runs of the model: fetches of a URL that never answers, with a whole
  and with a fractional backoff factor, and a cycle over two sites of which one
  lacks the keyword.
 */
module Scenarios {
  import opened Text
  import opened Fetcher
  import opened Notifier
  import opened Monitor

  function Unreachable(attempt: nat): Attempt {
    TransportError
  }

  /** Three retries with backoff factor 2 against a dead host: three attempts,
      sleeps of 2, 4 and 8 seconds (the last one after the final attempt), and
      the empty not-found outcome. */
  lemma DeadHostThreeRetries(extract: string -> string, keyword: string)
    ensures Fetch(Unreachable, extract, keyword, 3, 2.0) == FetchRun(Exhausted, 3, [2.0, 4.0, 8.0])
  {
    FetchAllFail(Unreachable, extract, keyword, 3, 2.0);
    assert Schedule(2.0, 3) == [2.0, 4.0, 8.0];
  }

  /** A fractional backoff factor of 0.5 against a dead host: sleeps of 0.5, 1
      and 2 seconds, 3.5 seconds in all. */
  lemma DeadHostHalfSecondBackoff(extract: string -> string, keyword: string)
    ensures Fetch(Unreachable, extract, keyword, 3, 0.5) == FetchRun(Exhausted, 3, [0.5, 1.0, 2.0])
    ensures Sum(Fetch(Unreachable, extract, keyword, 3, 0.5).sleeps) == 3.5
  {
    FetchAllFail(Unreachable, extract, keyword, 3, 0.5);
    assert Schedule(0.5, 3) == [0.5, 1.0, 2.0];
  }

  function TwoSites(site: nat): nat -> Attempt {
    if site == 0 then (_ => Response("OK!")) else (_ => Response("down"))
  }

  function PlainText(body: string): string {
    body
  }

  const Hook := "https://hooks.example/T0"

  const TwoSitesConfig :=
    MonitorConfig(["http://a.test", "http://b.test"], "OK", 3, 2.0, NotifierConfig(SlackKind, Hook))

  /** The keyword check on the two pages. */
  lemma TwoSitesChecks()
    ensures Check("OK!", PlainText, "OK") == Outcome(true, "OK!")
    ensures Check("down", PlainText, "OK") == Outcome(false, "down")
  {
    assert OccursAt("OK", "OK!", 0);
    MissingFirstCharNotContained("down", "OK");
    ContainsIsSubstring("down", "OK");
  }

  /** Each site answers the first attempt, so each fetch makes one attempt and no sleep. */
  lemma TwoSitesFetches()
    ensures Fetch(TwoSites(0), PlainText, "OK", 3, 2.0) == FetchRun(Outcome(true, "OK!"), 1, [])
    ensures Fetch(TwoSites(1), PlainText, "OK", 3, 2.0) == FetchRun(Outcome(false, "down"), 1, [])
  {
    TwoSitesChecks();
    FetchStopsAtFirstResponse(TwoSites(0), PlainText, "OK", 3, 2.0, 0);
    FetchStopsAtFirstResponse(TwoSites(1), PlainText, "OK", 3, 2.0, 0);
  }

  /** a.test shows the keyword and b.test does not: exactly one notification,
      about b.test and quoting its page, is posted. */
  lemma TwoSitesOneAlert(accepted: nat -> bool)
    ensures var c := RunCycle(TwoSitesConfig, TwoSites, PlainText, accepted);
            && c.messages == [Message("http://b.test", "OK", "down")]
            && c.dispatches == [Post(Hook, Message("http://b.test", "OK", "down"), accepted(0))]
  {
    var cfg := TwoSitesConfig;
    var c := RunCycle(cfg, TwoSites, PlainText, accepted);
    TwoSitesFetches();
    CycleFetchesEachUrl(cfg, TwoSites, PlainText, accepted, 0);
    CycleFetchesEachUrl(cfg, TwoSites, PlainText, accepted, 1);
    var os := Outcomes(c.runs);
    assert os == [Outcome(true, "OK!"), Outcome(false, "down")];
    var urls := cfg.urls;
    assert urls[1..][1..] == [] && os[1..][1..] == [];
    assert Notifications(urls[1..], "OK", os[1..]) == [Message("http://b.test", "OK", "down")];
    assert c.messages == Notifications(urls, "OK", os);
  }
}
