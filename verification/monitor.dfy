/**
  One cycle of `monitor_websites`: fetch every configured URL (the concurrent
  fan-out keeps results in URL order, so it is a map over the URL list), pair
  the i-th result with the i-th URL, build a message for each URL whose keyword
  was not found, and hand each message, in URL order, to the notifier.
 */
module Monitor {
  import opened Fetcher
  import opened Notifier

  /** How many characters of a page the notification quotes. */
  const SnippetLimit := 200

  /** The configuration one cycle reads. The check interval only feeds the
      jittered sleep between cycles, which is not part of a cycle. */
  datatype MonitorConfig = MonitorConfig(urls: seq<string>, keyword: string, retries: int,
                                         backoffFactor: real, notifier: NotifierConfig)

  /** Everything one cycle produces: one fetch per URL, the messages built for
      the misses, and what the notifier did with each of them. */
  datatype CycleReport = CycleReport(runs: seq<FetchRun>, messages: seq<string>, dispatches: seq<Dispatch>)

  function Min(a: int, b: int): int {
    if a < b then a else b
  }

  /** `content[:200]`: the content itself when short enough, else its first 200 characters. */
  function Snippet(content: string): (s: string)
    ensures |s| == Min(SnippetLimit, |content|)
    ensures s == content[..|s|]
  {
    if |content| <= SnippetLimit then content else content[..SnippetLimit]
  }

  const MessageHead := "Keyword '"
  const MessageAfterKeyword := "' not found on "
  const MessageAfterUrl := ". Current content snippet: '"
  const MessageTail := "'"

  /** The notification text for a URL whose page lacks the keyword. */
  function Message(url: string, keyword: string, content: string): string {
    MessageHead + keyword + MessageAfterKeyword + url + MessageAfterUrl + Snippet(content) + MessageTail
  }

  /** The message, read from left to right: the fixed opening, the keyword, the
      fixed middle, the URL, the fixed lead-in to the snippet, at most 200
      characters of the page, and the closing quote. */
  lemma MessageShape(url: string, keyword: string, content: string)
    ensures var m := Message(url, keyword, content);
            var s := Snippet(content);
            var k, u := |keyword|, |url|;
            && |m| == k + u + |s| + 53
            && |m| <= k + u + SnippetLimit + 53
            && m[..9] == MessageHead
            && m[9..9 + k] == keyword
            && m[9 + k..24 + k] == MessageAfterKeyword
            && m[24 + k..24 + k + u] == url
            && m[24 + k + u..52 + k + u] == MessageAfterUrl
            && m[52 + k + u..|m| - 1] == s
            && m[|m| - 1..] == MessageTail
  {
    Segments(MessageHead, keyword, MessageAfterKeyword, url, MessageAfterUrl, Snippet(content), MessageTail);
  }

  /** Where each part of a seven-part concatenation sits. */
  lemma Segments(a: string, b: string, c: string, d: string, e: string, f: string, g: string)
    ensures var m := a + b + c + d + e + f + g;
            var ab := |a| + |b|;
            var ac := ab + |c|;
            var ad := ac + |d|;
            var ae := ad + |e|;
            var af := ae + |f|;
            && |m| == af + |g|
            && m[..|a|] == a && m[|a|..ab] == b && m[ab..ac] == c && m[ac..ad] == d
            && m[ad..ae] == e && m[ae..af] == f && m[af..] == g
  {
  }

  /** The snippet is recoverable from the message: two pages yield the same
      message for the same URL and keyword exactly when their first 200
      characters agree. */
  lemma MessageDeterminesSnippet(url: string, keyword: string, c1: string, c2: string)
    ensures Message(url, keyword, c1) == Message(url, keyword, c2) <==> Snippet(c1) == Snippet(c2)
  {
    var m1, m2 := Message(url, keyword, c1), Message(url, keyword, c2);
    if m1 == m2 {
      MessageShape(url, keyword, c1);
      MessageShape(url, keyword, c2);
      assert Snippet(c1) == m1[52 + |keyword| + |url|..|m1| - 1];
    }
  }

  /** The notification loop of one cycle, over `zip(urls, results)`: a message
      for every pair whose keyword was not found, in order. `zip` stops at the
      shorter list. */
  function Notifications(urls: seq<string>, keyword: string, results: seq<Outcome>): (msgs: seq<string>)
    ensures |msgs| <= Min(|urls|, |results|)
    decreases |urls|
  {
    if |urls| == 0 || |results| == 0 then []
    else
      (if results[0].found then [] else [Message(urls[0], keyword, results[0].content)])
      + Notifications(urls[1..], keyword, results[1..])
  }

  /** The positions of the results whose keyword was not found, in increasing order. */
  function Misses(results: seq<Outcome>): (idx: seq<nat>)
    ensures forall a, b :: 0 <= a < b < |idx| ==> idx[a] < idx[b]
    ensures forall j :: 0 <= j < |idx| ==> idx[j] < |results| && !results[idx[j]].found
    ensures forall i :: 0 <= i < |results| && !results[i].found ==> i in idx
  {
    if |results| == 0 then []
    else
      var n := |results| - 1;
      Misses(results[..n]) + (if results[n].found then [] else [n])
  }

  /** The set of missed positions. */
  ghost function MissSet(results: seq<Outcome>): set<int> {
    set i | 0 <= i < |results| && !results[i].found
  }

  /** Extending the results by one adds its position to the missed set exactly when it is a miss. */
  lemma MissSetSnoc(results: seq<Outcome>)
    requires |results| > 0
    ensures var n := |results| - 1;
            MissSet(results) == MissSet(results[..n]) + (if results[n].found then {} else {n})
  {
    var n := |results| - 1;
    var init := results[..n];
    assert forall x :: 0 <= x < n ==> init[x] == results[x];
  }

  /** There is one entry in `Misses` per result whose keyword was not found. */
  lemma {:induction false} MissCount(results: seq<Outcome>)
    ensures |Misses(results)| == |MissSet(results)|
  {
    if |results| > 0 {
      var n := |results| - 1;
      MissCount(results[..n]);
      MissSetSnoc(results);
      assert n !in MissSet(results[..n]);
    }
  }

  /** The loop over a concatenation is the loop over each part, in order. */
  lemma {:induction false} NotificationsSplit(u1: seq<string>, u2: seq<string>, keyword: string,
                                              r1: seq<Outcome>, r2: seq<Outcome>)
    requires |u1| == |r1|
    ensures Notifications(u1 + u2, keyword, r1 + r2)
            == Notifications(u1, keyword, r1) + Notifications(u2, keyword, r2)
    decreases |u1|
  {
    if |u1| == 0 {
      assert u1 + u2 == u2;
      assert r1 + r2 == r2;
    } else {
      assert (u1 + u2)[1..] == u1[1..] + u2;
      assert (r1 + r2)[1..] == r1[1..] + r2;
      NotificationsSplit(u1[1..], u2, keyword, r1[1..], r2);
    }
  }

  /** Only the pairs `zip` forms matter. */
  lemma {:induction false} NotificationsTruncate(urls: seq<string>, keyword: string, results: seq<Outcome>)
    ensures var n := Min(|urls|, |results|);
            Notifications(urls, keyword, results) == Notifications(urls[..n], keyword, results[..n])
    decreases |urls|
  {
    var n := Min(|urls|, |results|);
    if n > 0 {
      NotificationsTruncate(urls[1..], keyword, results[1..]);
      assert urls[..n][1..] == urls[1..][..n - 1];
      assert results[..n][1..] == results[1..][..n - 1];
    }
  }

  /** For lists of equal length, the j-th message is about the j-th miss. */
  lemma {:induction false} NotificationsFollowMissesAligned(urls: seq<string>, keyword: string,
                                                            results: seq<Outcome>)
    requires |urls| == |results|
    ensures var msgs, idx := Notifications(urls, keyword, results), Misses(results);
            && |msgs| == |idx|
            && forall j :: 0 <= j < |idx| ==>
                 msgs[j] == Message(urls[idx[j]], keyword, results[idx[j]].content)
    decreases |urls|
  {
    if |urls| > 0 {
      var n := |urls| - 1;
      var u1, r1 := urls[..n], results[..n];
      var u2, r2 := [urls[n]], [results[n]];
      assert urls == u1 + u2;
      assert results == r1 + r2;
      NotificationsSplit(u1, u2, keyword, r1, r2);
      NotificationsFollowMissesAligned(u1, keyword, r1);
      assert Notifications(u2, keyword, r2)
             == (if results[n].found then [] else [Message(urls[n], keyword, results[n].content)]);
      var idx := Misses(results);
      var idx1 := Misses(r1);
      assert idx == idx1 + (if results[n].found then [] else [n]);
      forall j | 0 <= j < |idx1|
        ensures urls[idx1[j]] == u1[idx1[j]] && results[idx1[j]] == r1[idx1[j]]
      {
      }
    }
  }

  /** A cycle's notification loop builds a message for a URL if and only if
      that URL's keyword was not found, one per such URL, in URL order, each
      quoting that URL and its own page. */
  lemma NotificationsFollowMisses(urls: seq<string>, keyword: string, results: seq<Outcome>)
    ensures var n := Min(|urls|, |results|);
            var msgs, idx := Notifications(urls, keyword, results), Misses(results[..n]);
            && |msgs| == |idx| == |MissSet(results[..n])|
            && forall j :: 0 <= j < |idx| ==>
                 msgs[j] == Message(urls[idx[j]], keyword, results[idx[j]].content)
  {
    var n := Min(|urls|, |results|);
    NotificationsTruncate(urls, keyword, results);
    NotificationsFollowMissesAligned(urls[..n], keyword, results[..n]);
    MissCount(results[..n]);
  }

  /** For equally long lists, one message per miss. */
  lemma NotificationCount(urls: seq<string>, keyword: string, results: seq<Outcome>)
    requires |urls| == |results|
    ensures |Notifications(urls, keyword, results)| == |MissSet(results)|
  {
    NotificationsFollowMissesAligned(urls, keyword, results);
    MissCount(results);
  }

  /** The `(found, content)` pairs of a list of fetches. */
  function Outcomes(runs: seq<FetchRun>): (os: seq<Outcome>)
    ensures |os| == |runs|
    ensures forall i :: 0 <= i < |runs| ==> os[i] == runs[i].outcome
  {
    seq(|runs|, i requires 0 <= i < |runs| => runs[i].outcome)
  }

  /** `asyncio.gather(*[fetch(session, url, keyword) for url in urls])`: the
      network seen by the i-th task is `net(i)`. */
  function FetchAll(cfg: MonitorConfig, net: nat -> nat -> Attempt, extract: string -> string): (runs: seq<FetchRun>)
    ensures |runs| == |cfg.urls|
    ensures forall i :: 0 <= i < |runs| ==> runs[i].attempts <= Max0(cfg.retries)
  {
    var runs := seq(|cfg.urls|, i requires 0 <= i < |cfg.urls| =>
      Fetch(net(i), extract, cfg.keyword, cfg.retries, cfg.backoffFactor));
    assert forall i :: 0 <= i < |runs| ==>
      runs[i] == Fetch(net(i), extract, cfg.keyword, cfg.retries, cfg.backoffFactor);
    runs
  }

  /** The notifier called once per message, in order; `accepted(j)` is the
      webhook's answer to the j-th POST. */
  function DispatchAll(ncfg: NotifierConfig, messages: seq<string>, accepted: nat -> bool): (ds: seq<Dispatch>)
    ensures |ds| == |messages|
    ensures forall j :: 0 <= j < |ds| ==> (ds[j].Post? <==> WillPost(ncfg))
    ensures forall j :: 0 <= j < |ds| && ds[j].Post? ==>
              ds[j] == Post(ncfg.webhook, messages[j], accepted(j))
  {
    var ds := seq(|messages|, j requires 0 <= j < |messages| => Send(ncfg, messages[j], accepted(j)));
    assert forall j :: 0 <= j < |ds| ==> ds[j] == Send(ncfg, messages[j], accepted(j));
    ds
  }

  /** One cycle of the monitoring loop: exactly one fetch per configured URL,
      and one notifier call per URL whose keyword was not found. */
  function RunCycle(cfg: MonitorConfig, net: nat -> nat -> Attempt, extract: string -> string,
                    accepted: nat -> bool): (c: CycleReport)
    ensures |c.runs| == |cfg.urls|
    ensures forall i :: 0 <= i < |c.runs| ==> c.runs[i].attempts <= Max0(cfg.retries)
    ensures |c.dispatches| == |c.messages| == |MissSet(Outcomes(c.runs))|
  {
    var runs := FetchAll(cfg, net, extract);
    var messages := Notifications(cfg.urls, cfg.keyword, Outcomes(runs));
    NotificationCount(cfg.urls, cfg.keyword, Outcomes(runs));
    CycleReport(runs, messages, DispatchAll(cfg.notifier, messages, accepted))
  }

  /** The i-th fetch of a cycle is the fetch of the i-th URL, on that URL's network. */
  lemma CycleFetchesEachUrl(cfg: MonitorConfig, net: nat -> nat -> Attempt, extract: string -> string,
                            accepted: nat -> bool, i: nat)
    requires i < |cfg.urls|
    ensures RunCycle(cfg, net, extract, accepted).runs[i]
            == Fetch(net(i), extract, cfg.keyword, cfg.retries, cfg.backoffFactor)
  {
  }

  /** The j-th notification of a cycle is about the j-th URL, in URL order, whose
      keyword was not found, and quotes that URL's own page. */
  lemma CycleNotifiesMissesInOrder(cfg: MonitorConfig, net: nat -> nat -> Attempt,
                                   extract: string -> string, accepted: nat -> bool)
    ensures var c := RunCycle(cfg, net, extract, accepted);
            var idx := Misses(Outcomes(c.runs));
            && |c.messages| == |idx|
            && (forall i :: 0 <= i < |cfg.urls| ==> (i in idx <==> !c.runs[i].outcome.found))
            && forall j :: 0 <= j < |idx| ==>
                 c.messages[j] == Message(cfg.urls[idx[j]], cfg.keyword, c.runs[idx[j]].outcome.content)
  {
    var c := RunCycle(cfg, net, extract, accepted);
    var os := Outcomes(c.runs);
    var idx := Misses(os);
    assert c.messages == Notifications(cfg.urls, cfg.keyword, os);
    NotificationsFollowMissesAligned(cfg.urls, cfg.keyword, os);
    forall j | 0 <= j < |idx|
      ensures c.messages[j] == Message(cfg.urls[idx[j]], cfg.keyword, c.runs[idx[j]].outcome.content)
    {
      assert os[idx[j]] == c.runs[idx[j]].outcome;
    }
    forall i | 0 <= i < |cfg.urls|
      ensures i in idx <==> !c.runs[i].outcome.found
    {
      assert os[i] == c.runs[i].outcome;
    }
  }

  /** The number of POSTs in a cycle is the number of misses when the notifier
      is a Slack webhook, and zero otherwise; without a webhook every miss
      produces only the logged error. */
  lemma CyclePosts(cfg: MonitorConfig, net: nat -> nat -> Attempt, extract: string -> string,
                   accepted: nat -> bool)
    ensures var c := RunCycle(cfg, net, extract, accepted);
            && Posts(c.dispatches) == (if WillPost(cfg.notifier) then |MissSet(Outcomes(c.runs))| else 0)
            && (cfg.notifier.kind == SlackKind && cfg.notifier.webhook == "" ==>
                  forall j :: 0 <= j < |c.dispatches| ==> c.dispatches[j] == MissingWebhook)
  {
    var c := RunCycle(cfg, net, extract, accepted);
    assert forall j :: 0 <= j < |c.dispatches| ==> c.dispatches[j] == Send(cfg.notifier, c.messages[j], accepted(j));
    PostsCountsPosts(c.dispatches);
  }

  /** The j-th notifier call of a cycle gets the j-th message; with a Slack
      webhook configured it is a POST of exactly that message to the webhook. */
  lemma CycleDispatchesMessages(cfg: MonitorConfig, net: nat -> nat -> Attempt,
                                extract: string -> string, accepted: nat -> bool)
    ensures var c := RunCycle(cfg, net, extract, accepted);
            && |c.dispatches| == |c.messages|
            && forall j :: 0 <= j < |c.dispatches| ==>
                 && c.dispatches[j] == Send(cfg.notifier, c.messages[j], accepted(j))
                 && (WillPost(cfg.notifier) ==>
                       c.dispatches[j] == Post(cfg.notifier.webhook, c.messages[j], accepted(j)))
  {
  }

  /** A failed or rejected POST changes nothing: the fetches, the messages and
      the requests made are the same whatever the webhook answers. */
  lemma CycleIgnoresDeliveryResult(cfg: MonitorConfig, net: nat -> nat -> Attempt,
                                   extract: string -> string, accepted1: nat -> bool, accepted2: nat -> bool)
    ensures var c1, c2 := RunCycle(cfg, net, extract, accepted1), RunCycle(cfg, net, extract, accepted2);
            && c1.runs == c2.runs
            && c1.messages == c2.messages
            && |c1.dispatches| == |c2.dispatches|
            && forall j :: 0 <= j < |c1.dispatches| ==> Request(c1.dispatches[j]) == Request(c2.dispatches[j])
  {
    var c1, c2 := RunCycle(cfg, net, extract, accepted1), RunCycle(cfg, net, extract, accepted2);
    forall j | 0 <= j < |c1.dispatches|
      ensures Request(c1.dispatches[j]) == Request(c2.dispatches[j])
    {
      assert c1.dispatches[j] == Send(cfg.notifier, c1.messages[j], accepted1(j));
      assert c2.dispatches[j] == Send(cfg.notifier, c2.messages[j], accepted2(j));
    }
  }

  /** A URL that could not be reached at all is reported with an empty snippet. */
  lemma UnreachableUrlIsReported(cfg: MonitorConfig, net: nat -> nat -> Attempt,
                                 extract: string -> string, accepted: nat -> bool, i: nat)
    requires i < |cfg.urls|
    requires forall a: nat :: a < cfg.retries ==> net(i)(a) == TransportError
    ensures var c := RunCycle(cfg, net, extract, accepted);
            var idx := Misses(Outcomes(c.runs));
            |c.messages| == |idx| &&
            exists j :: 0 <= j < |idx| && idx[j] == i &&
              c.messages[j] == Message(cfg.urls[i], cfg.keyword, "")
  {
    var c := RunCycle(cfg, net, extract, accepted);
    FetchAllFail(net(i), extract, cfg.keyword, cfg.retries, cfg.backoffFactor);
    CycleNotifiesMissesInOrder(cfg, net, extract, accepted);
    var idx := Misses(Outcomes(c.runs));
    assert i in idx;
    var j :| 0 <= j < |idx| && idx[j] == i;
    assert c.messages[j] == Message(cfg.urls[i], cfg.keyword, "");
  }
}
