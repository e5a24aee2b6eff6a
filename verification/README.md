# Website keyword monitor — Dafny model

A model of the decision logic of `down_script.py`, an asyncio script that
polls a list of web pages, checks each for a keyword, and posts a Slack
message for every page where the keyword is missing.

The model covers one polling cycle:

- **Fetcher** (`fetcher.dfy`): the retry loop of `fetch`. It makes up to
  `retries` GET attempts. Every failed attempt, the last one included, is
  followed by a sleep of `backoff_factor * 2^attempt`. The first response
  ends the loop: its extracted text is searched for the keyword and its raw
  body is returned. When every attempt fails the result is `(False, "")`.
  The network is a parameter `net` giving the outcome of attempt *i*. The
  HTML-to-text extraction (BeautifulSoup) is an uninterpreted parameter
  `extract`. Sleeps are returned as a list of requested durations.
- **Text** (`text.dfy`): Python's `keyword in text` as an executable search,
  proved equal to the substring relation.
- **Notifier** (`notifier.dfy`): `send_notification` / `send_slack_notification`.
  A POST happens only for type `"slack"` with a non-empty webhook URL. The
  webhook's answer is an input, and it is recorded but never propagated.
- **Monitor** (`monitor.dfy`): the body of the `while True` loop in
  `monitor_websites`. `asyncio.gather` keeps results in input order, so the
  fan-out is a map over the URL list. Each result is paired with its URL as
  `zip` does. A message with a 200-character snippet is built for every miss
  and handed to the notifier in URL order.
- **Scenarios** (`scenarios.dfy`): three concrete runs. Two are fetches of
  a dead host, with backoff factor 2 and with 0.5. The third is a two-site
  cycle with one alert.

Behaviours of the code worth noting:

- The code sleeps after the final failed attempt too, so three failed
  attempts with backoff factor 2 request sleeps of 2, 4 and 8 seconds.
  The total over `n` failures is `backoff_factor * (2^n - 1)`.
- Only `aiohttp.ClientError` is caught, in `fetch` and around the POST.
  Any other exception escapes `asyncio.gather`, the `while True` loop and
  `asyncio.run`, and is not caught by `except KeyboardInterrupt`, so the
  monitor stops (see "Left out").
- `backoff_factor` is a real number. The environment path converts it with
  `int()`, but a `config.json` value keeps its JSON type, so `0.5` requests
  sleeps of 0.5, 1 and 2 seconds. Doubling a float is exact, so the reals
  match the script until the delay overflows. A negative backoff is recorded
  as requested.
- `retries` is an integer, and a non-positive `retries` makes no attempt.
  A non-integer `retries` from `config.json` is outside the model (see
  "Left out").

## Model

| member | source | states |
|---|---|---|
| Text.ContainsIsSubstring | down_script.py:53 | the executable keyword search succeeds exactly when the keyword occurs as a contiguous substring of the text; the empty keyword is always found |
| Text.MissingFirstCharNotContained | down_script.py:53 | a non-empty keyword whose first character never occurs in the text is not found in it |
| Fetcher.Check | down_script.py:51-58 | on a response, `found` holds exactly when the keyword is a substring of the extracted text, and the content returned is the raw body, not the extracted text |
| Fetcher.DelayIsGeometric | down_script.py:61 | the sleep after attempt i is `backoff_factor * 2^i`, for any real backoff factor, fractional ones included |
| Fetcher.Schedule | down_script.py:61 | the delay schedule for n failures has n entries, and entry i is the delay after attempt i |
| Fetcher.ScheduleSum | down_script.py:47-61 | the delays requested after n failed attempts add up to the delay attempt n would get, less one backoff factor |
| Fetcher.ScheduleTotal | down_script.py:47-61 | the delays requested after n failed attempts add up to `backoff_factor * (2^n - 1)` |
| Fetcher.Loop | down_script.py:47-62 | from any attempt index on: no more attempts than remain in `range(retries)`; every sleep follows a transport error at the matching index and has the geometric length; either the run ends on the first response with its checked outcome, or every remaining attempt failed and the outcome is `(False, "")` |
| Fetcher.Fetch | down_script.py:46-62 | at most `retries` attempts; the sleeps are exactly one per failed attempt, `backoff_factor * 2^i` after attempt i; a run that ends on a response returns that body with `found` equal to substring membership; otherwise all `retries` attempts were made and the result is `(False, "")` |
| Fetcher.FetchWithoutRetries | down_script.py:47-62 | with `retries <= 0` no attempt and no sleep happen and the result is `(False, "")` |
| Fetcher.FetchAllFail | down_script.py:47-62 | if every attempt fails, exactly `retries` attempts are made, the sleeps are `backoff_factor * 2^i` for i = 0 .. retries-1 (the last after the final attempt), their total is `backoff_factor * (2^retries - 1)`, and the result is `(False, "")` |
| Fetcher.FetchStopsAtFirstResponse | down_script.py:47-58 | if attempt k is the first to get a response, the fetch makes k+1 attempts and k sleeps and returns that response's checked outcome, whether or not the keyword is present |
| Fetcher.LoopConsultsOnlyItsAttempts | down_script.py:47-58 | from any attempt index on, two networks that agree on the attempts the loop makes give the same run |
| Fetcher.FetchConsultsOnlyItsAttempts | down_script.py:47-58 | the result depends only on the outcomes of the attempts actually made; nothing after the first response is consulted |
| Notifier.SendSlack | down_script.py:69-80 | a POST of the message to the webhook is made exactly when the webhook URL is non-empty; otherwise only the missing-webhook error is logged |
| Notifier.Send | down_script.py:64-80 | a POST is made exactly when the type is `"slack"` and the webhook is non-empty, carrying the message unchanged to that webhook; any other type does nothing; Slack without a webhook logs the error |
| Monitor.Snippet | down_script.py:90 | the snippet is a prefix of the content of length `min(200, len(content))` |
| Monitor.MessageShape | down_script.py:90-92 | the text `Message` builds is, left to right: `Keyword '`, the keyword, `' not found on `, the URL, `. Current content snippet: '`, the snippet, and a closing quote; its length is the keyword, URL and snippet lengths plus 53 fixed characters, so at most 200 characters of the page are quoted |
| Monitor.MessageDeterminesSnippet | down_script.py:90-92 | for a fixed URL and keyword, two pages give the same message exactly when their 200-character snippets agree |
| Monitor.Notifications | down_script.py:88-93 | the notification loop builds at most one message per URL/result pair that `zip` forms |
| Monitor.MissCount | down_script.py:88-89 | the list of missed positions has one entry per result whose keyword was not found |
| Monitor.NotificationsSplit | down_script.py:88-93 | the notification loop over two concatenated URL/result lists is the loop over the first followed by the loop over the second |
| Monitor.NotificationsTruncate | down_script.py:88 | like `zip`, the loop only sees the pairs up to the shorter of the two lists |
| Monitor.NotificationsFollowMissesAligned | down_script.py:88-93 | for equally long lists, the j-th message is built from the URL and content at the j-th not-found position |
| Monitor.NotificationsFollowMisses | down_script.py:88-93 | a message is built for a URL if and only if its keyword was not found, the number of messages is the number of misses, and messages follow URL order, each quoting its own URL, the keyword and its own content |
| Monitor.FetchAll | down_script.py:85-86 | the gathered fetches are one per URL, each within the retry bound |
| Monitor.DispatchAll | down_script.py:93 | one notifier call per message, in order; each call is a POST exactly when the notifier is Slack with a webhook, and a POST carries its own message to that webhook |
| Monitor.RunCycle | down_script.py:85-93 | one cycle makes exactly one fetch per configured URL, each within the retry bound, and exactly one notifier call per URL whose keyword was not found |
| Monitor.CycleFetchesEachUrl | down_script.py:85-86 | the i-th fetch of a cycle is the fetch of the i-th URL |
| Monitor.CycleNotifiesMissesInOrder | down_script.py:85-93 | the URLs notified about are exactly those whose keyword was not found, in URL order, and the j-th message quotes the j-th such URL and its own page |
| Monitor.CyclePosts | down_script.py:64-93 | a cycle makes as many POSTs as there are misses when the notifier is Slack with a webhook, and none otherwise; without a webhook each miss only logs the error |
| Monitor.CycleDispatchesMessages | down_script.py:64-93 | the j-th notifier call of a cycle gets the j-th message; with a Slack webhook configured it is a POST of exactly that message to the webhook |
| Monitor.CycleIgnoresDeliveryResult | down_script.py:72-78 | a POST that fails with a client error is swallowed: fetches, messages and the requests made are the same whatever the webhook answers |
| Monitor.UnreachableUrlIsReported | down_script.py:59-62 | a URL whose every attempt fails is notified about, with an empty snippet |
| Scenarios.DeadHostThreeRetries | down_script.py:46-62 | three retries with backoff factor 2 against a dead host: three attempts, sleeps of 2, 4 and 8 seconds, outcome `(False, "")` |
| Scenarios.DeadHostHalfSecondBackoff | down_script.py:44-62 | a backoff factor of 0.5 from `config.json` against a dead host: sleeps of 0.5, 1 and 2 seconds, 3.5 seconds in all |
| Scenarios.TwoSitesChecks | down_script.py:52-58 | a page containing `OK` is found with its body returned; a page without it is not found, body still returned |
| Scenarios.TwoSitesFetches | down_script.py:47-58 | a site that answers the first attempt is fetched once with no sleep |
| Scenarios.TwoSitesOneAlert | down_script.py:85-93 | with a.test showing the keyword and b.test not, exactly one message, about b.test and quoting its page, is posted to the webhook |

## Left out

- Logging setup and every log call (down_script.py:11-18 and the `logging` calls): output only. The model records which branch ran (for example `MissingWebhook`) instead of a log line.
- Configuration loading from `config.json` or environment variables (down_script.py:20-44): file and environment I/O. The values are parameters (`MonitorConfig`, `NotifierConfig`). A missing webhook (`None`) is written as the empty string, since both are false in the source's test.
- HTTP sessions, GET and POST requests, `raise_for_status` and the JSON payload `{"text": message}`: network calls. They are the `Attempt` datatype, the `net` parameter, and the `Post(dest, text, accepted)` record.
- BeautifulSoup text extraction (down_script.py:52-53): a foreign library, modelled as the uninterpreted parameter `extract`.
- Exceptions other than `aiohttp.ClientError` in `fetch` (for example a decoding error in `response.text()`, or `asyncio.TimeoutError` from the session's total timeout) escape `asyncio.gather`, the `while True` loop and `asyncio.run`, and stop the monitor. The model has no crash path.
- The same holds for the POST in `send_slack_notification` (down_script.py:73-78): only `aiohttp.ClientError` is swallowed, and any other exception during the POST stops the monitor. The model's `accepted` answer covers only a POST that succeeds or fails with a client error.
- Fetcher.Fetch: `retries` is an integer, as the environment path produces it with `int()` (down_script.py:34). A non-integer `retries` from `config.json` (down_script.py:22-24, 43), such as `3.0`, makes `range(retries)` raise `TypeError`. That is not an `aiohttp.ClientError`, so the monitor stops. The model has no such crash path.
- Fetcher.Delay: the sleep is an exact real. A float backoff times `2 ** attempt` is exact in floating point while it stays in range. Near attempt 1024 it leaves the float range, where Python raises `OverflowError` or yields infinity. That is not modelled.
- `asyncio.gather` concurrency: modelled as an order-preserving map, since the results keep input order.
- The endless `while True` loop, `KeyboardInterrupt` handling (down_script.py:84, 99-103) and `asyncio.sleep`: the model covers one cycle and returns the requested sleeps.
- The jittered interval `random.uniform(0.8 * I, 1.2 * I)` (down_script.py:96): floating-point randomness.
