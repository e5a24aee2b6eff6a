/**
  The notifier: `send_notification` routes a message by notification type, and
  only the Slack type is handled; `send_slack_notification` posts the message
  to the configured webhook when there is one. The POST's answer is an input
  (`accepted`) because the network is not modelled. A POST that fails with an
  `aiohttp.ClientError` is logged and swallowed, so it appears only in the
  returned dispatch record; other exceptions are not modelled.
 */
module Notifier {

  /** The one notification type the monitor acts on. */
  const SlackKind := "slack"

  /** `notification.type` and `notification.url` of the configuration. A webhook
      that is missing altogether (`None`) is written as the empty string: both
      are false in the source's `if notification_url:` test. */
  datatype NotifierConfig = NotifierConfig(kind: string, webhook: string)

  /** What one call of `send_notification` does. */
  datatype Dispatch =
    | Unhandled                                          // another type: nothing at all
    | MissingWebhook                                     // Slack without a webhook: an error is logged, no POST
    | Post(dest: string, text: string, accepted: bool)   // a POST of `{"text": text}` to `dest`

  /** The notifier sends at all only for the Slack type with a webhook set. */
  predicate WillPost(cfg: NotifierConfig) {
    cfg.kind == SlackKind && cfg.webhook != ""
  }

  /** `send_slack_notification(message)`. */
  function SendSlack(webhook: string, message: string, accepted: bool): (d: Dispatch)
    ensures d.Post? <==> webhook != ""
    ensures d.Post? ==> d == Post(webhook, message, accepted)
    ensures !d.Post? ==> d == MissingWebhook
  {
    if webhook != "" then Post(webhook, message, accepted) else MissingWebhook
  }

  /** `send_notification(message)`: a POST is attempted exactly when the type
      is Slack and a webhook is configured, and then it carries the message
      unchanged to that webhook. */
  function Send(cfg: NotifierConfig, message: string, accepted: bool): (d: Dispatch)
    ensures d.Post? <==> WillPost(cfg)
    ensures d.Post? ==> d.dest == cfg.webhook && d.text == message && d.accepted == accepted
    ensures d.MissingWebhook? <==> cfg.kind == SlackKind && cfg.webhook == ""
    ensures d.Unhandled? <==> cfg.kind != SlackKind
  {
    if cfg.kind == SlackKind then SendSlack(cfg.webhook, message, accepted) else Unhandled
  }

  /** The request a dispatch makes, with the answer to it forgotten. */
  function Request(d: Dispatch): Dispatch {
    match d
    case Post(dest, text, _) => Post(dest, text, true)
    case _ => d
  }

  /** Number of POST requests among the dispatches. */
  function Posts(ds: seq<Dispatch>): (n: nat)
    ensures n <= |ds|
  {
    if |ds| == 0 then 0 else Posts(ds[..|ds| - 1]) + (if ds[|ds| - 1].Post? then 1 else 0)
  }

  /** A POST is counted for each dispatch that is one, and only those. */
  lemma PostsCountsPosts(ds: seq<Dispatch>)
    ensures (forall j :: 0 <= j < |ds| ==> ds[j].Post?) ==> Posts(ds) == |ds|
    ensures (forall j :: 0 <= j < |ds| ==> !ds[j].Post?) ==> Posts(ds) == 0
    ensures Posts(ds) == |set j | 0 <= j < |ds| && ds[j].Post?|
  {
    PostsAllOrNone(ds);
    PostsAsSet(ds);
  }

  /** All POSTs count every dispatch; no POSTs count nothing. */
  lemma {:induction false} PostsAllOrNone(ds: seq<Dispatch>)
    ensures (forall j :: 0 <= j < |ds| ==> ds[j].Post?) ==> Posts(ds) == |ds|
    ensures (forall j :: 0 <= j < |ds| ==> !ds[j].Post?) ==> Posts(ds) == 0
  {
    if |ds| > 0 {
      var init := ds[..|ds| - 1];
      assert forall j :: 0 <= j < |init| ==> init[j] == ds[j];
      PostsAllOrNone(init);
    }
  }

  /** The count is the number of positions holding a POST. */
  lemma {:induction false} PostsAsSet(ds: seq<Dispatch>)
    ensures Posts(ds) == |set j | 0 <= j < |ds| && ds[j].Post?|
  {
    if |ds| > 0 {
      var n := |ds| - 1;
      var init := ds[..n];
      PostsAsSet(init);
      assert forall j :: 0 <= j < n ==> init[j] == ds[j];
      var below := set j | 0 <= j < n && init[j].Post?;
      var all := set j | 0 <= j < |ds| && ds[j].Post?;
      if ds[n].Post? {
        assert all == below + {n};
      } else {
        assert all == below;
      }
    }
  }
}
