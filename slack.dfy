/**
 * The pending-order alert of queries/src/slack.ts: the Slack message built
 * for a list of stale pending orders, and the send step with its error for
 * a missing webhook. The HTTP request itself is represented by the value
 * `HttpPost` that would be posted; its transport is not modelled.
 */
module Slack {
  import opened Wrappers
  import Strings

  const AlertChannel: string := "#order-alerts"
  const NoPhone: string := "No phone"
  const MissingWebhookError: string := "SLACK_WEBHOOK_URL environment variable is not set"
  const JsonContentType: string := "application/json"

  /** The warning sign and its emoji variation selector that open the alert. */
  const WarningSign: string := "\U{26A0}\U{FE0F}"
  const Bullet: string := "\U{2022}"

  /** The header line around the order count. */
  const HeaderLead: string := WarningSign + " "
  const HeaderTail: string := " order(s) pending longer than 3 days:"

  datatype BlockText = BlockText(kind: string, text: string)
  datatype SlackBlock = SlackBlock(kind: string, text: Option<BlockText>)
  datatype SlackMessage = SlackMessage(channel: string, text: string, blocks: Option<seq<SlackBlock>>)

  /** A row of the stale-pending-orders query. `daysPending` is a real number
      of days; the alert shows it rounded down. */
  datatype StalePendingOrder = StalePendingOrder(
    orderId: nat,
    orderDate: string,
    totalAmount: real,
    customerName: string,
    email: string,
    phone: string,
    daysPending: real)

  /** The POST request `sendSlackMessage` issues: the webhook, a JSON content
      type and the message as body. */
  datatype HttpPost = HttpPost(url: string, contentType: string, body: SlackMessage)

  /** `order.phone || "No phone"`. */
  function PhoneLabel(phone: string): (r: string)
    ensures phone == "" ==> r == NoPhone
    ensures phone != "" ==> r == phone
    ensures r != ""
  {
    if phone != "" then phone else NoPhone
  }

  /** The start of an order's line, up to the customer name. */
  function LineHead(orderId: nat): (head: string)
    ensures '\n' !in head
  {
    var id := Strings.NatToDecimal(orderId);
    assert '\n' !in id by { assert forall k :: 0 <= k < |id| ==> Strings.IsDigit(id[k]); }
    Bullet + " Order #" + id + " - "
  }

  /** The end of an order's line, from the closing parenthesis; `days` is
      `Math.floor(days_pending)`. */
  function LineTail(days: int): (tail: string)
    ensures '\n' !in tail
  {
    var n := Strings.IntToDecimal(days);
    assert '\n' !in n by { assert forall k :: 0 <= k < |n| ==> Strings.IsDigit(n[k]) || n[k] == '-'; }
    ") - " + n + " days pending"
  }

  /** The alert line of one order: its head, the customer's name and phone
      label in parentheses, and its tail. */
  function OrderLine(o: StalePendingOrder): (line: string)
    ensures var head := LineHead(o.orderId);
      var tail := LineTail(o.daysPending.Floor);
      |head| + |tail| <= |line| && line[..|head|] == head && line[|line| - |tail|..] == tail
      && line[|head|..|line| - |tail|] == o.customerName + " (" + PhoneLabel(o.phone)
    ensures '\n' !in o.customerName && '\n' !in o.phone ==> '\n' !in line
  {
    var head := LineHead(o.orderId);
    var middle := o.customerName + " (" + PhoneLabel(o.phone);
    var tail := LineTail(o.daysPending.Floor);
    Strings.PartsOfConcat(head, middle, tail);
    Strings.NoneInConcat(o.customerName, " (", '\n');
    Strings.NoneInConcat(o.customerName + " (", PhoneLabel(o.phone), '\n');
    Strings.NoneInConcat(head, middle, '\n');
    Strings.NoneInConcat(head + middle, tail, '\n');
    head + middle + tail
  }

  /** The order lines in input order. */
  function OrderLines(orders: seq<StalePendingOrder>): (lines: seq<string>)
    ensures |lines| == |orders|
    ensures forall k :: 0 <= k < |orders| ==> lines[k] == OrderLine(orders[k])
  {
    seq(|orders|, k requires 0 <= k < |orders| => OrderLine(orders[k]))
  }

  /** The first line of the alert, carrying the number of orders. */
  function HeaderLine(count: nat): (h: string)
    ensures '\n' !in h
    ensures var n := Strings.NatToDecimal(count);
      |HeaderLead| + |n| <= |h| && h[..|HeaderLead|] == HeaderLead
      && h[|HeaderLead|..|HeaderLead| + |n|] == n && h[|HeaderLead| + |n|..] == HeaderTail
  {
    var n := Strings.NatToDecimal(count);
    Strings.PartsOfConcat(HeaderLead, n, HeaderTail);
    assert '\n' !in n by { assert forall k :: 0 <= k < |n| ==> Strings.IsDigit(n[k]); }
    HeaderLead + n + HeaderTail
  }

  /** The alert text: the header line, a newline, then the order lines joined by newlines. */
  function AlertText(orders: seq<StalePendingOrder>): (text: string)
    ensures HeaderLine(|orders|) + "\n" <= text
  {
    HeaderLine(|orders|) + "\n" + Strings.JoinWith(OrderLines(orders), '\n')
  }

  /** The message `sendPendingOrderAlert` sends, or `None` when it sends nothing. */
  function PendingOrderAlert(orders: seq<StalePendingOrder>): (r: Option<SlackMessage>)
    ensures r.None? <==> |orders| == 0
    ensures r.Some? ==> r.value.channel == AlertChannel && r.value.blocks.None?
    ensures r.Some? ==> r.value.text == AlertText(orders)
  {
    if |orders| == 0 then None
    else Some(SlackMessage(AlertChannel, AlertText(orders), None))
  }

  /** `sendSlackMessage`: fails when no webhook URL is configured (unset or
      empty); otherwise posts the message as JSON to it. `webhookUrl` stands
      for `process.env.SLACK_WEBHOOK_URL`. */
  function SendSlackMessage(webhookUrl: Option<string>, message: SlackMessage): (r: Result<HttpPost, string>)
    ensures r.Failure? <==> webhookUrl.None? || webhookUrl == Some("")
    ensures r.Failure? ==> r.error == MissingWebhookError
    ensures r.Success? ==> r.value == HttpPost(webhookUrl.value, JsonContentType, message)
  {
    match webhookUrl
    case Some(url) =>
      if url != "" then Success(HttpPost(url, JsonContentType, message))
      else Failure(MissingWebhookError)
    case None => Failure(MissingWebhookError)
  }

  /** `sendPendingOrderAlert`: the requests it issues, or the error it throws. */
  function SendPendingOrderAlert(webhookUrl: Option<string>, orders: seq<StalePendingOrder>)
    : (r: Result<seq<HttpPost>, string>)
    ensures |orders| == 0 ==> r == Success([])
    ensures |orders| > 0 && webhookUrl.Some? && webhookUrl.value != "" ==>
      r.Success? && |r.value| == 1 && r.value[0].url == webhookUrl.value
      && Some(r.value[0].body) == PendingOrderAlert(orders)
    ensures |orders| > 0 && (webhookUrl.None? || webhookUrl == Some("")) ==>
      r == Failure(MissingWebhookError)
  {
    match PendingOrderAlert(orders)
    case None => Success([])
    case Some(message) =>
      match SendSlackMessage(webhookUrl, message)
      case Success(post) => Success([post])
      case Failure(e) => Failure(e)
  }

  /** The alert text is the header line followed by one line per order, in
      input order, joined by newlines with no trailing separator. */
  lemma AlertTextIsJoinOfLines(orders: seq<StalePendingOrder>)
    requires |orders| > 0
    ensures AlertText(orders) == Strings.JoinWith([HeaderLine(|orders|)] + OrderLines(orders), '\n')
  {
    Strings.JoinWithCons(HeaderLine(|orders|), OrderLines(orders), '\n');
  }

  /** When no name or phone contains a newline, splitting the alert text at
      newlines gives exactly the header line and then each order's line. */
  lemma AlertTextSplitsIntoLines(orders: seq<StalePendingOrder>)
    requires |orders| > 0
    requires forall k :: 0 <= k < |orders| ==> '\n' !in orders[k].customerName && '\n' !in orders[k].phone
    ensures Strings.Split(AlertText(orders), '\n') == [HeaderLine(|orders|)] + OrderLines(orders)
    ensures |Strings.Split(AlertText(orders), '\n')| == |orders| + 1
  {
    var parts := [HeaderLine(|orders|)] + OrderLines(orders);
    AlertTextIsJoinOfLines(orders);
    forall k | 0 <= k < |parts| ensures '\n' !in parts[k] {
      if k > 0 {
        assert parts[k] == OrderLine(orders[k - 1]);
      }
    }
    Strings.SplitOfJoin(parts, '\n');
  }

  /** A text that starts with the header line starts with the warning sign
      and a space, and the run of digits after them is the count's numeral. */
  lemma HeaderCountAt(count: nat, body: string, text: string)
    requires text == HeaderLine(count) + "\n" + body
    ensures |HeaderLead| <= |text| && text[..|HeaderLead|] == HeaderLead
    ensures Strings.LeadingDigits(text[|HeaderLead|..]) == Strings.NatToDecimal(count)
  {
    var n := Strings.NatToDecimal(count);
    assert text == HeaderLead + n + HeaderTail + ("\n" + body);
    Strings.NumeralAfterLead(HeaderLead, n, HeaderTail, "\n" + body);
  }

  /** The alert's text starts with the warning sign and a space, and the
      number read from the digits that follow is the number of orders. */
  lemma HeaderCountReadsBack(orders: seq<StalePendingOrder>)
    ensures |HeaderLead| <= |AlertText(orders)| && AlertText(orders)[..|HeaderLead|] == HeaderLead
    ensures Strings.DecimalValue(Strings.LeadingDigits(AlertText(orders)[|HeaderLead|..])) == |orders|
  {
    HeaderCountAt(|orders|, Strings.JoinWith(OrderLines(orders), '\n'), AlertText(orders));
    Strings.DecimalRoundTrip(|orders|);
  }
}
