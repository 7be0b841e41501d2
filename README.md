# Tool-invocation badges and pending-order alerts, in Dafny

This project models two small pure components of the repository and proves
what their text output means.

- **Tool-invocation badge** (`uigen/src/components/chat/ToolInvocationBadge.tsx`).
  The chat UI shows one badge per tool call. `extractFilename` reduces a path
  to its last `/`-separated segment. `getToolMessage` words a call of the
  `str_replace_editor` or `file_manager` tool as "Creating x", "Editing x",
  "Renaming x" and so on. It falls back to the filename `file` when there is
  no path. Any other tool name is shown as it is. The badge is complete once
  the state is `result` and a result is present.
- **Pending-order alert** (`queries/src/slack.ts`). `sendPendingOrderAlert`
  builds one Slack message for channel `#order-alerts`. The message has a
  header with the order count and one line per order. An empty list sends
  nothing. `sendSlackMessage` fails when no webhook URL is configured.

Files:

- `wrappers.dfy`: `Option` and `Result`.
- `strings.dfy` (module `Strings`): JavaScript's `split` and `join` for a
  one-character separator, the text after the last separator, and decimal
  numerals. It also proves the split/join round trips in both directions
  and that a numeral reads back as its number.
- `tool_badge.dfy` (module `ToolBadge`): the badge.
- `slack.dfy` (module `Slack`): the alert and the send step.

A few choices about inputs:

- The tool `args` record is modelled as an optional `command` and an optional
  `path` (`ToolArgs`). Null or absent `args` is `None`.
- `result` is an `Option` of any type. `None` stands for `undefined`.
- The webhook URL (`process.env.SLACK_WEBHOOK_URL`) is a parameter.
- The HTTP request that `sendSlackMessage` would issue is returned as a value
  (`HttpPost`). It is not sent.
- `order_id` is a natural number and `days_pending` a real number, floored
  with `.Floor`.

The code is followed throughout. The session-token subsystem exercised by
`uigen/src/lib/__tests__/auth.test.ts` (`createSession`, `getSession`,
`verifySession`, `deleteSession`) is not part of this model: its
implementation file `uigen/src/lib/auth` is not among the sources, and what
the tests show of it is HS256 signing through the `jose` library and Next.js
cookie I/O.

## Model

| member | source | states |
|---|---|---|
| Strings.Split | uigen/src/components/chat/ToolInvocationBadge.tsx:16 | `path.split("/")` always yields at least one segment, even for the empty string |
| Strings.JoinOfSplit | uigen/src/components/chat/ToolInvocationBadge.tsx:16 | joining the segments of a split with the separator gives back the original string |
| Strings.SplitPiecesAvoidSeparator | uigen/src/components/chat/ToolInvocationBadge.tsx:16 | no segment of a split contains the separator |
| Strings.SplitOfJoin | queries/src/slack.ts:52-57 | splitting the join of separator-free parts gives back exactly those parts, in order |
| Strings.JoinWithCons | queries/src/slack.ts:57 | joining `[a] + rest` is `a`, one separator, then the join of `rest` |
| Strings.JoinWithEnds | queries/src/slack.ts:57 | a `join` of parts starts with the first part and ends with the last |
| Strings.AfterLast | uigen/src/components/chat/ToolInvocationBadge.tsx:17 | the text after the last separator is a separator-free suffix, preceded by a separator unless it is the whole string |
| Strings.LastPieceIsAfterLast | uigen/src/components/chat/ToolInvocationBadge.tsx:16-17 | `segments[segments.length - 1]` is the text after the last separator |
| Strings.NatToDecimal | queries/src/slack.ts:55 | `${order.order_id}` is a non-empty string of digits, with no leading zero except for 0 |
| Strings.DecimalRoundTrip | queries/src/slack.ts:55 | reading the decimal numeral of `n` back gives `n` |
| Strings.NatToDecimalInjective | queries/src/slack.ts:55 | distinct order ids render as distinct numerals |
| Strings.IntToDecimal | queries/src/slack.ts:55 | `${Math.floor(days)}` is digits whose value is the integer, with a leading `-` exactly when it is negative, and no leading zero except for `0` itself |
| Strings.LeadingDigits | queries/src/slack.ts:61 | the longest run of digits at the start of a text: all digits, a prefix of the text, and followed by a non-digit or the end |
| Strings.LeadingDigitsOfNumeral | queries/src/slack.ts:61 | a numeral followed by a non-digit is read back as exactly that numeral |
| ToolBadge.ExtractFilename | uigen/src/components/chat/ToolInvocationBadge.tsx:15-18 | a path without `/`, or one ending in `/`, is returned unchanged; otherwise the result is the non-empty, `/`-free text after the last `/`; a non-empty path never gives an empty name |
| ToolBadge.FilenameLabel | uigen/src/components/chat/ToolInvocationBadge.tsx:27 | a missing or empty path gives `file`; any other path gives its extracted filename; the label is never empty |
| ToolBadge.Verb | uigen/src/components/chat/ToolInvocationBadge.tsx:31-55 | the wording of each action, non-empty and starting with a capital letter |
| ToolBadge.ActionFor | uigen/src/components/chat/ToolInvocationBadge.tsx:29-41 | only `str_replace_editor` and `file_manager` have a wording; the editor's commands map to create, edit, view, undo or work on, and the manager's to rename, delete or manage |
| ToolBadge.GetToolMessage | uigen/src/components/chat/ToolInvocationBadge.tsx:20-60 | an unknown tool name is returned unchanged; a known tool's message is the verb of its command's action, a space, and the filename label |
| ToolBadge.IsComplete | uigen/src/components/chat/ToolInvocationBadge.tsx:66 | complete iff the state is `result` and a result is present; `partial-call` and `call` are never complete |
| ToolBadge.BadgeMessage | uigen/src/components/chat/ToolInvocationBadge.tsx:67 | null or absent args are read exactly as `{}` |
| ToolBadge.AbsentArgsFallback | uigen/src/components/chat/ToolInvocationBadge.tsx:39-40 | with null, absent or empty args the editor says `Working on file`, the manager `Managing file`, and any other tool its own name |
| ToolBadge.ActionOfInitial | uigen/src/components/chat/ToolInvocationBadge.tsx:31-55 | a letter maps to the action whose verb starts with it, and every verb's initial maps back to its own action, so no two verbs share an initial |
| ToolBadge.ParseVerb | uigen/src/components/chat/ToolInvocationBadge.tsx:31-55 | each wording reads back as its own action and filename |
| ToolBadge.MessageRoundTrip | uigen/src/components/chat/ToolInvocationBadge.tsx:20-57 | a message of a known tool reads back as the action of its command and the filename label of its path |
| ToolBadge.MessageDeterminesAction | uigen/src/components/chat/ToolInvocationBadge.tsx:20-57 | two equal messages of the known tools stand for the same action on the same filename |
| Slack.PhoneLabel | queries/src/slack.ts:55 | an empty phone is shown as `No phone`, any other verbatim; the label is never empty |
| Slack.LineHead | queries/src/slack.ts:55 | the line start `• Order #<id> - ` has no newline |
| Slack.LineTail | queries/src/slack.ts:55 | the line end `) - <floor(days)> days pending` has no newline |
| Slack.OrderLine | queries/src/slack.ts:55 | an order's line is its head, then the customer name, ` (` and phone label, then its tail; it has no newline when the name and phone have none |
| Slack.OrderLines | queries/src/slack.ts:52-56 | exactly one line per order, the k-th line being the k-th order's |
| Slack.HeaderLine | queries/src/slack.ts:61 | the header line is `⚠️ `, then the count's numeral, then ` order(s) pending longer than 3 days:`, and has no newline |
| Slack.AlertText | queries/src/slack.ts:61 | the alert text starts with the header line and a newline |
| Slack.PendingOrderAlert | queries/src/slack.ts:48-62 | no message iff the list is empty; otherwise channel `#order-alerts`, no blocks, and the alert text |
| Slack.AlertTextIsJoinOfLines | queries/src/slack.ts:52-61 | the text is the header line and the order lines joined by newlines, with no trailing separator |
| Slack.AlertTextSplitsIntoLines | queries/src/slack.ts:52-61 | when no name or phone contains a newline, splitting the text at newlines gives the header line and then each order's line in input order, `orders.length + 1` lines in all |
| Slack.HeaderCountAt | queries/src/slack.ts:61 | any text that starts with the header line starts with `⚠️ `, and the run of digits right after it is exactly the count's numeral |
| Slack.HeaderCountReadsBack | queries/src/slack.ts:61 | the alert text starts with `⚠️ `, and the number read from the digits that follow is `orders.length` |
| Slack.SendSlackMessage | queries/src/slack.ts:15-28 | an unset or empty webhook URL fails with the "SLACK_WEBHOOK_URL environment variable is not set" error; otherwise one JSON POST of the message goes to that URL |
| Slack.SendPendingOrderAlert | queries/src/slack.ts:45-65 | an empty list sends nothing and does not fail, whether or not a webhook is set; a non-empty list gives exactly one post of the alert to the webhook, or the missing-webhook error and no post |

## Left out

- `fetch` and `response.ok` in `sendSlackMessage` (queries/src/slack.ts:22-32): network I/O. The model stops at the request it would send. A failed response, and its error, are not modelled.
- Asynchrony (`async`/`await`): every operation is a pure function of its inputs.
- The JSX of `ToolInvocationBadge` (class names, the spinner and the dot): UI rendering only. Whether the dot or the spinner shows is `IsComplete`.
- `toolCallId` is carried but unused, as in the source.
- Non-string `command` or `path` values in `args` are not modelled: the source casts them with `as string`. A non-string command would fall to the default case, like an unknown one. A non-string truthy path would make `path.split` throw.
- JavaScript `Number` semantics: `order_id` is a natural number and `days_pending` an exact real. Floating-point rounding and the exponent notation that `String(n)` uses from 1e21 up are not modelled.
- `queries/src/main.ts` opens the database, runs the query and logs. It is I/O, and its `length > 0` check repeats the one in `sendPendingOrderAlert`.
- The session-token subsystem (`uigen/src/lib/auth`): its implementation is not among the sources, and it is JWT signing in the `jose` library plus cookie I/O.
- Strings are sequences of Unicode scalar values rather than JavaScript's UTF-16 code units. This makes no difference to splitting at `/` or `\n`.
