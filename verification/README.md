# ArgoCD application monitor: a Dafny model

`Docker/monitor_argocd.py` logs in to ArgoCD and lists the applications.
Each application record is reduced to a name, a health status and a sync
status. When an application is not both `Healthy` and `Synced`, the script
posts a Slack message. That message is a fenced text table with columns for
application, state and attempts. This project models the decision layer under
that plumbing and proves its properties:

- `json.dfy` (module `Json`) has decoded JSON values and the `dict.get`
  chains the script reads a record with. A chain raises `AttributeError` when
  it calls `.get` on something that is not a dict.
- `layout.dfy` (module `Layout`) has Python's left-justified `:<w` format,
  `str` of an int, and the `message_text` table of `send_slack_notification`.
- `monitor.dfy` (module `Monitor`) has the snapshot of one record, the loop
  body of `monitor_apps`, the loop itself, and the whole of `monitor_apps`.
- `picking.dfy` (module `Picking`) has generic facts about picking the
  present entries out of a sequence of optional values, in order.
- `wrappers.dfy` (module `Wrappers`) has `Option` and `Result`.

The external calls become inputs. The outcome of `argocd login` is a
boolean. The outcome of `argocd app list` is a `Listing`: the command failed,
its output was not JSON, or the decoded document. A Slack notification is
recorded as the arguments `send_slack_notification` is called with, and the
run returns those calls in order.

The model keeps the script's uncaught exceptions. A record, or a value inside
one, that is not a dict makes `.get` raise. A name or health status that is
`None`, a list or a dict makes the console row of line 99 raise. A listing
that is a number, a boolean or `None` cannot be iterated. Each of these stops
the run: the notifications already requested stay requested, and the outcome
is `Crashed` with the exception. Python formats a boolean with a `:<w` spec
through int formatting, so `True` shows as `1`.

## Model

| member | source | states |
|---|---|---|
| `Json.Get` | Docker/monitor_argocd.py:95-97 | one `v.get(key, default)` succeeds exactly when `v` is a dict, raising AttributeError otherwise, and then yields the value under `key`, or `default` when the key is absent |
| `Json.GetPath` | Docker/monitor_argocd.py:95-97 | a chain `v.get(k0, {})...get(kn, d)` raises exactly when some value it calls `.get` on is not a dict; otherwise it yields the nested value when every key is present, and the fallback `d` when any key on the way is missing |
| `Monitor.ExtractSnapshot` | Docker/monitor_argocd.py:95-97 | reading a record succeeds exactly when all three chains can be walked; then the name, health and sync are the nested values, or "Desconocido" / "Unknown" / "Unknown" when missing; a failure is always AttributeError |
| `Monitor.ExtractDefaults` | Docker/monitor_argocd.py:95-97 | a record with no `metadata`, or whose `metadata` has no `name`, is named "Desconocido"; a present name is taken unchanged; a record with no `status` has health and sync "Unknown" |
| `Monitor.HealthDefaults` | Docker/monitor_argocd.py:96-97 | under `status`, a missing `health`, `sync` or inner `status` gives "Unknown", and a present one is taken unchanged |
| `Monitor.NeedsAttention` | Docker/monitor_argocd.py:101 | the condition of the `if`: an application needs attention unless its health is exactly the string "Healthy" and its sync exactly "Synced" (a definition; what follows from it is stated by `VisitDecides` and `SentAreAttentionAppsInOrder`) |
| `Monitor.Notify` | Docker/monitor_argocd.py:102 | the arguments of the `send_slack_notification` call: the name, the health status (not the sync status), attempts 0 and the fixed action text (a definition; used by `VisitDecides` and `SentAreAttentionAppsInOrder`) |
| `Monitor.Visit` | Docker/monitor_argocd.py:95-102 | every notification the loop body requests has attempts 0 and the action "La aplicación requiere atención." |
| `Monitor.VisitDecides` | Docker/monitor_argocd.py:95-102 | a record gets through the loop body exactly when it can be read and its name and health can be laid out; it then requests a notification if and only if it is not both Healthy and Synced; the notification carries the name and the health status, not the sync status |
| `Monitor.MissingStatusNotifies` | Docker/monitor_argocd.py:96-101 | a record whose health or sync status is missing (so defaulted to "Unknown") is always reported |
| `Monitor.Loop` | Docker/monitor_argocd.py:94-102 | the loop ends completed or crashed, never as a login failure, and requests at most one notification per record |
| `Monitor.VisitAll` | Docker/monitor_argocd.py:94-102 | every notification of a run of the monitor's loop has attempts 0 and the attention action |
| `Monitor.LoopSendsStepRequests` | Docker/monitor_argocd.py:94-102 | every notification of a run was requested by one of the records |
| `Monitor.LoopCompletesIffNoFault` | Docker/monitor_argocd.py:94-102 | a loop completes if and only if no record's loop body raises |
| `Monitor.CompletesIffNoFault` | Docker/monitor_argocd.py:94-102 | the monitor's loop completes if and only if no record raises |
| `Monitor.LoopSendsRequests` | Docker/monitor_argocd.py:94-102 | when no record raises, the notifications are the records' requests taken in list order, with nothing for records that request nothing |
| `Monitor.SentAreAttentionAppsInOrder` | Docker/monitor_argocd.py:94-102 | when no record raises, the run completes and its notifications are exactly those of the records that are not both Healthy and Synced, one each and in list order: the `k`-th notification carries the name and health of the `k`-th such record |
| `Monitor.LoopStopsAtFirstFault` | Docker/monitor_argocd.py:94-102 | when record `k` is the first to raise, the loop ends with that exception, after exactly the notifications of records `0..k-1` |
| `Monitor.CrashKeepsEarlierNotices` | Docker/monitor_argocd.py:94-102 | the same for the monitor's loop: the exception of the first raising record ends the run, and only earlier records' notifications were requested |
| `Monitor.SentMessagesRender` | Docker/monitor_argocd.py:99-102 | every requested notification can lay out its Slack message without raising, because the console row already formatted the same name and health with the same widths |
| `Monitor.Iterate` | Docker/monitor_argocd.py:94 | iterating a JSON array visits its items; None, a number or a boolean raises TypeError; a dict or string yields no records when empty and raises AttributeError (its first item has no `.get`) when not |
| `Monitor.MonitorApps` | Docker/monitor_argocd.py:83-104 | a failed login gives no notifications and a login-failure outcome; otherwise the run never reports a login failure; there are never more notifications than items in a listed array, and none for any other listing; list output that is not JSON ends the run with the uncaught decode error (line 75 sits in a `try` that catches only `CalledProcessError`), and a document that cannot be walked as records ends it with that exception, before any notification |
| `Monitor.LoginFailureFetchesNothing` | Docker/monitor_argocd.py:84-86 | after a failed login the listing has no influence on the run, and nothing is sent |
| `Monitor.FailedListingIsEmptyList` | Docker/monitor_argocd.py:77-80 | a failed `argocd app list` behaves exactly like an empty application list: no notifications, run completed |
| `Monitor.UnwalkableListingCrashes` | Docker/monitor_argocd.py:88-99 | after a successful login, a listing of None, a number or a boolean ends the run with TypeError, and a non-empty dict or string with AttributeError, before any notification; an empty dict or string completes with nothing sent |
| `Monitor.ListedArrayIsVisited` | Docker/monitor_argocd.py:88-94 | after a successful login, a listed JSON array is visited record by record |
| `Monitor.ExampleQuietRecord` | Docker/monitor_argocd.py:95-101 | example on a fixed input: a concrete Healthy and Synced record requests nothing |
| `Monitor.ExampleDegradedRecord` | Docker/monitor_argocd.py:95-102 | example on a fixed input: a concrete Degraded, Synced record requests a notification with its name and "Degraded" |
| `Monitor.ExampleEmptyRecord` | Docker/monitor_argocd.py:95-102 | example on a fixed input: the empty record `{}` requests a notification for "Desconocido" with status "Unknown" |
| `Monitor.ExampleRun` | Docker/monitor_argocd.py:83-104 | example on a fixed input: a run over a healthy, a degraded and an empty record requests exactly two notifications, in list order |
| `Layout.Pad` | Docker/monitor_argocd.py:26-28 | `f"{s:<w}"` has length `max(|s|, w)`, starts with the whole of `s` (never truncated) and is padded only with spaces |
| `Layout.Digits` | Docker/monitor_argocd.py:28 | the decimal digits of a natural number are non-empty, all digits, without a leading zero unless the number is 0, and denote that number |
| `Layout.DigitsUnique` | Docker/monitor_argocd.py:28 | two digit strings without leading zeros that denote the same number are equal |
| `Layout.Decimal` | Docker/monitor_argocd.py:28 | `str(n)` is a minus sign exactly when `n` is negative, then the digits of `abs(n)` without leading zeros (so `str(0)` is `0`), and contains no newline |
| `Layout.DecimalUnique` | Docker/monitor_argocd.py:28 | any string written that way for `n` is `Decimal(n)`: the contract of `Decimal` determines `str(n)` completely |
| `Layout.Shown` | Docker/monitor_argocd.py:28 | a `:<w` spec accepts exactly strings, ints and booleans; a string is shown as itself, an int as `str(n)`, and a boolean through int formatting, as `1` or `0` |
| `Layout.Cell` | Docker/monitor_argocd.py:28 | a formatted cell is exactly `max(len(text), w)` long, starts with the value's text and holds only spaces after it; formatting `None`, a list or a dict raises TypeError |
| `Layout.MessageText` | Docker/monitor_argocd.py:23-32 | the message text can be built exactly when the name and the status accept their format specs, otherwise TypeError; a built message starts with three backticks and a newline and ends with a newline and three backticks, whatever the cells hold |
| `Layout.HeaderAndRule` | Docker/monitor_argocd.py:26-29 | the header row is 47 characters with "Aplicación", "Estado" and "Intentos" starting at columns 0, 21 and 37; a separator row is 50 dashes; neither holds a newline |
| `Layout.MessageLines` | Docker/monitor_argocd.py:24-31 | when the name, the status and the action hold no newline, splitting the message at newlines gives exactly seven lines: fence, header, rule, data row, rule, action, fence |

## Left out

- `argocd login` and `argocd app list` (lines 53-80) run as subprocesses. Only their outcomes are inputs: a boolean for the login and a `Listing` for the list. Exceptions other than `CalledProcessError`, such as a missing `argocd` binary, are not modelled.
- JSON decoding (line 75) is not modelled beyond its outcome. Numbers are integers only. Floats, and how `:<w` lays them out, are not represented.
- `Monitor.Iterate`: iterating a non-empty dict or string is modelled as an immediate AttributeError. Python yields the first key or character, a string, and the first `.get` on it raises. Which key comes first does not change the result.
- The Slack POST, `raise_for_status`, the `blocks` envelope and its header text (lines 33-50) are network I/O. A failed post is caught and changes nothing the model observes.
- `load_dotenv`, `os.getenv` and the start-up `ValueError` checks (lines 8-20) are configuration plumbing.
- The console output (lines 85, 90-92, 99, 104) is not modelled. The one exception is the row of line 99: its `:<20` and `:<15` formats can raise, which stops the run.
- Strings are sequences of Unicode scalar values. Python counts code points the same way, but a JSON string holding a lone surrogate is not representable.
- There is no retry counter, forced sync, pause or recovery notification, because the code has none.
