# email-sorting: a Dafny model of its pure core

The email-sorting application reads unread Gmail messages, asks a language
model to analyse each one, turns that analysis into a `LOW`, `MEDIUM` or `HIGH`
priority, and stores the result in MySQL. Almost all of it wraps external
services. This project models the pure logic inside it and proves properties
of that logic:

- **Priority rule** (`EmailAnalyzer.get_email_priority`). The analysis
  dictionary is a map from keys to JSON values. The model covers Python's
  `KeyError` on the first missing key (in the order `action`, `overdue`,
  `due_soon`, `urgent`, `explanation`), truthiness, and the `TypeError`
  raised when `urgent >= 5` is asked of a non-number. On well-typed fields
  the function computes a decision table, `Rule`. The lemmas about `Rule`
  cover the HIGH, MEDIUM and LOW cases, the threshold at 5, monotonicity, and
  the fact that `action` never matters.
- **Prompt timestamp** (`__get_timestamp_from_datetime`). The format is
  `month/day/year at hour:minute:second`, in unpadded decimal. A parser is
  proved to read it back, so two datetimes give the same text exactly when
  they differ at most in microseconds.
- **MIME body selection** (`EmailRetriever.__retrieve_body`). The payload is a
  recursive tree. At each level one step picks the first `text/plain` part,
  else the first `text/html` part, else descends into the first
  `multipart/alternative` part, else into the first `multipart/related` part,
  else fails. `SelectPart` repeats that step down the tree. Termination is
  structural. Any result is a node of the tree: either a leaf or a text part.
- **Small helpers** in EmailRetriever.py: the message URL (injective, with an
  inverse), `removesuffix('@gmail.com')` for the username, and the floor
  division that turns `internalDate` milliseconds into seconds.
- **Three-way partition** (`process_emails` in main.py). The language-model
  analysis is an abstract function `Email -> Analysis`. The result is
  `[low, medium, high]`. Each list is the input filtered by priority, in input
  order. Together the three lists hold every input occurrence exactly once.
  The first analysis that raises aborts the call.
- **Configuration** (`Secrets.from_env`). The environment is a
  `map<string, string>`. The call fails exactly when the client-secret file
  name or the MySQL password is unset or empty. `CALL_CHATGPT_API` is true
  exactly for the case variants of `"true"`, and it never causes a failure.

Modules follow the source files: `Emails` (Email.py), `EmailAnalyzer`,
`EmailRetriever`, `Triage` (main.py) and `SecretsEnv` (Secrets.py). Two helper
modules sit beside them: `Decimal` (Python's `str(int)` and a reader for it)
and `Wrappers` (`Option` and `Result`). A Python exception becomes a
`Failure` value.

Discrepancies between the files, and how the model resolves them:

- Email.py declares an `Email` dataclass with six fields and no `Priority`.
  Yet EmailRetriever.py:52 builds an `Email` from seven arguments, with the
  seventh as `None`. EmailAnalyzer.py:6 and MySqlConnector.py:3 import
  `Priority` from Email.py, and MySqlConnector.py:42 reads `email.priority`.
  The model uses the shape that code expects: a `Priority` enumeration
  `Low | Medium | High` and an `Email` record whose seventh field is an
  optional priority.
- The prompt asks the model for an `urgent` score from 1 to 10
  (EmailAnalyzer.py:33), but `get_email_priority` never checks that range.
  The model follows the code: any integer, float or bool is accepted.
- `case _: assert False` in `process_emails` cannot be reached. In the model,
  the `match` on `Priority` is exhaustive and has no default branch.

## Model

| member | source | states |
|---|---|---|
| EmailAnalyzer.FirstMissingKey | EmailAnalyzer.py:49 | `itemgetter` fails on the first key, in lookup order, that is absent; there is no failure exactly when every key is present |
| EmailAnalyzer.GetEmailPriority | EmailAnalyzer.py:47-56 | success needs all five keys, including the unused `explanation`; a missing key fails with the first missing key; with all keys present the only possible failure is the TypeError, which happens exactly when neither `overdue` nor `due_soon` is truthy and `urgent` is not a number; a truthy `overdue` gives HIGH and otherwise a truthy `due_soon` gives MEDIUM, whatever `urgent` holds; otherwise an integer, float or bool `urgent` gives MEDIUM when it is at least 5 and LOW when not |
| EmailAnalyzer.GetEmailPriorityFollowsRule | EmailAnalyzer.py:49-56 | with all keys present and an integer `urgent`, the function returns the decision-table priority of the three flags' truthiness, for every integer (no range check) |
| EmailAnalyzer.GetEmailPriorityIgnoresAction | EmailAnalyzer.py:54-56 | replacing the `action` value by any JSON value leaves the outcome, success or error, unchanged |
| EmailAnalyzer.ExplanationIsRequired | EmailAnalyzer.py:49 | an analysis without `explanation` is rejected even though that value is unused |
| EmailAnalyzer.RuleOverdueIsHigh | EmailAnalyzer.py:50-51 | overdue gives HIGH, whatever the other three inputs are |
| EmailAnalyzer.RuleMediumWhenDueSoonOrUrgent | EmailAnalyzer.py:52-53 | not overdue and (due soon or urgency at least 5) gives MEDIUM |
| EmailAnalyzer.RuleLowOtherwise | EmailAnalyzer.py:54-56 | not overdue, not due soon and urgency below 5 gives LOW, for either value of `action` |
| EmailAnalyzer.RuleIgnoresAction | EmailAnalyzer.py:54-56 | the table's result does not depend on `action` |
| EmailAnalyzer.RuleThresholdIsFive | EmailAnalyzer.py:52-54 | with both flags false, urgency 4 gives LOW and urgency 5 gives MEDIUM |
| EmailAnalyzer.RuleMonotone | EmailAnalyzer.py:50-56 | raising urgency or turning `overdue` or `due_soon` on never lowers the priority under LOW < MEDIUM < HIGH |
| EmailAnalyzer.RuleIsHighestSignal | EmailAnalyzer.py:50-56 | the priority is the highest level any one signal raises: overdue raises HIGH; due-soon and urgency at least 5 each raise MEDIUM |
| EmailAnalyzer.FormatTimestamp | EmailAnalyzer.py:59-60 | the `month/day/year at hour:minute:second` text parses back to every field except microseconds, and no field in it carries a leading zero (`%d`, not a zero-padded form) |
| EmailAnalyzer.UnpaddedBeforeSeparator | EmailAnalyzer.py:60 | an integer field rendered in front of a non-digit separator adds no leading zero to the text it is prepended to |
| EmailAnalyzer.FormatTimestampInjective | EmailAnalyzer.py:59-60 | two datetimes format identically exactly when they agree on all fields but microseconds |
| Decimal.NatToString | EmailAnalyzer.py:60 | an integer field renders as a non-empty run of digits with no leading zero except for 0 itself |
| EmailRetriever.IndexOf | EmailRetriever.py:69-87 | `list.index` gives the first position holding the value, and there is none exactly when the value does not occur (guarded by the `in` test) |
| EmailRetriever.ChooseAtLevel | EmailRetriever.py:66-89 | at one level: the first text/plain part if any; else the first text/html part; else descend into the first multipart/alternative part; else into the first multipart/related part; it gives up exactly when none of the four types occurs |
| EmailRetriever.SelectPart | EmailRetriever.py:61-89 | a payload without `parts` yields itself; a level choice to take a part yields that part; a choice to descend yields exactly the selection inside the chosen child, and a success there lies in that child's subtree; a success is always a node of the payload tree and is a leaf or a text part; the only failure is an unsupported `parts` list |
| EmailRetriever.BodyData | EmailRetriever.py:64 | reading `body.data` fails exactly when the node has no `body`; otherwise it returns the possibly-absent `data` |
| EmailRetriever.RetrieveBody | EmailRetriever.py:61-89 | a payload without `parts` returns its own `body.data`; with a text/plain part it returns the body data of the first one; in general it reads the body of the selected node, and a success is the body data of some node of the tree; the AttributeError happens exactly when the selected node has no `body`, and the unsupported-parts failure exactly when selection fails |
| EmailRetriever.EmptyPartsFails | EmailRetriever.py:62-89 | an empty `parts` list fails and does not fall back to the payload's own body |
| EmailRetriever.MakeUrlFromMessageId | EmailRetriever.py:96-99 | the link is the fixed prefix `https://mail.google.com/mail/u/0/#all/` followed by exactly the message id |
| EmailRetriever.UrlRoundTrip | EmailRetriever.py:96-99 | the message id can be recovered from its link |
| EmailRetriever.UrlInjective | EmailRetriever.py:96-99 | distinct message ids give distinct links |
| EmailRetriever.Username | EmailRetriever.py:30 | an address ending in `@gmail.com` is the username followed by that suffix; any other address is its own username |
| EmailRetriever.RemoveSuffix | EmailRetriever.py:30 | `removesuffix` removes one copy of a non-empty suffix when it is present, and otherwise leaves the string unchanged |
| EmailRetriever.UsernameOfGmailAddress | EmailRetriever.py:30 | the username of `u@gmail.com` is `u` for every `u` |
| EmailRetriever.UsernameStripsOnce | EmailRetriever.py:30 | only one trailing `@gmail.com` is removed |
| EmailRetriever.UsernameOfOtherAddress | EmailRetriever.py:30 | an address not ending in `@gmail.com` is its own username |
| EmailRetriever.SecondsFromMillis | EmailRetriever.py:46-47 | `// 1000` is the floor: the seconds value times 1000 is at most the milliseconds, and less than 1000 below them |
| EmailRetriever.SecondsFromMillisUnique | EmailRetriever.py:47 | every `s * 1000 + k` with `0 <= k < 1000` maps back to `s`, negative `s` included |
| Triage.Classify | main.py:24-25 | an email is classified by `get_email_priority` on its analysis, so the classification succeeds only when that analysis has all five keys |
| Triage.Partition | main.py:20-35 | for any classifier, the loop returns exactly `[low, medium, high]`, each the input filtered by that priority, when every email is classified; otherwise the error of the first email whose classification fails |
| Triage.ProcessEmails | main.py:18-35 | with every email classified, the result is exactly three lists `[low, medium, high]`, each the input filtered by that priority; otherwise the error is that of the first email whose classification fails |
| Triage.EmptyInputGivesEmptyBuckets | main.py:20-35 | an empty input yields three empty lists |
| Triage.BucketMembersHavePriority | main.py:25-32 | every email in a list comes from the input and was classified with that list's priority |
| Triage.BucketsPartition | main.py:23-32 | the three lengths add up to the input length, and the three multisets add up to the input's multiset |
| Triage.BucketIsOrderedSelection | main.py:23-32 | each list reads the input at strictly increasing indices, so relative order is kept; an index is selected exactly when its email has that priority |
| SecretsEnv.FromEnv | Secrets.py:11-19 | fails exactly when `GMAIL_API_CLIENT_SECRET_FILENAME` or `MYSQL_PASSWORD` is unset or empty; on success both strings are returned unchanged, and the flag is true exactly when `CALL_CHATGPT_API` is set to a case variant of "true" (so an unset flag is false) |
| SecretsEnv.LowerIsTrueIffTrueInAnyCase | Secrets.py:16 | `v.lower() == 'true'` holds exactly when `v` spells "true" in some mix of cases |
| SecretsEnv.CallApiVarNeverFails | Secrets.py:16-18 | setting `CALL_CHATGPT_API` to any value, or removing it, changes neither success nor the other two fields |

## Left out

- Gmail API calls, OAuth `Credentials`, `json.loads` of the credentials, the `HttpError` handler and the `From`/`Subject` header search (EmailRetriever.py:20-59): network and library calls.
- `__decode_body` (EmailRetriever.py:91-94): base64 and UTF-8 decoding are library calls, so body data is an opaque string.
- `datetime.fromtimestamp` (EmailRetriever.py:47): the conversion depends on the local time zone. Only the integer `// 1000` is modelled.
- EmailRetriever.SecondsFromMillis: takes the milliseconds as an integer. The `int(...)` parse of the `internalDate` string is a library call.
- `analyze_email` and `get_key_from_file` (EmailAnalyzer.py:9-44): these are the OpenAI call and a file read. `process_emails` receives the analysis as an abstract function, and exceptions raised inside that call are not modelled.
- EmailAnalyzer.GetEmailPriority: the analysis is taken to be a JSON object. A top-level list or scalar returned by the model is not covered. JSON floats are reals, so Python's `NaN` and `Infinity` are absent. A `NaN` urgency would yield LOW in Python.
- All of MySqlConnector.py: SQL text over a live connection. Its `INSERT IGNORE` and `UPDATE` semantics live in the database.
- `load_dotenv` and `os.getenv` (Secrets.py:13-16): environment I/O. The environment after loading is a map.
- SecretsEnv.FromEnv: `str.lower()` is modelled on ASCII letters only. No non-ASCII character lowercases to a letter of "true", so this does not change the flag.
- `run` and `fetch_emails` (main.py:5-15): a stub and printing.
- `Email.__repr__` (Email.py:13-14): display only.
- EmailRetriever.SelectPart: `assert False` is modelled as a failure. Under `python -O` the assertion is stripped and the Python function returns `None` instead.
- `Emails.DateTime`: the fields are unbounded naturals with no calendar validity, because the formatter never checks them.
- Triage.Classify: the analysis is taken to be a function of the email alone; the source asks the language-model service once per list position (main.py:24, EmailAnalyzer.py:20-44), so two equal emails could in principle be analysed differently, which `Triage.BucketMembersHavePriority` does not cover.
