# homework_bot in Dafny

A model of the core of homework_bot, a Telegram bot that polls the
Yandex Practicum homework-status endpoint and reports review status changes
to one chat. The core is `homework.py`:

- the `HOMEWORK_STATUSES` verdict table;
- `get_api_answer`, in the form it takes once the HTTP request has been made;
- `check_response`, which checks the shape of the decoded JSON answer;
- `parse_status`, which turns the first homework record into a notification;
- `check_tokens`, the credential check made at startup;
- the body of `main`'s `while True` loop, which sends a status text or a
  failure report only when it differs from the last one of its kind. Every
  request uses the fixed `from_date` 1549962000.

Files:

- `wrappers.dfy` (module `Wrappers`): `Option` and `Result`. They stand in
  for Python's `None` and for raised exceptions.
- `pyjson.dfy` (module `PyJson`): JSON values as the Python runtime sees them.
  - A decoded object is a sequence of key/value pairs. `dict.get` keeps the
    last occurrence of a repeated key, as `json.loads` does.
  - The module also gives Python truthiness, `type(v).__name__`, and the
    text that `str`/`repr` (and so an f-string) prints for a value.
- `homework.dfy` (module `Homework`): the verdict table, the message texts
  and the four checks.
  - Each exception the checks raise becomes an `Err` carrying an `Error`:
    `TypeError`, `KeyError`, `AttributeError`, or `Failure` for a plain
    `Exception` and for anything the HTTP client raises.
  - `ErrorText(e)` is `str(e)`. For a `KeyError` that is the repr of its
    message, so the failure report of a `parse_status` error carries
    quotes.
  - `Poll` is one attempt of the loop's `try` block.
- `notifier.dfy` (module `Notifier`): the dedup step of `main`.
  - The step is specified by the pure functions `Advance` (one iteration
    on the two remembered strings) and `Run` (a finite sequence of
    iterations).
  - `Compress`, adjacent-repeat removal on one channel's texts, is an
    independent reference definition. `RunPerChannel` proves that `Run`
    matches it on each channel.
  - The class `Orchestrator` holds `last_message`, `last_error_msg`, the
    fixed timestamp, the texts handed to the bot and the `from_date` of
    every request. Its methods are proved against `Advance` and `Run`.
  - `Launch` is `main`'s startup.

## Model

| member | source | states |
|---|---|---|
| `Homework.GetApiAnswer` | homework.py:62-68 | the answer body comes through exactly for a 200 answer; any other code is the fixed "Сервис API недоступен" failure, and a raised request passes its error on |
| `Homework.FromDate` | homework.py:59 | the `from_date` is the given timestamp, or the clock only when that timestamp is 0 |
| `Homework.CheckResponse` | homework.py:71-86 | succeeds exactly for a dict whose `homeworks` value is a non-empty list, and returns that list; a non-dict is a TypeError quoting its str, a missing or non-list `homeworks` is a TypeError quoting `str` of the value (None when missing), and an empty list is the "no homeworks" failure |
| `Homework.ParseStatus` | homework.py:89-111 | succeeds exactly for a dict record with a truthy name and a status that is a key of the table, giving the prefix, str of the name, a closing quote and full stop, and the verdict; otherwise the first failing check decides the error: AttributeError for a non-dict, KeyError for a falsy name, then a falsy status, then an unknown status, and a TypeError for a list or dict status (unhashable) |
| `Homework.DecomposeMessage` | homework.py:111 | whatever name and status it recovers from a text rebuild exactly that text, with a status from the table |
| `Homework.DecomposeStatusMessage` | homework.py:104-111 | every notification decomposes back into the name and the status it was made from |
| `Homework.StatusMessageInjective` | homework.py:111 | two notifications are equal exactly when the printed names and the statuses are equal, so the dedup treats only an unchanged (str of the name, status) as a repeat: names `5` and `"5"` print alike |
| `Homework.CheckTokens` | homework.py:114-121 | true exactly when none of the three settings is missing |
| `Homework.EmptyTokensPass` | homework.py:116-117 | three empty settings pass the check and a missing chat id fails it (the general case is `CheckTokens`'s if-and-only-if) |
| `Homework.PollOutcome` | homework.py:139-142 | an attempt succeeds exactly when all three stages pass on the first record, and its text is then a notification with the status prefix; the first stage that fails gives the error |
| `Homework.ApprovedHomeworkNotification` | homework.py:41-45 | a 200 answer with one approved "hw1" gives the notification text for hw1 followed by the approved verdict phrase |
| `Homework.EmptyHomeworkList` | homework.py:82-83 | an empty `homeworks` list is the "no homeworks" failure |
| `Homework.MissingHomeworksKey` | homework.py:77-81 | a dict without `homeworks` is a TypeError whose text ends in "None" |
| `Homework.UnknownStatusRejected` | homework.py:104-108 | the record named "hw1" with the string status "done", which is not in the table, is a KeyError with the "wrong status" message (the general case, including falsy and unhashable statuses, is `ParseStatus`'s contract) |
| `Homework.KeyErrorText` | homework.py:143-144 | a KeyError with a message free of quotes, backslashes and control characters is reported as that message in single quotes |
| `Homework.UnknownStatusText` | homework.py:106-108 | the unknown-status KeyError is reported with its message in single quotes |
| `Homework.VerdictTable` | homework.py:41-45 | the table `HomeworkStatuses` knows exactly "approved", "reviewing" and "rejected", and its three verdicts are pairwise different |
| `Homework.ErrorText` | homework.py:144 | `str` of a caught exception: the repr of the message for a KeyError, the message itself otherwise; specified by `KeyErrorText` |
| `Homework.StatusMessage` | homework.py:111 | the f-string of a notification: prefix, name, then `Tail`; specified by `DecomposeStatusMessage` and `StatusMessageInjective` |
| `Homework.Tail` | homework.py:111 | closing quote, full stop and the verdict of the status; specified by `TailsDiffer` |
| `Homework.TailsDiffer` | homework.py:41-45 | a notification never ends in the tail of another status |
| `Homework.Poll` | homework.py:139-142 | the try block: `get_api_answer`, `check_response`, then `parse_status` of the first record, stopping at the first error; specified by `PollOutcome` |
| `PyJson.Get` | homework.py:77 | `dict.get` on a decoded object, None for a missing key; specified by `GetMissing` and `GetLast` |
| `PyJson.Truthy` | homework.py:93 | Python truthiness of a JSON value: None, False, 0, "", [] and {} are falsy; used by `ParseStatus`'s ensures |
| `PyJson.Present` | homework.py:99 | `d.get(key)` is truthy: the key is there and its value is truthy; used by `ParseStatus`'s ensures |
| `Notifier.FailureText` | homework.py:144 | the failure report: "Сбой в работе программы: " before `str` of the error; specified by `StatusNeverLooksLikeFailure` and `ServiceUnavailableReportedOnce` |
| `Notifier.Advance` | homework.py:143-154 | one iteration after its attempt: the `except` branch for an error, the `else` branch for a status text; specified by `AdvanceSpec` |
| `PyJson.TypeName` | homework.py:104 | `type(v).__name__` of each JSON value kind, as printed in the AttributeError of `homework.get` and the unhashable-type TypeError |
| `PyJson.Str` | homework.py:74 | the text an f-string inserts for a value: a string itself, any other value its repr; also used for the name at homework.py:111 |
| `PyJson.StrOrNone` | homework.py:79 | the text an f-string inserts for the result of `dict.get`: "None" for a missing key |
| `PyJson.Repr` | homework.py:74 | `repr` of a JSON value: None/True/False, decimal integers, quoted and escaped strings, lists, and dicts with their distinct keys in first-occurrence order and last values |
| `PyJson.GetMissing` | homework.py:77 | `get` of a key no entry carries is None |
| `PyJson.GetLast` | homework.py:92 | `get` of a key that is present gives the value of its last entry |
| `PyJson.QuotePlain` | homework.py:144 | the repr of a text without quotes, backslashes or control characters is that text in single quotes |
| `Notifier.AdvanceSpec` | homework.py:143-154 | after one iteration the outcome's channel remembers its text and the other channel is untouched; a message goes out exactly when the text differs from the one remembered, and it is that text |
| `Notifier.Run` | homework.py:138-155 | a run never sends more messages than it has iterations |
| `Notifier.RunPerChannel` | homework.py:143-154 | on each channel the run sends its own texts with adjacent repeats removed (starting from the remembered text), whatever the other channel does in between, and it ends up remembering the latest of them |
| `Notifier.CompressNoRepeat` | homework.py:145-152 | adjacent-repeat removal leaves no two equal neighbours and never starts with the starting text |
| `Notifier.NeverSendsSameTextTwiceInARow` | homework.py:145-152 | no channel ever sends the same text twice in a row, and its first text differs from the one remembered |
| `Notifier.RepeatIsSilent` | homework.py:145-154 | once a text is remembered, repeating the attempt that produces it sends nothing and changes nothing |
| `Notifier.RepeatedOutcomeSendsAtMostOnce` | homework.py:143-154 | any number of identical consecutive attempts sends at most one message: what the first of them sends |
| `Notifier.StatusNeverLooksLikeFailure` | homework.py:144 | a status text never equals a failure report; with `NeverSendsSameTextTwiceInARow` this means the bot never gets the same text twice in a row from either channel |
| `Notifier.ServiceUnavailableReportedOnce` | homework.py:62-65 | two 503 answers from a fresh start send the failure report once |
| `Notifier.Orchestrator.constructor` | homework.py:126-137 | both remembered strings start empty, the startup message is the only text sent, and no request has been made |
| `Notifier.Orchestrator.Request` | homework.py:133 | every request uses `from_date` 1549962000, whatever the clock says, and is recorded |
| `Notifier.Orchestrator.Step` | homework.py:143-154 | the new remembered strings and the notice are those of `Advance`; the bot gets that notice's text and nothing else |
| `Notifier.Orchestrator.Iterate` | homework.py:139-155 | one pass of the loop makes one request with the fixed timestamp and then does `Advance` on the attempt's outcome |
| `Notifier.Orchestrator.RunAll` | homework.py:138-155 | a sequence of iterations leaves the state and sends the messages of `Run` |
| `Notifier.Launch` | homework.py:128-137 | startup fails with "Не хватает глобальных переменных" exactly when a setting is missing; otherwise it yields a fresh loop in its initial state |

## Left out

- The HTTP request, `.json()` and the endpoint URL and headers. A request is
  given as a `Reply`: a status code with a decoded body, or the text of what
  the client raised. A 200 body that is not JSON is the second case.
- The Telegram bot and `send_message`. A message handed to the bot is
  appended to `sent`. A send that raises is not modelled. In the source such
  an error escapes `main`, including from inside the `except` branch.
  Building `telegram.Bot(token=TELEGRAM_TOKEN)` (homework.py:132) is taken to
  succeed, so `Launch` yields a loop for every setting that is not `None`,
  an empty token included.
- Logging, `load_dotenv` and `os.getenv`. The three settings are parameters
  of `Launch` and `CheckTokens`.
- `time.sleep(RETRY_TIME)` and the endless loop. `RunAll` covers any finite
  prefix of the iterations.
- Notifier.Orchestrator.RunAll: takes the attempts' outcomes rather than the
  replies. A single iteration with its request is `Iterate`, which makes the
  request with the fixed timestamp and then calls `Poll`.
- `time.time()`: the clock is a parameter. The fallback in `FromDate` is never
  taken, because `main` always passes the non-zero 1549962000.
- The bare string literal on line 39. It is an unused expression statement.
- JSON floats. Numbers are integers only.
- PyJson.Repr: escapes the quote, backslash, tab, newline, carriage return and
  ASCII control characters. It does not model Python's escaping of
  non-printable non-ASCII characters.
- The exact wording of Python's "unhashable type" message, which varies
  between Python versions. The model uses its long-standing form.
- The `homeworks and` test on line 150. It is always true after a successful
  `check_response` (the list is non-empty), so the model omits it.
- The model follows the code in three behaviours that a reader might not
  expect:
  - a present but falsy `status`, such as `""`, counts as missing
    (homework.py:99);
  - the unknown-status KeyError does not carry the status
    (homework.py:106-108);
  - a non-200 answer is reported with a fixed text that has neither the code
    nor the cause (homework.py:63-65).
