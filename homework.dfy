/**
 * The checks of a single poll: the answer of the status endpoint, the shape
 * of its JSON body, the status of the first homework record and the
 * notification text composed from it, plus the credential check made at
 * startup. Each Python exception becomes an `Err` carrying an `Error`.
 */
module Homework {
  import opened Wrappers
  import opened PyJson

  /** The exceptions the checks raise, each with its message argument. */
  datatype Error =
    | TypeError(message: string)
    | KeyError(message: string)
    | AttributeError(message: string)
    /** A plain `Exception(message)`, or whatever the HTTP client raised, by its str(). */
    | Failure(message: string)

  /** `str(error)`: a KeyError prints the repr of its argument, the others the argument itself. */
  function ErrorText(e: Error): string {
    match e
    case KeyError(m) => QuoteString(m)
    case TypeError(m) => m
    case AttributeError(m) => m
    case Failure(m) => m
  }

  const HttpOk := 200
  /** The fixed `from_date` that `main` passes to every request. */
  const PollTimestamp := 1549962000

  /** HOMEWORK_STATUSES: review status to verdict phrase. */
  const HomeworkStatuses: map<string, string> := map[
    "approved" := "Работа проверена: ревьюеру всё понравилось. Ура!",
    "reviewing" := "Работа взята на проверку ревьюером.",
    "rejected" := "Работа проверена: у ревьюера есть замечания."
  ]

  /**
   * The table knows exactly the three review statuses, and their verdicts
   * are pairwise different, so a change of status always changes the text.
   */
  lemma VerdictTable()
    ensures HomeworkStatuses.Keys == {"approved", "reviewing", "rejected"}
    ensures forall s1, s2 :: s1 in HomeworkStatuses && s2 in HomeworkStatuses && s1 != s2 ==>
      HomeworkStatuses[s1] != HomeworkStatuses[s2]
  {
    var a, v, j := HomeworkStatuses["approved"], HomeworkStatuses["reviewing"], HomeworkStatuses["rejected"];
    assert |a| != |v| && |v| != |j|;
    assert a != j by { assert a[18] != j[18]; }
  }

  const ApiUnavailable := "Сервис API недоступен"
  const NotADict := "Не верный формат данных (dict): "
  const NotAList := "Не верный формат данных (list): "
  const NoHomeworks := "Нет домашних работ, уточните эндпоинт"
  // The misspelling "Отсутсвует" is the program's own text.
  const MissingName := "Отсутсвует имя домашней работы"
  const MissingStatus := "Отсутсвует статус домашней работы"
  const UnknownStatus := "Не верный статус домашней работы"
  const MissingTokens := "Не хватает глобальных переменных"
  const StartupMessage := "Старт работы бота"
  const StatusPrefix := "Изменился статус проверки работы \""

  /** What the HTTP request produced: a status code and the decoded body, or a raised exception. */
  datatype Reply =
    | Answer(statusCode: int, body: Json)
    /** The request raised, or the body of a 200 answer was not JSON. */
    | Raised(text: string)

  /** The `from_date` sent: the timestamp given, or the clock when that is 0. */
  function FromDate(currentTimestamp: int, now: int): (d: int)
    ensures currentTimestamp != 0 ==> d == currentTimestamp
    ensures currentTimestamp == 0 ==> d == now
  {
    if currentTimestamp != 0 then currentTimestamp else now
  }

  /** get_api_answer once the request is made: the body of a 200 answer, an error otherwise. */
  function GetApiAnswer(reply: Reply): (r: Result<Json, Error>)
    ensures r.Ok? <==> reply.Answer? && reply.statusCode == HttpOk
    ensures r.Ok? ==> r.value == reply.body
    ensures reply.Answer? && reply.statusCode != HttpOk ==> r == Err(Failure(ApiUnavailable))
    ensures reply.Raised? ==> r == Err(Failure(reply.text))
  {
    match reply
    case Raised(text) => Err(Failure(text))
    case Answer(code, body) =>
      if code != HttpOk then Err(Failure(ApiUnavailable)) else Ok(body)
  }

  /** check_response: the `homeworks` list of a dict response, which must be a non-empty list. */
  function CheckResponse(response: Json): (r: Result<seq<Json>, Error>)
    ensures r.Ok? <==>
      response.JObject? && Get(response.members, "homeworks").Some? &&
      Get(response.members, "homeworks").value.JArray? &&
      |Get(response.members, "homeworks").value.items| > 0
    ensures r.Ok? ==> r.value == Get(response.members, "homeworks").value.items && |r.value| > 0
    ensures !response.JObject? ==> r == Err(TypeError(NotADict + Str(response)))
    ensures response.JObject? && !(Get(response.members, "homeworks").Some? &&
                                   Get(response.members, "homeworks").value.JArray?) ==>
      r == Err(TypeError(NotAList + StrOrNone(Get(response.members, "homeworks"))))
    ensures response.JObject? && Get(response.members, "homeworks") == Some(JArray([])) ==>
      r == Err(Failure(NoHomeworks))
  {
    if !response.JObject? then Err(TypeError(NotADict + Str(response)))
    else
      var homeworkList := Get(response.members, "homeworks");
      if !(homeworkList.Some? && homeworkList.value.JArray?) then
        Err(TypeError(NotAList + StrOrNone(homeworkList)))
      else if |homeworkList.value.items| < 1 then Err(Failure(NoHomeworks))
      else Ok(homeworkList.value.items)
  }

  /** A record parse_status accepts: a dict with a truthy name and a known status string. */
  predicate ValidRecord(homework: Json) {
    homework.JObject? &&
    Present(Get(homework.members, "homework_name")) &&
    var status := Get(homework.members, "status");
    status.Some? && status.value.JStr? && status.value.s in HomeworkStatuses
  }

  /** The notification for a homework `name` whose review status is `status`. */
  function StatusMessage(name: string, status: string): string
    requires status in HomeworkStatuses
  {
    StatusPrefix + name + Tail(status)
  }

  /** What follows the name in a notification: closing quote, full stop and the verdict. */
  function Tail(status: string): string
    requires status in HomeworkStatuses
  {
    "\". " + HomeworkStatuses[status]
  }

  /** parse_status */
  function ParseStatus(homework: Json): (r: Result<string, Error>)
    ensures r.Ok? <==> ValidRecord(homework)
    ensures r.Ok? ==>
      r.value == StatusMessage(Str(Get(homework.members, "homework_name").value),
                               Get(homework.members, "status").value.s)
    ensures !homework.JObject? ==>
      r == Err(AttributeError("'" + TypeName(homework) + "' object has no attribute 'get'"))
    ensures homework.JObject? && !Present(Get(homework.members, "homework_name")) ==>
      r == Err(KeyError(MissingName))
    ensures homework.JObject? && Present(Get(homework.members, "homework_name")) &&
            !Present(Get(homework.members, "status")) ==>
      r == Err(KeyError(MissingStatus))
    ensures homework.JObject? && Present(Get(homework.members, "homework_name")) &&
            Present(Get(homework.members, "status")) && !ValidRecord(homework) ==>
      var status := Get(homework.members, "status").value;
      if status.JArray? || status.JObject? then r == Err(TypeError("unhashable type: '" + TypeName(status) + "'"))
      else r == Err(KeyError(UnknownStatus))
  {
    if !homework.JObject? then
      Err(AttributeError("'" + TypeName(homework) + "' object has no attribute 'get'"))
    else
      var homeworkName := Get(homework.members, "homework_name");
      if !Present(homeworkName) then Err(KeyError(MissingName))
      else
        var homeworkStatus := Get(homework.members, "status");
        if !Present(homeworkStatus) then Err(KeyError(MissingStatus))
        else
          match homeworkStatus.value
          case JArray(_) => Err(TypeError("unhashable type: '" + TypeName(homeworkStatus.value) + "'"))
          case JObject(_) => Err(TypeError("unhashable type: '" + TypeName(homeworkStatus.value) + "'"))
          case JStr(s) =>
            if s in HomeworkStatuses then Ok(StatusMessage(Str(homeworkName.value), s))
            else Err(KeyError(UnknownStatus))
          case _ => Err(KeyError(UnknownStatus))
  }

  /** `t` is a suffix of `s`. */
  predicate EndsWith(s: string, t: string) {
    |t| <= |s| && s[|s| - |t|..] == t
  }

  /**
   * Recovers the homework name and status from a notification text: the
   * inverse of StatusMessage.
   */
  function DecomposeMessage(m: string): (r: Option<(string, string)>)
    ensures r.Some? ==> r.value.1 in HomeworkStatuses && StatusMessage(r.value.0, r.value.1) == m
  {
    if !(StatusPrefix <= m) then None
    else
      var rest := m[|StatusPrefix|..];
      match FirstTail(rest, StatusOrder)
      case None => None
      case Some(status) =>
        var r := NameBefore(rest, status);
        assert m == StatusPrefix + rest;
        Some(r)
  }

  /** The keys of HOMEWORK_STATUSES in the order the table lists them. */
  const StatusOrder := ["approved", "reviewing", "rejected"]

  /** The first of `candidates` whose tail ends `rest`. */
  function FirstTail(rest: string, candidates: seq<string>): (r: Option<string>)
    requires forall i :: 0 <= i < |candidates| ==> candidates[i] in HomeworkStatuses
    ensures r.Some? ==> r.value in HomeworkStatuses && EndsWith(rest, Tail(r.value))
  {
    if candidates == [] then None
    else if EndsWith(rest, Tail(candidates[0])) then Some(candidates[0])
    else FirstTail(rest, candidates[1..])
  }

  /** A text that ends in the tail of exactly one candidate gets that candidate. */
  lemma {:induction false} FirstTailFinds(rest: string, candidates: seq<string>, status: string)
    requires forall i :: 0 <= i < |candidates| ==> candidates[i] in HomeworkStatuses
    requires status in candidates && status in HomeworkStatuses && EndsWith(rest, Tail(status))
    requires forall i :: 0 <= i < |candidates| && candidates[i] != status ==> !EndsWith(rest, Tail(candidates[i]))
    ensures FirstTail(rest, candidates) == Some(status)
  {
    if candidates[0] != status {
      assert status in candidates[1..];
      FirstTailFinds(rest, candidates[1..], status);
    }
  }

  function NameBefore(rest: string, status: string): (r: (string, string))
    requires status in HomeworkStatuses && EndsWith(rest, Tail(status))
    ensures r.1 == status && r.0 + Tail(status) == rest
  {
    var name := rest[..|rest| - |Tail(status)|];
    assert name + rest[|rest| - |Tail(status)|..] == rest;
    (name, status)
  }

  /** The last `k` characters of a string ending in `t` are those of `t`. */
  lemma SuffixChar(a: string, t: string, k: nat)
    requires 1 <= k <= |t|
    ensures (a + t)[|a + t| - k] == t[|t| - k]
  {
  }

  /** A notification never ends in the tail of a different status. */
  lemma TailsDiffer(name: string, s1: string, s2: string)
    requires s1 in HomeworkStatuses && s2 in HomeworkStatuses && s1 != s2
    ensures !EndsWith(name + Tail(s1), Tail(s2))
  {
    var m := name + Tail(s1);
    if EndsWith(m, Tail(s2)) {
      var t1, t2 := Tail(s1), Tail(s2);
      assert m[|m| - 1] == t2[|t2| - 1] && m[|m| - 2] == t2[|t2| - 2] by {
        assert m[|m| - |t2|..] == t2;
        assert m[|m| - 1] == m[|m| - |t2|..][|t2| - 1];
        assert m[|m| - 2] == m[|m| - |t2|..][|t2| - 2];
      }
      SuffixChar(name, t1, 1);
      SuffixChar(name, t1, 2);
      assert false;
    }
  }

  /** The text after the prefix of a notification is the name followed by the tail. */
  lemma RestOfStatusMessage(name: string, status: string)
    requires status in HomeworkStatuses
    ensures StatusPrefix <= StatusMessage(name, status)
    ensures StatusMessage(name, status)[|StatusPrefix|..] == name + Tail(status)
    ensures NameBefore(name + Tail(status), status) == (name, status)
  {
    var rest := name + Tail(status);
    assert StatusMessage(name, status) == StatusPrefix + rest;
    var (n, s) := NameBefore(rest, status);
    assert n == (n + Tail(status))[..|n|];
  }

  /** Decomposing a notification gives back the name and status it was made from. */
  lemma DecomposeStatusMessage(name: string, status: string)
    requires status in HomeworkStatuses
    ensures DecomposeMessage(StatusMessage(name, status)) == Some((name, status))
  {
    RestOfStatusMessage(name, status);
    var rest := name + Tail(status);
    assert status in StatusOrder;
    forall i | 0 <= i < |StatusOrder| && StatusOrder[i] != status
      ensures !EndsWith(rest, Tail(StatusOrder[i]))
    {
      TailsDiffer(name, status, StatusOrder[i]);
    }
    FirstTailFinds(rest, StatusOrder, status);
  }

  /**
   * Two notifications are equal exactly when they name the same homework
   * and the same status, so duplicates are suppressed only for an unchanged
   * (name, status) pair.
   */
  lemma StatusMessageInjective(n1: string, s1: string, n2: string, s2: string)
    requires s1 in HomeworkStatuses && s2 in HomeworkStatuses
    ensures StatusMessage(n1, s1) == StatusMessage(n2, s2) <==> n1 == n2 && s1 == s2
  {
    DecomposeStatusMessage(n1, s1);
    DecomposeStatusMessage(n2, s2);
  }

  /** check_tokens: true exactly when none of the three settings is None. */
  function CheckTokens(practicumToken: Option<string>, telegramToken: Option<string>,
                       telegramChatId: Option<string>): (ok: bool)
    ensures ok <==> practicumToken.Some? && telegramToken.Some? && telegramChatId.Some?
  {
    None !in [practicumToken, telegramToken, telegramChatId]
  }

  /** An empty setting is present: only None fails the check. */
  lemma EmptyTokensPass()
    ensures CheckTokens(Some(""), Some(""), Some(""))
    ensures !CheckTokens(Some("token"), Some("token"), None)
  {
  }

  /** One attempt of the try block in main: fetch, check_response, parse_status of the first record. */
  function Poll(reply: Reply): Result<string, Error> {
    match GetApiAnswer(reply)
    case Err(e) => Err(e)
    case Ok(response) =>
      match CheckResponse(response)
      case Err(e) => Err(e)
      case Ok(homeworks) => ParseStatus(homeworks[0])
  }

  /**
   * An attempt succeeds exactly for a 200 answer whose body passes
   * check_response and whose first record passes parse_status; its text is
   * then a notification that decomposes into a name and a status. The
   * first stage that fails gives the error.
   */
  lemma PollOutcome(reply: Reply)
    ensures Poll(reply).Ok? <==>
      GetApiAnswer(reply).Ok? && CheckResponse(reply.body).Ok? &&
      ValidRecord(CheckResponse(reply.body).value[0])
    ensures Poll(reply).Ok? ==> StatusPrefix <= Poll(reply).value && DecomposeMessage(Poll(reply).value).Some?
    ensures GetApiAnswer(reply).Err? ==> Poll(reply) == Err(GetApiAnswer(reply).error)
    ensures GetApiAnswer(reply).Ok? && CheckResponse(reply.body).Err? ==>
      Poll(reply) == Err(CheckResponse(reply.body).error)
    ensures GetApiAnswer(reply).Ok? && CheckResponse(reply.body).Ok? ==>
      Poll(reply) == ParseStatus(CheckResponse(reply.body).value[0])
  {
    if Poll(reply).Ok? {
      var h := CheckResponse(reply.body).value[0];
      var name := Str(Get(h.members, "homework_name").value);
      var status := Get(h.members, "status").value.s;
      DecomposeStatusMessage(name, status);
      assert StatusMessage(name, status) == StatusPrefix + (name + Tail(status));
    }
  }

  /** A 200 answer with one approved homework "hw1". */
  lemma ApprovedHomeworkNotification()
    ensures Poll(Answer(200, JObject([("homeworks", JArray([JObject([
              ("homework_name", JStr("hw1")), ("status", JStr("approved"))])]))])))
         == Ok("Изменился статус проверки работы \"hw1" + "\". " + "Работа проверена: ревьюеру всё понравилось. Ура!")
  {
    var record := JObject([("homework_name", JStr("hw1")), ("status", JStr("approved"))]);
    assert Get(record.members, "status") == Some(JStr("approved"));
    assert Get(record.members, "homework_name") == Some(JStr("hw1"));
    assert ParseStatus(record) == Ok(StatusMessage("hw1", "approved"));
    var response := JObject([("homeworks", JArray([record]))]);
    assert Get(response.members, "homeworks") == Some(JArray([record]));
    assert CheckResponse(response) == Ok([record]);
    assert Poll(Answer(200, response)) == Ok(StatusMessage("hw1", "approved"));
    var verdict := HomeworkStatuses["approved"];
    assert verdict == "Работа проверена: ревьюеру всё понравилось. Ура!";
    assert StatusPrefix + "hw1" == "Изменился статус проверки работы \"hw1";
    assert StatusMessage("hw1", "approved") == StatusPrefix + "hw1" + ("\". " + verdict);
    var head := "Изменился статус проверки работы \"hw1";
    assert head + ("\". " + verdict) == head + "\". " + verdict;
  }

  /** An empty homework list is reported as such, not as a crash. */
  lemma EmptyHomeworkList()
    ensures Poll(Answer(200, JObject([("homeworks", JArray([]))]))) == Err(Failure(NoHomeworks))
  {
    assert Get([("homeworks", JArray([]))], "homeworks") == Some(JArray([]));
  }

  /** A response without the `homeworks` key reads it as None, which is not a list. */
  lemma MissingHomeworksKey(members: seq<(string, Json)>)
    requires forall i :: 0 <= i < |members| ==> members[i].0 != "homeworks"
    ensures CheckResponse(JObject(members)) == Err(TypeError(NotAList + "None"))
  {
    GetMissing(members, "homeworks");
  }

  /** A status outside the table is a KeyError. */
  lemma UnknownStatusRejected()
    ensures ParseStatus(JObject([("homework_name", JStr("hw1")), ("status", JStr("done"))]))
         == Err(KeyError(UnknownStatus))
  {
    var record := JObject([("homework_name", JStr("hw1")), ("status", JStr("done"))]);
    assert Get(record.members, "status") == Some(JStr("done"));
    assert Get(record.members, "homework_name") == Some(JStr("hw1"));
    assert "done" !in HomeworkStatuses;
  }

  /** A KeyError is reported by the repr of its message: for a plain message, the message in single quotes. */
  lemma KeyErrorText(message: string)
    requires PlainText(message)
    ensures ErrorText(KeyError(message)) == "'" + message + "'"
  {
    QuotePlain(message);
  }

  /** The report of an unknown status carries its message in quotes. */
  lemma UnknownStatusText()
    ensures ErrorText(KeyError(UnknownStatus)) == "'" + UnknownStatus + "'"
  {
    var head, tail := "Не верный", " статус домашней работы";
    assert UnknownStatus == head + tail;
    PlainWords(head, tail);
    KeyErrorText(UnknownStatus);
  }

  // The two lemmas below prove PlainText of the message one short literal at a
  // time: stated of the whole literal at once the proof is too costly.
  lemma PlainWords(head: string, tail: string)
    requires head == "Не верный" && tail == " статус домашней работы"
    ensures PlainText(head + tail)
  {
    PlainStatusWords(tail);
    PlainConcat(head, tail);
  }

  lemma PlainStatusWords(tail: string)
    requires tail == " статус домашней работы"
    ensures PlainText(tail)
  {
    var a, b := " статус", " домашней работы";
    assert tail == a + b;
    PlainConcat(a, b);
  }
}
