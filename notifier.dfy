/**
 * The poll loop of `main`: after startup, every iteration makes one attempt
 * (fetch, check_response, parse_status) and sends the resulting status text,
 * or the failure report, only when it differs from the last one of its kind.
 * The loop is specified by `Advance` on the two remembered strings and by
 * `Run` over a finite sequence of attempts; the class `Orchestrator` holds
 * the same strings as fields and is proved against them.
 */
module Notifier {
  import opened Wrappers
  import opened PyJson
  import opened Homework

  const ErrorPrefix := "Сбой в работе программы: "

  /** The two kinds of outbound message the loop deduplicates separately. */
  datatype Channel = StatusChannel | ErrorChannel

  /** One message handed to the bot, with the kind it belongs to. */
  datatype Notice = Notice(channel: Channel, text: string)

  /** `last_message` and `last_error_msg`. */
  datatype Memory = Memory(lastMessage: string, lastError: string)

  datatype Stepped = Stepped(memory: Memory, notice: Option<Notice>)

  datatype Trace = Trace(memory: Memory, notices: seq<Notice>)

  /** The failure report for an error caught by the loop. */
  function FailureText(e: Error): string {
    ErrorPrefix + ErrorText(e)
  }

  function ChannelOf(outcome: Result<string, Error>): Channel {
    if outcome.Ok? then StatusChannel else ErrorChannel
  }

  /** The text an attempt would send: the status message, or the failure report. */
  function TextOf(outcome: Result<string, Error>): string {
    if outcome.Ok? then outcome.value else FailureText(outcome.error)
  }

  /** The remembered text of a channel. */
  function Stored(m: Memory, c: Channel): string {
    if c == StatusChannel then m.lastMessage else m.lastError
  }

  function Other(c: Channel): Channel {
    if c == StatusChannel then ErrorChannel else StatusChannel
  }

  /**
   * One iteration of the loop after its attempt: the `except` branch for an
   * error, the `else` branch for a status message.
   */
  function Advance(m: Memory, outcome: Result<string, Error>): Stepped {
    match outcome
    case Err(error) =>
      var errorMessage := FailureText(error);
      if m.lastError != errorMessage then
        Stepped(m.(lastError := errorMessage), Some(Notice(ErrorChannel, errorMessage)))
      else Stepped(m, None)
    case Ok(message) =>
      if m.lastMessage != message then
        Stepped(m.(lastMessage := message), Some(Notice(StatusChannel, message)))
      else Stepped(m, None)
  }

  /**
   * After a step the channel of the outcome remembers its text and the
   * other channel is untouched; a message goes out exactly when the text
   * differs from the one remembered, and it is that text on that channel.
   */
  lemma AdvanceSpec(m: Memory, outcome: Result<string, Error>)
    ensures Stored(Advance(m, outcome).memory, ChannelOf(outcome)) == TextOf(outcome)
    ensures Stored(Advance(m, outcome).memory, Other(ChannelOf(outcome))) == Stored(m, Other(ChannelOf(outcome)))
    ensures Advance(m, outcome).notice.Some? <==> TextOf(outcome) != Stored(m, ChannelOf(outcome))
    ensures Advance(m, outcome).notice.Some? ==>
      Advance(m, outcome).notice.value == Notice(ChannelOf(outcome), TextOf(outcome))
  {
  }

  function Sent(notice: Option<Notice>): seq<Notice> {
    if notice.Some? then [notice.value] else []
  }

  /** The loop over a finite sequence of attempt outcomes, from memory `m`. */
  function Run(m: Memory, outcomes: seq<Result<string, Error>>): (t: Trace)
    ensures |t.notices| <= |outcomes|
    decreases |outcomes|
  {
    if outcomes == [] then Trace(m, [])
    else
      var s := Advance(m, outcomes[0]);
      var rest := Run(s.memory, outcomes[1..]);
      Trace(rest.memory, Sent(s.notice) + rest.notices)
  }

  /** The texts sent on channel `c`, in order. */
  function OnChannel(c: Channel, notices: seq<Notice>): seq<string> {
    if notices == [] then [] else TextOn(c, Some(notices[0])) + OnChannel(c, notices[1..])
  }

  /** The text of a notice if there is one and it is on channel `c`. */
  function TextOn(c: Channel, notice: Option<Notice>): seq<string> {
    if notice.Some? && notice.value.channel == c then [notice.value.text] else []
  }

  /** The texts the attempts produce for channel `c`, in order, whether sent or not. */
  function Feed(c: Channel, outcomes: seq<Result<string, Error>>): seq<string> {
    if outcomes == [] then [] else FeedOne(c, outcomes[0]) + Feed(c, outcomes[1..])
  }

  function FeedOne(c: Channel, outcome: Result<string, Error>): seq<string> {
    if ChannelOf(outcome) == c then [TextOf(outcome)] else []
  }

  /** `xs` with every element dropped that equals the one kept before it (`last` at first). */
  function Compress(xs: seq<string>, last: string): seq<string> {
    if xs == [] then []
    else if xs[0] == last then Compress(xs[1..], last)
    else [xs[0]] + Compress(xs[1..], xs[0])
  }

  function LastOr(xs: seq<string>, default: string): string {
    if xs == [] then default else xs[|xs| - 1]
  }

  predicate NoAdjacentRepeat(ys: seq<string>) {
    forall i :: 0 <= i < |ys| - 1 ==> ys[i] != ys[i + 1]
  }

  lemma OnChannelSent(c: Channel, notice: Option<Notice>, rest: seq<Notice>)
    ensures OnChannel(c, Sent(notice) + rest) == TextOn(c, notice) + OnChannel(c, rest)
  {
    if notice.Some? {
      var ns := Sent(notice) + rest;
      assert ns[0] == notice.value && ns[1..] == rest;
    } else {
      assert Sent(notice) + rest == rest;
    }
  }

  /** One step seen from channel `c`: it extends the compressed sequence by what it sends there. */
  lemma ChannelStep(c: Channel, m: Memory, outcome: Result<string, Error>,
                    feedRest: seq<string>, onRest: seq<string>, lastRest: string)
    requires onRest == Compress(feedRest, Stored(Advance(m, outcome).memory, c))
    requires lastRest == LastOr(feedRest, Stored(Advance(m, outcome).memory, c))
    ensures TextOn(c, Advance(m, outcome).notice) + onRest == Compress(FeedOne(c, outcome) + feedRest, Stored(m, c))
    ensures lastRest == LastOr(FeedOne(c, outcome) + feedRest, Stored(m, c))
  {
    AdvanceSpec(m, outcome);
    var t := TextOf(outcome);
    if ChannelOf(outcome) == c {
      var xs := [t] + feedRest;
      assert xs[0] == t && xs[1..] == feedRest;
      if feedRest != [] {
        assert xs[|xs| - 1] == feedRest[|feedRest| - 1];
      }
    } else {
      assert Other(ChannelOf(outcome)) == c;
      assert FeedOne(c, outcome) + feedRest == feedRest;
    }
  }

  /**
   * Each channel behaves as if alone: what it sends is the sequence of its
   * own texts with adjacent repeats removed, whatever the other channel
   * does in between, and it ends up remembering its latest text.
   */
  lemma {:induction false} RunPerChannel(m: Memory, outcomes: seq<Result<string, Error>>, c: Channel)
    ensures OnChannel(c, Run(m, outcomes).notices) == Compress(Feed(c, outcomes), Stored(m, c))
    ensures Stored(Run(m, outcomes).memory, c) == LastOr(Feed(c, outcomes), Stored(m, c))
    decreases |outcomes|
  {
    if outcomes != [] {
      var s := Advance(m, outcomes[0]);
      var rest := Run(s.memory, outcomes[1..]);
      RunPerChannel(s.memory, outcomes[1..], c);
      OnChannelSent(c, s.notice, rest.notices);
      ChannelStep(c, m, outcomes[0], Feed(c, outcomes[1..]), OnChannel(c, rest.notices),
                  Stored(rest.memory, c));
    }
  }

  /** A compressed sequence never repeats an element, nor starts with `last`. */
  lemma {:induction false} CompressNoRepeat(xs: seq<string>, last: string)
    ensures NoAdjacentRepeat(Compress(xs, last))
    ensures |Compress(xs, last)| > 0 ==> Compress(xs, last)[0] != last
    decreases |xs|
  {
    if xs != [] {
      if xs[0] == last {
        CompressNoRepeat(xs[1..], last);
      } else {
        CompressNoRepeat(xs[1..], xs[0]);
        var tail := Compress(xs[1..], xs[0]);
        var ys := [xs[0]] + tail;
        forall i | 0 <= i < |ys| - 1 ensures ys[i] != ys[i + 1] {
          if i > 0 { assert ys[i] == tail[i - 1] && ys[i + 1] == tail[i]; }
        }
      }
    }
  }

  /**
   * The loop never sends the same text twice in a row on one channel, and
   * the first text it sends on a channel differs from the one remembered.
   */
  lemma NeverSendsSameTextTwiceInARow(m: Memory, outcomes: seq<Result<string, Error>>, c: Channel)
    ensures NoAdjacentRepeat(OnChannel(c, Run(m, outcomes).notices))
    ensures |OnChannel(c, Run(m, outcomes).notices)| > 0 ==>
      OnChannel(c, Run(m, outcomes).notices)[0] != Stored(m, c)
  {
    RunPerChannel(m, outcomes, c);
    CompressNoRepeat(Feed(c, outcomes), Stored(m, c));
  }

  function Repeat(outcome: Result<string, Error>, n: nat): (r: seq<Result<string, Error>>)
    ensures |r| == n && forall i :: 0 <= i < n ==> r[i] == outcome
  {
    seq(n, _ => outcome)
  }

  /** Once a text is remembered, repeating the attempt that produces it sends nothing and changes nothing. */
  lemma {:induction false} RepeatIsSilent(m: Memory, outcome: Result<string, Error>, n: nat)
    requires Stored(m, ChannelOf(outcome)) == TextOf(outcome)
    ensures Run(m, Repeat(outcome, n)) == Trace(m, [])
  {
    if n > 0 {
      var s := Advance(m, outcome);
      AdvanceSpec(m, outcome);
      assert s == Stepped(m, None) by {
        assert s.memory.lastMessage == m.lastMessage && s.memory.lastError == m.lastError by {
          assert ChannelOf(outcome) == StatusChannel || ChannelOf(outcome) == ErrorChannel;
        }
      }
      assert Repeat(outcome, n)[1..] == Repeat(outcome, n - 1);
      RepeatIsSilent(m, outcome, n - 1);
    }
  }

  /**
   * Any number of identical consecutive attempts sends at most one message:
   * exactly what the first of them sends.
   */
  lemma RepeatedOutcomeSendsAtMostOnce(m: Memory, outcome: Result<string, Error>, n: nat)
    requires n > 0
    ensures Run(m, Repeat(outcome, n)).notices == Sent(Advance(m, outcome).notice)
    ensures |Run(m, Repeat(outcome, n)).notices| <= 1
  {
    var s := Advance(m, outcome);
    AdvanceSpec(m, outcome);
    assert Repeat(outcome, n)[1..] == Repeat(outcome, n - 1);
    RepeatIsSilent(s.memory, outcome, n - 1);
  }

  /**
   * A status text and a failure report are never equal, so the bot never
   * gets the same text twice in a row even across the two channels.
   */
  lemma StatusNeverLooksLikeFailure(reply: Reply, e: Error)
    requires Poll(reply).Ok?
    ensures Poll(reply).value != FailureText(e)
  {
    PollOutcome(reply);
    var v := Poll(reply).value;
    assert v[0] == StatusPrefix[0];
    assert FailureText(e)[0] == ErrorPrefix[0];
  }

  /** Two identical 503 answers: one failure report, then silence. */
  lemma ServiceUnavailableReportedOnce()
    ensures Run(Memory("", ""), [Poll(Answer(503, JNull)), Poll(Answer(503, JNull))]).notices
         == [Notice(ErrorChannel, ErrorPrefix + ApiUnavailable)]
  {
    var o := Poll(Answer(503, JNull));
    assert o == Err(Failure(ApiUnavailable));
    assert [o, o] == Repeat(o, 2);
    RepeatedOutcomeSendsAtMostOnce(Memory("", ""), o, 2);
  }

  /** One pass of the loop body of `main`, given what the request produced and the clock. */
  datatype Iteration = Iteration(reply: Reply, clock: int)

  function Texts(notices: seq<Notice>): (r: seq<string>)
    ensures |r| == |notices| && forall k :: 0 <= k < |notices| ==> r[k] == notices[k].text
  {
    seq(|notices|, k requires 0 <= k < |notices| => notices[k].text)
  }

  /** The state `main` keeps while it polls. */
  class Orchestrator {
    var lastMessage: string
    var lastErrorMsg: string
    /** `current_timestamp`, set once and never reassigned. */
    const currentTimestamp := PollTimestamp
    /** Every text handed to the bot, in order. */
    var sent: seq<string>
    /** The `from_date` of every request made, in order. */
    var requested: seq<int>

    function Dedup(): Memory
      reads this
    {
      Memory(lastMessage, lastErrorMsg)
    }

    /** The loop's state once the credentials passed and the startup message went out. */
    constructor ()
      ensures Dedup() == Memory("", "")
      ensures sent == [StartupMessage] && requested == []
    {
      lastErrorMsg := "";
      lastMessage := "";
      sent := [StartupMessage];
      requested := [];
    }

    /** The request of an iteration: get_api_answer is called with the fixed timestamp, whatever the clock says. */
    method Request(clock: int) returns (fromDate: int)
      modifies this`requested
      ensures fromDate == PollTimestamp
      ensures requested == old(requested) + [fromDate]
    {
      fromDate := FromDate(currentTimestamp, clock);
      requested := requested + [fromDate];
    }

    /** What an iteration does with the outcome of its attempt. */
    method Step(outcome: Result<string, Error>) returns (notice: Option<Notice>)
      modifies this`lastMessage, this`lastErrorMsg, this`sent
      ensures Stepped(Dedup(), notice) == Advance(old(Dedup()), outcome)
      ensures sent == old(sent) + Texts(Sent(notice))
    {
      match outcome {
        case Err(error) =>
          var errorMessage := FailureText(error);
          if lastErrorMsg != errorMessage {
            lastErrorMsg := errorMessage;
            sent := sent + [lastErrorMsg];
            notice := Some(Notice(ErrorChannel, errorMessage));
          } else {
            notice := None;
          }
        case Ok(message) =>
          if lastMessage != message {
            lastMessage := message;
            sent := sent + [message];
            notice := Some(Notice(StatusChannel, message));
          } else {
            notice := None;
          }
      }
    }

    /** One iteration of `while True`, without the sleep. */
    method Iterate(it: Iteration) returns (notice: Option<Notice>)
      modifies this
      ensures Stepped(Dedup(), notice) == Advance(old(Dedup()), Poll(it.reply))
      ensures sent == old(sent) + Texts(Sent(notice))
      ensures requested == old(requested) + [PollTimestamp]
    {
      var fromDate := Request(it.clock);
      var outcome := Poll(it.reply);
      notice := Step(outcome);
    }

    /** The loop over a finite sequence of attempt outcomes. */
    method RunAll(outcomes: seq<Result<string, Error>>) returns (notices: seq<Notice>)
      modifies this`lastMessage, this`lastErrorMsg, this`sent
      ensures Trace(Dedup(), notices) == Run(old(Dedup()), outcomes)
      ensures sent == old(sent) + Texts(notices)
    {
      ghost var start := Dedup();
      notices := [];
      var i := 0;
      while i < |outcomes|
        invariant 0 <= i <= |outcomes|
        invariant Trace(Dedup(), notices) == Run(start, outcomes[..i])
        invariant sent == old(sent) + Texts(notices)
      {
        ghost var before := Dedup();
        var notice := Step(outcomes[i]);
        LoopStep(start, outcomes[..i], outcomes[i], before, notices, Dedup(), notice);
        assert outcomes[..i + 1] == outcomes[..i] + [outcomes[i]];
        TextsAppend(notices, Sent(notice));
        notices := notices + Sent(notice);
        i := i + 1;
      }
      assert outcomes[..i] == outcomes;
    }
  }

  /** A run extended by one iteration whose step went from `before` to `after`. */
  lemma LoopStep(start: Memory, done: seq<Result<string, Error>>, outcome: Result<string, Error>,
                 before: Memory, notices: seq<Notice>, after: Memory, notice: Option<Notice>)
    requires Run(start, done) == Trace(before, notices)
    requires Stepped(after, notice) == Advance(before, outcome)
    ensures Run(start, done + [outcome]) == Trace(after, notices + Sent(notice))
  {
    RunSnoc(start, done, outcome);
  }

  /** Running one more attempt after a run is one Advance from where the run ended. */
  lemma {:induction false} RunSnoc(m: Memory, outcomes: seq<Result<string, Error>>, last: Result<string, Error>)
    ensures Run(m, outcomes + [last]) ==
      Trace(Advance(Run(m, outcomes).memory, last).memory,
            Run(m, outcomes).notices + Sent(Advance(Run(m, outcomes).memory, last).notice))
    decreases |outcomes|
  {
    if outcomes == [] {
      assert [] + [last] == [last];
    } else {
      var s := Advance(m, outcomes[0]);
      assert (outcomes + [last])[0] == outcomes[0];
      assert (outcomes + [last])[1..] == outcomes[1..] + [last];
      RunSnoc(s.memory, outcomes[1..], last);
    }
  }

  lemma TextsAppend(a: seq<Notice>, b: seq<Notice>)
    ensures Texts(a + b) == Texts(a) + Texts(b)
  {
  }

  /** Startup of `main`: the credential check, then the loop's initial state. */
  method Launch(practicumToken: Option<string>, telegramToken: Option<string>,
                telegramChatId: Option<string>) returns (r: Result<Orchestrator, Error>)
    ensures r.Err? <==> !CheckTokens(practicumToken, telegramToken, telegramChatId)
    ensures r.Err? ==> r.error == Failure(MissingTokens)
    ensures r.Ok? ==> fresh(r.value) && r.value.Dedup() == Memory("", "") &&
                      r.value.sent == [StartupMessage] && r.value.requested == []
  {
    if !CheckTokens(practicumToken, telegramToken, telegramChatId) {
      return Err(Failure(MissingTokens));
    }
    var loop := new Orchestrator();
    r := Ok(loop);
  }
}
