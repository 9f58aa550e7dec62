/** Token-aware context window: token costs of messages (the character
    approximation of the counter) and the trimming of a message list to a
    token budget. */
module ContextManager {
  import opened Wrappers
  import opened Messages

  const MAX_CONTEXT_TOKENS: int := 8192
  const REPLY_BUFFER_TOKENS: int := 1024
  /** Per-message framing overhead. */
  const TOKENS_PER_MESSAGE: nat := 4
  /** Fixed cost of one `image_url` part. */
  const IMAGE_TOKENS: nat := 256
  /** Reply-priming overhead added once per message list. */
  const REPLY_PRIMING_TOKENS: nat := 3

  // ---------------------------------------------------------------------
  // Token counting
  // ---------------------------------------------------------------------

  /** Approximate token count of a string: one token per started group of
      three characters, and never less than one. */
  function StrTokens(text: string): (n: nat)
    ensures n >= 1
    ensures |text| > 0 ==> 3 * (n - 1) < |text| <= 3 * n
    ensures |text| == 0 ==> n == 1
  {
    var q := (|text| + 2) / 3;
    if q < 1 then 1 else q
  }

  /** What one multipart element adds: text parts their string cost, image
      parts a fixed cost, anything else nothing. */
  function PartCost(p: Part): nat {
    match p
    case TextPart(t) => StrTokens(t)
    case ImageUrlPart(_) => IMAGE_TOKENS
    case _ => 0
  }

  function PartsCost(ps: seq<Part>): nat {
    if ps == [] then 0 else PartsCost(ps[..|ps| - 1]) + PartCost(ps[|ps| - 1])
  }

  /** The token cost of one message, framing included. */
  function MessageCost(m: Message): (n: nat)
    ensures n >= TOKENS_PER_MESSAGE
    ensures m.content.Text? ==> n >= TOKENS_PER_MESSAGE + 1
    ensures m.content == Text("") ==> n == TOKENS_PER_MESSAGE + 1
    ensures m.content == Parts([]) ==> n == TOKENS_PER_MESSAGE
  {
    TOKENS_PER_MESSAGE + match m.content
      case Text(s) => StrTokens(s)
      case Parts(ps) => PartsCost(ps)
  }

  /** Sum of the per-message costs. */
  function SumCost(ms: seq<Message>): nat {
    if ms == [] then 0 else SumCost(ms[..|ms| - 1]) + MessageCost(ms[|ms| - 1])
  }

  /** The cost of a whole message list, reply priming included. */
  function ListCost(ms: seq<Message>): nat {
    SumCost(ms) + REPLY_PRIMING_TOKENS
  }

  /** `count_message_tokens`: a framing constant, then a fold over the
      content with a running total. */
  method CountMessageTokens(m: Message) returns (tokens: nat)
    ensures tokens == MessageCost(m)
  {
    tokens := TOKENS_PER_MESSAGE;
    match m.content {
      case Text(s) =>
        tokens := tokens + StrTokens(s);
      case Parts(ps) =>
        var i := 0;
        while i < |ps|
          invariant 0 <= i <= |ps|
          invariant tokens == TOKENS_PER_MESSAGE + PartsCost(ps[..i])
        {
          match ps[i] {
            case TextPart(t) => tokens := tokens + StrTokens(t);
            case ImageUrlPart(_) => tokens := tokens + IMAGE_TOKENS;
            case _ =>
          }
          assert ps[..i + 1][..i] == ps[..i];
          i := i + 1;
        }
        assert ps[..i] == ps;
    }
  }

  // An independent reading of the cost of multipart content: the text
  // parts' string costs plus a fixed cost per image part.

  function TextPartsCost(ps: seq<Part>): nat {
    if ps == [] then 0
    else (if ps[0].TextPart? then StrTokens(ps[0].text) else 0) + TextPartsCost(ps[1..])
  }

  function ImageCount(ps: seq<Part>): nat {
    if ps == [] then 0 else (if ps[0].ImageUrlPart? then 1 else 0) + ImageCount(ps[1..])
  }

  lemma {:induction false} PartsCostCons(p: Part, ps: seq<Part>)
    ensures PartsCost([p] + ps) == PartCost(p) + PartsCost(ps)
    decreases |ps|
  {
    if ps != [] {
      assert ([p] + ps)[..|ps|] == [p] + ps[..|ps| - 1];
      PartsCostCons(p, ps[..|ps| - 1]);
    }
  }

  /** A multipart message costs the framing, its text parts' costs and 256
      per image part; other parts cost nothing. */
  lemma {:induction false} MultipartCost(role: string, ps: seq<Part>)
    ensures MessageCost(Message(role, Parts(ps)))
         == TOKENS_PER_MESSAGE + TextPartsCost(ps) + IMAGE_TOKENS * ImageCount(ps)
    decreases |ps|
  {
    if ps != [] {
      MultipartCost(role, ps[1..]);
      PartsCostCons(ps[0], ps[1..]);
      assert [ps[0]] + ps[1..] == ps;
    }
  }

  lemma {:induction false} SumCostAppend(a: seq<Message>, b: seq<Message>)
    ensures SumCost(a + b) == SumCost(a) + SumCost(b)
    decreases |b|
  {
    if b == [] {
      assert a + b == a;
    } else {
      assert (a + b)[..|a + b| - 1] == a + b[..|b| - 1];
      SumCostAppend(a, b[..|b| - 1]);
    }
  }

  /** The cost of a list is the sum of the costs of its messages plus the
      reply priming, however the list is split. */
  lemma ListCostAppend(a: seq<Message>, b: seq<Message>)
    ensures ListCost(a + b) == SumCost(a) + ListCost(b)
  {
    SumCostAppend(a, b);
  }

  // ---------------------------------------------------------------------
  // Context window
  // ---------------------------------------------------------------------

  /** Why a message list cannot be sent: the mandatory part alone costs
      `required` tokens but only `available` are allowed. */
  datatype BudgetExceeded = BudgetExceeded(required: int, available: int, replyBuffer: int)

  /** The system messages, in their original relative order. */
  function Systems(ms: seq<Message>): seq<Message> {
    if ms == [] then []
    else Systems(ms[..|ms| - 1]) + (if ms[|ms| - 1].role == SYSTEM then [ms[|ms| - 1]] else [])
  }

  /** Everything else, in original order. */
  function History(ms: seq<Message>): seq<Message> {
    if ms == [] then []
    else History(ms[..|ms| - 1]) + (if ms[|ms| - 1].role != SYSTEM then [ms[|ms| - 1]] else [])
  }

  /** How many of the newest history messages the walk keeps: it takes the
      newest message while it fits in what is left and stops at the first
      that does not. */
  function KeepCount(hist: seq<Message>, remaining: int): (k: nat)
    ensures k <= |hist|
  {
    if hist == [] then 0
    else
      var t := MessageCost(hist[|hist| - 1]);
      if t <= remaining then 1 + KeepCount(hist[..|hist| - 1], remaining - t) else 0
  }

  function Kept(hist: seq<Message>, remaining: int): seq<Message> {
    hist[|hist| - KeepCount(hist, remaining)..]
  }

  /** The messages that must be sent whatever the budget: every system
      message before the last one, and the last one. */
  function Mandatory(messages: seq<Message>): seq<Message>
    requires messages != []
  {
    Systems(messages[..|messages| - 1]) + [messages[|messages| - 1]]
  }

  /** `r` is: the system messages in their original relative order, then the
      non-system history from position `j` on (a contiguous suffix, in
      original order), then the input's last message. */
  predicate WindowShape(messages: seq<Message>, r: seq<Message>, j: int)
    requires messages != []
  {
    var init := messages[..|messages| - 1];
    0 <= j <= |History(init)|
    && r == Systems(init) + History(init)[j..] + [messages[|messages| - 1]]
  }

  /** `build_context_window` as a function of its inputs. */
  function ContextWindow(messages: seq<Message>, maxTokens: int, replyBufferTokens: int)
    : Result<seq<Message>, BudgetExceeded>
  {
    if messages == [] then Ok([])
    else
      var budget := maxTokens - replyBufferTokens;
      var init := messages[..|messages| - 1];
      var fixed := ListCost(Mandatory(messages));
      if fixed > budget then Err(BudgetExceeded(fixed, budget, replyBufferTokens))
      else Ok(Systems(init) + Kept(History(init), budget - fixed) + [messages[|messages| - 1]])
  }

  lemma {:induction false} KeptStep(hist: seq<Message>, remaining: int)
    requires hist != [] && MessageCost(hist[|hist| - 1]) <= remaining
    ensures Kept(hist, remaining)
         == Kept(hist[..|hist| - 1], remaining - MessageCost(hist[|hist| - 1])) + [hist[|hist| - 1]]
  {
    var n := |hist|;
    var k := KeepCount(hist, remaining);
    assert hist[n - k..] == hist[..n - 1][(n - 1) - (k - 1)..] + [hist[n - 1]];
  }

  /** The kept history never costs more than the budget left for it. */
  lemma {:induction false} KeptFits(hist: seq<Message>, remaining: int)
    requires remaining >= 0
    ensures SumCost(Kept(hist, remaining)) <= remaining
    decreases |hist|
  {
    if hist != [] {
      var t := MessageCost(hist[|hist| - 1]);
      if t <= remaining {
        KeptStep(hist, remaining);
        KeptFits(hist[..|hist| - 1], remaining - t);
        SumCostAppend(Kept(hist[..|hist| - 1], remaining - t), [hist[|hist| - 1]]);
      }
    }
  }

  /** The walk stops only at a message that does not fit in what is left:
      the newest dropped message is more expensive than the unused budget. */
  lemma {:induction false} KeptStopsAtFirstMisfit(hist: seq<Message>, remaining: int)
    requires KeepCount(hist, remaining) < |hist|
    ensures MessageCost(hist[|hist| - KeepCount(hist, remaining) - 1])
          > remaining - SumCost(Kept(hist, remaining))
    decreases |hist|
  {
    var t := MessageCost(hist[|hist| - 1]);
    if t <= remaining {
      var pre := hist[..|hist| - 1];
      var k := KeepCount(pre, remaining - t);
      assert KeepCount(hist, remaining) == k + 1;
      KeptStopsAtFirstMisfit(pre, remaining - t);
      assert hist[|hist| - (k + 1) - 1] == pre[|pre| - k - 1];
      KeptStep(hist, remaining);
      SumCostAppend(Kept(pre, remaining - t), [hist[|hist| - 1]]);
      assert SumCost([hist[|hist| - 1]]) == t;
    } else {
      assert Kept(hist, remaining) == [];
    }
  }

  /** When the whole history fits, nothing is dropped. */
  lemma {:induction false} KeepAllWhenFits(hist: seq<Message>, remaining: int)
    requires SumCost(hist) <= remaining
    ensures KeepCount(hist, remaining) == |hist|
    decreases |hist|
  {
    if hist != [] {
      KeepAllWhenFits(hist[..|hist| - 1], remaining - MessageCost(hist[|hist| - 1]));
    }
  }

  /** Splitting a list into system and other messages keeps every message
      exactly once, so the two parts together cost what the list costs. */
  lemma {:induction false} PartitionCost(ms: seq<Message>)
    ensures SumCost(Systems(ms)) + SumCost(History(ms)) == SumCost(ms)
    ensures |Systems(ms)| + |History(ms)| == |ms|
    decreases |ms|
  {
    if ms != [] {
      var pre := ms[..|ms| - 1];
      var last := ms[|ms| - 1];
      PartitionCost(pre);
      assert SumCost(ms) == SumCost(pre) + MessageCost(last);
      if last.role == SYSTEM {
        assert Systems(ms) == Systems(pre) + [last];
        assert SumCost(Systems(ms)) == SumCost(Systems(pre)) + MessageCost(last);
        assert History(ms) == History(pre);
      } else {
        assert History(ms) == History(pre) + [last];
        assert SumCost(History(ms)) == SumCost(History(pre)) + MessageCost(last);
        assert Systems(ms) == Systems(pre);
      }
    }
  }

  lemma {:induction false} PartitionPermutes(ms: seq<Message>)
    ensures multiset(Systems(ms)) + multiset(History(ms)) == multiset(ms)
    decreases |ms|
  {
    if ms != [] {
      var pre := ms[..|ms| - 1];
      PartitionPermutes(pre);
      assert pre + [ms[|ms| - 1]] == ms;
    }
  }

  lemma SystemsAreSystem(ms: seq<Message>)
    ensures forall i :: 0 <= i < |Systems(ms)| ==> Systems(ms)[i].role == SYSTEM
    ensures forall i :: 0 <= i < |History(ms)| ==> History(ms)[i].role != SYSTEM
  {
  }

  /** A successful result fits the effective budget. */
  lemma WindowWithinBudget(messages: seq<Message>, maxTokens: int, replyBufferTokens: int)
    requires messages != [] && ContextWindow(messages, maxTokens, replyBufferTokens).Ok?
    ensures ListCost(ContextWindow(messages, maxTokens, replyBufferTokens).value)
         <= maxTokens - replyBufferTokens
  {
    var budget := maxTokens - replyBufferTokens;
    var init := messages[..|messages| - 1];
    var last := messages[|messages| - 1];
    var fixed := ListCost(Mandatory(messages));
    var kept := Kept(History(init), budget - fixed);
    KeptFits(History(init), budget - fixed);
    SumCostAppend(Systems(init), [last]);
    SumCostAppend(Systems(init), kept);
    SumCostAppend(Systems(init) + kept, [last]);
  }

  /** The identity law: when every message fits and no system message
      follows a non-system one, the list is returned unchanged. */
  lemma WindowIdentity(messages: seq<Message>, maxTokens: int, replyBufferTokens: int)
    requires messages != []
    requires messages[..|messages| - 1]
          == Systems(messages[..|messages| - 1]) + History(messages[..|messages| - 1])
    requires ListCost(messages) <= maxTokens - replyBufferTokens
    ensures ContextWindow(messages, maxTokens, replyBufferTokens) == Ok(messages)
  {
    var init := messages[..|messages| - 1];
    var last := messages[|messages| - 1];
    var budget := maxTokens - replyBufferTokens;
    assert messages == init + [last];
    SumCostAppend(init, [last]);
    SumCostAppend(Systems(init), History(init));
    SumCostAppend(Systems(init), [last]);
    KeepAllWhenFits(History(init), budget - ListCost(Mandatory(messages)));
  }

  /** Whenever the input does not fit as a whole, trimming drops something. */
  lemma WindowShortens(messages: seq<Message>, maxTokens: int, replyBufferTokens: int)
    requires messages != [] && ContextWindow(messages, maxTokens, replyBufferTokens).Ok?
    requires ListCost(messages) > maxTokens - replyBufferTokens
    ensures |ContextWindow(messages, maxTokens, replyBufferTokens).value| < |messages|
  {
    var r := ContextWindow(messages, maxTokens, replyBufferTokens).value;
    var init := messages[..|messages| - 1];
    var last := messages[|messages| - 1];
    PartitionCost(init);
    WindowWithinBudget(messages, maxTokens, replyBufferTokens);
    assert messages == init + [last];
    SumCostAppend(init, [last]);
    var kept := Kept(History(init), maxTokens - replyBufferTokens - ListCost(Mandatory(messages)));
    if |r| == |messages| {
      assert |kept| == |History(init)|;
      assert kept == History(init);
      SumCostAppend(Systems(init), kept);
      SumCostAppend(Systems(init) + kept, [last]);
    }
  }

  /** `build_context_window`: split the list, check the mandatory part,
      then walk the history newest to oldest until a message does not fit. */
  method BuildContextWindow(messages: seq<Message>, maxTokens: int, replyBufferTokens: int)
    returns (result: Result<seq<Message>, BudgetExceeded>)
    ensures result == ContextWindow(messages, maxTokens, replyBufferTokens)
    ensures messages == [] ==> result == Ok([])
    ensures result.Err? <==>
              messages != [] && ListCost(Mandatory(messages)) > maxTokens - replyBufferTokens
    ensures result.Err? ==> (result.error.required == ListCost(Mandatory(messages))
                             && result.error.available == maxTokens - replyBufferTokens)
    ensures messages != [] && result.Ok? ==>
              && ListCost(result.value) <= maxTokens - replyBufferTokens
              && result.value[|result.value| - 1] == messages[|messages| - 1]
              && exists j :: WindowShape(messages, result.value, j)
  {
    if |messages| == 0 {
      return Ok([]);
    }
    var budget := maxTokens - replyBufferTokens;
    var current := messages[|messages| - 1];
    var systemMsgs, historyMsgs := SplitSystemMessages(messages[..|messages| - 1]);
    var fixedTokens := ListCost(systemMsgs + [current]);
    if fixedTokens > budget {
      return Err(BudgetExceeded(fixedTokens, budget, replyBufferTokens));
    }
    var selected := SelectNewest(historyMsgs, budget - fixedTokens);
    result := Ok(systemMsgs + selected + [current]);
    WindowWithinBudget(messages, maxTokens, replyBufferTokens);
    assert WindowShape(messages, result.value, |historyMsgs| - KeepCount(historyMsgs, budget - fixedTokens));
  }

  /** The first loop of `build_context_window`: system messages and the
      rest, each in original order. */
  method SplitSystemMessages(init: seq<Message>) returns (systemMsgs: seq<Message>, historyMsgs: seq<Message>)
    ensures systemMsgs == Systems(init) && historyMsgs == History(init)
  {
    systemMsgs := [];
    historyMsgs := [];
    for i := 0 to |init|
      invariant systemMsgs == Systems(init[..i])
      invariant historyMsgs == History(init[..i])
    {
      assert init[..i + 1][..i] == init[..i];
      if init[i].role == SYSTEM {
        systemMsgs := systemMsgs + [init[i]];
      } else {
        historyMsgs := historyMsgs + [init[i]];
      }
    }
    assert init[..|init|] == init;
  }

  /** The second loop: walk the history from the newest message, keeping
      each while it fits and stopping at the first that does not. */
  method SelectNewest(hist: seq<Message>, available: int) returns (selected: seq<Message>)
    ensures selected == Kept(hist, available)
  {
    selected := [];
    var remaining := available;
    var j := |hist|;
    assert hist[..j] == hist;
    while j > 0
      invariant 0 <= j <= |hist|
      invariant selected == hist[j..]
      invariant KeepCount(hist, available) == (|hist| - j) + KeepCount(hist[..j], remaining)
    {
      var msg := hist[j - 1];
      var t := CountMessageTokens(msg);
      if t <= remaining {
        assert hist[..j][..j - 1] == hist[..j - 1];
        selected := [msg] + selected;
        remaining := remaining - t;
        j := j - 1;
      } else {
        break;
      }
    }
  }

}
