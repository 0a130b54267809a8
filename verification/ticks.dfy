/**
 * The tick branch of the bot's receive loop (`run_bot` in Bot.py): each price
 * update is appended to a bounded price window, the fast and slow EMAs of the
 * window are recomputed and appended to their own series, and the fast series
 * is bounded like the window. Any other message leaves the series alone.
 *
 * `Next` and `Replay` are the specification on values; `TickProcessor` is the
 * bot's module-level state as an object whose methods update it in place.
 */
module Ticks {
  import opened Options
  import opened Ema

  /** Longest price window and longest fast-EMA series kept. */
  const CAPACITY := 50
  const FAST_PERIOD := 5
  const SLOW_PERIOD := 20

  /** A received message: a price update carrying its quote, or anything else. */
  datatype Message = Tick(quote: real) | Other

  /** The three series the bot keeps. */
  datatype BotState = BotState(prices: seq<real>, fastEmas: seq<real>, slowEmas: seq<real>)

  /** The series when the bot starts. */
  const INITIAL := BotState([], [], [])

  /**
   * One `pop(0)` when a series has grown past the capacity: the result is `xs`
   * itself or `xs` without its oldest element, never anything shorter.
   */
  function EvictOldest(xs: seq<real>): (r: seq<real>)
    ensures |r| == if |xs| > CAPACITY then |xs| - 1 else |xs|
    ensures forall i :: 0 <= i < |r| ==> r[i] == xs[|xs| - |r| + i]
  {
    if |xs| > CAPACITY then xs[1..] else xs
  }

  /**
   * The value stored for an EMA, chosen by the truthiness test `ema if ema else 0`:
   * an undefined EMA and an EMA of zero both store zero.
   */
  function Stored(ema: Option<real>): (v: real)
    ensures v == ema.GetOr(0.0)
  {
    if ema.Some? && ema.value != 0.0 then ema.value else 0.0
  }

  /** The entry appended to an EMA series for the current window. */
  function EmaOrZero(window: seq<real>, period: int): (v: real)
    requires period >= 1
    ensures |window| < period ==> v == 0.0
    ensures |window| >= period ==> v == CalculateEma(window, period).value
  {
    Stored(CalculateEma(window, period))
  }

  /** The state after handling one message. */
  function Next(s: BotState, msg: Message): (r: BotState)
    ensures msg.Other? ==> r == s
    ensures msg.Tick? ==>
      r.prices == (if |s.prices| < CAPACITY then s.prices else s.prices[1..]) + [msg.quote]
    ensures msg.Tick? ==>
      r.fastEmas == (if |s.fastEmas| < CAPACITY then s.fastEmas else s.fastEmas[1..])
                    + [EmaOrZero(r.prices, FAST_PERIOD)]
    ensures msg.Tick? ==> r.slowEmas == s.slowEmas + [EmaOrZero(r.prices, SLOW_PERIOD)]
  {
    match msg
    case Other => s
    case Tick(quote) =>
      var prices := EvictOldest(s.prices + [quote]);
      var fast := CalculateEma(prices, FAST_PERIOD);
      var slow := CalculateEma(prices, SLOW_PERIOD);
      var fastEmas := s.fastEmas + [Stored(fast)];
      var slowEmas := s.slowEmas + [Stored(slow)];
      BotState(prices, EvictOldest(fastEmas), slowEmas)
  }

  /**
   * The state after handling `msgs` in order: the slow series gains one entry
   * per price update among them, and bounded series stay bounded.
   */
  function Replay(s: BotState, msgs: seq<Message>): (r: BotState)
    ensures |r.slowEmas| == |s.slowEmas| + |Quotes(msgs)|
    ensures Bounded(s) ==> Bounded(r)
    decreases |msgs|
  {
    if msgs == [] then s else Next(Replay(s, msgs[..|msgs| - 1]), msgs[|msgs| - 1])
  }

  /** Handling one more message of `msgs` is one more Next. */
  lemma ReplayPrefix(s: BotState, msgs: seq<Message>, i: int)
    requires 0 <= i < |msgs|
    ensures Replay(s, msgs[..i + 1]) == Next(Replay(s, msgs[..i]), msgs[i])
  {
    assert msgs[..i + 1][..i] == msgs[..i];
  }

  // ----- Bounds -----

  /** Both bounded series within the capacity. */
  predicate Bounded(s: BotState) {
    |s.prices| <= CAPACITY && |s.fastEmas| <= CAPACITY
  }

  /**
   * A tick keeps the window and the fast series within the capacity, puts the
   * quote last in the window and lengthens the slow series by exactly one.
   */
  lemma NextKeepsBounded(s: BotState, msg: Message)
    requires Bounded(s)
    ensures Bounded(Next(s, msg))
    ensures msg.Tick? ==> Next(s, msg).prices[|Next(s, msg).prices| - 1] == msg.quote
    ensures msg.Tick? ==> |Next(s, msg).slowEmas| == |s.slowEmas| + 1
    ensures msg.Tick? ==> |Next(s, msg).fastEmas| == if |s.fastEmas| < CAPACITY then |s.fastEmas| + 1 else CAPACITY
  {
  }

  // ----- A reference definition of the state in terms of the quotes received -----

  /** The quotes of the price updates among `msgs`, in order. */
  function Quotes(msgs: seq<Message>): (q: seq<real>)
    ensures |q| <= |msgs|
    decreases |msgs|
  {
    if msgs == [] then []
    else
      var earlier := Quotes(msgs[..|msgs| - 1]);
      match msgs[|msgs| - 1]
      case Tick(quote) => earlier + [quote]
      case Other => earlier
  }

  /** The newest CAPACITY elements of `q`, oldest first. */
  function Window(q: seq<real>): (w: seq<real>)
    ensures |w| == if |q| <= CAPACITY then |q| else CAPACITY
    ensures forall i :: 0 <= i < |w| ==> w[i] == q[|q| - |w| + i]
  {
    if |q| <= CAPACITY then q else q[|q| - CAPACITY..]
  }

  /** The series of EMA entries appended for each prefix of the quotes. */
  function History(q: seq<real>, period: int): (h: seq<real>)
    requires period >= 1
    ensures |h| == |q|
    decreases |q|
  {
    if q == [] then [] else History(q[..|q| - 1], period) + [EmaOrZero(Window(q), period)]
  }

  /**
   * Appending to a series and evicting once is the same as windowing the longer history.
   * (The element-wise case split is kept for solver stability.)
   */
  lemma WindowSnoc(xs: seq<real>, x: real)
    ensures Window(xs + [x]) == EvictOldest(Window(xs) + [x])
  {
    var lhs := Window(xs + [x]);
    var rhs := EvictOldest(Window(xs) + [x]);
    assert |lhs| == |rhs|;
    forall i | 0 <= i < |lhs|
      ensures lhs[i] == rhs[i]
    {
      if i == |lhs| - 1 {
        assert lhs[i] == x;
      } else if |xs| < CAPACITY {
        assert lhs[i] == xs[i];
      } else {
        assert lhs[i] == xs[|xs| - CAPACITY + 1 + i];
      }
    }
  }

  /** One more quote appends one entry to the history (the assert is kept for solver stability). */
  lemma HistorySnoc(q: seq<real>, quote: real, period: int)
    requires period >= 1
    ensures History(q + [quote], period) == History(q, period) + [EmaOrZero(Window(q + [quote]), period)]
  {
    assert (q + [quote])[..|q|] == q;
  }

  /**
   * From empty series, after any messages: the window holds the newest 50
   * quotes, the fast series the newest 50 fast entries and the slow series
   * one slow entry per quote, each entry computed over the window as it was
   * when its quote arrived.
   */
  lemma {:induction false} ReplayFromStart(msgs: seq<Message>)
    ensures Replay(INITIAL, msgs) ==
      BotState(Window(Quotes(msgs)),
               Window(History(Quotes(msgs), FAST_PERIOD)),
               History(Quotes(msgs), SLOW_PERIOD))
    decreases |msgs|
  {
    if msgs != [] {
      var earlier := msgs[..|msgs| - 1];
      ReplayFromStart(earlier);
      var q := Quotes(earlier);
      match msgs[|msgs| - 1]
      case Other =>
      case Tick(quote) =>
        WindowSnoc(q, quote);
        HistorySnoc(q, quote, FAST_PERIOD);
        HistorySnoc(q, quote, SLOW_PERIOD);
        WindowSnoc(History(q, FAST_PERIOD), EmaOrZero(Window(q + [quote]), FAST_PERIOD));
    }
  }

  /**
   * From empty series, after any messages: the window and the fast series are
   * equally long and within the capacity, the slow series has one entry per
   * price update, and the newest quote is the window's last element.
   */
  lemma {:induction false} ReplayAligned(msgs: seq<Message>)
    ensures var r := Replay(INITIAL, msgs);
      |r.prices| == |r.fastEmas| <= CAPACITY
      && |r.slowEmas| == |Quotes(msgs)|
      && (Quotes(msgs) != [] ==> |r.prices| > 0 && r.prices[|r.prices| - 1] == Quotes(msgs)[|Quotes(msgs)| - 1])
  {
    ReplayFromStart(msgs);
  }

  /** Once more than 50 quotes have arrived, the window no longer holds the oldest ones. */
  lemma {:induction false} ReplayEvictsOldest(msgs: seq<Message>)
    requires |Quotes(msgs)| > CAPACITY
    ensures Replay(INITIAL, msgs).prices == Quotes(msgs)[|Quotes(msgs)| - CAPACITY..]
  {
    ReplayFromStart(msgs);
  }

  // ----- The bot's state, updated in place -----

  /** The module-level lists `prices`, `fast_emas` and `slow_emas`. */
  class TickProcessor {
    var prices: seq<real>
    var fastEmas: seq<real>
    var slowEmas: seq<real>

    ghost function State(): BotState
      reads this
    {
      BotState(prices, fastEmas, slowEmas)
    }

    constructor ()
      ensures State() == INITIAL
    {
      prices, fastEmas, slowEmas := [], [], [];
    }

    /** Handles one received message. */
    method Step(msg: Message)
      modifies this
      ensures State() == Next(old(State()), msg)
    {
      match msg
      case Other =>
      case Tick(price) =>
        prices := prices + [price];
        if |prices| > CAPACITY {
          prices := prices[1..];
        }
        var fastEma := CalculateEmaLoop(prices, FAST_PERIOD);
        var slowEma := CalculateEmaLoop(prices, SLOW_PERIOD);
        fastEmas := fastEmas + [Stored(fastEma)];
        slowEmas := slowEmas + [Stored(slowEma)];
        if |fastEmas| > CAPACITY {
          fastEmas := fastEmas[1..];
        }
    }

    /** Handles the received messages in order, for as long as the bot runs. */
    method Run(msgs: seq<Message>)
      modifies this
      ensures State() == Replay(old(State()), msgs)
    {
      ghost var start := State();
      for i := 0 to |msgs|
        invariant State() == Replay(start, msgs[..i])
      {
        ReplayPrefix(start, msgs, i);
        Step(msgs[i]);
      }
      assert msgs[..|msgs|] == msgs;
    }
  }
}
