# Tick processing of the Deriv EMA bot, in Dafny

The bot receives price ticks from a trading venue, keeps the newest 50 quotes
in a window, recomputes a fast (period 5) and a slow (period 20) exponential
moving average over that window on every tick, and appends both to their own
series. This project models that per-tick arithmetic and bookkeeping from
`Bot.py`:

- `ema.dfy`, module `Ema`: `calculate_ema` as the recursive function
  `CalculateEma` over exact reals (undefined, `None`, when the window is
  shorter than the period; otherwise the recurrence `ema := price*k + ema*(1-k)`
  with `k = 2/(period+1)`, seeded with the first price), the loop of the
  source as the method `CalculateEmaLoop` proved equal to it, and lemmas:
  the result lies between the window's minimum and maximum, a constant window
  yields its constant, extending a window by one price is one more step of the
  recurrence, period 1 gives the newest price, and, as an example,
  `[10, 20, 30]` with period 2 gives `230/9`.
- `ticks.dfy`, module `Ticks`: the tick branch of `run_bot`. `Next` is one
  message on a value `BotState(prices, fastEmas, slowEmas)`; `Replay` folds it
  over a finite sequence of messages. The class `TickProcessor` holds the three
  lists as fields and updates them in place (`Step`, `Run`), proved to agree
  with `Next` and `Replay`. `ReplayFromStart` gives the state after any
  messages in closed form: the window is the newest 50 quotes, the fast series
  is the newest 50 fast entries, the slow series holds one entry per quote.
- `options.dfy`, module `Options`: the `Option` datatype standing for a value
  or Python's `None`.

A received message is `Tick(quote)` (a JSON object with a `tick` field) or
`Other` (anything else), so the socket, the JSON parse and the field lookup
are replaced by this input value.

One might expect both EMA series to be capped at 50 and index-aligned with
the window, as `fast_emas` is; the code trims only `fast_emas`
(Bot.py:59-60), while `slow_emas` is appended to and never trimmed, so from
the 51st tick on it is longer than the window. The model follows the code:
`ReplayAligned` proves `|prices| == |fastEmas| <= 50` and
`|slowEmas| ==` the number of ticks.

## Model

| member | source | states |
|---|---|---|
| Ema.Smoothing | Bot.py:29 | for any period of at least 1, k = 2/(period+1) lies in (0, 1] and k·(period+1) = 2 |
| Ema.Blend | Bot.py:32 | one step of the recurrence moves the average toward the new price by the fraction k of their distance, leaving the fraction 1 - k of it |
| Ema.Fold | Bot.py:30-32 | the average folded over the remaining prices; with full weight (k = 1) it is the last price of a non-empty remainder |
| Ema.CalculateEma | Bot.py:26-28 | the EMA is undefined exactly when the window has fewer prices than the period |
| Ema.CalculateEmaLoop | Bot.py:26-33 | the accumulator loop returns exactly the recursive recurrence (None for a short window) |
| Ema.EmaWithinBounds | Bot.py:29-32 | a defined EMA lies in every interval that contains all prices of the window (each step is a convex combination) |
| Ema.EmaBetweenMinMax | Bot.py:29-32 | a defined EMA lies between the minimum and the maximum price of the window |
| Ema.EmaOfConstant | Bot.py:29-32 | a window of one repeated price has that price as its EMA |
| Ema.EmaExtend | Bot.py:31-32 | once defined, the EMA of the window extended by a price p is p·k + previous EMA·(1-k) |
| Ema.EmaPeriodOne | Bot.py:29-32 | with period 1 (k = 1) the EMA of a non-empty window is its newest price |
| Ema.EmaExample | Bot.py:26-33 | prices [10, 20, 30] with period 2 give exactly 230/9 |
| Ticks.EvictOldest | Bot.py:50-52 | a single `pop(0)` once a series exceeds 50: the result is the series itself or the series without its oldest element, keeping the newest entries in order |
| Ticks.Stored | Bot.py:56-57 | the truthiness test stores the EMA when defined and 0 when undefined (a zero EMA stores 0 either way) |
| Ticks.EmaOrZero | Bot.py:54-57 | the appended entry is 0 when the window is shorter than the period, else the EMA of the window |
| Ticks.Next | Bot.py:48-60 | a non-tick leaves all three series unchanged; a tick appends the quote to the window, dropping the oldest price only when 50 were held, appends one fast entry (dropping the oldest when 50 were held) and one slow entry, each computed over the trimmed window |
| Ticks.Replay | Bot.py:45-60 | handling messages in order is Next applied to each in turn; the slow series gains exactly one entry per tick among them and bounded series stay within 50 |
| Ticks.NextKeepsBounded | Bot.py:50-60 | a step keeps the window and the fast series within 50, leaves the quote last in the window and lengthens the slow series by exactly one per tick |
| Ticks.ReplayFromStart | Bot.py:45-60 | from empty lists, after any messages the window is the newest 50 quotes, the fast series the newest 50 fast entries and the slow series every slow entry, each entry the EMA of the window as it stood when its quote arrived |
| Ticks.ReplayAligned | Bot.py:50-60 | from empty lists, window and fast series stay equally long and within 50, the slow series has one entry per tick, and the newest quote is last in the window |
| Ticks.ReplayEvictsOldest | Bot.py:50-52 | after more than 50 quotes the window holds exactly the newest 50, so the earliest are evicted first |
| Ticks.TickProcessor.constructor | Bot.py:18-20 | the three lists start empty |
| Ticks.TickProcessor.Step | Bot.py:48-60 | updating the fields in place, with append and a single pop of the oldest, yields exactly the state `Next` describes |
| Ticks.TickProcessor.Run | Bot.py:45-60 | handling a finite sequence of messages in order yields exactly the state `Replay` describes |

## Left out

- The websocket connection, the `authorize` and `ticks` sends and `ws.recv()` (Bot.py:40-46): network I/O; each received message is an input value instead.
- `json.loads` and the `data['tick']['quote']` lookup (Bot.py:47-49): the message datatype already carries the quote; a tick without a `quote` field, which raises in the source and ends the loop, is not modelled.
- `time.sleep(1)` (Bot.py:42): no modellable behaviour.
- The `bot_running` flag and its toggling from another thread (Bot.py:17, 45): concurrency; the loop is modelled as handling a finite sequence of messages (`Run`, `Replay`).
- Flask, threading and the dashboard (Bot.py:2, 4): presentation and thread plumbing whose code is not part of this model.
- Ema.CalculateEma: computes over exact reals, not IEEE doubles, so floating-point rounding of the recurrence is not modelled.
- Ema.CalculateEma: requires a period of at least 1. In the source a period of 0 on an empty list indexes `prices[0]` and a period of -1 divides by zero; a period of 0 on a non-empty list gives k = 2 and a period of -2 or less on a non-empty list gives a negative k, so a step is no longer a convex combination. None of these is modelled; the only call sites (Bot.py:54-55) pass 5 and 20.
- Trade log, crossover signal and any trimming of `slow_emas`: no code for them appears in Bot.py, which ends at line 61.
