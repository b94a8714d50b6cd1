# RFocus Pro timer core, modelled in Dafny

RFocus Pro is a browser Pomodoro timer. This project models the two parts of
`js/main.js` that carry state logic:

- the `Timer` class: a countdown with a mode (`"pomodoro"`, `"short"`,
  `"long"`), the seconds left and a running flag; `start()` toggles between
  running and paused, a one-second interval callback counts down and signals
  completion, `pause()` stops, `switchMode(mode)` stops and loads the mode's
  duration from `TIME_SETTINGS`, and `formatTime` renders seconds as `MM:SS`;
- the playlist rotation of `MusicPlayer`: `nextPlaylist` / `prevPlaylist` move
  `currentPlaylistIndex` around the fixed list of four playlists, and do
  nothing while there is no Spotify access token.

Files:

- `options.dfy` — module `Options`: the `Option` datatype used for `null`.
- `clock.dfy` — module `Clock`: `String(n)`, `padStart` and `formatTime` as
  functions, and a reference parser `ParseClock` for `MM:SS` strings, so that
  the rendering can be shown to lose no information.
- `countdown.dfy` — module `Countdown`: the `Timer` class (fields
  `currentMode`, `timeLeft`, `isRunning`, plus an event log), the duration
  table, and a value-level specification that each method follows:
  `StartStep`, `PauseStep`, `SwitchStep`, `TickStep` (one firing of the
  interval callback) and `Elapse` (some seconds of wall-clock time), with
  lemmas about toggling and about when completion fires.
- `playlists.dfy` — module `Playlists`: the `MusicPlayer` class reduced to the
  playlist list, the index, the token and the title text, and the index
  arithmetic with its lemmas.

Modelling choices:

- The interval created by `start()` is modelled as an explicit `Tick()` method
  whose result says whether completion fired. The interval exists exactly while
  `isRunning` is true (`start` arms it and sets the flag, `pause` clears both),
  so `Tick()` requires a running timer, and `Elapse` delivers no ticks once the
  timer has stopped.
- `onTick(display)` and `onComplete()` are modelled as appending
  `TickShown(display)` or `Completed` to the `events` field. The log records
  every notification the timer would hand to a registered callback.
- The access token is `Option<string>`; JavaScript's `!this.token` is true for
  `null` and for the empty string, and `HasToken` says exactly that.
- The model follows `js/main.js` as written: the countdown completes on the
  tick after `timeLeft` reaches 0 (a timer started with `N` seconds completes
  on second `N + 1`); completion stops the timer but neither switches mode nor
  restarts it; `Timer` has no reset, extend or session counting, and a paused
  timer is the same state as a stopped one.

## Model

| member | source | states |
|---|---|---|
| `Clock.Decimal` | js/main.js:48-49 | `String(n)` of a non-negative integer below 1e21 (the timer passes at most 1500) is a non-empty string of decimal digits |
| `Clock.DecimalRoundTrip` | js/main.js:48-49 | reading the decimal digits of `n` back gives `n` |
| `Clock.DecimalNoLeadingZero` | js/main.js:48-49 | `String(n)` starts with `0` exactly when `n` is 0 |
| `Clock.DecimalLength` | js/main.js:48-49 | `String(n)` has one digit below 10, two below 100, at least three from 100 on |
| `Clock.PadStart` | js/main.js:48-49 | `padStart(width)` yields the longer of the string and the width |
| `Clock.PadStartShape` | js/main.js:48-49 | `padStart` keeps the string as its suffix and puts only fill characters in front |
| `Clock.ZeroPadding` | js/main.js:48-49 | padding digits with zeros keeps them digits and does not change their value |
| `Clock.FormatTime` | js/main.js:47-51 | minutes padded to at least two digits, `:`, seconds padded to two digits: at least five characters, digits on both sides of the `:` that sits third from the end |
| `Clock.FormatTimeRoundTrip` | js/main.js:47-51 | `formatTime(s)` is minutes, `:`, two-digit seconds below 60, and it reads back as exactly `s` |
| `Clock.FormatTimeInjective` | js/main.js:47-51 | two different second counts never render as the same text |
| `Clock.FormatTimeLength` | js/main.js:47-51 | the rendering is at least five characters, and exactly five if and only if `s < 6000` |
| `Countdown.DurationOf` | js/main.js:32-36 | the duration table: pomodoro 1500, short 300, long 900 seconds, any other mode 1500; always positive |
| `Countdown.StartStep` | js/main.js:53-71 | the toggle: a stopped timer starts and reports `true`, a running one pauses and reports `false`; time left and mode are kept |
| `Countdown.PauseStep` | js/main.js:73-76 | pausing stops the timer and keeps time left and mode |
| `Countdown.SwitchStep` | js/main.js:78-84 | switching leaves the timer stopped in the new mode with that mode's duration |
| `Countdown.StartTwiceRestores` | js/main.js:53-71 | pressing start twice on a stopped timer returns it to the same state, the second press reporting `false` |
| `Countdown.PauseIdempotent` | js/main.js:73-76 | pausing a paused timer changes nothing |
| `Countdown.TickStep` | js/main.js:59-67 | one tick keeps the time left non-negative and the mode unchanged |
| `Countdown.Elapse` | js/main.js:59-67 | any number of seconds keeps the time left non-negative and the mode unchanged, delivering at most one tick per second |
| `Countdown.ElapseCountsDown` | js/main.js:60-62 | while time is left, `k` seconds take exactly `k` off, keep the timer running and fire no completion |
| `Countdown.ElapseCompletesOnce` | js/main.js:60-66 | a running timer with `N` left fires completion on tick `N + 1`, exactly once, and ends stopped at 0; later seconds change nothing |
| `Countdown.SwitchStartCompletes` | js/main.js:53-84 | after `switchMode(m)` and `start()` from any state, `m`'s whole duration counts down without completion, and completion fires on the second after it |
| `Countdown.Timer.constructor` | js/main.js:38-45 | a new timer is stopped, in mode `"pomodoro"`, with 1500 seconds left |
| `Countdown.Timer.Start` | js/main.js:53-71 | follows `StartStep`: on a stopped timer it starts and returns true; on a running one it pauses and returns false; time left, mode and events never change |
| `Countdown.Timer.Tick` | js/main.js:59-67 | follows `TickStep`; with time left: one second less, still running, the new display sent to `onTick`; at zero: stopped, `onComplete` fired; the mode never changes |
| `Countdown.Timer.Pause` | js/main.js:73-76 | follows `PauseStep`: the timer is stopped and nothing else changes, so pausing twice is pausing once |
| `Countdown.Timer.SwitchMode` | js/main.js:78-84 | follows `SwitchStep`: the timer is stopped in the new mode with that mode's duration, which is returned and shown through `onTick` |
| `Countdown.Timer.GetTimeLeft` | js/main.js:86-88 | the display text of the time left, which reads back as that number of seconds |
| `Countdown.Timer.IsTimerRunning` | js/main.js:90-92 | reports the running flag |
| `Playlists.NextIndex` | js/main.js:353-354 | the next index stays in range and wraps from the last playlist to the first |
| `Playlists.PrevIndex` | js/main.js:381-383 | the previous index stays in range and wraps from the first playlist to the last |
| `Playlists.PrevUndoesNext` | js/main.js:350-385 | "previous" after "next" restores the index, and "next" after "previous" too |
| `Playlists.Advance` | js/main.js:353-354 | any number of "next" presses keeps the index in range |
| `Playlists.AdvanceIsModular` | js/main.js:353-354 | `k` presses of "next" move the index `k` places modulo the playlist count |
| `Playlists.FullCycle` | js/main.js:353-354 | one press per playlist returns to the start, and no smaller positive number of presses does |
| `Playlists.HasToken` | js/main.js:351 | a token counts as present only if it is set and non-empty: `null` and `""` are absent, any other string is present |
| `Playlists.MusicPlayer.constructor` | js/main.js:175-199 | a new player holds the four playlists, index 0, and the given token |
| `Playlists.MusicPlayer.NextPlaylist` | js/main.js:350-356 | with a token: the index moves to the next playlist and its title is shown; without one: nothing changes; the index stays in range |
| `Playlists.MusicPlayer.PrevPlaylist` | js/main.js:378-385 | with a token: the index moves to the previous playlist and its title is shown; without one: nothing changes; the index stays in range |

## Left out

- `NotificationManager` (speech synthesis, audio playback, the 500 ms delay): browser I/O.
- `TimerUI`: DOM queries, event listeners, button text and `alert`; presentation only.
- Spotify integration of `MusicPlayer` (OAuth redirect, reading the token from the URL hash, the Web Playback SDK, `togglePlay`, and the `fetch` calls that restart playback in `nextPlaylist` / `prevPlaylist` when `isPlaying`): network and SDK I/O. The token is a constructor parameter instead.
- `setVolume`, `toggleMute`, `updateVolumeIcon`: floating-point volume and asynchronous SDK calls.
- `loadCurrentSong`: it refers to fields (`songs`, `audio`) that the class never defines, so it cannot run.
- `setInterval` / `clearInterval` and the timer handle field: a tick is a discrete `Tick()` step, and the handle's lifetime is the `isRunning` flag.
- Whether `onTick` / `onComplete` are registered: the event log records every notification as if they were.
- Countdown.DurationOf: JavaScript object lookup would also find properties inherited from `Object.prototype` (a mode named `"constructor"`, say), which the model treats as unknown modes that fall back to 1500.
- `formatTime` on negative or fractional numbers, and on values of 1e21 or more, which JavaScript's `String` writes in exponent form (and above 2^53 no longer exactly): the timer only ever passes its non-negative whole `timeLeft`, which never exceeds 1500, so `Clock.FormatTime` takes a `nat` and `Clock.Decimal` writes every digit.
