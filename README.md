# Media player UI core, modelled in Dafny

The program is a single-window SDL media "player": a content area shows the
current image of a fixed list of five, and a control bar below it holds two
time labels ("01:23" and "04:56"), a progress track with a 40 % fill, and
previous / play-pause / next buttons. This project models the integer logic
of `src/main.cpp`:

- `initLayout`: every rectangle derived from the window size alone
  (`LayoutEngine.ComputeLayout`), and the resize handler that stores the new
  size and recomputes all of them (`LayoutEngine.Screen`);
- `isInside`: the hit test, inclusive on all four edges (`Geometry.IsInside`);
- the mouse-button-down branch of the event loop: NEXT and PREVIOUS wrap the
  media index, PLAY toggles the play flag, and the three tests are independent
  `if`s (`Transport.Click`, `Transport.PlayerState`);
- `formatTime`: `snprintf("%02d:%02d", sec / 60, sec % 60)`
  (`TimeFormat.FormatTime`).

C's `/` and `%` truncate toward zero and Dafny's are Euclidean, so C division
and remainder are written out (`CArith.TruncDiv`, `CArith.TruncRem`); the two
float products `height * 0.75f` and `track.w * 0.4f`, truncated on conversion
to `int`, are modelled as `TruncDiv(3 * height, 4)` and `TruncDiv(2 * w, 5)`.
With that, the layout and the time label are total over all integers; no
window size is excluded.

The transport buttons are not evenly spaced from the midpoint `centerX`:
prev's left edge is `centerX - 144` and next's is `centerX + 80`, so prev's
right edge and next's left edge are both 80 px from the midpoint and the two
are mirror images about the play button at `centerX - 32`.

## Model

| member | source | states |
|---|---|---|
| `CArith.TruncDiv` | src/main.cpp:104 | the C quotient: `q*b` lies between 0 and `a`, less than `b` away from `a` (rounding toward zero on both signs) |
| `CArith.TruncRem` | src/main.cpp:105 | the C remainder: `a == q*b + r`, `r` has the sign of `a` and magnitude below `b` |
| `Geometry.IsInside` | src/main.cpp:281-285 | true exactly when `r.x <= x <= r.x+r.w` and `r.y <= y <= r.y+r.h`, all four edges included; a rectangle that contains any point has non-negative width and height |
| `Geometry.CornersInside` | src/main.cpp:281-285 | all four corners of a non-inverted rectangle, `(x, y)` and `(x+w, y+h)` among them, are inside |
| `Geometry.OneBeyondEdgeOutside` | src/main.cpp:281-285 | a point one unit beyond any of the four edges is outside |
| `Geometry.InvertedIsEmpty` | src/main.cpp:281-285 | a rectangle with negative width or height contains no point |
| `LayoutEngine.ComputeLayout` | src/main.cpp:62-99 | content and control bar split the window (heights sum to H, bar starts where content ends, content is the top 75 % rounded down); labels 80x24 at margin 100 from both sides, labels and track centred on the line 45 px into the bar; the track runs from the current label's right edge to 24 px before the duration label and is non-negative exactly when W >= 384; the fill keeps the track's x, y, h and 40 % of its width, so it lies inside the track; three 64 px buttons 85 px into the bar, ordered prev, play, next with disjoint x-ranges; next's left edge at `centerX + 80` and prev's right edge at `centerX - 80` (so prev at `centerX - 144`), mirror-symmetric about the play button, which is centred on the window midpoint |
| `LayoutEngine.ButtonsDisjoint` | src/main.cpp:93-98 | for every window size no point lies on two transport buttons |
| `LayoutEngine.DefaultLayout` | src/main.cpp:62-99 | at 1280x720: content {0,0,1280,540}, bar {0,540,1280,180}, track {180,579,896,12}, fill width 358, prev/play/next at x 496/608/720, y 625 |
| `LayoutEngine.ResizeChangesLayout` | src/main.cpp:306-313 | the layout for 800x600 differs from the start-up one (content {0,0,800,450}, play button {368,535,64,64}) |
| `LayoutEngine.Screen.constructor` | src/main.cpp:8-9 | the window starts at 1280x720 with the layout of that size |
| `LayoutEngine.Screen.Resize` | src/main.cpp:306-313 | stores the new size and replaces every rectangle with the layout of the new size, so none is stale |
| `Transport.NextIndex` | src/main.cpp:319-325 | the increment-then-reset step stays in `[0, n)`, equals `(i + 1) mod n`, and gives 0 exactly after the last item |
| `Transport.PrevIndex` | src/main.cpp:332-338 | the decrement-then-reset step stays in `[0, n)`, equals `(i - 1 + n) mod n`, and gives `n - 1` exactly from 0 |
| `Transport.NextN` | src/main.cpp:319-325 | any number of NEXT steps keeps the index in `[0, n)` |
| `Transport.PrevN` | src/main.cpp:332-338 | any number of PREVIOUS steps keeps the index in `[0, n)` |
| `Transport.NextNIsShift` | src/main.cpp:319-325 | `k` NEXT steps from `i` give `(i + k) mod n` |
| `Transport.PrevNIsShift` | src/main.cpp:332-338 | `k` PREVIOUS steps from `i` give `(i - k) mod n` |
| `Transport.FullCycle` | src/main.cpp:319-338 | `n` NEXT steps, or `n` PREVIOUS steps, return to the starting index |
| `Transport.NextPrevInverse` | src/main.cpp:319-338 | NEXT then PREVIOUS, and PREVIOUS then NEXT, are the identity |
| `Transport.FiveItemWrap` | src/main.cpp:155-159 | with the five loaded items, PREVIOUS from 0 gives 4 and NEXT from 4 gives 0 |
| `Transport.Click` | src/main.cpp:314-338 | one press keeps the index a valid position in the list |
| `Transport.ClickOnComputedLayout` | src/main.cpp:314-338 | on the layout of any window a press on next advances, on play toggles, on prev retreats, anywhere else changes nothing, and never changes both the index and the play flag |
| `Transport.PlayClickTwice` | src/main.cpp:327-331 | two presses on the play button restore the state |
| `Transport.PlayerState.constructor` | src/main.cpp:23-29 | starts at index 0, paused, over a non-empty list |
| `Transport.PlayerState.Next` | src/main.cpp:319-325 | keeps the index valid, sets it to `NextIndex` of the old one, leaves the play flag |
| `Transport.PlayerState.Prev` | src/main.cpp:332-338 | keeps the index valid, sets it to `PrevIndex` of the old one, leaves the play flag |
| `Transport.PlayerState.TogglePlay` | src/main.cpp:327-331 | negates the play flag, leaves the index |
| `Transport.PlayerState.HandleClick` | src/main.cpp:314-338 | the new index and play flag are exactly those `Click` gives for the old ones |
| `TimeFormat.Digits` | src/main.cpp:108 | `%d` of a non-negative number: at least one decimal digit, no leading zero, and exactly "0" for zero |
| `TimeFormat.ValueOfDigits` | src/main.cpp:108 | reading the printed digits back gives the number |
| `TimeFormat.Pad2` | src/main.cpp:108 | `%02d`: at least two characters, no colon; exactly two digits for 0..99; digits reading back as the number when non-negative, with no leading zero from 10 up; a '-' and the magnitude, with no zero after the sign, when negative |
| `TimeFormat.FormatTime` | src/main.cpp:102-110 | for 0 <= sec < 6000 the label has length 5 with ':' at index 2 |
| `TimeFormat.FormatTimeFields` | src/main.cpp:102-110 | for 0 <= sec < 6000 the minutes and seconds fields are digits, seconds are 00..59, and `60 * m + s == sec` |
| `TimeFormat.ParseFormatTime` | src/main.cpp:102-110 | every non-negative `sec` is read back from its label |
| `TimeFormat.FormatTimeFitsBuffer` | src/main.cpp:107-108 | for every 32-bit `sec` the label has at most 13 characters, so the 16-byte buffer never truncates it |
| `TimeFormat.FormatTimeExamples` | src/main.cpp:41-42 | 83 s gives "01:23" and 296 s gives "04:56" |

## Left out

- SDL, SDL_image and SDL_ttf setup and teardown (`init`, `loadMedia`, `loadTexture`, `createTextTexture`, `cleanup`): I/O and foreign library calls. The model takes from them only that the media list holds five items (`PlayerState` is built with any `n > 0`).
- `renderUI`, the draw calls and the event-polling loop: presentation and event plumbing. `renderUI` overwrites the time labels' width and height with the measured text size; the model keeps the 80x24 that `initLayout` sets, from which the progress track is derived.
- LayoutEngine.ComputeLayout: the float products `height * 0.75f` and `track.w * 0.4f` are modelled on exact rationals; single-precision rounding makes the source differ from that for heights above about 5.5 million pixels (where 3H exceeds 2^24; the first is H = 5592409) and for track widths above about 10 million (the first is 10485762).
- LayoutEngine.ComputeLayout: 32-bit `int` overflow of the layout arithmetic is not modelled; the model uses unbounded integers, which agree with the source for any realistic window size.
- Transport.PlayerState.Next: the comparison of the `int` index with the unsigned `mediaList.size()` is modelled on mathematical integers with `0 <= index < n`, which is where the source keeps it.
- The code has no empty-list check on the index wrap; `PlayerState.Valid` requires `n > 0`, because `loadMedia` fails unless all five items load.
- `isPlaying` drives only which icon is drawn; the elapsed and total times are constants and there is no playback clock.
