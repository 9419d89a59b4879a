# Gridspace watchface core, modelled in Dafny

Gridspace is a Pebble watchface that shows the time and date on a grid of
dots. The screen is a `rows` by `cols` grid of 6-pixel cells. Each cell is
empty, partial (a 2x2 square), full (a 4x4 square) or one of their gray
variants. `src/c/main.c` builds the face directly in its grid buffer. Beside
it, the source holds three procedural animation generators and a state
machine that drives them. `main.c` never includes or calls them
(`prv_init`, `prv_window_load`, `update_time` and `canvas_update_proc` draw
only the grid). The three generators are:

- the wave fill (a band sweeping down the grid);
- the random pop-in (cells that appear full, turn partial and vanish);
- the matrix rain (falling columns with a bright head and an alternating trail).

This project models the integer core of that program:

- `common.dfy` (module `Common`): the shared 31-bit linear congruential
  generator as a class `Lcg` whose `Next` and `Seed` update its state in
  place. Beside it are the stream functions `Step`/`Draws`/`StepN`, the 8.8
  fixed-point constants, the cell-state codes, the grid geometry, and the
  fill commands the generators emit in place of `graphics_fill_rect` calls.
  It also holds the per-cell reseed hash `CellSeed`.
- `sweep.dfy` (module `Sweep`): the nested drawing loop of every generator
  as a function from a per-cell outcome to the sequence of fills, in loop
  order, with lemmas about that sequence's contents.
- `sideload.dfy`, `randompop.dfy`, `matrix.dfy`: the three generators. Each
  `Draw` saves its file-local generator state, reseeds it per cell (or per
  column), classifies with integer modulus thresholds, records the fills, and
  restores the state. Each is proved equal to a specification function of the
  saved seed.
- `animations.dfy` (module `Animations`): the `AnimationState` class and its
  transitions (`animations_init`, `_start_load`, `_stop`, `_update`, the timer
  callback, `_draw`, `_is_active`). The same transitions also exist as
  functions on values, and the invariants and lemmas are proved on those.
  Timers are opaque handles. Registering a timer, cancelling one and marking
  the layer dirty are kept in a ghost event log.
- `grid.dfy`, `glyphs.dfy`, `watchface.dfy`: the composition buffer
  `s_grid_data`, as an `array` in class `Watchface.Face`. The glyph stampers
  write into it with clipping. `update_time` does the 12-hour conversion,
  splits numbers into digits and centres the layout. The file also models
  `draw_cell`'s state-to-square mapping and the grid sizing of
  `prv_window_load`. Each stamper is specified by a function on the old buffer
  (`Grid.Stamp`), and lemmas read that function cell by cell.
- `options.dfy`: the `Option` type.

Inputs that the source reads from the platform are parameters here:

- the local time fields, `clock_is_24h_style()` and `PBL_IF_COLOR_ELSE` (a
  compile-time platform switch, here a boolean);
- `time(NULL)`;
- the screen bounds;
- the handle `app_timer_register` returns.

The floating-point quantities the generators derive from the animation
progress are also parameters, because the source computes them in
single-precision floating point:

- the wave position `wave_row`;
- each pop-in cell's progress, as a function of its start key `rand_val % 500`;
- each matrix column's head row and column fade, as a function of its keys
  `rand_val % 200` and `rand_val2 % 40`.

The timing is in floating point: progress advances by `0.02f` per update, the
matrix speed is `0.8 + (rand_val2 % 40) / 100`, and each matrix column has its
own fade once its head reaches the bottom. A head position exactly halfway
between two rows makes both rows heads (`Matrix.HeadsAdjacent`,
`Matrix.TwoHeadsAtHalfRow`).

## Model

| member | source | states |
|---|---|---|
| `Common.Step` | src/c/common.h:22-25 | one generator step keeps only the low 31 bits: every value is at most `0x7fffffff` |
| `Common.Lcg.Next` | src/c/common.h:22-25 | `prng_next`/`random_next`: the new state is `((old * 1103515245 + 12345) mod 2^32) & 0x7fffffff`, and the returned value is exactly the new state |
| `Common.Lcg.Seed` | src/c/common.h:27-29 | `prng_seed`: the state becomes exactly the given seed |
| `Common.Replay` | src/c/common.h:22-29 | seeding `s` and calling `Next` `k` times yields `Draws(s, k)`, whatever the state was before, and leaves the state `StepN(s, k)` |
| `Common.DrawsBelow31` | src/c/common.h:23 | every value of a generator stream is below 2^31 |
| `Common.DrawsAreStates` | src/c/common.h:22-25 | the (i+1)-th value returned equals the state after i+1 steps, so it depends only on the seed |
| `Common.DrawsSplit` | src/c/common.h:22-25 | drawing `k + j` values is drawing `k` and then `j` more from the state reached |
| `Common.HalfIsHalfOfOne` | src/c/common.h:32-33 | `FP_ONE == 256` and `FP_HALF * 2 == FP_ONE` |
| `Common.Code` | src/c/common.h:36-38 | the cell-state codes: empty 0, partial 1, full 2, and only empty is 0 |
| `Common.Noise` | src/c/animations/sideload.c:41-43 | the two values drawn after a reseed with `s` are the first two values of the stream from `s` |
| `Common.PaintOf` | src/c/animations/sideload.c:63 | secondary colour exactly when the second value modulo 100 is below 45 |
| `Sweep.FrameMembers` | src/c/animations/sideload.c:33-80 | a fill is in the recorded frame iff some grid position in the loop's range draws it |
| `Sweep.FrameSilent` | src/c/animations/sideload.c:33-80 | a sweep in which no position draws records no fill |
| `Sideload.Classify` | src/c/animations/sideload.c:46-54 | below 15 (mod 100) empty, 15..49 partial, 50 and up full, each an iff |
| `Sideload.InitSeed` | src/c/animations/sideload.c:14-16 | `sideload_init_seed` sets the file-local state to the seed |
| `Sideload.Draw` | src/c/animations/sideload.c:19-83 | `draw_sideload_animation` records the fills of `Fills(g, waveRow, fade, saved)` for the saved seed, and the file-local state ends equal to its value before the call |
| `Sideload.DrawCell` | src/c/animations/sideload.c:35-78 | one loop body, with its reseed and two draws, yields exactly the cell's specified fill, which depends only on `(r, c, saved)` |
| `Sideload.CellNoiseIsOwnStream` | src/c/animations/sideload.c:41-60 | a touched cell draws iff the first value of its own reseeded stream is at least 15 modulo 100 and the fade is at least 0.3 |
| `Sideload.FadeCutoff` | src/c/animations/sideload.c:60 | with fade below 0.3 the frame is empty |
| `Sideload.FrameContents` | src/c/animations/sideload.c:33-80 | the frame's fills are exactly the fills of the drawing cells inside the grid |
| `Sideload.CellGeometry` | src/c/animations/sideload.c:63-78 | a drawn cell is coloured by `rand_val2 % 100 < 45` and fills the full inset when `rand_val % 100 >= 50`, the partial inset otherwise |
| `Sideload.UntouchedRowsBlank` | src/c/animations/sideload.c:36-38 | every fill of the frame comes from a row the wave has touched |
| `RandomPop.StartKey` | src/c/animations/random.c:40 | the start numerator `rand_val % 500` lies in 0..499 |
| `RandomPop.Phase` | src/c/animations/random.c:57-63 | cell progress below 0.33 is full, below 0.66 partial, otherwise nothing, each an iff |
| `RandomPop.InitSeed` | src/c/animations/random.c:14-16 | `random_init_seed` sets the file-local state to the seed |
| `RandomPop.Draw` | src/c/animations/random.c:19-86 | `draw_random_animation` records the fills of `Fills(g, cellProgress, fade, saved)`, and the file-local state is restored |
| `RandomPop.DrawCell` | src/c/animations/random.c:35-81 | one loop body yields exactly the cell's specified fill, which depends only on `(r, c, saved)` |
| `RandomPop.FadeCutoff` | src/c/animations/random.c:50 | with fade below 0.3 the frame is empty |
| `RandomPop.FrameContents` | src/c/animations/random.c:32-83 | the frame's fills are exactly the fills of the visible cells inside the grid |
| `RandomPop.CellLife` | src/c/animations/random.c:47-81 | with fade at least 0.3 a cell draws iff its progress is in [0, 0.66): full in [0, 0.33), partial in [0.33, 0.66), coloured by `rand_val2 % 100 < 45` |
| `RandomPop.NeverFullAfterPartial` | src/c/animations/random.c:57-63 | once partial at some cell progress, a cell is never full at a later one |
| `RandomPop.AllGone` | src/c/animations/random.c:44-63 | once every possible start gives a cell progress of 0.66 or more, the frame is empty |
| `Matrix.StartKey` | src/c/animations/matrix.c:38 | `rand_val % 200` lies in 0..199 |
| `Matrix.SpeedKey` | src/c/animations/matrix.c:41 | `rand_val2 % 40` lies in 0..39 |
| `Matrix.Trunc` | src/c/animations/matrix.c:85 | C's float-to-int conversion truncates toward zero |
| `Matrix.InitSeed` | src/c/animations/matrix.c:14-16 | `matrix_init_seed` sets the file-local state to the seed |
| `Matrix.Draw` | src/c/animations/matrix.c:19-116 | `draw_matrix_animation` records the fills of `Fills(g, view, saved)`, columns outside and rows inside, and the file-local state is restored |
| `Matrix.DrawColumn` | src/c/animations/matrix.c:31-112 | one column's reseed `c*2654435761 + saved` and two draws give the column's outcome, and its rows record exactly the column's line of the frame |
| `Matrix.DrawTrail` | src/c/animations/matrix.c:68-112 | the row loop records exactly the specified line of a drawn column |
| `Matrix.FrameContents` | src/c/animations/matrix.c:31-113 | the frame's fills are exactly the fills of the drawing positions inside the grid |
| `Matrix.ColumnSharesValues` | src/c/animations/matrix.c:33-35 | every row of a column depends on the column only through the two values of the column's one reseed |
| `Matrix.SilentColumnsBlank` | src/c/animations/matrix.c:45-61 | every fill comes from a column that has started and has not faded out |
| `Matrix.DrawnRows` | src/c/animations/matrix.c:70-73 | a row is drawn iff it is at most `head_row + 0.5` and the column fade is at least 0.3 |
| `Matrix.DrawnRowsFromTop` | src/c/animations/matrix.c:68-73 | the drawn rows of a column form a block from the top row down |
| `Matrix.HeadIsBright` | src/c/animations/matrix.c:79-82 | the head row (within 0.5 of `head_row`) is full in the foreground colour, never secondary |
| `Matrix.TrailParity` | src/c/animations/matrix.c:85-95 | a trail row at even truncated distance is full and secondary, at odd distance partial and foreground |
| `Matrix.TrailAlternates` | src/c/animations/matrix.c:85-95 | adjacent trail rows have different colours |
| `Matrix.HeadsAdjacent` | src/c/animations/matrix.c:79 | two rows can both be heads only when they are adjacent |
| `Matrix.TwoHeadsAtHalfRow` | src/c/animations/matrix.c:79 | a head at row 2.5 makes both rows 2 and 3 heads |
| `Animations.CancelIfSet` | src/c/animations.c:32-34 | a cancel event is issued iff there is a timer, and it names that timer |
| `Animations.AnimationState.constructor` | src/c/animations.c:18-29 | only the allocation of the caller-owned `AnimationState`: it starts in the state `animations_init` sets, with an empty event log; `Init` then sets the fields and the seed |
| `Animations.AnimationState.Init` | src/c/animations.c:18-29 | `animations_init`: no animation, progress 0, fade 1, inactive, no timer, no layer; generator state set to the time as `uint32_t` |
| `Animations.AnimationState.StartLoad` | src/c/animations.c:31-47 | `animations_start_load`: cancel any timer, reset, activate, reseed to `t + (random_next() & 0xFF)`, register a 33 ms timer |
| `Animations.AnimationState.Stop` | src/c/animations.c:49-55 | `animations_stop`: cancel and clear any timer, deactivate |
| `Animations.AnimationState.Update` | src/c/animations.c:57-82 | `animations_update` performs the value transition `AfterUpdate` in place, with the same events |
| `Animations.AnimationState.TimerCallback` | src/c/animations.c:84-97 | the callback performs `AfterCallback` in place: update, mark the layer dirty, re-register while active |
| `Animations.AnimationState.Draw` | src/c/animations.c:115-153 | `animations_draw` records the fills of the one generator `type` names, or none, and leaves every generator's state as it was |
| `Animations.AnimationState.IsActive` | src/c/animations.c:155-157 | `animations_is_active` returns the `active` field |
| `Animations.InitialValid` | src/c/animations.c:18-24 | the initial state satisfies the state invariant (inactive implies no timer) |
| `Animations.StartValid` | src/c/animations.c:31-47 | starting always yields a valid running state with a timer |
| `Animations.StopValid` | src/c/animations.c:49-55 | stopping keeps the invariant |
| `Animations.UpdateValid` | src/c/animations.c:57-82 | updating keeps the invariant: running implies a timer and progress below 1, the fade follows the progress |
| `Animations.CallbackValid` | src/c/animations.c:84-97 | the timer callback keeps the invariant |
| `Animations.StopIdempotent` | src/c/animations.c:49-55 | after a stop the state is inactive without a timer, nothing else changed, and a second stop changes nothing and issues no event |
| `Animations.StartOrder` | src/c/animations.c:31-47 | start sets type, progress 0, fade 1, active and the new timer; it cancels the old timer (if any) first and registers the new one last |
| `Animations.UpdateInactive` | src/c/animations.c:58 | updating an inactive state changes nothing |
| `Animations.UpdateNonAnimatingStops` | src/c/animations.c:78-80 | updating a running state of another type, such as `ANIM_NONE`, stops it |
| `Animations.UpdateAdvances` | src/c/animations.c:65-75 | a running animation gains one step per update and stops exactly when the new progress reaches 1 |
| `Animations.CallbackRegistersIffActive` | src/c/animations.c:84-97 | the callback registers a new timer iff the state is active after the update, and marks the layer dirty iff there is one |
| `Animations.StartNoneStopsAtOnce` | src/c/animations.c:31-47 | starting `ANIM_NONE` reports active until the first update, which stops it and cancels the new timer |
| `Animations.FadeShape` | src/c/animations.c:67-71 | the fade stays in [0, 1], never rises as progress grows, and is 0 from progress 1 on |
| `Animations.ReseedNearTime` | src/c/animations.c:43 | the start reseed is at most 255 above the time, modulo 2^32 |
| `Animations.InactiveDrawsNothing` | src/c/animations.c:121-152 | an inactive state, or one of type `ANIM_NONE`, draws nothing |
| `Animations.TicksExact` | src/c/animations.c:57-82 | over repeated updates a running animation keeps its type, gains one step per update, and stays active exactly while that sum is below 1 |
| `Animations.RunLength` | src/c/animations.c:65-75 | in exact arithmetic a started run is active after n updates iff n < 50 |
| `Grid.Shade` | src/c/main.c:236-244 | a pattern entry stamps its own code, or in gray 2 as gray and 1 as gray partial; 0 stays empty either way |
| `Grid.ShadeCode` | src/c/main.c:236-244 | a pattern entry converts to the cell state with its own code, so `CELL_EMPTY`/`CELL_PARTIAL`/`CELL_FULL` of the header (`Common.Code`) name the first three states; in gray, 2 becomes `CELL_GRAY` (3) and 1 `CELL_GRAY_PARTIAL` (4) |
| `Grid.FlatUnique` | src/c/main.c:244 | two positions of the row-major buffer coincide only if their rows and columns do |
| `Grid.FlatInRange` | src/c/main.c:235-244 | every in-bounds cell's index `row * cols + col` lies in the buffer |
| `Grid.IndexInGrid` | src/c/main.c:348-350 | every buffer index is a cell of the grid |
| `Grid.StampStep` | src/c/main.c:235-245 | one more write of a stamp changes the buffer at that cell's index if it is in bounds, and nowhere otherwise |
| `Grid.StampStepAt` | src/c/main.c:235-245 | the same step at one index: that index takes the written value exactly when it is the in-bounds target of a painted write |
| `Grid.StampAt` | src/c/main.c:230-247 | a cell holds what the stamp wrote there, or its old state |
| `Grid.GlyphComplete` | src/c/main.c:230-247 | a full stamp writes each pattern entry to its box cell, and nothing outside the box |
| `Grid.GlyphStep` | src/c/main.c:230-236 | the glyph loop's next write targets the next cell of the box, row by row |
| `Grid.ColonStep` | src/c/main.c:327-341 | the colon loop's next write targets the next cell of its two dots |
| `Grid.GlyphWrite` | src/c/main.c:230-245 | the glyph loop's next write sets the next cell of the box to the pattern's shade, except a zero bit of a transparent stamp, which writes nothing |
| `Grid.ColonWrite` | src/c/main.c:327-341 | the colon loop's next write sets the next cell of the upper (row 1) or lower (row 4) dot to gray |
| `Grid.Blank` | src/c/main.c:347-351 | the cleared buffer has every cell empty |
| `Grid.StampKeepsColourless` | src/c/main.c:236-244 | a stamp without gray brings no gray cell |
| `Glyphs.DigitStampAt` | src/c/main.c:226-248 | a digit outside 0..9 changes nothing; otherwise the 5x7 box takes the pattern's shades (zeros included) and every other cell is unchanged |
| `Glyphs.SmallDigitStampAt` | src/c/main.c:256-278 | the same for a date digit and its 3x5 box |
| `Glyphs.SlashStampAt` | src/c/main.c:286-319 | the separator writes only under its non-zero entries; cells under zeros keep their state |
| `Glyphs.ColonStampAt` | src/c/main.c:322-344 | exactly the in-bounds cells of columns `left..left+1`, rows `top+1..top+2` and `top+4..top+5` become gray partial |
| `Glyphs.SetCellAt` | src/c/main.c:357 | one corner write changes only its own cell |
| `Glyphs.CornersAt` | src/c/main.c:354-382 | the corners do nothing unless rows > 1 and cols > 1; otherwise only their 12 cells change, and the last write to a cell wins |
| `Glyphs.CornerTips` | src/c/main.c:354-382 | the bottom-right corner always ends partial; the top-right needs 3 rows, the bottom-left 3 columns, the top-left both |
| `Glyphs.ColourlessStamps` | src/c/main.c:226-382 | stamps without gray, and the corners, bring no gray cell |
| `Watchface.Rem` | src/c/main.c:404-413 | C's `%`: quotient times divisor plus remainder is the dividend, and the remainder has the sign of the dividend |
| `Watchface.TwelveHourRange` | src/c/main.c:394-398 | in 12-hour style every hour shows as 1..12, congruent to the hour modulo 12 |
| `Watchface.DigitSplit` | src/c/main.c:403-413 | a number below 100 splits into digits in 0..9 with `tens * 10 + ones` equal to the number |
| `Watchface.LayoutSpans` | src/c/main.c:415-490 | the last minute digit ends at `start_col + time_width` (26 or 22), the last month digit at `date_start_col + date_width` (19 or 15), the starts use C's truncating division, and the glyphs do not overlap |
| `Watchface.LayoutFits` | src/c/main.c:434-441 | on a grid that holds them, time and date lie inside, centred to within one column and one row |
| `Watchface.MonochromeFace` | src/c/main.c:445-494 | on a monochrome display the face holds no gray cell |
| `Watchface.TimeLineColourless` | src/c/main.c:445-471 | without colour the time line adds no gray cell to a buffer that has none |
| `Watchface.DateLineColourless` | src/c/main.c:474-491 | without colour the date line adds no gray cell to a buffer that has none |
| `Watchface.DateLineAbove` | src/c/main.c:474-491 | the date leaves every row above the date row unchanged |
| `Watchface.TimeLineEndsWithMinute` | src/c/main.c:469-471 | the box of the minute's ones digit shows that digit's pattern after the time line |
| `Watchface.FaceDateKeepsTime` | src/c/main.c:474-491 | on the face, the date stamps leave every cell above the date row as the time line left it |
| `Watchface.FaceTimeMinute` | src/c/main.c:445-471 | on a blank buffer, the time line leaves the minute's ones digit showing its pattern |
| `Watchface.MinuteOnesShown` | src/c/main.c:385-494 | on the finished face, every cell of the minute's ones digit that no corner names shows that digit's pattern |
| `Watchface.GridCentred` | src/c/main.c:509-519 | the grid is as many whole cells as fit, with the spare pixels split evenly (at most one extra on the right or bottom) |
| `Watchface.CellSquareCentred` | src/c/main.c:28-62 | every non-empty state draws a square centred in its cell (4 px for full/gray, 2 px for partial), light gray exactly for gray states; empty draws nothing |
| `Watchface.Face.Load` | src/c/main.c:505-533 | `prv_window_load` sizes, allocates and clears the grid, then shows the time |
| `Watchface.Face.InitGridEmpty` | src/c/main.c:347-351 | `init_grid_empty`: every one of the `rows * cols` cells is empty |
| `Watchface.Face.StampGlyph` | src/c/main.c:230-247 | the shared glyph loop leaves the buffer equal to `Stamp` of the old buffer |
| `Watchface.Face.DrawDigit` | src/c/main.c:226-248 | `draw_digit_to_grid_colored` leaves the buffer equal to `DigitStamp` of the old one |
| `Watchface.Face.DrawSmallDigit` | src/c/main.c:256-278 | `draw_small_digit_to_grid_colored` leaves the buffer equal to `SmallDigitStamp` of the old one |
| `Watchface.Face.DrawSmallSlash` | src/c/main.c:286-319 | `draw_small_slash_to_grid` leaves the buffer equal to `SlashStamp` of the old one |
| `Watchface.Face.DrawColon` | src/c/main.c:322-344 | `draw_colon_to_grid` leaves the buffer equal to `ColonStamp` of the old one |
| `Watchface.Face.DrawDot` | src/c/main.c:327-341 | one dot of the colon (2x2 cells, gray) written in place: the buffer advances four writes of `ColonStamp` |
| `Watchface.Face.DrawCorners` | src/c/main.c:354-382 | `draw_corners` leaves the buffer equal to `Corners` of the old one |
| `Watchface.Face.UpdateTime` | src/c/main.c:385-495 | `update_time` leaves the buffer equal to `TimeFace` of the time fields, clock style and colour support |
| `Watchface.Face.DrawTime` | src/c/main.c:443-471 | the time glyphs are stamped at the layout's columns, the leading zero hour gray on colour and skipped on monochrome, the colon only on colour |
| `Watchface.Face.DrawDate` | src/c/main.c:474-491 | the date glyphs are stamped at the layout's columns, gray on colour displays |

## Left out

- Floating point: `progress`, `fade`, `wave_row`, `cell_start`/`cell_progress`, `col_speed`/`col_progress`/`head_row`/`col_fade` are single-precision floats in the source. Progress and fade are exact reals here. The others are parameters. Bit-exact tick counts are not claimed: `Animations.RunLength` counts in exact arithmetic, and the accumulated `0.02f` can round so that the run stops one update later.
- `Matrix.Draw`: the head row and column fade computation (src/c/animations/matrix.c:44-65) is a parameter `view` from the column's two keys to its outcome (not started, faded out, or a stream with head and fade). The model does not state how the head falls with progress.
- `RandomPop.Draw`: a cell's progress is a parameter function of its start key `rand_val % 500`. The model does not state the arithmetic `(progress - start) / 0.5`.
- Platform calls: `graphics_fill_rect` and `graphics_context_set_fill_color` are recorded as fill commands. `app_timer_register`/`app_timer_cancel` and the animation timer callback's `layer_mark_dirty` (src/c/animations.c:90) are recorded as ghost events of `Animations.AnimationState`. The `layer_mark_dirty` call at the end of `update_time` (src/c/main.c:497) is not recorded: `Watchface.Face.UpdateTime` keeps no event log. `time`, `localtime`, `clock_is_24h_style`, the screen bounds and the handle a timer registration returns are parameters. `malloc`/`free`, windows, layers and the tick service are not modelled.
- Animation wiring: `src/c/main.c` never calls the animation state machine or the generators, so the model does not connect `Animations` with `Watchface`; they are modelled as the source holds them, side by side.
- `canvas_update_proc` (src/c/main.c:65-73), the loop that calls `draw_cell` for every cell, is not modelled as a loop. `draw_cell`'s mapping is `Watchface.CellSquare`.
- `src/pkjs/index.js` (weather fetch, geolocation, storage, app messages) is network and storage plumbing and is not part of this model.
- Integer widths: grid extents and pixel coordinates are unbounded integers. The source's `int16_t`/`uint8_t` fields of `GridParams` never overflow for real screen sizes. The generator state and the coordinate hashes use exact 32-bit wrap-around (`bv32`).
