# osui core, modelled in Dafny

osui is a terminal user-interface library written in Rust. Widgets hold
components and an element. Elements render into a `RenderScope`, and
container elements (flex rows and columns, scroll views, paginators,
velocity containers) place their children by rewriting each child's
`RawTransform`. Extensions add keyboard focus, velocity and id lookup.
Reactive hooks (`State`, `Mount`, `Dependency`) call registered callbacks.
Styles are serialised as ECMA-48 SGR escape sequences. Two engines exist:
a console run loop and a benchmark that times render passes. An RSX macro
scans text literals for `{name}` placeholders.

The source mixes several API generations: two `Input`s, two `Style`s, two
velocity implementations and two flex layouts. Each source file is modelled
on its own terms, in one Dafny module per file:

| module | source file |
|---|---|
| `Focus` | src/extensions/focus.rs |
| `Utils` | src/utils.rs |
| `Render` | src/render.rs |
| `RenderScopes` | src/render_scope.rs |
| `ViewPlugins` | src/view_plugins.rs |
| `VelocityHandler` | src/elements/velocity_handler.rs |
| `VelocityExtension` | src/extensions/velocity.rs |
| `Flex` | src/elements/flex.rs |
| `FlexColumn` | src/elements/flex/column.rs |
| `Scroll` | src/elements/scroll.rs |
| `Paginator` | src/elements/paginator.rs |
| `ElementsInput` | src/elements/input.rs |
| `ElementInput` | src/element/input.rs |
| `Ui` | src/ui/mod.rs |
| `UiStyles` | src/ui/styles.rs |
| `LegacyStyle` | src/style.rs |
| `Element` | src/element.rs |
| `Event` | src/event.rs |
| `RsxParse` | macros/src/parse.rs |
| `Shape` | src/elements/shape.rs |
| `Widgets` | src/widget.rs |
| `Dependencies` | src/dependency.rs |
| `StateHooks` | src/hooks/state.rs |
| `Mounts` | src/state/mount.rs |
| `EventManagers` | src/event_manager.rs |
| `Console` | src/engine/console.rs |
| `Benchmark` | src/engine/benchmark.rs |
| `IdExtension` | src/extensions/id.rs |

Four modules hold shared vocabulary:

- `Common` holds the Rust integer widths as subset types, `Option`, decimal
  spelling, splitting and joining on a separator, and UTF-8 byte length.
- `Transform` holds `RawTransform`.
- `Keys` holds the terminal key events the elements react to: key codes,
  modifiers and key events, as crossterm delivers them.
- `Sgr` holds the SGR control sequences of ECMA-48 (section 8.3.117), with a
  reader that inverts the writer.

How the model maps Rust onto Dafny:

- A Rust `u16` is a natural number at most 65535, and `i32` is bounded the
  same way. `u16` arithmetic that would panic on overflow either is excluded
  by a precondition or makes a layout step yield nothing (an `Option` that
  is `None` exactly where Rust panics). Saturating arithmetic and `as` casts
  are written out.
- Objects whose fields the source updates in place are classes whose methods
  modify them.
- Callbacks (hooks, event handlers, load closures, dependency checks) are
  opaque identities appended to a call log. Where the source uses a
  callback's return value, it is a caller-supplied answer: a `seq<bool>` of
  `check()` results, or a function from the call number to the result.
- Widgets in containers are opaque identities. Reference equality
  (`Arc::ptr_eq`) is equality of identities.

## Model

| member | source | states |
|---|---|---|
| `Sgr.RoundTrip` | src/ui/styles.rs:196-223 | reading back an SGR sequence written from a non-empty parameter list gives that list |
| `Sgr.Injective` | src/ui/styles.rs:193-223 | different parameter lists give different escape sequences |
| `Sgr.Sequence5` | src/ui/styles.rs:196-197 | a five-parameter sequence is ESC `[` a`;`b`;`c`;`d`;`e `m` in decimal, the direct-colour form |
| `Sgr.ShortCode` | src/ui/styles.rs:199-206 | a one-parameter sequence with a code below 100 is ESC `[`, its one or two digits, then `m` |
| `Sgr.VisibleSequence` | src/ui/styles.rs:118-119 | a terminal shows nothing of an SGR sequence: what follows it is all that shows |
| `Utils.StrSize` | src/utils.rs:78-96 | the byte loop returns the width and height of `Size(s)`, given that both fit `u16` |
| `Utils.SizeHeight` | src/utils.rs:79-86 | the height is one more than the number of `'\n'` bytes |
| `Utils.SizeWidth` | src/utils.rs:80-93 | the width bounds the byte length of every `'\n'`-separated line, and one line reaches it |
| `Utils.SizeStack` | src/utils.rs:83-95 | two texts joined by a line break measure the wider of the two by the sum of their heights |
| `Utils.SizeSingleLine` | src/utils.rs:83-95 | a text without line breaks is one line as wide as its byte length; this includes the empty text, (0, 1) |
| `Utils.SizeTwoAsciiLines` | src/utils.rs:83-95 | two ASCII lines joined by a break measure the longer one's length by 2 |
| `Utils.SizeOfHelloWorld` | src/utils.rs:74-95 | "Hello\nWorld!" measures (6, 2), not the (5, 2) the doc example claims |
| `Utils.HexAnsiIsSgr` | src/utils.rs:98-103 | `hex_ansi(h)` is the SGR sequence 38;2;r;g;b of the bytes at bits 16, 8 and 0, and it reads back as those parameters |
| `Utils.HexAnsiBgIsSgr` | src/utils.rs:105-110 | `hex_ansi_bg(h)` is the same with 48 in place of 38 |
| `Utils.HexAnsiIgnoresTopByte` | src/utils.rs:98-110 | bits above 24 do not change either escape |
| `Utils.ChannelsOf` | src/utils.rs:99-101 | the masks recover r, g and b from `r*65536 + g*256 + b` |
| `Render.Cover` | src/render.rs:83-86 | the bounds after an allocation keep the smaller x and y and the larger width and height, each one of the two arguments |
| `Render.CoverUnallocated` | src/render.rs:67-86 | the first allocation into a new context yields exactly the request, since x=y=65535 and width=height=0 is the identity |
| `Render.CoverIdempotent` | src/render.rs:82-94 | repeating the same allocation changes nothing more |
| `Render.CoverCommutes` | src/render.rs:82-94 | the order of two allocations does not matter |
| `Render.DrawContext.constructor` | src/render.rs:67-77 | keeps the area; the bounds start at x=y=65535, width=height=0; the drawing is empty |
| `Render.DrawContext.Snapshot` | src/render.rs:56-63 | the context as a `Frame` value with the same area, bounds and drawing |
| `Render.DrawContext.Allocate` | src/render.rs:82-94 | returns exactly the requested area, widens the bounds by `Cover`, and leaves area and drawing alone |
| `Render.DrawContext.Draw` | src/render.rs:97-99 | appends exactly the instruction and changes nothing else |
| `Render.DrawContext.DrawText` | src/render.rs:102-105 | appends one Text instruction and changes nothing else |
| `Render.DrawContext.DrawView` | src/render.rs:108-110 | appends one View instruction and changes nothing else |
| `RenderScopes.Grow` | src/render_scope.rs:71-95 | width and height become at least the given size and at least what they were, each equal to one of the two; nothing else changes |
| `RenderScopes.GrowCommutes` | src/render_scope.rs:93-96 | growing is order-independent and idempotent |
| `RenderScopes.OrElse` | src/render_scope.rs:198-207 | a non-zero size is kept; 0 is replaced by the fallback |
| `RenderScopes.RenderScope.constructor` | src/render_scope.rs:44-52 | an all-zero transform, an empty render stack, a 0x0 parent size and the default style |
| `RenderScopes.RenderScope.SetTransformRaw` | src/render_scope.rs:55-57 | replaces the transform and nothing else |
| `RenderScopes.RenderScope.DrawText` | src/render_scope.rs:68-73 | pushes one Text, raises the size to at least `str_size(text)`, keeps parent size and style |
| `RenderScopes.RenderScope.DrawTextColored` | src/render_scope.rs:76-82 | pushes one TextColored, raises the size to at least `str_size(text)` |
| `RenderScopes.RenderScope.DrawRect` | src/render_scope.rs:85-90 | pushes one Rectangle and raises the size to at least the rectangle's |
| `RenderScopes.RenderScope.UseArea` | src/render_scope.rs:93-96 | only raises the size; the stack is unchanged |
| `RenderScopes.RenderScope.Clear` | src/render_scope.rs:184-188 | empties the stack and resets transform and style, and keeps the parent size |
| `RenderScopes.RenderScope.GetSize` | src/render_scope.rs:191-193 | the transform's width and height |
| `RenderScopes.RenderScope.GetSizeOr` | src/render_scope.rs:196-209 | each axis independently falls back only where it is 0; a 0 result means the fallback was 0 |
| `RenderScopes.RenderScope.GetSizeOrParent` | src/render_scope.rs:212-225 | `get_size_or` with the parent size as the fallback |
| `RenderScopes.RenderScope.GetParentSize` | src/render_scope.rs:228-230 | the stored parent width and height |
| `RenderScopes.RenderScope.SetParentSize` | src/render_scope.rs:233-236 | `get_parent_size` then returns the same pair; nothing else changes |
| `RenderScopes.RenderScope.SetStyle` | src/render_scope.rs:249-251 | replaces the style and nothing else |
| `RenderScopes.SizedAxesIgnoreFallback` | src/render_scope.rs:196-209 | after a non-zero draw on both axes, no fallback shows through |
| `ViewPlugins.CenterOffsetBalanced` | src/view_plugins.rs:47-48 | the centring offset leaves equal margins, the far one larger by at most one cell |
| `ViewPlugins.XCenteredIntended` | src/view_plugins.rs:10-18 | the documented `x_center`: only x changes, and it centres the width |
| `ViewPlugins.YCentered` | src/view_plugins.rs:33-35 | only y changes, and it centres the height |
| `ViewPlugins.Centered` | src/view_plugins.rs:46-49 | width and height unchanged, x and y centred, given allocated <= area |
| `ViewPlugins.CenteredComposes` | src/view_plugins.rs:46-49 | `center` is the documented `x_center` followed by `y_center` |
| `ViewPlugins.XCenterIsYCenter` | src/view_plugins.rs:19-35 | `x_center` as written equals `y_center`, never moves x, and leaves a 4-wide allocation in a 10-wide area at x = 0 |
| `ViewPlugins.XCenter` | src/view_plugins.rs:10-21 | with the defect corrected, the bounds become the centred-width result; area and drawing unchanged |
| `ViewPlugins.YCenter` | src/view_plugins.rs:33-35 | the bounds become the centred-height result; area and drawing unchanged |
| `ViewPlugins.Center` | src/view_plugins.rs:46-49 | the bounds become the centred result; area and drawing unchanged |
| `ViewPlugins.StripAll` | src/view_plugins.rs:72 | each line loses one trailing `'\r'`, as `str::lines` strips it |
| `ViewPlugins.LinesCount` | src/view_plugins.rs:72 | `str::lines` yields one line per `'\n'` plus one for unterminated text after the last |
| `ViewPlugins.LinesFinalBreak` | src/view_plugins.rs:72 | a final line break adds no line |
| `ViewPlugins.LinesWidthBounds` | src/view_plugins.rs:73 | the widest-line value bounds every line's `len() as u16` and is reached by one |
| `ViewPlugins.WidthAutoOf` | src/view_plugins.rs:100-117 | `width_auto` never changes anything but the width |
| `ViewPlugins.HeightAutoOf` | src/view_plugins.rs:128-149 | `height_auto` never changes anything but the height |
| `ViewPlugins.SizeAutoSplits` | src/view_plugins.rs:66-89 | `size_auto`'s width is `width_auto`'s and its height is `height_auto`'s; x and y are untouched |
| `ViewPlugins.HeightAutoIgnoresWidth` | src/view_plugins.rs:128-149 | the height `height_auto` computes does not depend on the starting width |
| `ViewPlugins.SizeAutoIsWidthThenHeight` | src/view_plugins.rs:66-149 | `size_auto` equals `width_auto` followed by `height_auto` |
| `ViewPlugins.SizeAutoCoversLines` | src/view_plugins.rs:69-78 | without views, the width reached is at least the old width and every line of every Text |
| `ViewPlugins.LastTextWins` | src/view_plugins.rs:77 | after a final Text the height is that text's line count, for `size_auto` and `height_auto` |
| `ViewPlugins.ChildIgnored` | src/view_plugins.rs:86 | a trailing Child instruction changes none of the three plugins' results |
| `ViewPlugins.SizeAuto` | src/view_plugins.rs:66-89 | the loop leaves the bounds at `SizeAutoOf` of the drawing; area and drawing unchanged |
| `ViewPlugins.WidthAuto` | src/view_plugins.rs:100-117 | the loop leaves the bounds at `WidthAutoOf`, with the height unchanged |
| `ViewPlugins.HeightAuto` | src/view_plugins.rs:128-149 | the loop leaves the bounds at `HeightAutoOf`, with the width unchanged |
| `Focus.FindClosestInDirection` | src/extensions/focus.rs:174-281 | returns None iff no entry other than the cursor's lies strictly on the requested side; otherwise the chosen index: the earliest aligned candidate at least axial distance if one exists, else a candidate of least `dx*dx+dy*dy` with ties to the smaller index; never the cursor |
| `Focus.ChosenUnique` | src/extensions/focus.rs:185-208 | the aligned-first, then nearest rule determines at most one index |
| `Focus.ChosenIsCandidate` | src/extensions/focus.rs:186-191 | the chosen index belongs to an entry strictly on the requested side that is not the cursor's |
| `Focus.CurrentPosition` | src/extensions/focus.rs:41-44 | the position of the first entry whose index is the cursor, or (0, 0) when there is none |
| `Focus.RelativeFocusExtension.constructor` | src/extensions/focus.rs:166-171 | cursor 0 and no rendered entries |
| `Focus.RelativeFocusExtension.QueryFor` | src/extensions/focus.rs:40-51 | the search starts from the cursor and its current position |
| `Focus.RelativeFocusExtension.Init` | src/extensions/focus.rs:25-31 | every widget carrying `Focused` becomes focused; the others keep their flag |
| `Focus.RelativeFocusExtension.Event` | src/extensions/focus.rs:33-135 | on Shift+arrow with a target, the cursor moves to the chosen index and exactly that widget is focused (on Down, `AlwaysFocused` widgets stay focused); with no target or any other event, cursor and flags are unchanged |
| `Focus.RelativeFocusExtension.Render` | src/extensions/focus.rs:137-139 | empties the rendered list and keeps the cursor |
| `Focus.RelativeFocusExtension.Record` | src/extensions/focus.rs:154-160 | appends the widget's position in the list and its transform corner |
| `VelocityHandler.Interval` | src/elements/velocity_handler.rs:136 | `(1000 / \|v\|).max(1)` is between 1 and 1000, is 1 exactly when \|v\| > 500, and is the floor of 1000/\|v\| for \|v\| <= 1000 |
| `VelocityHandler.ApplyVelocity` | src/elements/velocity_handler.rs:130-146 | moves iff v != 0 and ticks mod interval = 0; a move is one saturating step toward sign(v); otherwise x is unchanged |
| `VelocityHandler.ApplyVelocityMirrors` | src/elements/velocity_handler.rs:130-146 | opposite velocities move on the same ticks, in opposite directions |
| `VelocityHandler.AddI32ToU16` | src/elements/velocity_handler.rs:148-154 | for \|delta\| <= 65535 the result is value + delta clamped to [0, 65535]; it never moves against the sign of delta |
| `VelocityHandler.AddI32ToU16Truncates` | src/elements/velocity_handler.rs:150-152 | the `as u16` cast wraps: a delta of plus or minus 65536 does not move at all |
| `VelocityHandler.ApplyValue` | src/elements/velocity_handler.rs:156-162 | one step up for v > 0 and down otherwise, saturating; it stays put exactly at the matching `i32` bound |
| `VelocityHandler.NextTick` | src/elements/velocity_handler.rs:66-70 | the tick after 1000 is 0, and otherwise one more: (tick + 1) mod 1001 |
| `VelocityHandler.TicksCycle` | src/elements/velocity_handler.rs:66-70 | after n frames of a new handler the tick is n mod 1001 |
| `VelocityHandler.AxisStep` | src/elements/velocity_handler.rs:105-113 | with v = 0 only the accumulated displacement is added; otherwise position and accumulator move at most one further, in the direction of v |
| `VelocityHandler.Drift` | src/elements/velocity_handler.rs:103-117 | no `Velocity` leaves everything alone; a missing progress entry gets (0, 0) appended; otherwise only this child's entry and the transform's x and y change |
| `VelocityHandler.Step` | src/elements/velocity_handler.rs:100-127 | the child index advances by one; the parent's width and height become exactly the larger of the old value and the child's extent plus twice its padding; the child is shifted by the parent's x+px and y+py and takes its `offset_y` |
| `VelocityHandler.RunPrefix` | src/elements/velocity_handler.rs:60-62 | a pass that completes completes each of its prefixes |
| `VelocityHandler.RunStep` | src/elements/velocity_handler.rs:60-62 | a completing pass is its prefix followed by one more `before_draw` |
| `VelocityHandler.RunBookkeeping` | src/elements/velocity_handler.rs:59-62 | after a pass the child index counts the widgets, the tick is unchanged, the progress list grew by at most one per widget, and the parent did not shrink |
| `VelocityHandler.Renderer.constructor` | src/elements/velocity_handler.rs:59 | starts a pass with the given parent, progress and tick at child index 0 |
| `VelocityHandler.Renderer.BeforeDraw` | src/elements/velocity_handler.rs:100-127 | the renderer state and the placed child are exactly `Step`'s result |
| `VelocityHandler.Handler.constructor` | src/elements/velocity_handler.rs:21-28 | no children, no progress, tick 0, a recorded area of 0x0 |
| `VelocityHandler.Handler.Render` | src/elements/velocity_handler.rs:32-38 | claims the recorded area with `use_area`: the scope's size grows to cover it, nothing is drawn, and the parent size and style are kept |
| `VelocityHandler.Handler.AfterRender` | src/elements/velocity_handler.rs:40-71 | the pass runs from a zero-sized parent; the progress list and recorded area are the pass's result; the tick wraps; every child keeps a progress entry |
| `VelocityHandler.Handler.DrawChild` | src/elements/velocity_handler.rs:73-77 | appends the child and a (0, 0) progress entry |
| `VelocityHandler.Handler.UndrawChild` | src/elements/velocity_handler.rs:79-84 | removes the first equal child and the progress entry at the same index, or nothing when absent, so the two lists stay aligned |
| `VelocityExtension.ApplyVelocity` | src/extensions/velocity.rs:16-24 | v = 0 leaves x alone; otherwise x changes iff ticks mod (1000/\|v\|) = 0, by +1 for v > 0 and -1 for v < 0, unchecked, so \|v\| <= 1000 and no overflow are required |
| `VelocityExtension.AgreesWithHandler` | src/extensions/velocity.rs:16-24 | where both are defined, this step moves x exactly as the velocity container's `apply_velocity` |
| `VelocityExtension.MovePosition` | src/extensions/velocity.rs:29-37 | only `Position::Const` coordinates move; computed positions are kept |
| `VelocityExtension.Widget.constructor` | src/extensions/velocity.rs:27-28 | a widget's optional `Velocity` and `Transform` components |
| `VelocityExtension.Widget.ApplyVelocityXY` | src/extensions/velocity.rs:26-42 | with both components the constant coordinates move and the transform is written back; otherwise nothing changes |
| `VelocityExtension.NextTick` | src/extensions/velocity.rs:54-58 | the tick resets only after passing 1000: (tick + 1) mod 1002 |
| `VelocityExtension.TicksCycle` | src/extensions/velocity.rs:49-58 | after n sweeps the tick is n mod 1002, so it ranges over 0..=1001 |
| `Flex.RowStepAsWritten` | src/elements/flex.rs:160-173 | `RowRenderer::before_draw` as written: defined exactly when no `u16` addition overflows; only the parent's width and height and the child's x, y, px and py change |
| `Flex.RowStep` | src/elements/flex.rs:160-173 | `before_draw` with the width rule corrected: defined exactly when no `u16` addition overflows; the parent's width becomes the larger of itself and the child's width plus twice its padding, without the running offset; only the parent's width and height and the child's x, y, px and py change |
| `Flex.ColumnStep` | src/elements/flex.rs:177-190 | `ColumnRenderer::before_draw`: defined exactly when no `u16` addition overflows; only the parent's width and height and the child's x, y, px and py change |
| `Flex.RowIsTransposedColumn` | src/elements/flex.rs:160-190 | with the width rule corrected, a row step is a column step with x/y, width/height and px/py exchanged |
| `Flex.RowWidthCountsOffset` | src/elements/flex.rs:162 | two children 1 wide and 5 high make the row 6 wide as written, and 1 wide with the corrected rule |
| `Flex.RowPass` | src/elements/flex.rs:165-172 | a row pass places child i at the parent's x, and at the parent's y plus the offset plus the room (height + gap + 2·py) of the children before it; the offset ends at the total room; the height grows by the total room plus twice the parent's py per child, because line 170 runs before line 172; the width (width rule corrected) ends as the larger of the starting width and the widest child plus twice its px |
| `Flex.ColumnPass` | src/elements/flex.rs:180-189 | a column pass places child i at the parent's x plus the room (width + gap + 2·px) of the children before it; the width grows by the total room plus twice the parent's px per child; the height ends as the tallest child with its padding |
| `Flex.RowRunPrefix` | src/elements/flex.rs:74-76 | a row pass that completes completes each of its prefixes |
| `Flex.ColumnRunPrefix` | src/elements/flex.rs:134-136 | a column pass that completes completes each of its prefixes |
| `Flex.RowRunStep` | src/elements/flex.rs:74-76 | a completing row pass is its prefix followed by one more `before_draw` |
| `Flex.ColumnRunStep` | src/elements/flex.rs:134-136 | a completing column pass is its prefix followed by one more `before_draw` |
| `Flex.RowRenderer.constructor` | src/elements/flex.rs:72-73 | the parent, the gap and a running offset of 0 |
| `Flex.RowRenderer.BeforeDraw` | src/elements/flex.rs:160-173 | with the width rule corrected, the renderer state and the placed child are exactly `RowStep`'s result |
| `Flex.ColumnRenderer.constructor` | src/elements/flex.rs:132-133 | the parent, the gap and a running offset of 0 |
| `Flex.ColumnRenderer.BeforeDraw` | src/elements/flex.rs:177-190 | the renderer state and the placed child are exactly `ColumnStep`'s result |
| `Flex.FlexRow.constructor` | src/elements/flex.rs:26-32 | gap 0, no children, a recorded area of 0x0 |
| `Flex.FlexRow.Render` | src/elements/flex.rs:46-52 | claims the recorded area with `use_area`: the scope's size grows to cover it, nothing is drawn, and the parent size and style are kept |
| `Flex.FlexRow.AfterRender` | src/elements/flex.rs:54-79 | the pass starts from the parent's transform with height 0 and offset 0; the placed children and the recorded area are the row pass's result (width rule corrected) |
| `Flex.FlexRow.DrawChild` | src/elements/flex.rs:81-84 | appends the child |
| `Flex.FlexRow.UndrawChild` | src/elements/flex.rs:86-90 | removes the first equal child, or nothing when it is absent |
| `Flex.FlexCol.constructor` | src/elements/flex.rs:36-42 | gap 0, no children, a recorded area of 0x0 |
| `Flex.FlexCol.Render` | src/elements/flex.rs:106-112 | claims the recorded area with `use_area`: the scope's size grows to cover it, nothing is drawn, and the parent size and style are kept |
| `Flex.FlexCol.AfterRender` | src/elements/flex.rs:114-139 | the pass starts with width 0 and offset 0; the placed children and the recorded area are the column pass's result |
| `Flex.FlexCol.DrawChild` | src/elements/flex.rs:141-144 | appends the child |
| `FlexColumn.ColumnStep` | src/elements/flex/column.rs:83-97 | the same step as the flex file's column renderer, except that the child also takes the parent's `offset_y` |
| `FlexColumn.ColumnPass` | src/elements/flex/column.rs:86-96 | a pass lays the children out side by side exactly as `Flex.ColumnPass` states, and every child carries the parent's scroll offset |
| `FlexColumn.ColumnRunPrefix` | src/elements/flex/column.rs:57-59 | a pass that completes completes each of its prefixes |
| `FlexColumn.ColumnRunStep` | src/elements/flex/column.rs:57-59 | a completing pass is its prefix followed by one more `before_draw` |
| `FlexColumn.ColumnRenderer.constructor` | src/elements/flex/column.rs:55-56 | the parent, the gap and a running offset of 0 |
| `FlexColumn.ColumnRenderer.BeforeDraw` | src/elements/flex/column.rs:83-97 | the renderer state and the placed child are exactly this file's `ColumnStep` |
| `FlexColumn.FlexCol.constructor` | src/elements/flex/column.rs:19-25 | gap 0, no children, a recorded area of 0x0 |
| `FlexColumn.FlexCol.Render` | src/elements/flex/column.rs:29-35 | claims the recorded area with `use_area`: the scope's size grows to cover it, nothing is drawn, and the parent size and style are kept |
| `FlexColumn.FlexCol.AfterRender` | src/elements/flex/column.rs:37-62 | the pass starts with width 0 and offset 0; the placed children and the recorded area are the pass's result |
| `FlexColumn.FlexCol.DrawChild` | src/elements/flex/column.rs:64-67 | appends the child to the end of the children |
| `Scroll.ScrollKey` | src/elements/scroll.rs:82-92 | Up decreases the offset by 1, saturating at 0; Down increments only when offset + 1 < the recorded height; other keys change nothing |
| `Scroll.ScrollKeyStaysInRange` | src/elements/scroll.rs:86-90 | Down never produces an offset at or past the recorded height, and an offset that is 0 or in range stays so |
| `Scroll.Step` | src/elements/scroll.rs:112-119 | defined exactly when no `u16` addition overflows; the parent changes only in width and height; the child only in x and y, and it takes the parent's `offset_y` |
| `Scroll.Place` | src/elements/scroll.rs:112-119 | the field updates of one `before_draw`, in the source's order, give exactly `Step`'s grown parent and placed child |
| `Scroll.Pass` | src/elements/scroll.rs:112-119 | a pass grows the parent to its widest and tallest child with padding, and places every child at the parent's padded origin with its scroll offset |
| `Scroll.RunPrefix` | src/elements/scroll.rs:61-63 | a pass that completes completes each of its prefixes |
| `Scroll.RunStep` | src/elements/scroll.rs:61-63 | a completing pass is its prefix followed by one more `before_draw` |
| `Scroll.Scroll.constructor` | src/elements/scroll.rs:21-27 | offset 0, no children, a recorded area of 0x0 |
| `Scroll.Scroll.Render` | src/elements/scroll.rs:31-37 | claims the recorded area with `use_area`: the scope's size grows to cover it, nothing is drawn, and the parent size and style are kept |
| `Scroll.Scroll.Event` | src/elements/scroll.rs:79-96 | a key press moves the offset as `ScrollKey` says; any other event leaves it; children and recorded area are unchanged |
| `Scroll.Scroll.AfterRender` | src/elements/scroll.rs:39-66 | the pass starts with the scroll offset copied into `offset_y` and width and height 0; the placed children and the recorded area are the pass's result |
| `Scroll.Scroll.DrawChild` | src/elements/scroll.rs:68-71 | appends the child |
| `Scroll.Scroll.UndrawChild` | src/elements/scroll.rs:73-77 | removes the first equal child, or nothing when it is absent |
| `Paginator.NextIndex` | src/elements/paginator.rs:49-55 | Tab gives index + 1 if that is below the child count, else 0; on a valid index that is (index + 1) mod len |
| `Paginator.PreviousIndex` | src/elements/paginator.rs:56-62 | BackTab gives index - 1 if index > 0, else len - 1 if there are children, else the index unchanged |
| `Paginator.CyclingStaysInRange` | src/elements/paginator.rs:47-62 | Tab and BackTab keep the index below the child count |
| `Paginator.TabBackTabInverse` | src/elements/paginator.rs:49-62 | BackTab after Tab, and Tab after BackTab, restore a valid index |
| `Paginator.Paginator.constructor` | src/elements/paginator.rs:17-22 | no children, index 0 |
| `Paginator.Paginator.Event` | src/elements/paginator.rs:45-66 | Tab and BackTab move the index as `NextIndex` and `PreviousIndex` say; other events leave it; the children are unchanged |
| `Paginator.Paginator.Render` | src/elements/paginator.rs:26-43 | only the child at the index is drawn, and the paginator claims its own size or its parent's per axis; out of range nothing is drawn or claimed; the parent size and style are kept either way |
| `Paginator.Paginator.DrawChild` | src/elements/paginator.rs:72-75 | appends the child and keeps the index |
| `ElementsInput.Edit` | src/elements/input.rs:39-66 | the cursor stays within the text; Char inserts its character at the cursor and advances the cursor by one; Backspace past 0 removes the character before the cursor and steps back, at 0 changes nothing; Delete before the end removes the character at the cursor and keeps the cursor, at the end changes nothing; Left steps back unless at 0 and Right steps forward unless at the end, both keeping the text; other keys change nothing |
| `ElementsInput.EditKeepsSound` | src/elements/input.rs:39-66 | every key keeps the cursor within an ASCII text, given an ASCII typed character |
| `ElementsInput.CharLandsAtCursor` | src/elements/input.rs:40-43 | a typed character lands at the cursor, with the text before and after it kept |
| `ElementsInput.BackspaceUndoesChar` | src/elements/input.rs:40-49 | Backspace right after typing restores text and cursor |
| `ElementsInput.LeftRightInverse` | src/elements/input.rs:55-64 | Right undoes Left away from the start, and Left undoes Right away from the end |
| `ElementsInput.Input.constructor` | src/elements/input.rs:80-85 | empty text, cursor 0 |
| `ElementsInput.Input.Event` | src/elements/input.rs:30-68 | a key press with no modifier or with Shift edits text and cursor as `Edit` says; a key press with another modifier, or any other event, changes nothing |
| `ElementsInput.Input.Render` | src/elements/input.rs:14-28 | the text at (0, 0); when focused, also the character under the cursor inverted at the cursor's column, or an inverted space at column `len` when the cursor is at the end |
| `ElementsInput.RenderCaretAfterText` | src/elements/input.rs:25 | on ASCII text the inverted space sits right after the last character |
| `ElementInput.ShowsHighlightedChar` | src/element/input.rs:26-27 | a character wrapped in the green and reset sequences shows as itself |
| `ElementInput.HighlightShowsText` | src/element/input.rs:22-33 | the highlight adds nothing visible except the trailing space when the cursor is at the end |
| `ElementInput.HighlightAtCursor` | src/element/input.rs:25-27 | the rendered string is the text before the cursor, `ESC[42m`, the cursor's character, `ESC[0m`, then the rest |
| `ElementInput.Keypress` | src/element/input.rs:44-74 | the cursor stays within the text; Char inserts its character at the cursor, advances the cursor and dispatches `InputUpdate` of the new text; Backspace past 0 removes the character before the cursor, steps back and dispatches the update; Left past 0 and Right before the end move the cursor by one, keep the text and dispatch the update; every other key leaves the state and dispatches `InputKeyPress(text, key)`; nothing is dispatched exactly when Backspace or Left at 0 or Right at the end do nothing |
| `ElementInput.BackspaceUndoesChar` | src/element/input.rs:46-57 | Backspace after typing restores text and cursor and dispatches the restored text |
| `ElementInput.DeleteIsPassedOn` | src/element/input.rs:70-72 | Delete is not edited on: state unchanged, and `InputKeyPress` is dispatched |
| `ElementInput.Input.constructor` | src/element/input.rs:12-14 | empty text, cursor 0 |
| `ElementInput.Input.OnKeypress` | src/element/input.rs:44-74 | text, cursor and the dispatched event are exactly `Keypress`'s result |
| `ElementInput.Input.Render` | src/element/input.rs:22-33 | draws exactly one text, the highlighted string, grows the scope's size to cover it, keeps the parent size and style, and does not change the input |
| `Ui.Cycle` | src/ui/mod.rs:59-75 | the index stays below the child count; Tab moves to the next index, wrapping to 0; BackTab to the previous, wrapping to the last; any other event keeps it |
| `Ui.CycleIsPaginator` | src/ui/mod.rs:59-75 | the `Div` cycles its focus exactly as the paginator cycles pages |
| `Ui.CycleInverse` | src/ui/mod.rs:59-75 | Tab then BackTab, and BackTab then Tab, return to the same child |
| `Ui.FocusGainedGoesToOldChild` | src/ui/mod.rs:58-67 | as written, with two children Tab delivers `FocusLost` and then `FocusGained` both to the child that had focus, and the newly focused child hears nothing |
| `Ui.FocusMovesToNewChild` | src/ui/mod.rs:58-79 | in the corrected delivery, Tab or BackTab tells the old child `FocusLost` and the child at the new index `FocusGained`; any other event goes to the focused child alone |
| `Ui.ExtendLastWins` | src/ui/mod.rs:84-92 | after the `SetStyle` instructions extend the style table, a key holds the value from the last instruction that sets it |
| `Ui.ExtendUntouched` | src/ui/mod.rs:84-92 | a key no instruction sets keeps its entry, or stays absent |
| `Ui.Div.constructor` | src/ui/mod.rs:96-110 | the `Div` holds the given children and instructions |
| `Ui.Div.Event` | src/ui/mod.rs:55-81 | with a focused child, the index moves as `Cycle` says, and the old child hears `FocusLost` and the new one `FocusGained` (the corrected delivery) or the focused child gets the event; with none, nothing changes; instructions are untouched |
| `Ui.Div.Render` | src/ui/mod.rs:44-53 | one frame entry per child element, in order, focused exactly at the focused index when the `Div` itself is focused; none for text children |
| `Ui.RenderFocusesOne` | src/ui/mod.rs:48-52 | at most one child is drawn as focused, and one is exactly when the `Div` is focused and has a focused child |
| `Ui.Div.Initialize` | src/ui/mod.rs:84-92 | the document's style table becomes its old table extended by each instruction in turn |
| `Ui.BackspaceAsWritten` | src/ui/mod.rs:193-197 | empty text is kept; a last character of one UTF-8 byte is removed; the call panics exactly when the last character takes more than one byte |
| `Ui.BackspacePanicsOnMultibyte` | src/ui/mod.rs:195 | Backspace on "é" panics as written |
| `Ui.Backspace` | src/ui/mod.rs:193-197 | the corrected Backspace keeps empty text and otherwise drops exactly the last character |
| `Ui.BackspaceUndoesTyping` | src/ui/mod.rs:193-203 | Backspace after typing any character restores the text; the as-written one does so only for one-byte characters |
| `Ui.Input.constructor` | src/ui/mod.rs:212-230 | the `Input` holds the given children's text, text and placeholder |
| `Ui.Input.Event` | src/ui/mod.rs:190-208 | Backspace removes the last character (the corrected Backspace); a character key appends it; Enter, and only Enter, calls `on_click`; every other event leaves the text; the new text is `EditText` of the old |
| `Ui.Input.Render` | src/ui/mod.rs:172-188 | the children's text, then the placeholder when the text is empty or else the text, then the caret |
| `Ui.EditText` | src/ui/mod.rs:190-208 | the typed text after an event: Backspace gives the corrected `Backspace`, a character key appends the character, and every other event keeps the text |
| `Ui.TypingHidesPlaceholder` | src/ui/mod.rs:172-208 | after a character is typed into an empty input, the render shows that character where the placeholder was |
| `Ui.BackspaceShowsPlaceholder` | src/ui/mod.rs:172-208 | after Backspace on a one-character text, the render shows the placeholder again |
| `Ui.TypeThenEraseShowsSame` | src/ui/mod.rs:172-208 | typing a character and erasing it with Backspace renders the input as before: the placeholder when it was empty, the old text otherwise |
| `UiStyles.NamedIndex` | src/ui/styles.rs:199-206 | a named colour's offset in the eight-colour table is below 8 |
| `UiStyles.RgbIsSgr` | src/ui/styles.rs:196-198 | an RGB foreground is the SGR sequence `38;2;r;g;b` |
| `UiStyles.RgbBgIsSgr` | src/ui/styles.rs:213-215 | an RGB background is the SGR sequence `48;2;r;g;b` |
| `UiStyles.NamedIsSgr` | src/ui/styles.rs:199-223 | a named colour is SGR `30 + n` in the foreground and `40 + n` in the background |
| `UiStyles.ColorIsSgr` | src/ui/styles.rs:193-225 | `None` writes nothing; every other colour writes the SGR sequence of its parameters, foreground and background alike |
| `UiStyles.PrioritizeColor` | src/ui/styles.rs:227-233 | the result is one of the two colours, and is `None` only when both are |
| `UiStyles.FontIsSgr` | src/ui/styles.rs:151-158 | a single font attribute is the SGR sequence of its code |
| `UiStyles.MulConcatenates` | src/ui/styles.rs:159-165 | `Mul(v + w)` writes `Mul(v)`'s escapes then `Mul(w)`'s; `Mul([])` writes nothing; `Mul([f])` writes what `f` does |
| `UiStyles.PrioritizeFont` | src/ui/styles.rs:169-175 | the result is one of the two fonts, and is `None` only when both are |
| `UiStyles.PrioritizeLaws` | src/ui/styles.rs:169-175 | prioritizing is idempotent and associative, and `None` is neutral on either side, for colours and fonts |
| `UiStyles.Write` | src/ui/styles.rs:118-136 | the written string is the part's prefix, the text, and the four-character reset |
| `UiStyles.WriteEndsInReset` | src/ui/styles.rs:119 | the appended reset is SGR 0 |
| `UiStyles.DefaultWritesNothing` | src/ui/styles.rs:30-58 | the default style's `get*` strings are empty, so `write` adds only the reset |
| `UiStyles.ColorInvisible` | src/ui/styles.rs:193-225 | a colour's escape shows nothing on the terminal |
| `UiStyles.FontInvisible` | src/ui/styles.rs:151-167 | a font's escape shows nothing on the terminal |
| `UiStyles.FontsInvisible` | src/ui/styles.rs:159-165 | the escapes of a list of fonts show nothing |
| `UiStyles.EscapesInvisible` | src/ui/styles.rs:64-76 | a foreground, background and font escape together show nothing |
| `UiStyles.PrefixInvisible` | src/ui/styles.rs:62-116 | whatever the style, every `get*` string shows nothing |
| `UiStyles.WriteShowsText` | src/ui/styles.rs:118-136 | whatever the style and part, the terminal shows exactly the wrapped text, given text without escapes |
| `UiStyles.HoverOverrides` | src/ui/styles.rs:62-86 | an inactive style uses its plain fields; an active one uses each hover field in place of the plain one unless the hover field is `None`; without hover fields activity changes nothing |
| `UiStyles.ClickedSelectedIgnoreActivity` | src/ui/styles.rs:88-104 | `get_clicked` and `get_selected` ignore activity and use the clicked (selected) fields over the plain ones |
| `LegacyStyle.Style.constructor` | src/style.rs:15-27 | every colour and font is `None` and the style is not active |
| `LegacyStyle.Style.Update` | src/style.rs:29-31 | only the activity flag changes, so neither `get` nor `get_hover` writes anything different |
| `LegacyStyle.Style.Get` | src/style.rs:33-35 | the plain foreground, background and font escapes, which is what the newer style's `get` writes for the same fields when inactive |
| `LegacyStyle.Style.GetOutline` | src/style.rs:37-39 | the same string as `get` |
| `LegacyStyle.Style.GetHover` | src/style.rs:41-43 | the hover escapes alone, which is what the newer style's `get` writes for an active style whose plain fields are `None` |
| `LegacyStyle.HoverHasNoFallback` | src/style.rs:41-43 | with a plain red foreground and no hover fields, `get_hover` is empty while `get` is not |
| `Element.GetSize` | src/element.rs:26-31 | the payload of either variant |
| `Element.TrySetLaws` | src/element.rs:40-44 | `try_set_size` keeps the variant, sets a default size, leaves a custom one alone, and only the last of two calls counts |
| `Element.SizeSlot.constructor` | src/element.rs:15-18 | the slot holds the given size |
| `Element.SizeSlot.TrySetSize` | src/element.rs:40-44 | the slot becomes `TrySet` of its old size |
| `Event.AddResponse` | src/event.rs:62-69 | the result is a `Mul` whose first response is the added one, followed by the old `Mul`'s responses, or by the old response itself |
| `Event.Execute` | src/event.rs:70-75 | a `Mul`'s responses, or the response alone |
| `Event.ExecuteAddResponse` | src/event.rs:62-75 | executing after `add_response` yields the added response and then what executing before yielded |
| `Event.AddCommandAddsOne` | src/event.rs:36-55 | on a command list or a `Mul` one command is added to those executed; other responses are unchanged; in a `Mul` the command goes last in the first command list, the other responses kept, or alone in a new list at the front |
| `Event.Response.constructor` | src/event.rs:35 | holds the given response |
| `Event.Response.Add` | src/event.rs:62-69 | the response becomes `AddResponse` of the old one |
| `Event.Response.UpdateSelfWith` | src/event.rs:56-58 | adds an `UpdateSelf` response |
| `Event.Response.UpdateById` | src/event.rs:59-61 | adds an `UpdateElementById` response with the id |
| `Event.Response.AddCmd` | src/event.rs:36-55 | the walk over the responses leaves `AddCommand` of the old response |
| `RsxParse.Before` | macros/src/parse.rs:338 | the part before the first separator: a prefix of the name without the separator, followed by the separator when shorter |
| `RsxParse.TakeName` | macros/src/parse.rs:327-334 | the placeholder's characters up to the first `}` and what follows it; an unterminated placeholder takes the rest of the text |
| `RsxParse.VarsAreNames` | macros/src/parse.rs:327-341 | no extracted name contains `}` or `:` |
| `RsxParse.PlainTextNamesNothing` | macros/src/parse.rs:319-320 | text without `{` names no variable |
| `RsxParse.EscapedBrace` | macros/src/parse.rs:321-325 | `{{` starts no name, so "{{x}}" names nothing |
| `RsxParse.Placeholder` | macros/src/parse.rs:327-341 | `{name}` names the part of `name` before any `:`, `{}` names nothing, and the scan resumes after the `}` |
| `RsxParse.Unterminated` | macros/src/parse.rs:328-334 | an unterminated placeholder names the rest of the text |
| `RsxParse.DuplicatesCollapse` | macros/src/parse.rs:316-337 | a name used twice is extracted once |
| `RsxParse.ExtractVars` | macros/src/parse.rs:314-346 | the loop returns exactly the variables the placeholders name |
| `RsxParse.TextDeps` | macros/src/parse.rs:216-232 | the explicit dependencies are kept in front, followed by exactly one dependency per placeholder variable, each without pattern and not marked declared |
| `Shape.BorderIsRows` | src/elements/shape.rs:9-13 | the frame text is its rows joined by line breaks |
| `Shape.BorderLines` | src/elements/shape.rs:9-13 | the frame splits into exactly `h` lines of `w` characters each |
| `Shape.BorderSize` | src/elements/shape.rs:7-13 | since `str_size` counts bytes and box characters take three, a `w` by `h` frame measures `3w` by `h` |
| `Shape.OnlyCornersDiffer` | src/elements/shape.rs:9-42 | `Outline` and `RoundedOutline` draw texts of equal length that differ only at the four corners |
| `Shape.FormatIsBorder` | src/elements/shape.rs:9-12 | the `format!` of the top, repeated sides and bottom is the frame text |
| `Shape.RenderFrame` | src/elements/shape.rs:6-43 | when both sides of the size (or parent size) exceed 2 the frame text is drawn and the size grows to cover its `3w` by `h` extent; otherwise nothing is drawn and the size is unchanged; parent size and style are kept either way |
| `Shape.RenderRoundedOutline` | src/elements/shape.rs:6-14 | draws the rounded frame as `RenderFrame` says |
| `Shape.RenderOutline` | src/elements/shape.rs:35-43 | draws the square-cornered frame as `RenderFrame` says |
| `Widgets.NewLoad` | src/widget.rs:116-118 | a load of the given element with no components |
| `Widgets.AddComponent` | src/widget.rs:121-124 | the type is present afterwards; an existing component of that type is kept, otherwise the new one is stored; other types are untouched |
| `Widgets.SetComponent` | src/widget.rs:127-130 | the type maps to the new component; other types are untouched |
| `Widgets.GetComponent` | src/widget.rs:133-138 | a component is returned exactly when one of that type is stored, and it is the stored one |
| `Widgets.ComponentLaws` | src/widget.rs:121-138 | a second `component` of a type changes nothing; `component` of a new type is then found by `get`; the last `set_component` wins; neither touches other types |
| `Widgets.Extend` | src/widget.rs:228 | the merged table has both key sets, the added entries win, and the rest keep their value |
| `Widgets.CountTrue` | src/widget.rs:370-374 | the number of refreshes is at most the number of dependencies checked |
| `Widgets.ChecksInOrder` | src/widget.rs:370-371 | one `check` call per dependency, in order |
| `Widgets.CountTrueAppend` | src/widget.rs:370-374 | the refresh count of consecutive runs of checks adds up |
| `Widgets.CountTrueBounds` | src/widget.rs:370-374 | every dependency changed gives one refresh each; no refresh happens exactly when none changed |
| `Widgets.Widget.Static` | src/widget.rs:297-303 | a static widget with the element, no components, unfocused |
| `Widgets.Widget.Dynamic` | src/widget.rs:338-348 | a dynamic widget that called its load function once and holds its element and components; unfocused, no dependencies, no injection |
| `Widgets.Widget.Loaded` | src/widget.rs:358-362 | without an injection a reload is exactly the load function's result |
| `Widgets.Widget.SetFocused` | src/widget.rs:166-171 | `is_focused` then reports the new value; nothing else changes |
| `Widgets.Widget.IsFocused` | src/widget.rs:152-157 | the widget's focus flag, as `set_focused` last set it |
| `Widgets.Widget.Component` | src/widget.rs:187-197 | the components become `AddComponent` of the old ones; nothing else changes |
| `Widgets.Widget.SetComponentOf` | src/widget.rs:199-209 | the components become `SetComponent` of the old ones; nothing else changes |
| `Widgets.Widget.Get` | src/widget.rs:211-216 | the component stored for the type, as `GetComponent` gives it |
| `Widgets.Widget.Refresh` | src/widget.rs:357-366 | a dynamic widget calls its load function once more and takes the (injected) result as element and components; a static widget is unchanged |
| `Widgets.Widget.Inject` | src/widget.rs:218-231 | a dynamic widget keeps the injection and reloads through it; a static widget merges into its components those the injection returns for an empty load |
| `Widgets.Widget.AutoRefresh` | src/widget.rs:369-375 | a dynamic widget checks every dependency in order and reloads once per changed one, ending with the last reload's result; a static one does nothing |
| `Widgets.Widget.Dependency` | src/widget.rs:378-387 | a dynamic widget calls the dependency's `add` once and keeps it last; a static one ignores it |
| `Widgets.Widget.Event` | src/widget.rs:271-286 | the stored handler for the event type is called if present, then the element receives the event exactly when the widget is focused; no state changes |
| `Dependencies.Dependency.New` | src/dependency.rs:17-23 | no handlers; the element is the first call of the reset function |
| `Dependencies.Dependency.From` | src/dependency.rs:25-38 | each handler's `add` is called once, in order, before the element is built by the first call of the reset function |
| `Dependencies.Adds` | src/dependency.rs:29-31 | one `add` call per handler, in order |
| `Dependencies.Dependency.AutoReset` | src/dependency.rs:40-46 | every handler is checked in order and the element is rebuilt once per reported change, ending as the last rebuild; with no change the element is kept |
| `Dependencies.Dependency.Add` | src/dependency.rs:48-52 | the dependency's `add` is called and it becomes the last handler; the element is kept |
| `Dependencies.Dependency.Render` | src/dependency.rs:56-79 | the current element renders first, then `auto_reset` runs as above |
| `Dependencies.Dependency.AfterRender` | src/dependency.rs:61-84 | the current element's `after_render` runs first, then `auto_reset` runs as above |
| `StateHooks.EffectLog.constructor` | src/hooks/state.rs:147-152 | no effect has been called |
| `StateHooks.Shared.constructor` | src/hooks/state.rs:147-152 | the shared cell holds the value and no dependents |
| `StateHooks.CallAll` | src/hooks/state.rs:69-96 | every dependent is called once, in registration order |
| `StateHooks.State.Of` | src/hooks/state.rs:75-80 | a handle on the given shared cell |
| `StateHooks.State.GetDl` | src/hooks/state.rs:43-45 | a copy of the value the shared cell holds now; every handle on the cell reads the same value |
| `StateHooks.State.Set` | src/hooks/state.rs:62-65 | `get_dl` then returns the new value, and every dependent is called once, in order |
| `StateHooks.State.Update` | src/hooks/state.rs:68-72 | every dependent is called once, in order, and the value is kept |
| `StateHooks.State.OnUpdate` | src/hooks/state.rs:115-119 | the hook becomes the last dependent; the value is kept |
| `StateHooks.State.Clone` | src/hooks/state.rs:75-80 | a new handle on the same value and dependents |
| `StateHooks.State.Get` | src/hooks/state.rs:53-59 | a fresh guard on the same cell, not yet written through, whose `deref` reads the value `get_dl` reads |
| `StateHooks.UseState` | src/hooks/state.rs:147-152 | a fresh state holding the value, with no dependents |
| `StateHooks.Inner.constructor` | src/hooks/state.rs:53-59 | a guard on the cell, not yet written through |
| `StateHooks.Inner.Deref` | src/hooks/state.rs:101-105 | the value of the cell the guard has locked, which is what `get_dl` on the handle reads |
| `StateHooks.Inner.Write` | src/hooks/state.rs:108-113 | a write through the guard stores the value and marks the guard updated |
| `StateHooks.Inner.Drop` | src/hooks/state.rs:91-99 | dropping an updated guard calls every dependent in order; dropping an unwritten one calls nothing |
| `StateHooks.CloneSeesSet` | src/hooks/state.rs:62-80 | a `set` through one handle is seen by `get_dl` on a clone and calls the dependents registered through either handle |
| `StateHooks.ReadOnlyGuard` | src/hooks/state.rs:91-106 | a guard that is only read returns the value and calls nothing when dropped |
| `StateHooks.SyncStateHandler` | src/hooks/state.rs:136-139 | an emitted event sets the state to its decoding and calls the dependents |
| `StateHooks.UseSyncState` | src/hooks/state.rs:125-142 | the state starts at the given value and, after a series of events, holds the decoding of the last one |
| `Mounts.Mount.constructor` | src/state/mount.rs:18 | the mount flag as given, with no pending effects |
| `Mounts.Mount.OnUpdate` | src/state/mount.rs:40-46 | on a mounted hook the effect runs at once; on an unmounted one it is queued; the flag is kept |
| `Mounts.Mount.DoMount` | src/state/mount.rs:51-57 | the hook becomes mounted, every queued effect runs in order, and the queue is emptied |
| `Mounts.UseMount` | src/state/mount.rs:24-26 | a fresh hook that is mounted, with no pending effects |
| `Mounts.UseMountManual` | src/state/mount.rs:32-37 | a fresh hook that is not mounted, with no pending effects |
| `Mounts.MountLifecycle` | src/state/mount.rs:32-57 | an effect registered before the mount runs at it, one registered after runs at once, and a second mount runs nothing again |
| `EventManagers.Deliveries` | src/event_manager.rs:47-51 | one call per handler, in order, each with the event |
| `EventManagers.EventManager.constructor` | src/event_manager.rs:26-30 | no handlers registered and nothing delivered |
| `EventManagers.EventManager.On` | src/event_manager.rs:32-43 | the handler is appended to its event type's list; other types' lists are kept |
| `EventManagers.EventManager.Dispatch` | src/event_manager.rs:45-56 | every handler registered for the event's type receives it, in registration order; the process exits exactly for `Close` |
| `EventManagers.UnregisteredCallsNothing` | src/event_manager.rs:47 | a type with no registration calls no handler |
| `EventManagers.RegistrationOrder` | src/event_manager.rs:39-50 | a handler registered last is called after every earlier one |
| `IdExtension.GetElement` | src/extensions/id.rs:14-24 | the position of the first widget whose `Id` equals the id, or none exactly when no widget carries it |
| `IdExtension.Scan` | src/extensions/id.rs:15-23 | the loop returns what `GetElement` specifies |
| `IdExtension.SkipsWidgetsWithoutId` | src/extensions/id.rs:16 | a widget without an `Id` only shifts the position found |
| `IdExtension.FirstMatchWins` | src/extensions/id.rs:17-19 | the first match is returned, whatever follows it |
| `Console.ConsoleExecutor.constructor` | src/engine/console.rs:30-32 | a new executor is running |
| `Console.ConsoleExecutor.IsRunning` | src/engine/console.rs:115-117 | the executor's running flag, which `stop` clears |
| `Console.ConsoleExecutor.DoStop` | src/engine/console.rs:119-122 | the executor is no longer running |
| `Console.ConsoleExecutor.ExecuteCommand` | src/engine/console.rs:125-135 | `Stop` clears the running flag; any other command keeps it |
| `Console.ConsoleEngine.constructor` | src/engine/console.rs:26-34 | no threads, and a fresh running executor |
| `Console.ConsoleEngine.Thread` | src/engine/console.rs:36-38 | the thread function is appended to the list |
| `Console.FirstStop` | src/engine/console.rs:105 | the first frame holding `Stop`, if any |
| `Console.ExecuteAll` | src/engine/console.rs:125-135 | after a frame's commands the executor runs exactly when it ran before and no command was `Stop` |
| `Console.Run` | src/engine/console.rs:102-111 | frames are rendered while running, up to and including the one that stops; none when already stopped |
| `Console.Terminal.constructor` | src/engine/console.rs:48 | nothing printed yet |
| `Console.DrawContext` | src/engine/console.rs:48-63 | prints each instruction in order: texts at their position moved by the context's area, children in place, views as they come |
| `Console.OutputsAppend` | src/engine/console.rs:49 | the output of two consecutive instruction runs is the first run's output followed by the second's |
| `Console.TextsPlacedInOrder` | src/engine/console.rs:51-55 | a run of texts prints each text at its point moved by the area, in order |
| `Console.TextInstructions` | src/engine/console.rs:51 | one text instruction per (point, text) pair, in order |
| `Benchmark.SeqMin` | src/engine/benchmark.rs:61 | the least sample, or 0 without samples |
| `Benchmark.Collect` | src/engine/benchmark.rs:47-52 | exactly 40 samples, the `k`-th render time at position `k` |
| `Benchmark.Samples` | src/engine/benchmark.rs:47-52 | 40 samples in render order |
| `Benchmark.Aggregate` | src/engine/benchmark.rs:60-70 | min and max are samples bounding every sample, the render total is their sum, the average is the floor of the sum over the count, and all are 0 without samples |
| `Benchmark.Run` | src/engine/benchmark.rs:40-71 | the result aggregates the 40 samples and the overall time |
| `Benchmark.SumBound` | src/engine/benchmark.rs:64 | the sum of samples is at most the count times an upper bound |
| `Benchmark.SumAtLeast` | src/engine/benchmark.rs:64 | the sum of samples is at least the count times a lower bound |
| `Benchmark.AverageBetween` | src/engine/benchmark.rs:60-70 | the average lies between min and max |
| `Benchmark.ReportIsLines` | src/engine/benchmark.rs:100-108 | the report is the five labelled lines joined by line breaks |
| `Benchmark.DisplayLines` | src/engine/benchmark.rs:98-110 | the display splits into exactly the five lines Average, Min, Max, Total Render and Total, in that order |
| `Benchmark.LineLacksBreak` | src/engine/benchmark.rs:102-106 | a labelled line holds no line break |

## Left out

- Terminal output: `RenderScope::draw`, the printing, clearing and cursor helpers of src/utils.rs, crossterm input reads and terminal-size queries. `Console.DrawContext` records what it would print in a `Terminal` log instead.
- Threads: the `after_render_widget` thread of src/extensions/focus.rs, the background loop of `VelocityExtension::init` (only its tick rule `VelocityExtension.NextTick` and one `apply_velocity_xy` call are modelled), `Console::init` and `Console::render`. Mutexes are plain fields, so lock poisoning is out.
- View closures: a `View` instruction is an opaque identity. The auto-size plugins take the size of a view as a caller-supplied `measure`, and `Console.DrawContext` records a `ViewRendered` entry instead of running the view.
- The `Style` a `RenderScope` carries is an opaque identity, and `RawTransform`'s own source file is not part of this model. `RenderScope::set_transform` is modelled only through `SetTransformRaw`.
- `draw_child` of the flex containers, the scroll view and the paginator also injects a `NoRenderRoot` component into the child widget. The containers keep widgets as identities, so that injection is not modelled.
- `Button` and `Text` of src/ui/mod.rs, and every part of `Document` except its style table. `get_child_idx` is not part of this model. It is taken to yield the focused child exactly when the children are elements and the index is below their count.
- Handlers, hooks, load closures and dependency checks are opaque callbacks that do not touch the widget or state calling them. `Widget::is_ghost`, `get_elem` and `after_render` are lock accessors or no-ops.
- `ElementsInput.Input.Event`: the text lives in a shared `State<String>` handle (src/elements/input.rs:9), and each edit goes through the write guard its `get()` returns, whose drop notifies the state's dependents (the same handle `StateHooks` models after src/hooks/state.rs). Here the text is a plain field owned by the input: no other copy of the handle sees the edit and no dependent is notified. The `state` module the input imports (src/state/mod.rs) is not part of this model.
- `ElementsInput.Input.Event`: typed characters must be ASCII, because Rust's `String::insert` and `remove` take byte indices while the cursor counts characters. A `usize` cursor overflow is not modelled.
- `ElementInput.Input.OnKeypress`: typed characters must be ASCII, for the same byte-index reason, and must not be ESC, which would open an escape sequence inside the highlighted text.
- `Console.Run`: only runs in which some frame executes `Stop` are modelled. A run that never stops does not terminate.
- `Benchmark.Aggregate`: the `u128` sum of render times is unbounded here, so its overflow is not modelled. Render times are inputs rather than `Instant` readings.
- `Benchmark` delegation: `init`, `draw_context`, `render`, `render_view`, `render_delay` and `executor` only forward to the wrapped engine and are not modelled.
- `Shape.RenderFrame`: requires, when a frame is drawn (both sides above 2), the frame's byte width `3w` to fit `u16`; because `str_size` counts bytes in a `u16` and would overflow on a wider frame.
- `VelocityExtension.ApplyVelocity`: requires a velocity of at most 1000 in magnitude and not `i32::MIN`. Outside that range the Rust code divides by zero or overflows `abs`, and it panics.
- `RsxParse.ExtractVars`: a placeholder whose name before the `:` is not a valid Rust identifier makes `Ident::new` panic: an empty name ("{:x}"), one starting with a digit ("{0}"), or one holding a space, a dot or other punctuation ("{a b}", "{self.x}"). Here every such name is returned as a plain string, so the model does not capture that panic. The syn-driven parts of the parser are not modelled.
- `RsxParse.TextDeps`: the placeholder variables come from a `HashSet`, whose iteration order is unspecified. The contract holds for every order.
- `StateHooks.UseSyncState`: the handler's registration with the `Context` is not part of this model. The emitted events are handed to the handler directly. The `Display` impl of `State` is left out.
- `EventManagers.EventManager.Dispatch`: `std::process::exit` on `Close` is the `exits` result. The downcast in `on`'s wrapper is a comparison of type identities.
- `Utils.SizeOfHelloWorld`: the documentation comment above `str_size` gives 5 by 2 for "Hello\nWorld!". The code measures 6 by 2, and the model follows the code.

## Findings

| source | as written | input that shows it | evidently intended | confidence | as-written member | corrected member |
|---|---|---|---|---|---|---|
| src/view_plugins.rs:19-21 | `x_center` assigns `allocated.y` from the heights, the same statement as `y_center` | area 10 by 10, allocation 4 by 4 at x = 0: x stays 0 | `allocated.x` centred from the widths, as its documentation says (x = 3) | high, not executed | `ViewPlugins.XCenterIsYCenter` | `ViewPlugins.XCenteredIntended` (used by `ViewPlugins.XCenter`; `ViewPlugins.CenteredComposes`) |
| src/elements/flex.rs:162 | the row's width adds the running vertical offset to each child's width | two children 1 wide and 5 high, no gap or padding: the row is 6 wide | the widest child and its padding, 1 wide, mirroring the column's height rule | medium, not executed | `Flex.RowStepAsWritten` (`Flex.RowWidthCountsOffset`) | `Flex.RowStep` (used by `Flex.RowRenderer.BeforeDraw`; `Flex.RowIsTransposedColumn`) |
| src/ui/mod.rs:58-75 | Tab and BackTab send `FocusLost` and then `FocusGained` to the child that was focused before the index moved | two children, the first focused, Tab: both events reach the first child, and the second never hears `FocusGained` | `FocusGained` to the child at the new index | medium, not executed | `Ui.FocusGainedGoesToOldChild` | `Ui.FocusMovesToNewChild` (`Ui.Div.Event` delivers `Ui.DeliveriesIntended`) |
| src/ui/mod.rs:195 | Backspace calls `remove(len() - 1)`, a byte index, which panics when the last character takes more than one byte | "é" | remove the last character | high, not executed | `Ui.BackspaceAsWritten` (`Ui.BackspacePanicsOnMultibyte`) | `Ui.Backspace` (used by `Ui.Input.Event`; `Ui.BackspaceUndoesTyping`) |
