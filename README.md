# termfolio: a verified model of the presentation engine

termfolio is a terminal CV viewer. A YAML configuration lists languages and
"layers". A layer has a key, and a shell command, a title and a menu label
per language code. The program shows one layer at a time. Pressing a
layer's key runs its command and shows the output. The language key cycles
the language and re-runs the current layer. A footer menu splits the
terminal width across one block per layer and a few hint blocks.

This project models that core in Dafny:

- `Config` (config.dfy): the configuration schema and the checks `Load`
  applies after parsing.
- `Localization` (localization.dfy): `localizedValue`. It chooses the text
  for the active language, then the fallback language, then any non-blank
  text in the map. Go map iteration order is unspecified, so the last step
  is a nondeterministic choice. The ghost predicate `Resolved` specifies it.
- `Layout` (layout.dfy): the arithmetic of `renderMenu` and
  `hasHorizontalOverflow`. Block widths are balanced. Each block is split
  into a key column and a label column. A block of width zero is skipped.
  Overflow is found line by line. Display width (`ansi.StringWidth`) is an
  abstract function `string -> nat`.
- `Ui` (ui.dfy): the `Model` of internal/ui/model.go as a class.
  - `layerOutput` is an array whose entries `Update` replaces in place.
  - `Update` returns the effects it asks for: `Quit`, or a `Run` request
    `{index, cmd}` for the goroutine that runs the shell.
  - The class also holds the registry lookups and the footer's block list.
- `Text` (text.dfy): the Go string functions the core relies on.
  - `strings.TrimSpace` uses Go's Unicode white-space table.
  - Also modelled: `TrimRight` of newlines, ASCII `EqualFold`, `%d`
    formatting, `ReplaceAll` of CRLF, and `Split`/`Join`.
- `Wrappers` (wrappers.dfy): `Option` and `Result`.

Each `Update` branch is stated as a two-state predicate over the old and new
model:

- `KeyHandled`, which is made of `LangSwitched` and `LayerSelected`;
- `Resized`;
- `ResultApplied`.

These predicates say exactly which fields and output entries change, and
which request is issued. `Valid()` is preserved throughout. It says there is
one output entry per layer. The current layer is in range when there is a
layer, and is 0 otherwise. The current language is in range when there is a
language, and is 0 otherwise.

## Model

| member | source | states |
|---|---|---|
| Config.Validate | internal/config/config.go:43-55 | Success exactly when there is a layer, a language and every language code is non-blank; success returns the configuration unchanged; no layers is reported first, then no languages; with layers and languages a blank code always fails with the index of the first language whose code is blank |
| Config.FirstBlankCode | internal/config/config.go:49-53 | The scan returns the first position from `from` whose code is blank, and None exactly when every code from there on is non-blank |
| Config.Message | internal/config/config.go:43-52 | The error text for a language without a code is the fixed prefix followed by decimal digits, without a leading zero, that read back as the reported index |
| Text.NatToDecimal | internal/config/config.go:51 | `%d` writes at least one decimal digit and no leading zero (except for 0 itself) |
| Text.DecimalRoundTrip | internal/config/config.go:51 | Reading back the decimal digits written for `n` gives `n` |
| Text.FoldCase | internal/ui/model.go:387 | An ASCII capital folds to its small letter, 32 code points up; every other character is kept (the folding `EqualFold` compares with, restricted to ASCII) |
| Text.EqualFoldMeans | internal/ui/model.go:387 | Two strings are equal up to case exactly when they have the same length and each pair of characters is equal or the capital and small form of one ASCII letter |
| Text.TrimSpace | internal/ui/model.go:141 | The result has no white space at either end, and it is empty exactly when the input is blank |
| Text.TrimSpaceKeepsMiddle | internal/ui/model.go:141 | The trimmed text is a contiguous piece of the input with only white space before and after it |
| Text.TrimRightNewlines | internal/ui/model.go:402 | The result is a prefix of the input that does not end in a newline, and everything removed is newlines |
| Text.NormalizeNewlines | internal/ui/model.go:418 | Replacing CRLF by LF never lengthens the content (what it does is fixed by `Text.NormalizeCrlf` and `Text.NormalizeNoCrlf`) |
| Text.NormalizeCrlf | internal/ui/model.go:418 | A CR LF pair in the content becomes one LF, and the text before and after it is normalized on its own |
| Text.NormalizeNoCrlf | internal/ui/model.go:418 | Content without a CR LF pair is left unchanged |
| Text.NormalizeKeepsNewlines | internal/ui/model.go:418 | Replacing CRLF by LF keeps the number of line feeds |
| Text.Split | internal/ui/model.go:419 | Splitting gives at least one piece and no piece holds the separator (nothing is lost, by `Text.JoinSplit`) |
| Text.JoinSplit | internal/ui/model.go:419 | Joining the pieces of a split with the separator gives back the input |
| Text.SplitJoin | internal/ui/model.go:419 | Splitting a join of separator-free pieces gives back the pieces |
| Text.Lines | internal/ui/model.go:418-419 | The content splits into one more line than it has line feeds, and no line holds a line feed |
| Localization.LocalizedValue | internal/ui/model.go:322-343 | The active code's non-blank text wins even when the fallback also has one; otherwise the fallback's non-blank text; otherwise some non-blank text of the map; the result is "" exactly when the map holds no non-blank text |
| Layout.MenuWidth | internal/ui/model.go:233-236 | The menu width is the terminal width, clamped to zero when negative |
| Layout.WidthsSum | internal/ui/model.go:233-246 | The block widths add up to exactly the menu width |
| Layout.WidthPositive | internal/ui/model.go:238-253 | A block gets at least one column exactly when its position is below the menu width |
| Layout.BlockWidths | internal/ui/model.go:233-246 | The filled array holds the balanced widths: every block gets W/N columns and the first W%N blocks one more, with W the width clamped at zero |
| Layout.Columns | internal/ui/model.go:255-259 | The key column is min(2, block width) and the label column takes the rest, never negative, so the two fill the block |
| Layout.DrawnCells | internal/ui/model.go:249-259 | When exactly the first `total` widths are positive, the drawn cells are those of the first min(n, total) blocks, in order |
| Layout.DrawnWidth | internal/ui/model.go:249-259 | The drawn cells are together as wide as the widths they were given |
| Layout.DrawnMenu | internal/ui/model.go:249-280 | Drawing every block at its balanced width gives the first min(N, W) blocks, each split by `Columns` at its positive share, filling W |
| Layout.Arrange | internal/ui/model.go:228-280 | No blocks draw nothing; otherwise exactly the first min(N, W) blocks are drawn, in order, each split by `Columns` at its balanced width, and the cells fill the menu width exactly |
| Layout.AnyWiderMeans | internal/ui/model.go:419-423 | The line scan finds a wide line exactly when some line is wider than the width |
| Layout.OverflowsMeans | internal/ui/model.go:413-426 | Overflow holds exactly when the width is positive and some line of the CRLF-normalized content is wider than it |
| Layout.HasHorizontalOverflow | internal/ui/model.go:413-426 | The loop returns true exactly when the content overflows, and never for a width of zero or less |
| Ui.RunLayerCmd | internal/ui/model.go:396-404 | A blank command yields an empty output and the error "commande vide" without running; otherwise the shell's error is kept and its output loses exactly its trailing newlines; the index is carried through |
| Ui.ResultText | internal/ui/model.go:112-120 | Success stores the output; failure stores "Erreur: " and the error, then a newline and the output only when the output is not blank |
| Ui.HintBlocks | internal/ui/model.go:218-226 | The blocks after the quit block: the language block when there is a label, then the vertical and horizontal scroll hints when they apply, in that order |
| Ui.Model.NewModel | internal/ui/model.go:31-47 | The languages and the layers of the configuration are each copied when non-empty (nothing without a configuration); one output entry per copied layer, the first "Chargement..."; current layer and language 0, not ready, zero sizes |
| Ui.Model.LangSlot | internal/ui/model.go:290-293 | With languages, the slot read is the current index when it is in range and the first language otherwise |
| Ui.Model.CurrentLangCode | internal/ui/model.go:286-295 | The trimmed code of the current language, of the first language when the index is out of range, "" without languages |
| Ui.Model.CurrentLangLabel | internal/ui/model.go:298-311 | The trimmed label of that language, its trimmed code when the label is blank, and "" exactly when both are empty or there is no language |
| Ui.Model.FallbackLangCode | internal/ui/model.go:314-319 | The trimmed code of the first language, "" without languages |
| Ui.Model.LayerCmd | internal/ui/model.go:347-352 | "" for an index out of range; otherwise the trimmed resolved command; empty exactly when out of range or the layer has no non-blank command |
| Ui.Model.LayerLabel | internal/ui/model.go:355-365 | The resolved label when the layer has one, else the resolved title, else "Layer n" with the 1-based position; never blank |
| Ui.Model.LayerTitle | internal/ui/model.go:368-379 | "CV" for an index out of range, else the resolved title when there is one, else the layer's label; never blank |
| Ui.Model.LayerIndexForKey | internal/ui/model.go:382-393 | The first layer whose non-empty key equals the pressed key up to case, and -1 exactly when no layer answers to it |
| Ui.Model.SetViewportContent | internal/ui/model.go:407-410 | The viewport gets the text, and the overflow flag is set exactly when the text overflows the viewport's width less its frame |
| Ui.Model.UpdateViewportContent | internal/ui/model.go:135-147 | Afterwards the viewport shows "Aucun layer defini" without layers, "Aucune sortie" for a blank output, otherwise the current output trimmed, and the overflow flag matches that text |
| Ui.Model.Init | internal/ui/model.go:50-56 | A request is issued exactly when there is a layer, for the current layer with its resolved command |
| Ui.Model.Update | internal/ui/model.go:65-132 | Keeps `Valid()`; each message kind leaves the state its branch predicate describes; any other message changes nothing and asks for nothing |
| Ui.Model.OnKey | internal/ui/model.go:70-90 | "ctrl+c" and "q" ask only to quit; "L" and "l" switch language; any other key may select a layer |
| Ui.Model.OnLangKey | internal/ui/model.go:74-82 | Without languages nothing changes; otherwise the language index becomes (i+1) mod the language count; when the current layer exists, only its output becomes "Chargement...", the viewport shows it and the layer's command is requested again |
| Ui.Model.OnLayerKey | internal/ui/model.go:83-89 | An unbound key changes nothing and asks for nothing; otherwise the first matching layer becomes current, only its output becomes "Chargement...", the viewport shows it and its command is requested; the language is unchanged |
| Ui.Model.OnWindowSize | internal/ui/model.go:92-108 | The model becomes ready with the new size, the viewport gets the width and the height less 6 rows, the outputs are untouched, and the viewport text and overflow flag are refreshed |
| Ui.Model.OnLayerResult | internal/ui/model.go:110-125 | An index out of range changes nothing; otherwise only that entry changes, to the result text, and the viewport is refreshed exactly when it is the current layer |
| Ui.Model.LayerBlocks | internal/ui/model.go:203-209 | One block per layer, in order, with the layer's key and a label that `layerLabel` may return |
| Ui.Model.MenuBlocks | internal/ui/model.go:203-226 | The layer blocks, then the quit block, then the language block when the language label (or code) is not empty, then the scroll hints when they apply |
| Ui.Model.RenderMenu | internal/ui/model.go:203-280 | The blocks are the labelled layer blocks, the quit block, then the language block and the hints in order; the drawn cells are the first min(N, W) blocks, each split by `Columns` at its balanced share, and fill the terminal width; the quit block is drawn exactly when the width exceeds the number of layers |

## Left out

- The shell execution of `runLayerCmd` (internal/ui/model.go:401-402). `Ui.RunLayerCmd` takes the shell's outcome as a parameter, and `Update` returns requests instead of closures.
- Bubble Tea plumbing. `tea.Batch` and `tea.Quit` become the returned `Effect` list. `viewport.Update(msg)` (internal/ui/model.go:128) scrolls the viewport and is not modelled.
- The viewport's line counts (`TotalLineCount`, `VisibleLineCount`). Whether the viewport holds more lines than it shows is the input `moreLines` of the menu methods.
- Ui.Model.OnWindowSize: the viewport settings made on the first resize are not modelled. These are the Y position and the horizontal step of 2. Only the size, the content and the overflow flag are.
- Ui.Model.SetViewportContent: the viewport's scroll offset after `SetContent` is not modelled. The horizontal frame size is the constant 0 of the default viewport style.
- Styling and rendering. This covers lipgloss styles, `View`, `renderHeader`, `ansi.Truncate` and `truncateWithEllipsis`. It also covers the " " shown for an empty key and the space put before a label. `Layout.Arrange` stops at the cells and their column widths.
- `ansi.StringWidth` is the abstract parameter `displayWidth`.
- Byte strings. Go strings are bytes, and shell output may be invalid UTF-8. The model's strings are sequences of code points, so `Text.TrimSpace` and `Text.Split` on invalid UTF-8 cannot be represented.
- Text.FoldCase: only ASCII letters fold. Go's `strings.EqualFold` also folds non-ASCII letters by Unicode simple folding (such as 'Σ' and 'σ', or the Kelvin sign and 'k'); this model keeps them unchanged.
- Ui.Model.LayerIndexForKey: `strings.EqualFold` is modelled with ASCII case folding only. Go also folds non-ASCII letters (Unicode simple folding).
- Aliasing between values. Go's `Update` has a value receiver: it changes a copy of the model that shares the `layerOutput` slice with the caller's copy. The class updates one model in place, so the effect of a write seen through an older copy is not captured.
- YAML parsing and file reading in `config.Load` (internal/config/config.go:34-41). The model starts from a parsed `Config`.
- cmd/termfolio/main.go and internal/ansi/reader.go. These are startup and file I/O and are not part of this model.
- Concurrency. Command results are events applied one at a time, in any order.
