/** The interactive presentation engine of internal/ui/model.go: the session
    state (current layer, current language, per-layer output), the event
    handler `Update`, the command requests it issues, the localized lookups
    over the layer registry and the footer menu's block list. */
module Ui {
  import opened Wrappers
  import opened Text
  import opened Config
  import opened Localization
  import opened Layout

  /** Placeholder shown while a layer's command runs. */
  const LoadingText := "Chargement..."
  /** Viewport text when no layer is configured. */
  const NoLayerText := "Aucun layer defini"
  /** Viewport text when a layer's output is blank. */
  const NoOutputText := "Aucune sortie"
  /** Prefix of a failed command's text. */
  const ErrorPrefix := "Erreur: "
  /** Error of a command that resolves to a blank string. */
  const EmptyCommandError := "commande vide"
  /** Header title when the current layer is out of range. */
  const DefaultTitle := "CV"
  /** Rows taken by the title at the top and by the menu at the bottom. */
  const HeaderHeight := 3
  const FooterHeight := 3
  /** The viewport is built with the default style, which has no horizontal frame. */
  const HorizontalFrameSize := 0

  const QuitBlock := MenuBlock("q", "Quitter")
  const ScrollBlock := MenuBlock(" ", "haut/bas")
  const SideScrollBlock := MenuBlock(" ", "gauche/droite")

  /** The events `Update` receives: a key press (named as Bubble Tea's
      KeyMsg.String() names it), a terminal resize, the result of a layer's
      command, and any other message, which the model ignores. */
  datatype Msg =
    | KeyMsg(key: string)
    | WindowSizeMsg(width: int, height: int)
    | LayerResultMsg(index: int, output: string, err: Option<string>)
    | OtherMsg

  /** A request to run `cmd` for layer `index` (the closure `runLayerCmd` returns). */
  datatype Request = Request(index: int, cmd: string)

  /** What `Init` and `Update` ask the runtime to do. */
  datatype Effect = Quit | Run(request: Request)

  /** What `sh -c cmd` produced: combined output and, on failure, the error text. */
  datatype ShellOutcome = ShellOutcome(output: string, err: Option<string>)

  predicate IsQuitKey(key: string) {
    key == "ctrl+c" || key == "q"
  }

  predicate IsLangKey(key: string) {
    key == "L" || key == "l"
  }

  /** A layer answers to a key when its own key is set and equal to the
      pressed key up to case. */
  predicate KeyMatches(layer: Layer, key: string) {
    layer.key != "" && EqualFold(layer.key, key)
  }

  /** The body of the work unit `runLayerCmd` returns. A blank command fails
      at once without running anything; otherwise the shell's outcome is
      reported with its trailing newlines removed. */
  function RunLayerCmd(request: Request, shell: ShellOutcome): (msg: Msg)
    ensures msg.LayerResultMsg? && msg.index == request.index
    ensures Blank(request.cmd) ==> msg.output == "" && msg.err == Some(EmptyCommandError)
    ensures !Blank(request.cmd) ==> msg.err == shell.err
    ensures !Blank(request.cmd) ==>
      && msg.output <= shell.output
      && (msg.output == "" || msg.output[|msg.output| - 1] != '\n')
      && (forall i :: |msg.output| <= i < |shell.output| ==> shell.output[i] == '\n')
  {
    if Blank(request.cmd) then LayerResultMsg(request.index, "", Some(EmptyCommandError))
    else LayerResultMsg(request.index, TrimRightNewlines(shell.output), shell.err)
  }

  /** The text stored for a layer when its result arrives: the output on
      success; on failure an error line, followed by the captured output
      only when that output is not blank. */
  function ResultText(output: string, err: Option<string>): (text: string)
    ensures err.None? ==> text == output
    ensures err.Some? ==> ErrorPrefix + err.value <= text
    ensures err.Some? && Blank(output) ==> text == ErrorPrefix + err.value
    ensures err.Some? && !Blank(output) ==>
      |text| == |ErrorPrefix + err.value| + 1 + |output|
      && text[|ErrorPrefix + err.value|] == '\n' && text[|ErrorPrefix + err.value| + 1..] == output
  {
    match err
    case None => output
    case Some(e) =>
      var message := ErrorPrefix + e;
      if !Blank(output) then message + "\n" + output else message
  }

  /** The footer blocks after the quit block: the language block when
      there is a language label, then the vertical and the horizontal scroll
      hints when they apply. */
  method HintBlocks(langLabel: string, moreLines: bool, overflowX: bool) returns (tail: seq<MenuBlock>)
    ensures tail == (if langLabel != "" then [MenuBlock("L", langLabel)] else [])
      + (if moreLines then [ScrollBlock] else [])
      + (if overflowX then [SideScrollBlock] else [])
  {
    tail := [];
    if langLabel != "" {
      tail := tail + [MenuBlock("L", langLabel)];
    }
    ghost var langPart := tail;
    if moreLines {
      tail := tail + [ScrollBlock];
    }
    assert tail == langPart + (if moreLines then [ScrollBlock] else []);
    if overflowX {
      tail := tail + [SideScrollBlock];
    }
  }

  class Model {
    /** The configured layers and languages, fixed once the model is built. */
    const layers: seq<Layer>
    const langs: seq<Lang>
    /** Display width of a line (ansi.StringWidth). */
    const displayWidth: string -> nat
    /** The per-layer output slice; its entries are replaced in place. */
    const layerOutput: array<string>
    var currentLayer: int
    var currentLangIndex: int
    var hasOverflowX: bool
    var width: int
    var height: int
    var ready: bool
    /** The viewport's size and the text it was last given. */
    var viewportWidth: int
    var viewportHeight: int
    var content: string

    /** One output entry per layer; the current layer is in range when there
        is a layer; the current language is in range when there is a language. */
    ghost predicate Valid()
      reads this
    {
      && layerOutput.Length == |layers|
      && 0 <= currentLayer && (currentLayer == 0 || currentLayer < |layers|)
      && 0 <= currentLangIndex && (currentLangIndex == 0 || currentLangIndex < |langs|)
    }

    /** `NewModel`: the first layer, if any, starts loading; everything else
        is empty. A nil configuration is `None`. */
    constructor NewModel(cfg: Option<Config>, displayWidth: string -> nat)
      ensures Valid() && fresh(layerOutput)
      ensures layers == (if cfg.Some? then cfg.value.layers else [])
      ensures langs == (if cfg.Some? then cfg.value.langs else [])
      ensures this.displayWidth == displayWidth
      ensures forall i :: 0 <= i < layerOutput.Length ==> layerOutput[i] == (if i == 0 then LoadingText else "")
      ensures currentLayer == 0 && currentLangIndex == 0
      ensures !ready && !hasOverflowX && width == 0 && height == 0
      ensures viewportWidth == 0 && viewportHeight == 0 && content == ""
    {
      var ls: seq<Layer> := [];
      var gs: seq<Lang> := [];
      if cfg.Some? {
        if |cfg.value.langs| > 0 {
          gs := cfg.value.langs;
        }
        if |cfg.value.layers| > 0 {
          ls := cfg.value.layers;
        }
      }
      layers, langs := ls, gs;
      this.displayWidth := displayWidth;
      var output := new string[|ls|](_ => "");
      if |ls| > 0 {
        output[0] := LoadingText;
      }
      layerOutput := output;
      currentLayer, currentLangIndex := 0, 0;
      hasOverflowX, width, height, ready := false, 0, 0, false;
      viewportWidth, viewportHeight, content := 0, 0, "";
    }

    /** The language slot `currentLangCode` and `currentLangLabel` read: the
        current index, or the first language when the index is out of range. */
    function LangSlot(): (i: nat)
      reads this
      requires |langs| > 0
      ensures i < |langs|
      ensures 0 <= currentLangIndex < |langs| ==> i == currentLangIndex
      ensures !(0 <= currentLangIndex < |langs|) ==> i == 0
    {
      if currentLangIndex < 0 || currentLangIndex >= |langs| then 0 else currentLangIndex
    }

    /** `currentLangCode`: the trimmed code of the current language, or "". */
    function CurrentLangCode(): (code: string)
      reads this
      ensures |langs| == 0 ==> code == ""
      ensures |langs| > 0 ==> code == TrimSpace(langs[LangSlot()].code)
    {
      if |langs| == 0 then "" else TrimSpace(langs[LangSlot()].code)
    }

    /** `currentLangLabel`: the trimmed label of the current language, its
        trimmed code when the label is blank, or "" without languages. */
    function CurrentLangLabel(): (shown: string)
      reads this
      ensures |langs| == 0 ==> shown == ""
      ensures |langs| > 0 && !Blank(langs[LangSlot()].displayLabel) ==>
        shown == TrimSpace(langs[LangSlot()].displayLabel)
      ensures |langs| > 0 && Blank(langs[LangSlot()].displayLabel) ==> shown == CurrentLangCode()
      ensures shown == "" <==> CurrentLangCode() == "" && (|langs| == 0 || Blank(langs[LangSlot()].displayLabel))
    {
      if |langs| == 0 then ""
      else
        var trimmed := TrimSpace(langs[LangSlot()].displayLabel);
        if trimmed == "" then TrimSpace(langs[LangSlot()].code) else trimmed
    }

    /** `fallbackLangCode`: the trimmed code of the first language, or "". */
    function FallbackLangCode(): (code: string)
      ensures |langs| == 0 ==> code == ""
      ensures |langs| > 0 ==> code == TrimSpace(langs[0].code)
    {
      if |langs| == 0 then "" else TrimSpace(langs[0].code)
    }

    /** The commands `layerCmd(index)` may return for the given language codes. */
    ghost predicate IsLayerCmd(index: int, current: string, fallback: string, cmd: string) {
      if index < 0 || index >= |layers| then cmd == ""
      else exists v :: Resolved(layers[index].cmd, current, fallback, v) && cmd == TrimSpace(v)
    }

    /** `layerCmd`: the trimmed localized command of a layer, "" out of range. */
    method LayerCmd(index: int) returns (cmd: string)
      ensures IsLayerCmd(index, CurrentLangCode(), FallbackLangCode(), cmd)
      ensures cmd == "" <==> index < 0 || index >= |layers| || !AnyText(layers[index].cmd)
    {
      if index < 0 || index >= |layers| {
        return "";
      }
      var value := LocalizedValue(layers[index].cmd, CurrentLangCode(), FallbackLangCode());
      cmd := TrimSpace(value);
      assert Resolved(layers[index].cmd, CurrentLangCode(), FallbackLangCode(), value) && cmd == TrimSpace(value);
    }

    /** The labels `layerLabel(layer, index)` may return for the given codes. */
    ghost predicate IsLayerLabel(layer: Layer, index: nat, current: string, fallback: string, text: string) {
      if AnyText(layer.menuLabel) then Resolved(layer.menuLabel, current, fallback, text)
      else if AnyText(layer.title) then Resolved(layer.title, current, fallback, text)
      else text == "Layer " + NatToDecimal(index + 1)
    }

    /** `layerLabel`: the localized label, else the localized title, else
        "Layer n" with the 1-based position; never blank. */
    method LayerLabel(layer: Layer, index: nat) returns (text: string)
      ensures IsLayerLabel(layer, index, CurrentLangCode(), FallbackLangCode(), text)
      ensures !Blank(text)
    {
      text := LocalizedValue(layer.menuLabel, CurrentLangCode(), FallbackLangCode());
      if !Blank(text) {
        assert AnyText(layer.menuLabel);
        return text;
      }
      var title := LocalizedValue(layer.title, CurrentLangCode(), FallbackLangCode());
      if !Blank(title) {
        assert !AnyText(layer.menuLabel) && AnyText(layer.title);
        return title;
      }
      assert !AnyText(layer.menuLabel) && !AnyText(layer.title);
      text := "Layer " + NatToDecimal(index + 1);
      assert text[0] == 'L';
    }

    /** `layerTitle`: "CV" out of range, else the localized title, else the
        layer's label. */
    method LayerTitle(index: int) returns (title: string)
      ensures !(0 <= index < |layers|) ==> title == DefaultTitle
      ensures 0 <= index < |layers| && AnyText(layers[index].title) ==>
        Resolved(layers[index].title, CurrentLangCode(), FallbackLangCode(), title)
      ensures 0 <= index < |layers| && !AnyText(layers[index].title) ==>
        IsLayerLabel(layers[index], index, CurrentLangCode(), FallbackLangCode(), title)
      ensures !Blank(title)
    {
      if index < 0 || index >= |layers| {
        title := DefaultTitle;
        assert title[0] == 'C';
        return;
      }
      var layer := layers[index];
      title := LocalizedValue(layer.title, CurrentLangCode(), FallbackLangCode());
      if !Blank(title) {
        assert AnyText(layer.title);
        return;
      }
      assert !AnyText(layer.title);
      title := LayerLabel(layer, index);
    }

    /** `layerIndexForKey`: the first layer that answers to `key`, or -1. */
    method LayerIndexForKey(key: string) returns (index: int)
      ensures -1 <= index < |layers|
      ensures index == -1 <==> forall i :: 0 <= i < |layers| ==> !KeyMatches(layers[i], key)
      ensures index >= 0 ==> KeyMatches(layers[index], key)
      ensures index >= 0 ==> forall i :: 0 <= i < index ==> !KeyMatches(layers[i], key)
    {
      var i := 0;
      while i < |layers|
        invariant 0 <= i <= |layers|
        invariant forall j :: 0 <= j < i ==> !KeyMatches(layers[j], key)
      {
        if layers[i].key != "" && EqualFold(layers[i].key, key) {
          return i;
        }
        i := i + 1;
      }
      return -1;
    }

    /** The text the viewport shows for the current state. */
    ghost function Displayed(): string
      reads this, layerOutput
      requires Valid()
    {
      if layerOutput.Length == 0 then NoLayerText
      else if TrimSpace(layerOutput[currentLayer]) == "" then NoOutputText
      else TrimSpace(layerOutput[currentLayer])
    }

    /** The viewport holds the current layer's text and the overflow flag matches it. */
    ghost predicate ShowsCurrent()
      reads this, layerOutput
      requires Valid()
    {
      && content == Displayed()
      && (hasOverflowX <==> Overflows(content, viewportWidth - HorizontalFrameSize, displayWidth))
    }

    /** `setViewportContent`: hands the text to the viewport and recomputes
        the overflow flag for the viewport's width. */
    method SetViewportContent(text: string)
      modifies this`content, this`hasOverflowX
      ensures content == text
      ensures hasOverflowX <==> Overflows(text, viewportWidth - HorizontalFrameSize, displayWidth)
      ensures SameSize() && currentLayer == old(currentLayer) && currentLangIndex == old(currentLangIndex)
    {
      content := text;
      hasOverflowX := HasHorizontalOverflow(text, viewportWidth - HorizontalFrameSize, displayWidth);
    }

    /** `updateViewportContent`: shows the current layer's trimmed output, a
        placeholder when it is blank, or the no-layer message. */
    method UpdateViewportContent()
      requires Valid()
      modifies this`content, this`hasOverflowX
      ensures Valid() && ShowsCurrent() && SameSize()
      ensures currentLayer == old(currentLayer) && currentLangIndex == old(currentLangIndex)
    {
      if layerOutput.Length == 0 {
        SetViewportContent(NoLayerText);
        return;
      }
      if currentLayer < layerOutput.Length {
        var output := TrimSpace(layerOutput[currentLayer]);
        if output == "" {
          output := NoOutputText;
        }
        SetViewportContent(output);
      }
    }

    /** `Init`: asks for the current layer's command when there is a layer. */
    method Init() returns (effect: Option<Effect>)
      requires Valid()
      ensures effect.Some? <==> |layers| > 0
      ensures effect.Some? ==> effect.value.Run? && effect.value.request.index == currentLayer
      ensures effect.Some? ==> IsLayerCmd(currentLayer, CurrentLangCode(), FallbackLangCode(), effect.value.request.cmd)
    {
      if |layers| > 0 {
        var cmd := LayerCmd(currentLayer);
        return Some(Run(Request(currentLayer, cmd)));
      }
      return None;
    }

    /** A single request to run layer `index`'s command for the current language. */
    ghost predicate RunsLayer(effects: seq<Effect>, index: int)
      reads this
    {
      && |effects| == 1 && effects[0].Run? && effects[0].request.index == index
      && IsLayerCmd(index, CurrentLangCode(), FallbackLangCode(), effects[0].request.cmd)
    }

    /** The terminal and viewport sizes are those of the previous state. */
    twostate predicate SameSize()
      reads this
    {
      && width == old(width) && height == old(height) && ready == old(ready)
      && viewportWidth == old(viewportWidth) && viewportHeight == old(viewportHeight)
    }

    /** The language key: without languages nothing changes; otherwise the
        next language becomes current and, when the current layer exists, its
        output goes back to the loading text, the viewport shows it and the
        layer's command is requested again in the new language. */
    twostate predicate LangSwitched(effects: seq<Effect>)
      reads this, layerOutput
    {
      && Valid() && SameSize()
      && (|langs| == 0 ==> effects == [] && unchanged(this, layerOutput))
      && (|langs| > 0 ==>
            && currentLangIndex == (old(currentLangIndex) + 1) % |langs|
            && currentLayer == old(currentLayer)
            && (currentLayer < |layers| ==>
                  && layerOutput[..] == old(layerOutput[..])[currentLayer := LoadingText]
                  && ShowsCurrent() && RunsLayer(effects, currentLayer))
            && (currentLayer >= |layers| ==>
                  && effects == [] && unchanged(layerOutput)
                  && content == old(content) && hasOverflowX == old(hasOverflowX)))
    }

    /** Any other key: the first layer answering to it becomes current, its
        output goes back to the loading text, the viewport shows it and its
        command is requested; when no layer answers nothing changes. */
    twostate predicate LayerSelected(key: string, effects: seq<Effect>)
      reads this, layerOutput
    {
      && Valid() && SameSize()
      && currentLangIndex == old(currentLangIndex)
      && ((forall i :: 0 <= i < |layers| ==> !KeyMatches(layers[i], key)) ==>
            effects == [] && unchanged(this, layerOutput))
      && ((exists i :: 0 <= i < |layers| && KeyMatches(layers[i], key)) ==>
            && 0 <= currentLayer < |layers| && KeyMatches(layers[currentLayer], key)
            && (forall i :: 0 <= i < currentLayer ==> !KeyMatches(layers[i], key))
            && layerOutput[..] == old(layerOutput[..])[currentLayer := LoadingText]
            && ShowsCurrent() && RunsLayer(effects, currentLayer))
    }

    /** A key press: the quit key only asks to quit, the language key
        switches language, and any other key may select a layer. */
    twostate predicate KeyHandled(key: string, effects: seq<Effect>)
      reads this, layerOutput
    {
      && Valid() && SameSize()
      && (IsQuitKey(key) ==> effects == [Quit] && unchanged(this, layerOutput))
      && (IsLangKey(key) ==> LangSwitched(effects))
      && (!IsQuitKey(key) && !IsLangKey(key) ==> LayerSelected(key, effects))
    }

    /** A resize: the new size is recorded, the viewport gets it (less the
        header and footer rows) and its text and overflow flag are refreshed. */
    twostate predicate Resized(w: int, h: int, effects: seq<Effect>)
      reads this, layerOutput
    {
      && Valid() && effects == [] && ready
      && width == w && height == h
      && viewportWidth == w && viewportHeight == h - HeaderHeight - FooterHeight
      && currentLayer == old(currentLayer) && currentLangIndex == old(currentLangIndex)
      && unchanged(layerOutput) && ShowsCurrent()
    }

    /** A command result: out of range it changes nothing; otherwise only
        that layer's stored text changes, and the viewport is refreshed only
        when that layer is the current one. */
    twostate predicate ResultApplied(index: int, output: string, err: Option<string>, effects: seq<Effect>)
      reads this, layerOutput
    {
      && Valid() && effects == [] && SameSize()
      && currentLayer == old(currentLayer) && currentLangIndex == old(currentLangIndex)
      && (!(0 <= index < |layers|) ==> unchanged(this, layerOutput))
      && (0 <= index < |layers| ==>
            && layerOutput[..] == old(layerOutput[..])[index := ResultText(output, err)]
            && (index == currentLayer ==> ShowsCurrent())
            && (index != currentLayer ==> content == old(content) && hasOverflowX == old(hasOverflowX)))
    }

    /** `Update`: one event, handled on the model in place. */
    method Update(msg: Msg) returns (effects: seq<Effect>)
      requires Valid()
      modifies this, layerOutput
      ensures Valid()
      ensures msg.KeyMsg? ==> KeyHandled(msg.key, effects)
      ensures msg.WindowSizeMsg? ==> Resized(msg.width, msg.height, effects)
      ensures msg.LayerResultMsg? ==> ResultApplied(msg.index, msg.output, msg.err, effects)
      ensures msg.OtherMsg? ==> effects == [] && unchanged(this, layerOutput)
    {
      match msg {
        case KeyMsg(key) => effects := OnKey(key);
        case WindowSizeMsg(w, h) => effects := OnWindowSize(w, h);
        case LayerResultMsg(index, output, err) => effects := OnLayerResult(index, output, err);
        case OtherMsg => effects := [];
      }
    }

    /** The key case of `Update`. */
    method OnKey(key: string) returns (effects: seq<Effect>)
      requires Valid()
      modifies this, layerOutput
      ensures KeyHandled(key, effects)
    {
      if IsQuitKey(key) {
        effects := [Quit];
      } else if IsLangKey(key) {
        effects := OnLangKey();
      } else {
        effects := OnLayerKey(key);
      }
    }

    /** The language-key branch of the key case. */
    method OnLangKey() returns (effects: seq<Effect>)
      requires Valid()
      modifies this, layerOutput
      ensures LangSwitched(effects)
    {
      effects := [];
      if |langs| > 0 {
        currentLangIndex := (currentLangIndex + 1) % |langs|;
        if currentLayer >= 0 && currentLayer < |layers| {
          layerOutput[currentLayer] := LoadingText;
          UpdateViewportContent();
          var cmd := LayerCmd(currentLayer);
          effects := effects + [Run(Request(currentLayer, cmd))];
        }
      }
    }

    /** The layer-key branch of the key case. */
    method OnLayerKey(key: string) returns (effects: seq<Effect>)
      requires Valid()
      modifies this, layerOutput
      ensures LayerSelected(key, effects)
    {
      effects := [];
      var index := LayerIndexForKey(key);
      if index >= 0 {
        currentLayer := index;
        layerOutput[index] := LoadingText;
        UpdateViewportContent();
        var cmd := LayerCmd(index);
        effects := effects + [Run(Request(index, cmd))];
      }
    }

    /** The resize case of `Update`. The first resize builds the viewport and
        later ones resize it; either way it ends up with this size. */
    method OnWindowSize(w: int, h: int) returns (effects: seq<Effect>)
      requires Valid()
      modifies this
      ensures Resized(w, h, effects)
    {
      viewportWidth := w;
      viewportHeight := h - HeaderHeight - FooterHeight;
      ready := true;
      width := w;
      height := h;
      UpdateViewportContent();
      effects := [];
    }

    /** The command-result case of `Update`. */
    method OnLayerResult(index: int, output: string, err: Option<string>) returns (effects: seq<Effect>)
      requires Valid()
      modifies this, layerOutput
      ensures ResultApplied(index, output, err, effects)
    {
      if index >= 0 && index < layerOutput.Length {
        layerOutput[index] := ResultText(output, err);
        if currentLayer == index {
          UpdateViewportContent();
        }
      }
      effects := [];
    }

    /** The menu's layer blocks: each layer's key with its label. */
    method LayerBlocks() returns (items: seq<MenuBlock>)
      ensures |items| == |layers|
      ensures Labelled(items, CurrentLangCode(), FallbackLangCode())
    {
      ghost var current, fallback := CurrentLangCode(), FallbackLangCode();
      items := [];
      var i := 0;
      while i < |layers|
        invariant 0 <= i <= |layers|
        invariant |items| == i
        invariant Labelled(items, current, fallback)
      {
        var text := LayerLabel(layers[i], i);
        LabelledSnoc(items, current, fallback, text);
        items := items + [MenuBlock(layers[i].key, text)];
        i := i + 1;
      }
    }

    /** Each of `items` carries the key and a label of the layer at its position. */
    ghost predicate Labelled(items: seq<MenuBlock>, current: string, fallback: string) {
      && |items| <= |layers|
      && forall j :: 0 <= j < |items| ==>
           && items[j].key == layers[j].key
           && IsLayerLabel(layers[j], j, current, fallback, items[j].text)
    }

    /** Adding the next layer's block keeps the items labelled. */
    lemma LabelledSnoc(items: seq<MenuBlock>, current: string, fallback: string, text: string)
      requires |items| < |layers| && Labelled(items, current, fallback)
      requires IsLayerLabel(layers[|items|], |items|, current, fallback, text)
      ensures Labelled(items + [MenuBlock(layers[|items|].key, text)], current, fallback)
    {
      var more := items + [MenuBlock(layers[|items|].key, text)];
      assert more[..|items|] == items;
    }

    /** The footer's blocks, in order: one per layer with its key and label,
        the quit block, the language block when there is a language label,
        then the vertical and the horizontal scroll hints when they apply.
        `moreLines` says whether the viewport holds more lines than it shows. */
    method MenuBlocks(moreLines: bool) returns (blocks: seq<MenuBlock>)
      ensures |blocks| == |layers| + 1 + (if CurrentLangLabel() != "" then 1 else 0)
        + (if moreLines then 1 else 0) + (if hasOverflowX then 1 else 0)
      ensures Labelled(blocks[..|layers|], CurrentLangCode(), FallbackLangCode())
      ensures blocks[|layers|] == QuitBlock
      ensures blocks[|layers| + 1..] ==
        (if CurrentLangLabel() != "" then [MenuBlock("L", CurrentLangLabel())] else [])
        + (if moreLines then [ScrollBlock] else [])
        + (if hasOverflowX then [SideScrollBlock] else [])
    {
      var items := LayerBlocks();
      var langLabel := CurrentLangLabel();
      if langLabel == "" {
        langLabel := CurrentLangCode();
        assert langLabel == "";
      }
      assert langLabel == CurrentLangLabel();
      var tail := HintBlocks(langLabel, moreLines, hasOverflowX);
      var rest := [QuitBlock] + tail;
      blocks := items + rest;
      assert blocks[..|layers|] == items && blocks[|layers|..] == rest;
      assert rest[1..] == tail;
    }

    /** The layout of `renderMenu`: the blocks and the cells drawn for them
        across the terminal width. The drawn cells are the first blocks, each
        split at its balanced share of the width, and they fill the width
        exactly; the quit block is drawn exactly when the width exceeds the
        number of layers. */
    method RenderMenu(moreLines: bool) returns (blocks: seq<MenuBlock>, cells: seq<Cell>)
      ensures |blocks| > |layers| && blocks[|layers|] == QuitBlock
      ensures Labelled(blocks[..|layers|], CurrentLangCode(), FallbackLangCode())
      ensures blocks[|layers| + 1..] ==
        (if CurrentLangLabel() != "" then [MenuBlock("L", CurrentLangLabel())] else [])
        + (if moreLines then [ScrollBlock] else [])
        + (if hasOverflowX then [SideScrollBlock] else [])
      ensures |cells| == if |blocks| < MenuWidth(width) then |blocks| else MenuWidth(width)
      ensures SplitAtWidths(blocks, width, cells)
      ensures CellsWidth(cells) == MenuWidth(width)
      ensures |cells| > |layers| <==> width > |layers|
    {
      blocks := MenuBlocks(moreLines);
      cells := Arrange(blocks, width);
    }
  }
}
