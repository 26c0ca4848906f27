/** The style and output pickers of the configuration panel. The panel remembers which
    style card is selected and the text typed for a custom style; `style` and `output`
    belong to the chat window and are changed through its setters. */
module ConfigPanel {
  import opened Text

  const Academic := "academic"
  const Doraemon := "doraemon"
  const Custom := "custom"

  /** A style with a card of its own. */
  predicate IsPreset(style: string) {
    style == Academic || style == Doraemon
  }

  class Panel {
    var selectedStyleType: string
    var customStyle: string
    var style: string
    var output: string
    var showConfigModal: bool
    const compact: bool

    /** The selection agrees with the style: a preset card selects that preset, and
        the custom card with non-blank text selects that text trimmed. */
    predicate Consistent()
      reads this
    {
      && (IsPreset(selectedStyleType) ==> style == selectedStyleType)
      && (selectedStyleType == Custom && Trim(customStyle) != "" ==> style == Trim(customStyle))
    }

    /** Mount: a preset style selects its card, any other non-empty style selects the
        custom card with that text, and an empty style keeps the defaults. */
    constructor(initialStyle: string, initialOutput: string, isCompact: bool)
      ensures style == initialStyle && output == initialOutput && compact == isCompact && !showConfigModal
      ensures IsPreset(initialStyle) ==> selectedStyleType == initialStyle && customStyle == ""
      ensures !IsPreset(initialStyle) && initialStyle != "" ==>
                selectedStyleType == Custom && customStyle == initialStyle
      ensures initialStyle == "" ==> selectedStyleType == Academic && customStyle == ""
      ensures IsPreset(initialStyle) ==> Consistent()
      ensures initialStyle != "" && Trim(initialStyle) == initialStyle ==> Consistent()
    {
      style := initialStyle;
      output := initialOutput;
      compact := isCompact;
      showConfigModal := false;
      if IsPreset(initialStyle) {
        selectedStyleType := initialStyle;
        customStyle := "";
      } else if initialStyle != "" {
        selectedStyleType := Custom;
        customStyle := initialStyle;
      } else {
        selectedStyleType := Academic;
        customStyle := "";
      }
    }

    /** Choosing an output opens the settings dialog unless the panel is compact. */
    method SelectOutput(selected: string)
      modifies this`output, this`showConfigModal
      ensures output == selected
      ensures showConfigModal == if compact then old(showConfigModal) else true
    {
      output := selected;
      if !compact {
        showConfigModal := true;
      }
    }

    /** Choosing a style card: the custom card takes the typed text when it is not
        blank and otherwise keeps the style; any other card becomes the style. */
    method SelectStyle(selected: string)
      modifies this`selectedStyleType, this`style
      ensures selectedStyleType == selected
      ensures selected == Custom && Trim(customStyle) != "" ==> style == Trim(customStyle)
      ensures selected == Custom && Trim(customStyle) == "" ==> style == old(style)
      ensures selected != Custom ==> style == selected
      ensures selected != Custom || Trim(customStyle) != "" ==> Consistent()
    {
      selectedStyleType := selected;
      if selected == Custom {
        var trimmed := Trim(customStyle);
        if trimmed != "" {
          style := trimmed;
        }
      } else {
        style := selected;
      }
    }

    /** Typing in the custom box always keeps the raw text; the style follows the
        trimmed text only when it is not blank. */
    method ChangeCustomStyle(value: string)
      modifies this`customStyle, this`style
      ensures customStyle == value
      ensures Trim(value) != "" ==> style == Trim(value)
      ensures Trim(value) == "" ==> style == old(style)
      ensures selectedStyleType == Custom ==> Consistent()
    {
      customStyle := value;
      var trimmed := Trim(value);
      if trimmed != "" {
        style := trimmed;
      }
    }
  }
}
