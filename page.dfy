/**
  The projects page as the controller sees it after `DOMContentLoaded`: the filter
  buttons, the tool options with their checkboxes, the project cards with the display
  the filter gives each, and the project modal. Its methods are the controller's event
  handlers and the two deep links read from the query string (`?filter=` and
  `?project=`).
*/
module Page {
  import opened Wrappers
  import opened JsString
  import opened Catalog
  import opened ModalView

  /** The display `applyProjectFilters` gives every card, in document order. */
  function Displays(cards: seq<Card>, category: Option<string>, selected: seq<string>): (r: seq<Display>)
    ensures |r| == |cards| && forall i :: 0 <= i < |r| ==> r[i] == CardDisplay(cards[i], category, selected)
  {
    seq(|cards|, i requires 0 <= i < |cards| => CardDisplay(cards[i], category, selected))
  }

  /** The events that close the modal when they apply: a click on `.project-modal-back`,
      a click whose target is (or is not) the modal backdrop itself, a key press. */
  datatype DismissEvent = BackClick | ModalClick(onBackdrop: bool) | KeyDown(key: string)

  /** Whether the event closes the modal. */
  predicate Dismisses(e: DismissEvent) {
    match e
    case BackClick => true
    case ModalClick(onBackdrop) => onBackdrop
    case KeyDown(key) => key == "Escape"
  }

  class ProjectsPage {
    const buttons: array<FilterButton>     // .filter-button, in document order
    const options: array<ToolOption>       // .project-tools .tool-option
    const cards: seq<Card>                 // .project-item
    const display: array<Display>          // style.display of each .project-item
    const modal: Modal                     // .project-modal

    ghost predicate Valid()
      reads this
    {
      display.Length == |cards|
    }

    /** The tool filter agrees with the active category: an option is shown exactly
        when the category allows it, and a hidden option is never checked. */
    ghost predicate ToolGateHolds()
      reads this, buttons, options
    {
      AllGated(options[..], ActiveCategory(buttons[..]))
    }

    /** Every card's display is the one the current filter gives it. */
    ghost predicate Filtered()
      reads this, buttons, options, display
    {
      display[..] == Displays(cards, ActiveCategory(buttons[..]), SelectedTools(options[..]))
    }

    /** The page as it is loaded: no card styled yet, the modal closed. */
    constructor (bs: seq<FilterButton>, os: seq<ToolOption>, cs: seq<Card>)
      ensures Valid()
      ensures buttons[..] == bs && options[..] == os && cards == cs
      ensures forall i :: 0 <= i < display.Length ==> display[i] == Unset
      ensures modal.IsClosed()
      ensures fresh(buttons) && fresh(options) && fresh(display) && fresh(modal)
    {
      buttons := new FilterButton[|bs|](i requires 0 <= i < |bs| => bs[i]);
      options := new ToolOption[|os|](j requires 0 <= j < |os| => os[j]);
      cards := cs;
      display := new Display[|cs|](i => Unset);
      modal := new Modal();
    }

    /** `updateToolVisibility(category)`: gates every tool option for `category`. */
    method UpdateToolVisibility(category: Option<string>)
      modifies options
      ensures options[..] == GateAll(old(options[..]), category)
      ensures AllGated(options[..], category)
    {
      ghost var before := options[..];
      var j := 0;
      while j < options.Length
        invariant 0 <= j <= options.Length
        invariant forall k :: 0 <= k < j ==> options[k] == GateOption(before[k], category)
        invariant forall k :: j <= k < options.Length ==> options[k] == before[k]
      {
        options[j] := GateOption(options[j], category);
        j := j + 1;
      }
      GateAllEstablishes(before, category);
    }

    /** `applyProjectFilters()`: shows each card that matches the active category and the
        selected tools, hides the others. */
    method ApplyProjectFilters()
      requires Valid()
      modifies display
      ensures Filtered()
    {
      var category := ActiveCategory(buttons[..]);
      var selected := SelectedTools(options[..]);
      var i := 0;
      while i < display.Length
        invariant 0 <= i <= display.Length
        invariant forall k :: 0 <= k < i ==> display[k] == CardDisplay(cards[k], category, selected)
      {
        display[i] := CardDisplay(cards[i], category, selected);
        i := i + 1;
      }
    }

    /** Removes `is-active` from every button, then adds it to button `i`. */
    method Activate(i: nat)
      requires i < buttons.Length
      modifies buttons
      ensures forall k :: 0 <= k < buttons.Length ==> buttons[k] == old(buttons[k]).(active := k == i)
      ensures ActiveCategory(buttons[..]) == buttons[i].filter
    {
      var k := 0;
      while k < buttons.Length
        invariant 0 <= k <= buttons.Length
        invariant forall m :: 0 <= m < k ==> buttons[m] == old(buttons[m]).(active := false)
        invariant forall m :: k <= m < buttons.Length ==> buttons[m] == old(buttons[m])
      {
        buttons[k] := buttons[k].(active := false);
        k := k + 1;
      }
      buttons[i] := buttons[i].(active := true);
      ActiveCategoryOfSole(buttons[..], i);
    }

    /** The click handler of filter button `i`, registered only when there are both
        buttons and cards: activates the button, gates the tools for its filter and
        re-filters the cards. */
    method ClickFilterButton(i: nat)
      requires Valid() && i < buttons.Length
      modifies buttons, options, display
      ensures Valid()
      ensures |cards| == 0 ==> unchanged(buttons, options, display)
      ensures |cards| > 0 ==>
        && (forall k :: 0 <= k < buttons.Length ==> buttons[k] == old(buttons[k]).(active := k == i))
        && options[..] == GateAll(old(options[..]), old(buttons[i].filter))
        && ToolGateHolds() && Filtered()
    {
      if |cards| > 0 {
        var filter := buttons[i].filter;
        Activate(i);
        UpdateToolVisibility(filter);
        ApplyProjectFilters();
      }
    }

    /** The user clicks tool option `j`'s checkbox, which flips it and fires its change
        event; the handler, present when there are cards, re-filters them. Flipping a box
        that is on screen keeps the tool filter in agreement with the category. */
    method ChangeTool(j: nat)
      requires Valid() && j < options.Length && options[j].checkbox.Some?
      modifies options, display
      ensures Valid()
      ensures options[..] == old(options[..])[j := old(options[j]).(checkbox :=
        Some(old(options[j]).checkbox.value.(checked := !old(options[j]).checkbox.value.checked)))]
      ensures |cards| == 0 ==> unchanged(display)
      ensures |cards| > 0 ==> Filtered()
      ensures old(ToolGateHolds()) && old(options[j].display) != Hidden ==> ToolGateHolds()
    {
      ghost var gated := ToolGateHolds();
      var o := options[j];
      var checked := !o.checkbox.value.checked;
      var o' := o.(checkbox := Some(o.checkbox.value.(checked := checked)));
      if gated && o.display != Hidden {
        assert OptionGated(o, ActiveCategory(buttons[..]));
        CheckVisibleKeepsGated(o, ActiveCategory(buttons[..]), checked);
      }
      options[j] := o';
      if |cards| > 0 {
        ApplyProjectFilters();
      }
    }

    /** What both deep links do with a category named in the URL: when it is non-empty
        and a filter button has it as its `data-filter`, the first such button becomes
        the only active one, the tools are gated for the category and the cards are
        re-filtered; otherwise nothing changes. */
    method FocusCategory(cat: string) returns (found: bool)
      requires Valid()
      modifies buttons, options, display
      ensures Valid()
      ensures found == (cat != "" && FindButton(old(buttons[..]), cat).Some?)
      ensures found ==>
        && (forall k :: 0 <= k < buttons.Length ==>
              buttons[k] == old(buttons[k]).(active := k == FindButton(old(buttons[..]), cat).value))
        && ActiveCategory(buttons[..]) == Some(cat)
        && options[..] == GateAll(old(options[..]), Some(cat))
        && ToolGateHolds() && Filtered()
      ensures !found ==> unchanged(buttons, options, display)
    {
      var target := if cat != "" then FindButton(buttons[..], cat) else None;
      found := target.Some?;
      if found {
        Activate(target.value);
        UpdateToolVisibility(Some(cat));
        ApplyProjectFilters();
      }
    }

    /** The `?filter=` deep link, run when there are filter buttons: a non-empty parameter
        naming a button is focused; otherwise only the tools are gated, for the active
        category. */
    method FilterDeepLink(param: Option<string>)
      requires Valid()
      modifies buttons, options, display
      ensures Valid()
      ensures buttons.Length == 0 ==> unchanged(buttons, options, display)
      ensures buttons.Length > 0 ==> ToolGateHolds()
      ensures buttons.Length > 0 && param.Some? && param.value != "" && FindButton(old(buttons[..]), param.value).Some? ==>
        && (forall k :: 0 <= k < buttons.Length ==>
              buttons[k] == old(buttons[k]).(active := k == FindButton(old(buttons[..]), param.value).value))
        && ActiveCategory(buttons[..]) == param
        && options[..] == GateAll(old(options[..]), param)
        && Filtered()
      ensures buttons.Length > 0 && (param.None? || param.value == "" || FindButton(old(buttons[..]), param.value).None?) ==>
        && buttons[..] == old(buttons[..])
        && options[..] == GateAll(old(options[..]), ActiveCategory(old(buttons[..])))
        && unchanged(display)
    {
      if buttons.Length > 0 {
        var found := FocusCategory(if param.Some? then param.value else "");
        if !found {
          UpdateToolVisibility(ActiveCategory(buttons[..]));
        }
      }
    }

    /** The `?project=` deep link, run when there are cards: the trimmed parameter names a
        card by `data-project`, and that card is shown. */
    method ProjectDeepLink(param: Option<string>) returns (shown: Option<nat>)
      requires Valid()
      modifies buttons, options, display, modal
      ensures Valid()
      ensures var p := Trim(if param.Some? then param.value else "");
        shown == (if |cards| > 0 && p != "" then FindCard(cards, p) else None)
      ensures shown.None? ==> unchanged(buttons, options, display, modal)
      ensures shown.Some? ==> shown.value < |cards| && modal.IsShown()
      ensures shown.Some? ==> modal.content == Render(cards[shown.value], old(modal.content.title))
      ensures shown.Some? ==>
        var cat := Trim(cards[shown.value].category);
        if cat != "" && FindButton(old(buttons[..]), cat).Some?
        then
          && (forall k :: 0 <= k < buttons.Length ==>
                buttons[k] == old(buttons[k]).(active := k == FindButton(old(buttons[..]), cat).value))
          && ActiveCategory(buttons[..]) == Some(cat)
          && options[..] == GateAll(old(options[..]), Some(cat))
          && ToolGateHolds() && Filtered()
        else unchanged(buttons, options, display)
      ensures old(ToolGateHolds()) ==> ToolGateHolds()
    {
      shown := None;
      var p := Trim(if param.Some? then param.value else "");
      if |cards| > 0 && p != "" {
        shown := FindCard(cards, p);
        if shown.Some? {
          var _ := ShowProject(shown.value);
        }
      }
    }

    /** What the project deep link does with the card it found: focuses the card's trimmed
        category, then opens the card's modal (after a delay, which the model leaves out). */
    method ShowProject(i: nat) returns (focused: bool)
      requires Valid() && i < |cards|
      modifies buttons, options, display, modal
      ensures Valid()
      ensures modal.IsShown() && modal.content == Render(cards[i], old(modal.content.title))
      ensures focused == (Trim(cards[i].category) != "" && FindButton(old(buttons[..]), Trim(cards[i].category)).Some?)
      ensures focused ==>
        var cat := Trim(cards[i].category);
        && (forall k :: 0 <= k < buttons.Length ==>
              buttons[k] == old(buttons[k]).(active := k == FindButton(old(buttons[..]), cat).value))
        && ActiveCategory(buttons[..]) == Some(cat)
        && options[..] == GateAll(old(options[..]), Some(cat))
        && Filtered()
      ensures !focused ==> unchanged(buttons, options, display)
      ensures old(ToolGateHolds()) || focused ==> ToolGateHolds()
    {
      ghost var bs, os := buttons[..], options[..];
      focused := FocusCategory(Trim(cards[i].category));
      if !focused {
        assert buttons[..] == bs && options[..] == os;
      }
      OpenCard(i);
    }

    /** A click on card `i` (or its "see more" button) opens its modal. */
    method OpenCard(i: nat)
      requires Valid() && i < |cards|
      modifies modal
      ensures modal.IsShown()
      ensures modal.content == Render(cards[i], old(modal.content.title))
    {
      modal.Open(cards[i]);
    }

    /** `closeModal()` for the events that call it; any other event changes nothing. */
    method Dismiss(e: DismissEvent)
      modifies modal
      ensures Dismisses(e) ==> modal.IsClosed()
      ensures !Dismisses(e) ==> unchanged(modal)
      ensures modal.content == old(modal.content)
    {
      if Dismisses(e) {
        modal.Close();
      }
    }

    /** The page load: the `?filter=` deep link, then the `?project=` deep link. With
        filter buttons present, the tool filter ends up in agreement with the active
        category. */
    method Load(filterParam: Option<string>, projectParam: Option<string>) returns (shown: Option<nat>)
      requires Valid()
      modifies buttons, options, display, modal
      ensures Valid()
      ensures buttons.Length > 0 ==> ToolGateHolds()
      ensures shown.Some? ==> shown.value < |cards| && modal.IsShown()
    {
      FilterDeepLink(filterParam);
      shown := ProjectDeepLink(projectParam);
    }
  }

  /** A card whose `data-category` is a single word without surrounding white space,
      reached by a project deep link through its category's button, is shown, provided
      no tool is selected. */
  lemma DeepLinkedCardShown(cards: seq<Card>, i: nat)
    requires i < |cards|
    requires ' ' !in cards[i].category && IsTrimmed(cards[i].category)
    ensures Displays(cards, Some(Trim(cards[i].category)), [])[i] == Flex
  {
    var c := cards[i].category;
    assert [] + c + [] == c;
    TrimOfPadded([], c, []);
    SplitNoSep(c, ' ');
  }
}
