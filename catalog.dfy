/**
  The project catalogue as plain data: the project cards with their `data-*` attributes,
  the tool options of the tool filter, the category filter buttons, the fixed
  category-to-tool map and display names, and the pure decisions the controller takes
  over them: which tool options a category allows, whether a card matches the filter,
  which category is active, which tools are selected, which button or card a deep link
  names.

  An attribute that is absent is represented by "": the controller reads every one of
  them as `attr || ""`, tests it for truthiness, or compares it with a non-empty string,
  so an absent attribute and an empty one behave alike.
*/
module Catalog {
  import opened Wrappers
  import opened JsString

  /** A value of `style.display`: unset, "flex", "inline-flex" or "none". */
  datatype Display = Unset | Flex | InlineFlex | Hidden

  /** The `.name_of_project` element of a card: its text and, when it holds an `img`
      logo, that logo's `src`. */
  datatype TitleElement = TitleElement(text: string, logo: Option<string>)

  /** One `.project-item`. The first ten fields are attributes; the last four are the
      elements the modal copies from (the thumbnail's `src` and text contents). */
  datatype Card = Card(
    category: string,         // data-category, space-separated
    tools: string,            // data-tools, space-separated
    skills: string,           // data-skills, comma-separated
    images: string,           // data-images, comma-separated URLs
    project: string,          // data-project
    github: string,           // data-github
    githubCpp: string,        // data-github-cpp
    website: string,          // data-website
    modalSubtitle: string,    // data-modal-subtitle
    modalDetails: string,     // data-modal-details
    thumbnail: Option<string>,     // src of .project_picture
    title: Option<TitleElement>,   // .name_of_project
    subtitle: Option<string>,      // text of .description_of_project
    details: Option<string>)       // text of the first description paragraph

  /** The checkbox inside a tool option: its `value` and whether it is checked. */
  datatype Checkbox = Checkbox(value: string, checked: bool)

  /** One `.tool-option`: its `data-tool` key, its display and its checkbox, if any. */
  datatype ToolOption = ToolOption(tool: string, display: Display, checkbox: Option<Checkbox>)

  /** One `.filter-button`: its `data-filter` (None when the attribute is missing, which
      `getAttribute` reports as null) and whether it carries `is-active`. */
  datatype FilterButton = FilterButton(filter: Option<string>, active: bool)

  /** The categories that restrict the tool filter, with the tools each one allows. */
  const ToolsByCategory: map<string, set<string>> := map[
    "design" := {"figma", "adobe-photoshop"},
    "programming" := {"vs-studio-code", "visual-studio", "github", "codex"}
  ]

  const ToolDisplayNames: map<string, string> := map[
    "figma" := "Figma",
    "adobe-photoshop" := "Adobe Photoshop",
    "vs-studio-code" := "VS Code",
    "visual-studio" := "Visual Studio",
    "github" := "GitHub",
    "codex" := "Codex"
  ]

  /** Whether `category` lets the tool option for `tool` be shown: a category outside the
      map restricts nothing, and neither does null (looked up as the key "null"). */
  predicate Allowed(category: Option<string>, tool: string) {
    category.None? || category.value !in ToolsByCategory || tool in ToolsByCategory[category.value]
  }

  predicate IsChecked(o: ToolOption) {
    o.checkbox.Some? && o.checkbox.value.checked
  }

  /** What `updateToolVisibility(category)` does to one option. */
  function GateOption(o: ToolOption, category: Option<string>): (r: ToolOption)
    ensures o.tool == "" ==> r == o
    ensures o.tool != "" ==> r.tool == o.tool
    ensures o.tool != "" ==> (r.display == InlineFlex <==> Allowed(category, o.tool))
    ensures o.tool != "" ==> (r.display == Hidden <==> !Allowed(category, o.tool))
    ensures r.checkbox.Some? == o.checkbox.Some?
    ensures r.checkbox.Some? ==> r.checkbox.value.value == o.checkbox.value.value
    ensures o.tool != "" && !Allowed(category, o.tool) ==> !IsChecked(r)
    ensures o.tool == "" || Allowed(category, o.tool) ==> IsChecked(r) == IsChecked(o)
  {
    if o.tool == "" then o
    else
      var show := Allowed(category, o.tool);
      var box := match o.checkbox
        case None => None
        case Some(b) => Some(if show then b else b.(checked := false));
      ToolOption(o.tool, if show then InlineFlex else Hidden, box)
  }

  /** The state the tool gate leaves an option in for `category`: shown exactly when
      allowed, and checked only when allowed. Options without a tool key are free. */
  predicate OptionGated(o: ToolOption, category: Option<string>) {
    o.tool != "" ==>
      && o.display == (if Allowed(category, o.tool) then InlineFlex else Hidden)
      && (IsChecked(o) ==> Allowed(category, o.tool))
  }

  predicate AllGated(options: seq<ToolOption>, category: Option<string>) {
    forall j :: 0 <= j < |options| ==> OptionGated(options[j], category)
  }

  /** The gate puts an option into the gated state, and gating it again changes nothing. */
  lemma GateEstablishes(o: ToolOption, category: Option<string>)
    ensures OptionGated(GateOption(o, category), category)
    ensures GateOption(GateOption(o, category), category) == GateOption(o, category)
  {
  }

  /** In the gated state a user can check only an option that is on screen, and checking
      it keeps the state gated. */
  lemma CheckVisibleKeepsGated(o: ToolOption, category: Option<string>, checked: bool)
    requires OptionGated(o, category) && o.checkbox.Some? && o.display != Hidden
    ensures OptionGated(o.(checkbox := Some(o.checkbox.value.(checked := checked))), category)
  {
  }

  /** The values of the checked tool checkboxes, in document order. */
  function SelectedTools(options: seq<ToolOption>): (r: seq<string>)
    ensures forall v :: v in r <==>
      exists j :: 0 <= j < |options| && options[j].checkbox == Some(Checkbox(v, true))
    decreases |options|
  {
    if |options| == 0 then []
    else
      var rest := SelectedTools(options[1..]);
      assert forall j :: 1 <= j < |options| ==> options[j] == options[1..][j - 1];
      match options[0].checkbox
      case Some(Checkbox(v, true)) => [v] + rest
      case _ => rest
  }

  /** Every option gated for `category`, in order. */
  function GateAll(options: seq<ToolOption>, category: Option<string>): (r: seq<ToolOption>)
    ensures |r| == |options| && forall j :: 0 <= j < |r| ==> r[j] == GateOption(options[j], category)
  {
    seq(|options|, j requires 0 <= j < |options| => GateOption(options[j], category))
  }

  /** After the gate, the options are gated, and the selected tools are a sub-list of
      those selected before: the gate only ever unchecks. */
  lemma GateAllEstablishes(options: seq<ToolOption>, category: Option<string>)
    ensures AllGated(GateAll(options, category), category)
    ensures forall v :: v in SelectedTools(GateAll(options, category)) ==> v in SelectedTools(options)
  {
    var r := GateAll(options, category);
    forall j | 0 <= j < |r| ensures OptionGated(r[j], category) {
      GateEstablishes(options[j], category);
    }
    forall v | v in SelectedTools(r) ensures v in SelectedTools(options) {
      var j :| 0 <= j < |r| && r[j].checkbox == Some(Checkbox(v, true));
      assert options[j].checkbox == Some(Checkbox(v, true));
    }
  }

  /** In the gated state every selected tool belongs to a checked option the category
      allows. */
  lemma GatedSelectionAllowed(options: seq<ToolOption>, category: Option<string>, v: string)
    requires AllGated(options, category)
    requires v in SelectedTools(options)
    ensures exists j :: 0 <= j < |options| && options[j].checkbox == Some(Checkbox(v, true))
                        && (options[j].tool == "" || Allowed(category, options[j].tool))
  {
    var j :| 0 <= j < |options| && options[j].checkbox == Some(Checkbox(v, true));
    assert IsChecked(options[j]);
    assert OptionGated(options[j], category);
  }

  /** The first button carrying `is-active`, as `querySelector` finds it. */
  function FirstActive(buttons: seq<FilterButton>): (r: Option<nat>)
    ensures r.Some? ==> r.value < |buttons| && buttons[r.value].active
    ensures r.Some? ==> forall k :: 0 <= k < r.value ==> !buttons[k].active
    ensures r.None? <==> forall k :: 0 <= k < |buttons| ==> !buttons[k].active
    decreases |buttons|
  {
    if |buttons| == 0 then None
    else if buttons[0].active then Some(0)
    else
      match FirstActive(buttons[1..])
      case None => None
      case Some(k) => Some(k + 1)
  }

  /** The category `applyProjectFilters` filters by: the active button's `data-filter`
      (possibly null), else "all". */
  function ActiveCategory(buttons: seq<FilterButton>): Option<string> {
    match FirstActive(buttons)
    case None => Some("all")
    case Some(k) => buttons[k].filter
  }

  /** With exactly one button active, the active category is that button's filter. */
  lemma ActiveCategoryOfSole(buttons: seq<FilterButton>, i: nat)
    requires i < |buttons|
    requires forall k :: 0 <= k < |buttons| ==> buttons[k].active == (k == i)
    ensures ActiveCategory(buttons) == buttons[i].filter
  {
    assert buttons[i].active;
    var f := FirstActive(buttons);
    assert f.Some?;
    assert f.value == i;
  }

  /** The first button whose `data-filter` equals `filter`, as the attribute selector
      `.filter-button[data-filter="…"]` finds it. */
  function FindButton(buttons: seq<FilterButton>, filter: string): (r: Option<nat>)
    ensures r.Some? ==> r.value < |buttons| && buttons[r.value].filter == Some(filter)
    ensures r.Some? ==> forall k :: 0 <= k < r.value ==> buttons[k].filter != Some(filter)
    ensures r.None? <==> forall k :: 0 <= k < |buttons| ==> buttons[k].filter != Some(filter)
    decreases |buttons|
  {
    if |buttons| == 0 then None
    else if buttons[0].filter == Some(filter) then Some(0)
    else
      match FindButton(buttons[1..], filter)
      case None => None
      case Some(k) => Some(k + 1)
  }

  /** The first card whose `data-project` equals `project`, as `Array.find` finds it. */
  function FindCard(cards: seq<Card>, project: string): (r: Option<nat>)
    ensures r.Some? ==> r.value < |cards| && cards[r.value].project == project
    ensures r.Some? ==> forall k :: 0 <= k < r.value ==> cards[k].project != project
    ensures r.None? <==> forall k :: 0 <= k < |cards| ==> cards[k].project != project
    decreases |cards|
  {
    if |cards| == 0 then None
    else if cards[0].project == project then Some(0)
    else
      match FindCard(cards[1..], project)
      case None => None
      case Some(k) => Some(k + 1)
  }

  /** The test `applyProjectFilters` applies to one card. A null category is neither
      "all" nor one of the card's categories. */
  predicate Matches(card: Card, category: Option<string>, selected: seq<string>) {
    var categories := Split(card.category, ' ');
    var tools := Split(card.tools, ' ');
    && (category == Some("all") || (category.Some? && category.value in categories))
    && (|selected| == 0 || exists t :: t in selected && t in tools)
  }

  /** A card matches exactly when the category is "all" or one of the space-delimited
      fields of its `data-category`, and no tool is selected or some selected tool is a
      space-delimited field of its `data-tools`. */
  lemma MatchesIff(card: Card, category: Option<string>, selected: seq<string>)
    ensures Matches(card, category, selected) <==>
      && (category == Some("all") || (category.Some? && IsField(category.value, card.category, ' ')))
      && (selected == [] || exists t :: t in selected && IsField(t, card.tools, ' '))
  {
    if category.Some? {
      SplitContainsIff(card.category, ' ', category.value);
    }
    forall t | t in selected
      ensures t in Split(card.tools, ' ') <==> IsField(t, card.tools, ' ')
    {
      SplitContainsIff(card.tools, ' ', t);
    }
  }

  /** The display `applyProjectFilters` gives a card. */
  function CardDisplay(card: Card, category: Option<string>, selected: seq<string>): Display {
    if Matches(card, category, selected) then Flex else Hidden
  }
}
