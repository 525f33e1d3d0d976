# Project catalogue controller of the portfolio page

This project models the script behind the portfolio's projects page (`script.js`). The page lists project cards, and these parts act on them:

- **Category filter buttons.** After a click or a successful deep link exactly one button is active, and its `data-filter` names the category the cards are filtered by. When no button is active, the category is "all".
- **Tool filter.** A panel of tool options with checkboxes. A category may restrict which tools can be offered: "design" and "programming" each allow a fixed set. When the category changes, the options it does not allow are hidden and unchecked.
- **Card visibility.** A card is shown when it belongs to the active category (or the category is "all") and, if any tool is checked, when it uses one of the checked tools. Otherwise it is hidden.
- **Project modal.** It shows a card's gallery, title, subtitle, details, category line, skill and tool tags, and up to three link buttons. It is rebuilt from the card each time it opens, and it closes on the back button, a click on the backdrop or Escape.
- **Deep links.** A `?filter=` parameter activates the button it names. A `?project=` parameter finds the card with that `data-project`, activates the button for the card's category if there is one, and opens the card's modal.
- **Contact form.** It composes a subject, with a default, and a fixed nine-line message body.

## Module structure

- `Wrappers`: `Option`.
- `JsString`: the JavaScript string operations the script relies on, with their ECMAScript meaning:
  - `trim`, over the WhiteSpace and LineTerminator characters;
  - `split` on one character (`"".split(c)` is `[""]`);
  - `join`;
  - `filter(Boolean)` on strings;
  - the decimal text of a number in a template literal.
- `Catalog`: the page as data and the pure decisions over it:
  - cards, tool options and filter buttons;
  - the category-to-tool map and the tool display names;
  - the tool gate;
  - the active category, the selected tools and the card match test;
  - the button and card lookups used by the deep links.
- `ModalView`: what `openModal` derives from a card, and the `Modal` class.
  - Pure functions: the gallery sources and images, the texts, the tags and the link buttons. `Render` gathers them.
  - Methods: the clearing and appending loops (`RenderParts`, `BuildGallery`, `BuildTags`, `ClearNode`).
  - `Modal` holds the content and the open/closed flags; its methods are `Open`, `Show` and `Close`.
- `Page`: the `ProjectsPage` class.
  - Its state is the filter buttons, the tool options and the card displays (arrays updated in place), plus the modal.
  - Its methods are the event handlers and the two deep links.
  - Ghost predicates name the states the handlers leave the page in. They do not hold of every page: the constructor takes any buttons and options, and the displays start unset.
    - `ToolGateHolds`: the tool options agree with the active category. A filter click, the filter deep link and a project deep link that focuses a category establish it. Flipping a hidden option's checkbox can break it.
    - `Filtered`: every card's display is the one the filter gives it. A filter click, a checkbox change and a successful focus on a category establish it. A load without a matching `?filter=` does not.
- `Contact`: the contact form's subject and body.

These facts about the browser are parameters of the model rather than modelled:
- the query-string values (`Option<string>`, `None` when the parameter is missing);
- which checkbox a user clicks (the click flips it);
- the events that may close the modal.

## Model

| member | source | states |
|---|---|---|
| JsString.Trim | script.js:148-155 | `trim` yields a string with no white space at either end and no longer than its input |
| JsString.TrimDecomposes | script.js:148-155 | every string is its trimmed form padded on both sides with white space only |
| JsString.TrimOfPadded | script.js:148-155 | trimming a trimmed string padded with white space gives that string back, so `trim` is determined by its result |
| JsString.TrimIdempotent | script.js:148-155 | trimming twice equals trimming once |
| JsString.TrimEmptyIff | script.js:153-155 | `trim` yields "" exactly when the input is all white space |
| JsString.Split | script.js:50-51 | `split` yields at least one piece, and no piece holds the separator |
| JsString.JoinSplit | script.js:50-51 | about `Split` and `Join`, the latter defined for script.js:326-336; joining the pieces of a split with the separator rebuilds the string |
| JsString.SplitNoSep | script.js:50-51 | a string without the separator splits into itself alone |
| JsString.SplitAround | script.js:50-51 | splitting at a separator splits the two sides independently |
| JsString.SplitJoin | script.js:151-152 | splitting a joined list whose parts hold no separator gives the list back |
| JsString.SplitJoinLast | script.js:326-336 | splitting a joined list whose last part may hold separators gives the earlier parts, then the last part's pieces |
| JsString.JoinAppend | script.js:326-336 | joining one more part appends a separator and that part |
| JsString.SplitContainsIff | script.js:50-53 | `s.split(sep).includes(x)` holds exactly when `x` is a whole separator-delimited field of `s` |
| JsString.NonEmpty | script.js:159 | `filter(Boolean)` keeps exactly the non-empty strings, never lengthens the list, and leaves no empty string |
| JsString.NonEmptyAppend | script.js:159 | `filter(Boolean)` works piecewise, so it keeps the order of what it keeps |
| JsString.TrimAll | script.js:158 | each entry of the mapped list is its entry trimmed, and every entry is trimmed |
| JsString.Decimal | script.js:168 | the decimal text of a number is a non-empty string of digits with no leading zero |
| JsString.DecimalRoundTrip | script.js:168 | reading a number's decimal text back gives the number |
| Catalog.GateOption | script.js:28-39 | defined with `Allowed` (script.js:29, 33); an option without `data-tool` is untouched; otherwise it is shown ("inline-flex") exactly when the category allows its tool (any category outside the map, null included, allows every tool) and hidden ("none") otherwise; a hidden option is unchecked; an allowed option keeps its checked state; the checkbox's value is kept |
| Catalog.GateEstablishes | script.js:28-39 | the gate leaves an option in the gated state, and gating again changes nothing |
| Catalog.CheckVisibleKeepsGated | script.js:72-73 | in the gated state, checking or unchecking a visible option keeps the state gated |
| Catalog.GateAllEstablishes | script.js:28-39 | after the gate every option is gated, and every tool selected afterwards was selected before |
| Catalog.GatedSelectionAllowed | script.js:28-47 | in the gated state every selected tool belongs to a checked option the category allows |
| Catalog.SelectedTools | script.js:45-47 | a value is selected exactly when some option's checkbox with that value is checked |
| Catalog.FirstActive | script.js:43 | the first button carrying `is-active`, or none exactly when no button is active |
| Catalog.ActiveCategoryOfSole | script.js:43-44 | about `ActiveCategory`, which is `FirstActive`'s `data-filter`, or "all" when no button is active (script.js:43-44); with exactly one active button, the active category is that button's `data-filter` |
| Catalog.FindButton | script.js:79-81 | the first button whose `data-filter` equals the name, or none exactly when no button has it |
| Catalog.FindCard | script.js:270-272 | the first card whose `data-project` equals the name, or none exactly when no card has it |
| Catalog.MatchesIff | script.js:50-56 | about `Matches` (script.js:50-54), on which `CardDisplay` gives "flex" or "none" (script.js:56); a card matches exactly when both hold: the category is "all" or a space-delimited field of `data-category`; no tool is selected, or some selected tool is a space-delimited field of `data-tools` |
| ModalView.ImageList | script.js:156-159 | every gallery URL is non-empty and trimmed |
| ModalView.ImageListOfJoin | script.js:156-159 | a comma-joined list of URLs yields those URLs trimmed, minus the blank ones, in order |
| ModalView.ImageListRoundTrip | script.js:156-159 | a comma-joined list of non-empty trimmed URLs comes back exactly |
| ModalView.GalleryFallback | script.js:156-163 | about `GallerySources` (script.js:163); a non-blank `data-images` entry makes the gallery that list; otherwise the thumbnail alone; the gallery is empty exactly when there is neither |
| ModalView.AltTextNumbers | script.js:168 | the alt text of image `index` is the trimmed title, " image ", then `index + 1` in decimal, and that number can be read back from the text |
| ModalView.BuildGallery | script.js:165-171 | the loop appends one lazy image per source, in order, with its alt text |
| ModalView.BuildTags | script.js:136-141 | one tag per text, in order, each one the text trimmed |
| ModalView.ClearNode | script.js:131-134 | removing the first child until none is left leaves no child |
| ModalView.OverridePreference | script.js:148-149 | about `PreferOverride` (script.js:148-149, 185-188); subtitle and details use the trimmed override attribute when it holds a non-white character, else the card's own trimmed text, else ""; the result is always trimmed |
| ModalView.LinkShownIff | script.js:203-229 | about `LinkFor`, one per link button; a link button is shown exactly when its URL holds a non-white character, and then links to that URL without its surrounding white space; otherwise it is hidden and has no `href` |
| ModalView.CategoryLineSpec | script.js:190-192 | about `CategoryLine` (script.js:191); the category line is empty exactly when `data-category` is, and otherwise is "Category: " followed by the raw attribute |
| ModalView.SkillTagsOfJoin | script.js:193-196 | about `SkillTags` (script.js:195); comma-joined skills come back trimmed and in order; only entries that are empty before trimming are dropped |
| ModalView.BlankSkillEntryGivesEmptyTag | script.js:151-159 | a skill entry of white space alone becomes an empty tag (skills are filtered before trimming), while the same entry in `data-images` is dropped |
| ModalView.ToolLabelTrimmed | script.js:19-26 | about `ToolLabel`, the display name or else the raw key (script.js:201), over the names of script.js:19-26; every display name is trimmed, so a trimmed key gives a trimmed label |
| ModalView.ToolTagsOfJoin | script.js:197-202 | about `ToolTags` (script.js:199-201); space-joined non-empty tool keys give their display names, in order, with the raw key standing in for a key that has no display name |
| ModalView.RenderDependsOnCardOnly | script.js:143-229 | about `Render`, which gathers the derivations of script.js:161-229; the content built on open depends on the card alone, except that the previous title is kept when the card has none; opening the same card again yields the same content |
| ModalView.RenderParts | script.js:161-229 | clearing and refilling gallery, tags, title, texts and buttons yields the content `Render` describes |
| ModalView.Modal.Open | script.js:143-234 | after `openModal` the modal is open, `aria-hidden` is "false" and the body does not scroll; its content is rebuilt from the card |
| ModalView.Modal.Show | script.js:231-233 | the final step of `openModal` opens the modal and changes no content |
| ModalView.Modal.Close | script.js:236-240 | `closeModal` always leaves the modal closed, `aria-hidden` "true" and body overflow unset, whatever the state before; the content is kept |
| Page.ProjectsPage.UpdateToolVisibility | script.js:28-40 | the loop gates every option for the category, in place, and leaves all options gated |
| Page.ProjectsPage.ApplyProjectFilters | script.js:42-58 | every card's display becomes the one the active category and selected tools give it; the result does not depend on the displays before, so a second call changes nothing |
| Page.ProjectsPage.Activate | script.js:64-65 | after activation exactly button `i` is active, nothing else about the buttons changes, and the active category is its `data-filter` |
| Page.ProjectsPage.ClickFilterButton | script.js:60-70 | with cards present, a click makes the button the only active one, gates the tools for its filter, and refilters the cards; without cards nothing changes |
| Page.ProjectsPage.ChangeTool | script.js:72-74 | a click flips exactly that checkbox and, when there are cards, its change event refilters them; flipping a visible option keeps the tool filter in agreement with the category |
| Page.ProjectsPage.FocusCategory | script.js:99-103 | a non-empty category named by some button makes the first such button the only active one, gates the tools for that category and refilters the cards; otherwise nothing changes |
| Page.ProjectsPage.FilterDeepLink | script.js:76-115 | with buttons present, a `filter` value naming a button activates it, gates the tools and refilters the cards; otherwise the tools are gated for the active category ("all" when none is active) and the cards are untouched; in every case the tool filter agrees with the active category afterwards |
| Page.ProjectsPage.ProjectDeepLink | script.js:268-289 | a blank trimmed `project` value, or one no card's `data-project` equals, changes nothing; otherwise the first such card is shown; when some button names its trimmed category, the first such button becomes the only active one, the options become exactly those the gate gives for that category, and the cards are refiltered; when none does, nothing but the modal changes |
| Page.ProjectsPage.ShowProject | script.js:274-288 | when some button names the card's trimmed category, the first such button becomes the only active one, the options become exactly those the gate gives for that category and the cards are refiltered; otherwise buttons, options and displays are unchanged; then the card's modal opens with its content |
| Page.ProjectsPage.OpenCard | script.js:242-254 | a click on a card or its "see more" button opens the modal with that card's content |
| Page.ProjectsPage.Dismiss | script.js:256-266 | the back button, a click on the backdrop and Escape close the modal; any other event changes nothing; the content is kept |
| Page.ProjectsPage.Load | script.js:76-289 | after both deep links have run, with buttons present, the tool filter agrees with the active category |
| Page.DeepLinkedCardShown | script.js:275-284 | when no tool is selected, a card whose `data-category` is one word with no surrounding white space is shown after its category is focused |
| Contact.Subject | script.js:323 | the subject is the trimmed input when it holds a non-white character and the default otherwise; it is never empty and always trimmed |
| Contact.BodyLines | script.js:321-336 | about `Body`, the nine lines joined by line feeds (script.js:326-336); read back line by line, the body is the eight fixed lines, with the trimmed name and email in place, and then the lines of the trimmed message |
| Contact.MessageRecoverable | script.js:324-336 | the body has at least nine lines, and the lines after the eighth join back into the trimmed message |
| Contact.TrimSubstring | script.js:321-322 | trimming cannot introduce a character, so single-line inputs stay single-line |

## Left out

- The `smoothScrollTo` easing and its `requestAnimationFrame` loop (script.js:83-97, 104-110): floating-point scroll interpolation and browser timing.
- The `setTimeout` delay before the deep-linked card's modal opens (script.js:287). The model opens it at once, after the category is focused.
- The IntersectionObserver reveal animations, nav compaction, hover videos and the accordion toggle: browser callbacks, layout measurements and media APIs outside the catalogue controller.
- `encodeURIComponent`, the `mailto:` URL and the navigation to it (script.js:338-339): library calls. Only the subject and body strings are modelled.
- CSS selector semantics. The filter lookups compare `data-filter` by exact string equality. In the source, a `"` or a stray backslash in the `?filter=` value (script.js:80), or in the deep-linked card's category (script.js:277), can make `querySelector` throw a SyntaxError, which stops the rest of the script. That exception is not modelled.
- Event propagation and `closest` (script.js:243-253): a click on a card or on its "see more" button is one `OpenCard` call.
- Logo cloning into the modal title (script.js:175-181). The title is an optional logo `src` plus the trimmed text.
- Absent modal parts. The `if (modalGallery)`-style guards are not modelled: the modal and all its parts are assumed present.
- Object keys inherited from the prototype. The lookups in `toolsByCategory` and `toolDisplayNames` find only the listed keys. In the source, a category such as "constructor" makes `allowed.has` throw a TypeError (script.js:33). A tool key such as "constructor" makes `text.trim` throw in `makeTag` (script.js:139, 201). Those exceptions are not modelled.
- Checkboxes under `.project-tools` that sit outside a `.tool-option`: the selected tools are read from the options' checkboxes.
- Absent attributes are "". The exception is `data-filter`, where `getAttribute` returns null and that null is compared and used as a key. Every other attribute is only read through `|| ""` or compared with a non-empty string, so absent and empty behave alike.
- Strings are sequences of Unicode scalar values, not UTF-16 code units. Surrogate pairs are not modelled.
- `aria-hidden` is a boolean and `body.style.overflow` a two-valued datatype. A gallery image's `alt` is kept as its parts (`Alt`) and rendered by `AltText`.
- Page.ProjectsPage.Load: states only that the tool filter agrees with the active category and that a shown card exists. The two deep links it runs state the rest.
