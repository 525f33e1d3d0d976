/**
  The project modal: what `openModal` derives from a card (gallery sources and images,
  title, subtitle and details with their override attributes, category line, skill and
  tool tags, the three link buttons) and the modal object whose content and open/closed
  flags `openModal` and `closeModal` rewrite.
*/
module ModalView {
  import opened Wrappers
  import opened JsString
  import opened Catalog

  /** The `alt` text of a gallery image, kept as its parts: the trimmed project name
      and the image's 1-based number, or the generic text when the card has no title.
      `AltText` renders it. */
  datatype Alt = Numbered(name: string, number: nat) | ProjectImage

  /** One `img` appended to the gallery; `lazy` stands for `loading = "lazy"`. */
  datatype GalleryImage = GalleryImage(src: string, alt: Alt, lazy: bool)

  /** A value of `document.body.style.overflow`: "" or "hidden". */
  datatype Overflow = OverflowUnset | OverflowHidden

  /** The modal title: an optional copy of the card's logo (its `src`) and a text. */
  datatype ModalTitle = ModalTitle(logo: Option<string>, text: string)

  /** A link button: its `href` (absent when removed) and its display. */
  datatype LinkButton = LinkButton(href: Option<string>, display: Display)

  /** The URLs of `data-images`: split at commas, each trimmed, blank ones dropped. */
  function ImageList(images: string): (r: seq<string>)
    ensures forall k :: 0 <= k < |r| ==> r[k] != "" && IsTrimmed(r[k])
  {
    var r := NonEmpty(TrimAll(Split(images, ',')));
    assert forall k :: 0 <= k < |r| ==> r[k] in r;
    r
  }

  /** The images the gallery shows: the `data-images` list when it has an entry, else
      the thumbnail's `src` alone, else none. */
  function GallerySources(card: Card): seq<string> {
    var images := ImageList(card.images);
    if |images| > 0 then images
    else if card.thumbnail.Some? then [card.thumbnail.value]
    else []
  }

  /** The `alt` of gallery image `index` (counted from 0). */
  function ImageAlt(title: Option<TitleElement>, index: nat): Alt {
    match title
    case Some(t) => Numbered(Trim(t.text), index + 1)
    case None => ProjectImage
  }

  /** The `alt` attribute's text: the template `${name} image ${number}`. */
  function AltText(a: Alt): string {
    match a
    case Numbered(name, number) => name + " image " + Decimal(number)
    case ProjectImage => "Project image"
  }

  /** Image `index` of a titled card is named after the trimmed title and numbered from
      1, and the number can be read back from the end of the text. */
  lemma AltTextNumbers(t: TitleElement, index: nat)
    ensures var text := AltText(ImageAlt(Some(t), index));
      && text == Trim(t.text) + " image " + Decimal(index + 1)
      && DigitsValue(text[|Trim(t.text)| + 7..]) == index + 1
  {
    var name := Trim(t.text);
    var text := name + " image " + Decimal(index + 1);
    assert text[|name| + 7..] == Decimal(index + 1);
    DecimalRoundTrip(index + 1);
  }

  /** The images `openModal` appends for `sources`. */
  function GalleryImages(sources: seq<string>, title: Option<TitleElement>): (r: seq<GalleryImage>)
    ensures |r| == |sources|
    ensures forall k :: 0 <= k < |r| ==> r[k] == GalleryImage(sources[k], ImageAlt(title, k), true)
  {
    seq(|sources|, k requires 0 <= k < |sources| => GalleryImage(sources[k], ImageAlt(title, k), true))
  }

  function TitleFor(t: TitleElement): ModalTitle {
    ModalTitle(t.logo, Trim(t.text))
  }

  /** The subtitle or details text: the trimmed override attribute when it is not blank,
      else the trimmed text of the card's own element, else "". */
  function PreferOverride(override: string, element: Option<string>): string {
    var o := Trim(override);
    if o != "" then o
    else if element.Some? then Trim(element.value)
    else ""
  }

  function CategoryLine(category: string): string {
    if category != "" then "Category: " + category else ""
  }

  /** The skill tags: the non-empty comma-separated entries, each then trimmed. */
  function SkillTags(skills: string): seq<string> {
    TrimAll(NonEmpty(Split(skills, ',')))
  }

  /** A tool key's display name, or the key itself when it has none. */
  function ToolLabel(tool: string): string {
    if tool in ToolDisplayNames then ToolDisplayNames[tool] else tool
  }

  function ToolLabels(tools: seq<string>): (r: seq<string>)
    ensures |r| == |tools| && forall k :: 0 <= k < |r| ==> r[k] == ToolLabel(tools[k])
  {
    seq(|tools|, k requires 0 <= k < |tools| => ToolLabel(tools[k]))
  }

  /** The tool tags: the non-empty space-separated keys, each mapped to its display
      name and trimmed. */
  function ToolTags(tools: string): seq<string> {
    TrimAll(ToolLabels(NonEmpty(Split(tools, ' '))))
  }

  /** A link button for a URL attribute: shown with the trimmed URL as `href` when that
      is not blank, else hidden with no `href`. */
  function LinkFor(url: string): LinkButton {
    var u := Trim(url);
    if u != "" then LinkButton(Some(u), InlineFlex) else LinkButton(None, Hidden)
  }

  // ---- What the derivations mean ----

  lemma {:induction false} NonEmptyOfNonEmpty(parts: seq<string>)
    requires forall k :: 0 <= k < |parts| ==> parts[k] != ""
    ensures NonEmpty(parts) == parts
    decreases |parts|
  {
    if |parts| > 0 {
      NonEmptyOfNonEmpty(parts[1..]);
      assert parts == [parts[0]] + parts[1..];
    }
  }

  lemma TrimAllOfTrimmed(parts: seq<string>)
    requires forall k :: 0 <= k < |parts| ==> IsTrimmed(parts[k])
    ensures TrimAll(parts) == parts
  {
    forall k | 0 <= k < |parts| ensures Trim(parts[k]) == parts[k] {
      assert [] + parts[k] + [] == parts[k];
      TrimOfPadded([], parts[k], []);
    }
  }

  /** `data-images` written as a comma-joined list of URLs, each possibly padded with
      white space, yields those URLs trimmed, minus the blank ones. */
  lemma ImageListOfJoin(urls: seq<string>)
    requires |urls| >= 1 && NoSep(urls, ',')
    ensures ImageList(Join(urls, ',')) == NonEmpty(TrimAll(urls))
  {
    SplitJoin(urls, ',');
  }

  /** A comma-joined list of non-empty, trimmed URLs comes back exactly, in order. */
  lemma ImageListRoundTrip(urls: seq<string>)
    requires |urls| >= 1 && NoSep(urls, ',')
    requires forall k :: 0 <= k < |urls| ==> urls[k] != "" && IsTrimmed(urls[k])
    ensures ImageList(Join(urls, ',')) == urls
  {
    ImageListOfJoin(urls);
    TrimAllOfTrimmed(urls);
    NonEmptyOfNonEmpty(urls);
  }

  /** The gallery prefers the explicit list, falls back to the thumbnail alone, and is
      empty only when there is neither. A non-blank `data-images` entry always wins. */
  lemma GalleryFallback(card: Card)
    ensures (exists k :: 0 <= k < |Split(card.images, ',')| && !AllWhite(Split(card.images, ',')[k]))
            ==> GallerySources(card) == ImageList(card.images) && |GallerySources(card)| > 0
    ensures ImageList(card.images) == [] && card.thumbnail.Some? ==>
            GallerySources(card) == [card.thumbnail.value]
    ensures GallerySources(card) == [] <==> ImageList(card.images) == [] && card.thumbnail.None?
  {
    var pieces := Split(card.images, ',');
    if k :| 0 <= k < |pieces| && !AllWhite(pieces[k]) {
      TrimEmptyIff(pieces[k]);
      assert TrimAll(pieces)[k] in TrimAll(pieces);
      assert TrimAll(pieces)[k] in ImageList(card.images);
    }
  }

  /** The override wins exactly when it holds a non-white character; the result never
      carries leading or trailing white space. */
  lemma OverridePreference(override: string, element: Option<string>)
    ensures !AllWhite(override) ==> PreferOverride(override, element) == Trim(override)
    ensures AllWhite(override) ==>
      PreferOverride(override, element) == (if element.Some? then Trim(element.value) else "")
    ensures IsTrimmed(PreferOverride(override, element))
  {
    TrimEmptyIff(override);
  }

  /** A link button is shown exactly when its URL holds a non-white character, and then
      links to the URL without its surrounding white space. */
  lemma LinkShownIff(url: string)
    ensures LinkFor(url).display == InlineFlex <==> !AllWhite(url)
    ensures LinkFor(url).display == Hidden <==> AllWhite(url)
    ensures LinkFor(url).href.Some? <==> !AllWhite(url)
    ensures !AllWhite(url) ==>
      exists lead, trail :: AllWhite(lead) && AllWhite(trail) && url == lead + LinkFor(url).href.value + trail
  {
    TrimEmptyIff(url);
    var lead, trail := TrimDecomposes(url);
  }

  /** The category line is "Category: " followed by the raw attribute, or "" when the
      attribute is empty. */
  lemma CategoryLineSpec(category: string)
    ensures CategoryLine(category) == "" <==> category == ""
    ensures category != "" ==>
      CategoryLine(category)[..10] == "Category: " && CategoryLine(category)[10..] == category
  {
  }

  /** Comma-separated skills come back trimmed, in order; an entry is dropped only when
      it is empty before trimming. */
  lemma SkillTagsOfJoin(skills: seq<string>)
    requires |skills| >= 1 && NoSep(skills, ',')
    ensures SkillTags(Join(skills, ',')) == TrimAll(NonEmpty(skills))
  {
    SplitJoin(skills, ',');
  }

  /** Unlike the image list, a skill entry made only of white space is kept and becomes
      an empty tag: `"Unity, "` gives the tags "Unity" and "", but the one image "Unity". */
  lemma BlankSkillEntryGivesEmptyTag()
    ensures SkillTags("Unity, ") == ["Unity", ""]
    ensures ImageList("Unity, ") == ["Unity"]
  {
    UnitySplit();
    UnityTrimmed();
    var parts := ["Unity", " "];
    assert NonEmpty(parts) == parts by {
      NonEmptyOfNonEmpty(parts);
    }
    assert TrimAll(parts) == ["Unity", ""];
    assert NonEmpty(["Unity", ""]) == ["Unity"] by {
      assert NonEmpty([""]) == [];
    }
  }

  lemma UnitySplit()
    ensures Split("Unity, ", ',') == ["Unity", " "]
  {
    var parts := ["Unity", " "];
    assert Join(parts, ',') == "Unity, " by {
      assert Join([" "], ',') == " ";
    }
    SplitJoin(parts, ',');
  }

  lemma UnityTrimmed()
    ensures Trim("Unity") == "Unity" && Trim(" ") == ""
  {
    assert IsTrimmed("Unity");
    assert [] + "Unity" + [] == "Unity";
    TrimOfPadded([], "Unity", []);
    TrimEmptyIff(" ");
  }

  lemma ToolLabelTrimmed(tool: string)
    requires IsTrimmed(tool)
    ensures IsTrimmed(ToolLabel(tool))
  {
  }

  /** Space-separated, non-empty, trimmed tool keys come back as their display names,
      with the raw key standing in for a key that has none. */
  lemma ToolTagsOfJoin(keys: seq<string>)
    requires |keys| >= 1 && NoSep(keys, ' ')
    requires forall k :: 0 <= k < |keys| ==> keys[k] != "" && IsTrimmed(keys[k])
    ensures ToolTags(Join(keys, ' ')) == ToolLabels(keys)
  {
    ToolKeysOfJoin(keys);
    LabelsTrimmed(keys);
  }

  lemma ToolKeysOfJoin(keys: seq<string>)
    requires |keys| >= 1 && NoSep(keys, ' ')
    requires forall k :: 0 <= k < |keys| ==> keys[k] != ""
    ensures NonEmpty(Split(Join(keys, ' '), ' ')) == keys
  {
    SplitJoin(keys, ' ');
    NonEmptyOfNonEmpty(keys);
  }

  lemma LabelsTrimmed(keys: seq<string>)
    requires forall k :: 0 <= k < |keys| ==> IsTrimmed(keys[k])
    ensures TrimAll(ToolLabels(keys)) == ToolLabels(keys)
  {
    var labels := ToolLabels(keys);
    forall k | 0 <= k < |labels| ensures IsTrimmed(labels[k]) {
      ToolLabelTrimmed(keys[k]);
    }
    TrimAllOfTrimmed(labels);
  }

  // ---- The imperative steps of openModal ----

  /** `clearNode`: removes the first child until none is left. */
  method ClearNode<T>(children: seq<T>) returns (r: seq<T>)
    ensures r == []
  {
    r := children;
    while |r| > 0
      decreases |r|
    {
      r := r[1..];
    }
  }

  /** One `img` per source, in order: the loop over `sources.forEach`. */
  method BuildGallery(sources: seq<string>, title: Option<TitleElement>) returns (imgs: seq<GalleryImage>)
    ensures imgs == GalleryImages(sources, title)
  {
    imgs := [];
    var i := 0;
    while i < |sources|
      invariant 0 <= i <= |sources|
      invariant imgs == GalleryImages(sources, title)[..i]
    {
      imgs := imgs + [GalleryImage(sources[i], ImageAlt(title, i), true)];
      i := i + 1;
    }
  }

  /** One tag per text, each made by `makeTag` (which trims), in order. */
  method BuildTags(texts: seq<string>) returns (tags: seq<string>)
    ensures |tags| == |texts|
    ensures forall k :: 0 <= k < |tags| ==> tags[k] == Trim(texts[k])
    ensures tags == TrimAll(texts)
  {
    tags := [];
    var i := 0;
    while i < |texts|
      invariant 0 <= i <= |texts|
      invariant |tags| == i
      invariant forall k :: 0 <= k < i ==> tags[k] == Trim(texts[k])
    {
      tags := tags + [Trim(texts[i])];
      i := i + 1;
    }
  }

  /** What `openModal` writes into the modal's parts. */
  datatype ModalContent = ModalContent(
    gallery: seq<GalleryImage>,
    gallerySingle: bool,           // class project-modal-gallery--single
    title: ModalTitle,
    subtitle: string,
    details: string,
    category: string,
    skillTags: seq<string>,
    toolTags: seq<string>,
    githubCpp: LinkButton,
    github: LinkButton,
    website: LinkButton)

  /** What `openModal(card)` writes into the modal's parts when the previous title is
      `previous`: the gallery, title, texts, tags and link buttons, each derived from
      the card alone, with the previous title kept when the card has none. */
  function Render(card: Card, previous: ModalTitle): ModalContent {
    var sources := GallerySources(card);
    ModalContent(
      GalleryImages(sources, card.title),
      |sources| == 1,
      if card.title.Some? then TitleFor(card.title.value) else previous,
      PreferOverride(card.modalSubtitle, card.subtitle),
      PreferOverride(card.modalDetails, card.details),
      CategoryLine(card.category),
      SkillTags(card.skills),
      ToolTags(card.tools),
      LinkFor(card.githubCpp),
      LinkFor(card.github),
      LinkFor(card.website))
  }

  /** The previous content matters only through its title, and only when the card has
      none; opening the same card again renders the same content. */
  lemma RenderDependsOnCardOnly(card: Card, p: ModalTitle, q: ModalTitle)
    ensures Render(card, p).(title := q) == Render(card, q).(title := q)
    ensures card.title.Some? ==> Render(card, p) == Render(card, q)
    ensures card.title.None? ==> Render(card, p).title == p
    ensures Render(card, Render(card, p).title) == Render(card, p)
  {
  }

  /** The rendering steps of `openModal`: each container is cleared with `clearNode` and
      refilled child by child. */
  method RenderParts(card: Card, prev: ModalContent) returns (c: ModalContent)
    ensures c == Render(card, prev.title)
  {
    var gallery := ClearNode(prev.gallery);
    var sources := GallerySources(card);
    var imgs := BuildGallery(sources, card.title);
    gallery := gallery + imgs;
    assert gallery == GalleryImages(sources, card.title);

    var skillTags := ClearNode(prev.skillTags);
    var skills := BuildTags(NonEmpty(Split(card.skills, ',')));
    skillTags := skillTags + skills;
    assert skillTags == SkillTags(card.skills);

    var toolTags := ClearNode(prev.toolTags);
    var tools := BuildTags(ToolLabels(NonEmpty(Split(card.tools, ' '))));
    toolTags := toolTags + tools;
    assert toolTags == ToolTags(card.tools);

    var title := if card.title.Some? then TitleFor(card.title.value) else prev.title;
    c := ModalContent(gallery, |sources| == 1, title,
                      PreferOverride(card.modalSubtitle, card.subtitle),
                      PreferOverride(card.modalDetails, card.details),
                      CategoryLine(card.category), skillTags, toolTags,
                      LinkFor(card.githubCpp), LinkFor(card.github), LinkFor(card.website));
  }

  /** The `.project-modal` element: the content of its parts, its open/closed flags and
      the page's body overflow that it locks. */
  class Modal {
    var content: ModalContent
    var isOpen: bool                 // class is-open
    var ariaHidden: bool             // attribute aria-hidden: "true" or "false"
    var bodyOverflow: Overflow       // document.body.style.overflow

    predicate IsClosed()
      reads this
    {
      !isOpen && ariaHidden && bodyOverflow == OverflowUnset
    }

    predicate IsShown()
      reads this
    {
      isOpen && !ariaHidden && bodyOverflow == OverflowHidden
    }

    /** The modal as the page is loaded: closed and empty. */
    constructor ()
      ensures IsClosed()
      ensures content.gallery == [] && content.skillTags == [] && content.toolTags == []
    {
      content := ModalContent([], false, ModalTitle(None, ""), "", "", "", [], [],
                              LinkButton(None, Hidden), LinkButton(None, Hidden), LinkButton(None, Hidden));
      isOpen, ariaHidden, bodyOverflow := false, true, OverflowUnset;
    }

    /** `openModal(card)`: rebuilds every part from the card and opens the modal. */
    method Open(card: Card)
      modifies this
      ensures IsShown()
      ensures content == Render(card, old(content.title))
    {
      var c := RenderParts(card, content);
      content := c;
      Show();
    }

    /** The last step of `openModal`: adds `is-open`, sets `aria-hidden` to "false" and
        locks the page's scrolling. */
    method Show()
      modifies this
      ensures IsShown()
      ensures content == old(content)
    {
      isOpen := true;
      ariaHidden := false;
      bodyOverflow := OverflowHidden;
    }

    /** `closeModal()`: closes unconditionally and leaves the content as it is. */
    method Close()
      modifies this
      ensures IsClosed()
      ensures content == old(content)
    {
      isOpen := false;
      ariaHidden := true;
      bodyOverflow := OverflowUnset;
    }
  }
}
