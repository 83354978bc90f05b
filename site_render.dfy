/**
 * The `PersonalSite` renderer of main.js: template functions from the site
 * document's values to markup, the section dispatcher, and `render`, which
 * rebuilds the page container from the optional parts of the document.
 */
module SiteRender {
  import opened Html

  /** The bullet before an item's location, as the file spells it (a doubly encoded "•"). */
  const LocationBullet: string := " â€¢ "

  datatype ContactItem = ContactItem(url: Option<string>, icon: Option<string>, labelText: Option<string>)

  datatype Personal = Personal(
    name: Option<string>,
    title: Option<string>,
    bio: Option<string>,
    image: Option<string>,
    contact: Option<seq<ContactItem>>)

  /** A timeline entry of the data document. */
  datatype Entry = Entry(
    title: Option<string>,
    subtitle: Option<string>,
    location: Option<string>,
    duration: Option<string>,
    description: Option<string>,
    details: Option<seq<string>>,
    tags: Option<seq<string>>)

  /** An element of `section.items`: a plain string (tags) or a record (timeline). */
  datatype Item = Str(s: string) | Rec(entry: Entry)

  /** The transient view model handed to the section renderers. */
  datatype Section = Section(id: string, title: string, link: Option<string>, kind: Option<string>, items: seq<Item>)

  datatype SiteData = SiteData(
    personal: Option<Personal>,
    experience: Option<seq<Entry>>,
    education: Option<seq<Entry>>,
    thoughts: Option<seq<Entry>>,
    projects: Option<seq<Entry>>)

  /** The fields `item.title`, `item.location`, ... of an item; a string has none of them. */
  function Fields(item: Item): Entry {
    match item
    case Rec(e) => e
    case Str(_) => Entry(None, None, None, None, None, None, None)
  }

  /** `${item}`: a record prints as "[object Object]". */
  function ItemText(item: Item): string {
    match item
    case Str(s) => s
    case Rec(_) => "[object Object]"
  }

  // ---------------------------------------------------------------------------
  // Template functions

  /** One contact link: it points at `url` and opens a new tab exactly when `url` is truthy. */
  function ContactLink(c: ContactItem): (a: Node)
    ensures a.Element? && AttrOf(a.attrs, "href") == Some(Interp(c.url))
    ensures AttrOf(a.attrs, "target") == Some("_blank") <==> Truthy(c.url)
  {
    Element("a", ["contact-link"],
      [Attr("href", Interp(c.url))] + (if Truthy(c.url) then [Attr("target", "_blank")] else []),
      [Element("div", ["contact-item"], [],
        [Element("img", ["contact-icon"], [Attr("src", Interp(c.icon)), Attr("alt", Interp(c.labelText))], [])])])
  }

  function ContactBlock(contact: Option<seq<ContactItem>>): seq<Node> {
    match contact
    case None => []
    case Some(items) => [Element("div", ["contact-links"], [], MapNodes(items, ContactLink))]
  }

  function RenderPersonal(p: Personal): seq<Node> {
    [Element("section", [], [Attr("id", "personal")], [
      PersonalHeader(p),
      Element("main", [], [], [BioParagraph(p)] + ContactBlock(p.contact))])]
  }

  /** The `<header>` of the personal section: image, name and title. */
  function PersonalHeader(p: Personal): Node {
    Element("header", [], [], [ProfileImage(p), NameHeading(p), TitleCaption(p)])
  }

  function ProfileImage(p: Personal): Node {
    Element("img", ["profile-image"], [Attr("src", Interp(p.image)), Attr("alt", Interp(p.name))], [])
  }

  function NameHeading(p: Personal): Node {
    Element("h1", ["name"], [], [Text(Interp(p.name))])
  }

  function TitleCaption(p: Personal): Node {
    Element("p", ["title"], [], [Text(Interp(p.title))])
  }

  function BioParagraph(p: Personal): Node {
    Element("p", ["bio"], [], [Text(Interp(p.bio))])
  }

  /** The content of a section's `<h2>`: an in-page anchor when `link` is truthy. */
  function Heading(title: string, link: Option<string>): seq<Node> {
    if Truthy(link) then [Element("a", ["section-title-link"], [Attr("href", "#" + link.value)], [Text(title)])]
    else [Text(title)]
  }

  function Tag(text: string): Node {
    Element("span", ["tag"], [], [Text(text)])
  }

  function ItemTag(item: Item): Node {
    Tag(ItemText(item))
  }

  function DetailItem(detail: string): Node {
    Element("li", [], [], [Text(detail)])
  }

  function RenderDetails(details: seq<string>): Node {
    Element("ul", ["item-details"], [], MapNodes(details, DetailItem))
  }

  function RenderTags(tags: seq<string>): Node {
    Element("div", ["item-tags"], [], MapNodes(tags, Tag))
  }

  function ItemLocation(location: Option<string>): seq<Node> {
    if Truthy(location) then [Element("span", ["item-location"], [], [Text(LocationBullet + location.value)])] else []
  }

  function ItemDuration(duration: Option<string>): seq<Node> {
    if Truthy(duration) then [Element("span", ["item-duration"], [], [Text(duration.value)])] else []
  }

  function ItemDescription(description: Option<string>): seq<Node> {
    if Truthy(description) then [Element("p", ["item-description"], [], [Text(description.value)])] else []
  }

  function ItemDetails(details: Option<seq<string>>): seq<Node> {
    if details.Some? then [RenderDetails(details.value)] else []
  }

  function ItemTags(tags: Option<seq<string>>): seq<Node> {
    if tags.Some? then [RenderTags(tags.value)] else []
  }

  function ItemHeader(e: Entry): Node {
    Element("div", ["item-header"], [], [TitleRow(e)] + ItemDuration(e.duration))
  }

  /** The title, the subtitle and the optional location of an item header. */
  function TitleRow(e: Entry): Node {
    Element("div", [], [], [ItemTitle(e), ItemSubtitle(e)] + ItemLocation(e.location))
  }

  function ItemTitle(e: Entry): Node {
    Element("h3", ["item-title"], [], [Text(Interp(e.title))])
  }

  function ItemSubtitle(e: Entry): Node {
    Element("span", ["item-subtitle"], [], [Text(Interp(e.subtitle))])
  }

  /** One timeline item block. */
  function RenderItem(item: Item): Node {
    EntryBlock(Fields(item))
  }

  function EntryBlock(e: Entry): Node {
    Element("div", ["item"], [],
      [ItemHeader(e)] + ItemDescription(e.description) + ItemDetails(e.details) + ItemTags(e.tags))
  }

  /** The `<section>` both section renderers produce: a heading, then the content. */
  function SectionFrame(kind: string, s: Section, content: seq<Node>): Node {
    Element("section", ["section", kind], [Attr("id", s.id)], [
      Element("h2", ["section-title"], [], Heading(s.title, s.link)),
      Element("div", ["section-content"], [], content)])
  }

  function RenderTagsSection(s: Section): seq<Node> {
    [SectionFrame("tags", s, MapNodes(s.items, ItemTag))]
  }

  function RenderTimelineSection(s: Section): seq<Node> {
    [SectionFrame("timeline", s, MapNodes(s.items, RenderItem))]
  }

  /** `renderSection`: "tags" goes to the tag cloud, every other type (or none) to the timeline. */
  function RenderSection(s: Section): (r: seq<Node>)
    ensures |r| == 1 && r[0].Element? && r[0].tag == "section"
    ensures TopIds(r) == [s.id]
    ensures "tags" in r[0].classes <==> s.kind == Some("tags")
    ensures "timeline" in r[0].classes <==> s.kind != Some("tags")
  {
    if s.kind == Some("tags") then RenderTagsSection(s) else RenderTimelineSection(s)
  }

  // ---------------------------------------------------------------------------
  // Properties of the template functions

  /** `renderDetails`: one `<li>` per detail, in order, each holding that detail. */
  lemma DetailsList(details: seq<string>)
    ensures OnePerText(Find([RenderDetails(details)], ByTag("li")), details)
  {
    var ul := RenderDetails(details);
    assert Find([ul], ByTag("li")) == FindIn(ul, ByTag("li"));
    forall i | 0 <= i < |details|
      ensures IsBlock(DetailItem(details[i]), ByTag("li"))
      ensures TextOf([DetailItem(details[i])]) == details[i]
    {
      FindLeaf(DetailItem(details[i]), ByTag("li"));
    }
    FindMapBlocks(details, DetailItem, ByTag("li"));
  }

  /** `renderTags`: one tag span per tag, in order, each holding that tag. */
  lemma TagsList(tags: seq<string>)
    ensures OnePerText(Find([RenderTags(tags)], ByClass("tag")), tags)
  {
    var div := RenderTags(tags);
    assert Find([div], ByClass("tag")) == FindIn(div, ByClass("tag"));
    forall i | 0 <= i < |tags|
      ensures IsBlock(Tag(tags[i]), ByClass("tag"))
      ensures TextOf([Tag(tags[i])]) == tags[i]
    {
      FindLeaf(Tag(tags[i]), ByClass("tag"));
    }
    FindMapBlocks(tags, Tag, ByClass("tag"));
  }

  /** The header of an item block split into its parts, for any selector. */
  lemma HeaderFind(e: Entry, sel: Selector)
    ensures Find([ItemHeader(e)], sel) ==
              (if Matches(ItemHeader(e), sel) then [ItemHeader(e)] else [])
              + Find([TitleRow(e)], sel) + Find(ItemDuration(e.duration), sel)
  {
    var h := ItemHeader(e);
    FindElement(h, sel);
    FindAppend([TitleRow(e)], ItemDuration(e.duration), sel);
  }

  /** The item block split into its parts, for any selector. */
  lemma ItemFind(e: Entry, sel: Selector)
    ensures Find([EntryBlock(e)], sel) ==
              (if Matches(EntryBlock(e), sel) then [EntryBlock(e)] else [])
              + (Find([ItemHeader(e)], sel)
                 + Find(ItemDescription(e.description), sel) + Find(ItemDetails(e.details), sel)
                 + Find(ItemTags(e.tags), sel))
  {
    FindElementParts(EntryBlock(e), [ItemHeader(e)], ItemDescription(e.description), ItemDetails(e.details),
      ItemTags(e.tags), sel);
  }

  /** Details and tag lists carry no class but their own ones. */
  lemma ListsFindClass(e: Entry, c: string)
    ensures c != "item-details" ==> Find(ItemDetails(e.details), ByClass(c)) == []
    ensures c != "item-tags" && c != "tag" ==> Find(ItemTags(e.tags), ByClass(c)) == []
  {
    if e.details.Some? && c != "item-details" {
      var ds := e.details.value;
      forall i | 0 <= i < |ds| ensures FindIn(DetailItem(ds[i]), ByClass(c)) == [] {
        assert Find([Text(ds[i])], ByClass(c)) == [];
      }
      FindMapNone(ds, DetailItem, ByClass(c));
      FindElement(RenderDetails(ds), ByClass(c));
    }
    if e.tags.Some? && c != "item-tags" && c != "tag" {
      var ts := e.tags.value;
      forall i | 0 <= i < |ts| ensures FindIn(Tag(ts[i]), ByClass(c)) == [] {
        assert Find([Text(ts[i])], ByClass(c)) == [];
      }
      FindMapNone(ts, Tag, ByClass(c));
      FindElement(RenderTags(ts), ByClass(c));
    }
  }

  /** The header's matches of a class other than its fixed ones come from the optional spans. */
  lemma HeaderFindClass(e: Entry, c: string)
    requires c !in {"item-header", "item-title", "item-subtitle"}
    ensures Find([ItemHeader(e)], ByClass(c)) ==
              Find(ItemLocation(e.location), ByClass(c)) + Find(ItemDuration(e.duration), ByClass(c))
  {
    var sel := ByClass(c);
    TitleRowFindClass(e, c);
    HeaderFind(e, sel);
  }

  /** The title row's matches of a class other than its title and subtitle come from the location span. */
  lemma TitleRowFindClass(e: Entry, c: string)
    requires c != "item-title" && c != "item-subtitle"
    ensures Find([TitleRow(e)], ByClass(c)) == Find(ItemLocation(e.location), ByClass(c))
  {
    var sel := ByClass(c);
    FindFrame(TitleRow(e), ItemTitle(e), ItemSubtitle(e), ItemLocation(e.location), sel);
    FindLeaf(ItemTitle(e), sel);
    FindLeaf(ItemSubtitle(e), sel);
  }

  /** The matches of a class that only the optional spans and paragraph carry. */
  lemma ItemFindClass(e: Entry, c: string)
    requires c !in {"item", "item-header", "item-title", "item-subtitle", "item-details", "item-tags", "tag"}
    ensures Find([EntryBlock(e)], ByClass(c)) ==
              Find(ItemLocation(e.location), ByClass(c)) + Find(ItemDuration(e.duration), ByClass(c))
              + Find(ItemDescription(e.description), ByClass(c))
  {
    var sel := ByClass(c);
    HeaderFindClass(e, c);
    assert Find(ItemDetails(e.details), sel) == [] && Find(ItemTags(e.tags), sel) == [] by {
      ListsFindClass(e, c);
    }
    ItemFind(e, sel);
  }

  /** The optional spans and paragraph carry only their own classes. */
  lemma OptionalPartsFindClass(e: Entry, c: string)
    requires c !in {"item-location", "item-duration", "item-description"}
    ensures Find(ItemLocation(e.location), ByClass(c)) == []
    ensures Find(ItemDuration(e.duration), ByClass(c)) == []
    ensures Find(ItemDescription(e.description), ByClass(c)) == []
  {
    if Truthy(e.location) { FindLeaf(ItemLocation(e.location)[0], ByClass(c)); }
    if Truthy(e.duration) { FindLeaf(ItemDuration(e.duration)[0], ByClass(c)); }
    if Truthy(e.description) { FindLeaf(ItemDescription(e.description)[0], ByClass(c)); }
  }

  /** An item block's matches of its title or subtitle class are those of the two heading nodes. */
  lemma ItemHeadingsFind(e: Entry, c: string)
    requires c == "item-title" || c == "item-subtitle"
    ensures Find([EntryBlock(e)], ByClass(c)) == Find([ItemTitle(e)], ByClass(c)) + Find([ItemSubtitle(e)], ByClass(c))
  {
    var sel := ByClass(c);
    OptionalPartsFindClass(e, c);
    ListsFindClass(e, c);
    assert Find([TitleRow(e)], sel) == Find([ItemTitle(e)], sel) + Find([ItemSubtitle(e)], sel) by {
      FindFrame(TitleRow(e), ItemTitle(e), ItemSubtitle(e), ItemLocation(e.location), sel);
    }
    HeaderFind(e, sel);
    ItemFind(e, sel);
  }

  /**
   * Every item block shows its title in its one `item-title` heading and its
   * subtitle in its one `item-subtitle` span, present or not.
   */
  lemma ItemTitleShown(item: Item)
    ensures OnePerText(Find([RenderItem(item)], ByClass("item-title")), [Interp(Fields(item).title)])
    ensures OnePerText(Find([RenderItem(item)], ByClass("item-subtitle")), [Interp(Fields(item).subtitle)])
  {
    var e := Fields(item);
    assert Find([RenderItem(item)], ByClass("item-title")) == [ItemTitle(e)] by {
      ItemHeadingsFind(e, "item-title");
      FindLeaf(ItemTitle(e), ByClass("item-title"));
      FindLeaf(ItemSubtitle(e), ByClass("item-title"));
    }
    assert Find([RenderItem(item)], ByClass("item-subtitle")) == [ItemSubtitle(e)] by {
      ItemHeadingsFind(e, "item-subtitle");
      FindLeaf(ItemTitle(e), ByClass("item-subtitle"));
      FindLeaf(ItemSubtitle(e), ByClass("item-subtitle"));
    }
    LeafText(ItemTitle(e));
    LeafText(ItemSubtitle(e));
  }

  /** `item.location ? <span class="item-location"> • location</span> : ''` */
  lemma ItemLocationShown(item: Item)
    ensures var loc := Fields(item).location;
            OnePerText(Find([RenderItem(item)], ByClass("item-location")),
                       if Truthy(loc) then [LocationBullet + loc.value] else [])
  {
    var e := Fields(item);
    var sel := ByClass("item-location");
    ItemFindClass(e, "item-location");
    assert Find(ItemDuration(e.duration), sel) == [] by {
      if Truthy(e.duration) { FindLeaf(ItemDuration(e.duration)[0], sel); }
    }
    assert Find(ItemDescription(e.description), sel) == [] by {
      if Truthy(e.description) { FindLeaf(ItemDescription(e.description)[0], sel); }
    }
    if Truthy(e.location) {
      assert Find(ItemLocation(e.location), sel) == ItemLocation(e.location) by { FindLeaf(ItemLocation(e.location)[0], sel); }
      LeafText(ItemLocation(e.location)[0]);
    }
  }

  /** `item.duration ? <span class="item-duration">duration</span> : ''` */
  lemma ItemDurationShown(item: Item)
    ensures var dur := Fields(item).duration;
            OnePerText(Find([RenderItem(item)], ByClass("item-duration")),
                       if Truthy(dur) then [dur.value] else [])
  {
    var e := Fields(item);
    var sel := ByClass("item-duration");
    ItemFindClass(e, "item-duration");
    assert Find(ItemLocation(e.location), sel) == [] by {
      if Truthy(e.location) { FindLeaf(ItemLocation(e.location)[0], sel); }
    }
    assert Find(ItemDescription(e.description), sel) == [] by {
      if Truthy(e.description) { FindLeaf(ItemDescription(e.description)[0], sel); }
    }
    if Truthy(e.duration) {
      assert Find(ItemDuration(e.duration), sel) == ItemDuration(e.duration) by { FindLeaf(ItemDuration(e.duration)[0], sel); }
      LeafText(ItemDuration(e.duration)[0]);
    }
  }

  /** `item.description ? <p class="item-description">description</p> : ''` */
  lemma ItemDescriptionShown(item: Item)
    ensures var desc := Fields(item).description;
            OnePerText(Find([RenderItem(item)], ByClass("item-description")),
                       if Truthy(desc) then [desc.value] else [])
  {
    var e := Fields(item);
    var sel := ByClass("item-description");
    ItemFindClass(e, "item-description");
    assert Find(ItemLocation(e.location), sel) == [] by {
      if Truthy(e.location) { FindLeaf(ItemLocation(e.location)[0], sel); }
    }
    assert Find(ItemDuration(e.duration), sel) == [] by {
      if Truthy(e.duration) { FindLeaf(ItemDuration(e.duration)[0], sel); }
    }
    if Truthy(e.description) {
      assert Find(ItemDescription(e.description), sel) == ItemDescription(e.description) by { FindLeaf(ItemDescription(e.description)[0], sel); }
      LeafText(ItemDescription(e.description)[0]);
    }
  }

  /** `item.details ? renderDetails(item.details) : ''`: a present list, even an empty one, yields the list. */
  lemma ItemDetailsShown(item: Item)
    ensures var details := Fields(item).details;
            var found := Find([RenderItem(item)], ByClass("item-details"));
            && (found != [] <==> details.Some?)
            && (details.Some? ==> |found| == 1 && OnePerText(Find([found[0]], ByTag("li")), details.value))
  {
    var e := Fields(item);
    var sel := ByClass("item-details");
    HeaderFindClass(e, "item-details");
    OptionalPartsFindClass(e, "item-details");
    ListsFindClass(e, "item-details");
    if e.details.Some? {
      var ds := e.details.value;
      forall i | 0 <= i < |ds| ensures FindIn(DetailItem(ds[i]), sel) == [] {
        FindLeaf(DetailItem(ds[i]), sel);
      }
      FindMapNone(ds, DetailItem, sel);
      FindElement(RenderDetails(ds), sel);
      DetailsList(ds);
    }
    ItemFind(e, sel);
  }

  /** `item.tags ? renderTags(item.tags) : ''`: a present list, even an empty one, yields the tag row. */
  lemma ItemTagsShown(item: Item)
    ensures var tags := Fields(item).tags;
            var found := Find([RenderItem(item)], ByClass("item-tags"));
            && (found != [] <==> tags.Some?)
            && (tags.Some? ==> |found| == 1 && OnePerText(Find([found[0]], ByClass("tag")), tags.value))
  {
    var e := Fields(item);
    var sel := ByClass("item-tags");
    HeaderFindClass(e, "item-tags");
    OptionalPartsFindClass(e, "item-tags");
    ListsFindClass(e, "item-tags");
    if e.tags.Some? {
      var ts := e.tags.value;
      forall i | 0 <= i < |ts| ensures FindIn(Tag(ts[i]), sel) == [] {
        FindLeaf(Tag(ts[i]), sel);
      }
      FindMapNone(ts, Tag, sel);
      FindElement(RenderTags(ts), sel);
      TagsList(ts);
    }
    ItemFind(e, sel);
  }

  /** An item block carries the class "item" on its root only, and no foreign class at all. */
  lemma ItemClasses(item: Item, c: string)
    requires c !in {"item-header", "item-title", "item-subtitle", "item-location", "item-duration",
                    "item-description", "item-details", "item-tags", "tag"}
    ensures FindIn(RenderItem(item), ByClass(c)) == if c == "item" then [RenderItem(item)] else []
  {
    var e := Fields(item);
    var sel := ByClass(c);
    HeaderFindClass(e, c);
    OptionalPartsFindClass(e, c);
    ListsFindClass(e, c);
    ItemFind(e, sel);
    assert [RenderItem(item)][1..] == [];
  }

  /** The rule for a section heading, shared by both section renderers. */
  predicate HeadingLinkRule(r: seq<Node>, s: Section) {
    var links := Find(r, ByClass("section-title-link"));
    && (links != [] <==> Truthy(s.link))
    && (Truthy(s.link) ==>
          |links| == 1 && links[0].Element? &&
          AttrOf(links[0].attrs, "href") == Some("#" + s.link.value) && TextOf([links[0]]) == s.title)
  }

  /** `titleContent`: an anchor to "#" + link exactly when link is truthy; the title is shown either way. */
  lemma HeadingRule(s: Section)
    ensures HeadingLinkRule(Heading(s.title, s.link), s)
    ensures TextOf(Heading(s.title, s.link)) == s.title
  {
    var h := Heading(s.title, s.link);
    if Truthy(s.link) {
      FindLeaf(h[0], ByClass("section-title-link"));
    } else {
      assert h[1..] == [];
    }
  }

  /** The section wrapper: heading, then the content forest. */
  lemma SectionFind(kind: string, s: Section, content: seq<Node>, cls: string)
    requires cls !in {"section", kind, "section-title", "section-content"}
    ensures Find([SectionFrame(kind, s, content)], ByClass(cls)) == Find(Heading(s.title, s.link), ByClass(cls)) + Find(content, ByClass(cls))
  {
    var sel := ByClass(cls);
    var h2 := Element("h2", ["section-title"], [], Heading(s.title, s.link));
    var div := Element("div", ["section-content"], [], content);
    assert Find([h2], sel) == Find(Heading(s.title, s.link), sel) by { FindElement(h2, sel); }
    assert Find([div], sel) == Find(content, sel) by { FindElement(div, sel); }
    FindPair(h2, div, sel);
    FindElement(SectionFrame(kind, s, content), sel);
  }

  /** The heading holds no element of any class but its anchor's. */
  lemma HeadingFindClass(s: Section, cls: string)
    requires cls != "section-title-link"
    ensures Find(Heading(s.title, s.link), ByClass(cls)) == []
  {
    if Truthy(s.link) {
      FindLeaf(Heading(s.title, s.link)[0], ByClass(cls));
    } else {
      assert Heading(s.title, s.link)[1..] == [];
    }
  }

  /** `renderTimelineSection`: one item block per element of `items`, in order, under the heading rule. */
  lemma TimelineSectionShape(s: Section)
    ensures Find(RenderTimelineSection(s), ByClass("item")) == MapNodes(s.items, RenderItem)
    ensures |Find(RenderTimelineSection(s), ByClass("item"))| == |s.items|
    ensures HeadingLinkRule(RenderTimelineSection(s), s)
  {
    TimelineItems(s);
    TimelineHeading(s);
  }

  lemma TimelineItems(s: Section)
    ensures Find(RenderTimelineSection(s), ByClass("item")) == MapNodes(s.items, RenderItem)
  {
    var items := MapNodes(s.items, RenderItem);
    SectionFind("timeline", s, items, "item");
    forall i | 0 <= i < |s.items| ensures IsBlock(RenderItem(s.items[i]), ByClass("item")) {
      ItemClasses(s.items[i], "item");
      FindElement(RenderItem(s.items[i]), ByClass("item"));
    }
    FindMapBlocks(s.items, RenderItem, ByClass("item"));
    HeadingFindClass(s, "item");
  }

  lemma TimelineHeading(s: Section)
    ensures HeadingLinkRule(RenderTimelineSection(s), s)
  {
    var items := MapNodes(s.items, RenderItem);
    var sel := ByClass("section-title-link");
    assert Find(RenderTimelineSection(s), sel) == Find(Heading(s.title, s.link), sel) by {
      SectionFind("timeline", s, items, "section-title-link");
      forall i | 0 <= i < |s.items| ensures FindIn(RenderItem(s.items[i]), sel) == [] {
        ItemClasses(s.items[i], "section-title-link");
      }
      FindMapNone(s.items, RenderItem, sel);
    }
    HeadingRule(s);
  }

  /** The text of every element of `items`, as `${item}` prints it. */
  function ItemTexts(items: seq<Item>): seq<string> {
    seq(|items|, i requires 0 <= i < |items| => ItemText(items[i]))
  }

  /** `renderTagsSection`: one tag span per element of `items`, in order, under the heading rule. */
  lemma TagsSectionShape(s: Section)
    ensures OnePerText(Find(RenderTagsSection(s), ByClass("tag")), ItemTexts(s.items))
    ensures HeadingLinkRule(RenderTagsSection(s), s)
  {
    TagsItems(s);
    TagsHeading(s);
  }

  lemma TagsItems(s: Section)
    ensures OnePerText(Find(RenderTagsSection(s), ByClass("tag")), ItemTexts(s.items))
  {
    var tags := MapNodes(s.items, ItemTag);
    assert Find(RenderTagsSection(s), ByClass("tag")) == tags by {
      SectionFind("tags", s, tags, "tag");
      forall i | 0 <= i < |s.items| ensures IsBlock(ItemTag(s.items[i]), ByClass("tag")) {
        FindLeaf(ItemTag(s.items[i]), ByClass("tag"));
      }
      FindMapBlocks(s.items, ItemTag, ByClass("tag"));
      HeadingFindClass(s, "tag");
    }
    forall i | 0 <= i < |s.items| ensures TextOf([ItemTag(s.items[i])]) == ItemText(s.items[i]) {
      FindLeaf(ItemTag(s.items[i]), ByClass("tag"));
    }
  }

  lemma TagsHeading(s: Section)
    ensures HeadingLinkRule(RenderTagsSection(s), s)
  {
    var tags := MapNodes(s.items, ItemTag);
    var sel := ByClass("section-title-link");
    assert Find(RenderTagsSection(s), sel) == Find(Heading(s.title, s.link), sel) by {
      SectionFind("tags", s, tags, "section-title-link");
      forall i | 0 <= i < |s.items| ensures FindIn(ItemTag(s.items[i]), sel) == [] {
        FindLeaf(ItemTag(s.items[i]), sel);
      }
      FindMapNone(s.items, ItemTag, sel);
    }
    HeadingRule(s);
  }

  // ---------------------------------------------------------------------------
  // The personal section

  /** A contact link is one block of its class, with nothing of the timeline classes inside. */
  lemma ContactLinkFind(c: ContactItem, cls: string)
    requires cls !in {"contact-item", "contact-icon"}
    ensures FindIn(ContactLink(c), ByClass(cls)) == if cls == "contact-link" then [ContactLink(c)] else []
  {
    var a := ContactLink(c);
    var div := a.children[0];
    var img := div.children[0];
    FindElement(a, ByClass(cls));
    FindElement(div, ByClass(cls));
    FindElement(img, ByClass(cls));
    assert [a][1..] == [];
  }

  /** The personal section's matches of any class but its fixed ones lie in the contact block. */
  lemma PersonalFindClass(p: Personal, cls: string)
    requires cls !in {"profile-image", "name", "title", "bio"}
    ensures Find(RenderPersonal(p), ByClass(cls)) == Find(ContactBlock(p.contact), ByClass(cls))
  {
    var sel := ByClass(cls);
    PersonalParts(p, cls);
    assert Find([ProfileImage(p)], sel) == [] by { FindElement(ProfileImage(p), sel); }
    assert Find([NameHeading(p)], sel) == [] by { FindLeaf(NameHeading(p), sel); }
    assert Find([TitleCaption(p)], sel) == [] by { FindLeaf(TitleCaption(p), sel); }
    assert Find([BioParagraph(p)], sel) == [] by { FindLeaf(BioParagraph(p), sel); }
  }

  /** The contact block holds nothing of a class other than its own four. */
  lemma ContactBlockNone(contact: Option<seq<ContactItem>>, cls: string)
    requires cls !in {"contact-links", "contact-link", "contact-item", "contact-icon"}
    ensures Find(ContactBlock(contact), ByClass(cls)) == []
  {
    if contact.Some? {
      var items := contact.value;
      forall i | 0 <= i < |items|
        ensures FindIn(ContactLink(items[i]), ByClass(cls)) == []
      {
        ContactLinkFind(items[i], cls);
      }
      FindMapNone(items, ContactLink, ByClass(cls));
      FindElement(ContactBlock(contact)[0], ByClass(cls));
    }
  }

  /** The personal section's matches of a class, part by part. */
  lemma PersonalParts(p: Personal, cls: string)
    ensures Find(RenderPersonal(p), ByClass(cls)) ==
              Find([ProfileImage(p)], ByClass(cls)) + Find([NameHeading(p)], ByClass(cls))
              + Find([TitleCaption(p)], ByClass(cls)) + Find([BioParagraph(p)], ByClass(cls))
              + Find(ContactBlock(p.contact), ByClass(cls))
  {
    var sel := ByClass(cls);
    var main := Element("main", [], [], [BioParagraph(p)] + ContactBlock(p.contact));
    var section := Element("section", [], [Attr("id", "personal")], [PersonalHeader(p), main]);
    assert Find([PersonalHeader(p)], sel) ==
           Find([ProfileImage(p)], sel) + Find([NameHeading(p)], sel) + Find([TitleCaption(p)], sel) by {
      FindTriple(ProfileImage(p), NameHeading(p), TitleCaption(p), sel);
      FindElement(PersonalHeader(p), sel);
    }
    assert Find([main], sel) == Find([BioParagraph(p)], sel) + Find(ContactBlock(p.contact), sel) by {
      FindElement(main, sel);
      FindAppend([BioParagraph(p)], ContactBlock(p.contact), sel);
    }
    assert Find([section], sel) == Find([PersonalHeader(p), main], sel) by { FindElement(section, sel); }
    FindPair(PersonalHeader(p), main, sel);
  }

  /** The fixed parts of the personal section, searched for one of their own classes. */
  lemma PersonalFixedParts(p: Personal, cls: string)
    requires cls in {"profile-image", "name", "title", "bio"}
    ensures Find(RenderPersonal(p), ByClass(cls)) ==
              Find([ProfileImage(p)], ByClass(cls)) + Find([NameHeading(p)], ByClass(cls))
              + Find([TitleCaption(p)], ByClass(cls)) + Find([BioParagraph(p)], ByClass(cls))
  {
    PersonalParts(p, cls);
    ContactBlockNone(p.contact, cls);
  }

  lemma PersonalImage(p: Personal)
    ensures Find(RenderPersonal(p), ByClass("profile-image")) == [ProfileImage(p)]
  {
    var sel := ByClass("profile-image");
    PersonalFixedParts(p, "profile-image");
    assert Find([ProfileImage(p)], sel) == [ProfileImage(p)] by { FindElement(ProfileImage(p), sel); }
    assert Find([NameHeading(p)], sel) == [] by { FindLeaf(NameHeading(p), sel); }
    assert Find([TitleCaption(p)], sel) == [] by { FindLeaf(TitleCaption(p), sel); }
    assert Find([BioParagraph(p)], sel) == [] by { FindLeaf(BioParagraph(p), sel); }
  }

  lemma PersonalName(p: Personal)
    ensures Find(RenderPersonal(p), ByClass("name")) == [NameHeading(p)]
  {
    var sel := ByClass("name");
    PersonalFixedParts(p, "name");
    assert Find([ProfileImage(p)], sel) == [] by { FindElement(ProfileImage(p), sel); }
    assert Find([NameHeading(p)], sel) == [NameHeading(p)] by { FindLeaf(NameHeading(p), sel); }
    assert Find([TitleCaption(p)], sel) == [] by { FindLeaf(TitleCaption(p), sel); }
    assert Find([BioParagraph(p)], sel) == [] by { FindLeaf(BioParagraph(p), sel); }
  }

  lemma PersonalTitle(p: Personal)
    ensures Find(RenderPersonal(p), ByClass("title")) == [TitleCaption(p)]
  {
    var sel := ByClass("title");
    PersonalFixedParts(p, "title");
    assert Find([ProfileImage(p)], sel) == [] by { FindElement(ProfileImage(p), sel); }
    assert Find([NameHeading(p)], sel) == [] by { FindLeaf(NameHeading(p), sel); }
    assert Find([TitleCaption(p)], sel) == [TitleCaption(p)] by { FindLeaf(TitleCaption(p), sel); }
    assert Find([BioParagraph(p)], sel) == [] by { FindLeaf(BioParagraph(p), sel); }
  }

  lemma PersonalBio(p: Personal)
    ensures Find(RenderPersonal(p), ByClass("bio")) == [BioParagraph(p)]
  {
    var sel := ByClass("bio");
    PersonalFixedParts(p, "bio");
    assert Find([ProfileImage(p)], sel) == [] by { FindElement(ProfileImage(p), sel); }
    assert Find([NameHeading(p)], sel) == [] by { FindLeaf(NameHeading(p), sel); }
    assert Find([TitleCaption(p)], sel) == [] by { FindLeaf(TitleCaption(p), sel); }
    assert Find([BioParagraph(p)], sel) == [BioParagraph(p)] by { FindLeaf(BioParagraph(p), sel); }
  }

  /**
   * `renderPersonal` shows the name, the title and the bio once each, in the
   * `name`, `title` and `bio` elements, and one profile image whose source is
   * `image` and whose alt text is the name.
   */
  lemma PersonalShown(p: Personal)
    ensures OnePerText(Find(RenderPersonal(p), ByClass("name")), [Interp(p.name)])
    ensures OnePerText(Find(RenderPersonal(p), ByClass("title")), [Interp(p.title)])
    ensures OnePerText(Find(RenderPersonal(p), ByClass("bio")), [Interp(p.bio)])
    ensures var images := Find(RenderPersonal(p), ByClass("profile-image"));
            && |images| == 1 && images[0].Element?
            && AttrOf(images[0].attrs, "src") == Some(Interp(p.image))
            && AttrOf(images[0].attrs, "alt") == Some(Interp(p.name))
  {
    PersonalImage(p);
    PersonalName(p);
    PersonalTitle(p);
    PersonalBio(p);
    LeafText(NameHeading(p));
    LeafText(TitleCaption(p));
    LeafText(BioParagraph(p));
    assert ProfileImage(p).attrs[1..] == [Attr("alt", Interp(p.name))];
  }

  /** A contact link is one block of class contact-link and holds no contact-links element. */
  lemma ContactLinkBlock(c: ContactItem)
    ensures IsBlock(ContactLink(c), ByClass("contact-link"))
    ensures FindIn(ContactLink(c), ByClass("contact-links")) == []
  {
    ContactLinkFind(c, "contact-link");
    ContactLinkFind(c, "contact-links");
    FindElement(ContactLink(c), ByClass("contact-link"));
    assert [ContactLink(c)][1..] == [];
  }

  /**
   * The contact block is there exactly when `contact` is present, with one link
   * per contact item in order, opening a new tab exactly when that item's url
   * is truthy.
   */
  lemma ContactBlockLinks(contact: Option<seq<ContactItem>>)
    ensures Find(ContactBlock(contact), ByClass("contact-links")) != [] <==> contact.Some?
    ensures var links := Find(ContactBlock(contact), ByClass("contact-link"));
            && (contact.None? ==> links == [])
            && (contact.Some? ==>
                  |links| == |contact.value| &&
                  forall i :: 0 <= i < |links| ==>
                    links[i].Element? &&
                    AttrOf(links[i].attrs, "href") == Some(Interp(contact.value[i].url)) &&
                    (AttrOf(links[i].attrs, "target") == Some("_blank") <==> Truthy(contact.value[i].url)))
  {
    if contact.Some? {
      var items := contact.value;
      ContactBlockFind(items);
      var links := MapNodes(items, ContactLink);
      assert Find(ContactBlock(contact), ByClass("contact-link")) == links;
      assert forall i :: 0 <= i < |links| ==> links[i] == ContactLink(items[i]);
    }
  }

  /** The block of a contact list: one element of class contact-links holding exactly the links. */
  lemma ContactBlockFind(items: seq<ContactItem>)
    ensures Find(ContactBlock(Some(items)), ByClass("contact-links")) != []
    ensures Find(ContactBlock(Some(items)), ByClass("contact-link")) == MapNodes(items, ContactLink)
  {
    var block := ContactBlock(Some(items))[0];
    forall i | 0 <= i < |items|
      ensures IsBlock(ContactLink(items[i]), ByClass("contact-link"))
      ensures FindIn(ContactLink(items[i]), ByClass("contact-links")) == []
    {
      ContactLinkBlock(items[i]);
    }
    assert Find(ContactBlock(Some(items)), ByClass("contact-link")) == MapNodes(items, ContactLink) by {
      FindMapBlocks(items, ContactLink, ByClass("contact-link"));
      FindElement(block, ByClass("contact-link"));
      EmptyAppend(MapNodes(items, ContactLink));
    }
    assert Find(ContactBlock(Some(items)), ByClass("contact-links")) == [block] by {
      FindMapNone(items, ContactLink, ByClass("contact-links"));
      FindElement(block, ByClass("contact-links"));
      EmptyAppend([block]);
    }
  }

  /**
   * `renderPersonal`: the contact links of the personal section are those of
   * its contact block.
   */
  lemma PersonalContacts(p: Personal)
    ensures Find(RenderPersonal(p), ByClass("contact-links")) != [] <==> p.contact.Some?
    ensures var links := Find(RenderPersonal(p), ByClass("contact-link"));
            && (p.contact.None? ==> links == [])
            && (p.contact.Some? ==>
                  |links| == |p.contact.value| &&
                  forall i :: 0 <= i < |links| ==>
                    links[i].Element? &&
                    AttrOf(links[i].attrs, "href") == Some(Interp(p.contact.value[i].url)) &&
                    (AttrOf(links[i].attrs, "target") == Some("_blank") <==> Truthy(p.contact.value[i].url)))
  {
    PersonalFindClass(p, "contact-links");
    PersonalFindClass(p, "contact-link");
    ContactBlockLinks(p.contact);
  }

  // ---------------------------------------------------------------------------
  // The page

  /** One row of the fixed list of candidate sections of `render`. */
  datatype SectionSpec = SectionSpec(id: string, title: string, entries: Option<seq<Entry>>)

  /** The candidate sections, in the order `render` appends them. */
  function SectionTable(d: SiteData): seq<SectionSpec> {
    [SectionSpec("experience", "Experience", d.experience),
     SectionSpec("education", "Education", d.education),
     SectionSpec("thoughts", "Thoughts", d.thoughts),
     SectionSpec("projects", "Projects", d.projects)]
  }

  function Records(entries: seq<Entry>): seq<Item> {
    seq(|entries|, i requires 0 <= i < |entries| => Rec(entries[i]))
  }

  /** The view model `render` builds for a present list. */
  function TimelineOf(spec: SectionSpec): Section
    requires spec.entries.Some?
  {
    Section(spec.id, spec.title, None, Some("timeline"), Records(spec.entries.value))
  }

  /** The view models of the rows whose list is present and non-empty, in table order. */
  function PresentSections(table: seq<SectionSpec>): seq<Section> {
    if table == [] then []
    else
      var last := table[|table| - 1];
      PresentSections(table[..|table| - 1]) + (if NonEmpty(last.entries) then [TimelineOf(last)] else [])
  }

  /** Each section rendered, in order. */
  function RenderAll(sections: seq<Section>): seq<Node> {
    FlatMap(sections, RenderSection)
  }

  /** `data.personal && data.personal.name` */
  predicate ShowsPersonal(d: SiteData) {
    d.personal.Some? && Truthy(d.personal.value.name)
  }

  /** The personal section when the data has a truthy name, and nothing otherwise. */
  function PersonalPart(d: SiteData): seq<Node> {
    if ShowsPersonal(d) then RenderPersonal(d.personal.value) else []
  }

  /** The page body `render` leaves in the container. */
  function Page(d: SiteData): seq<Node> {
    PersonalPart(d) + RenderAll(PresentSections(SectionTable(d)))
  }

  /** A row's contribution to the page: its section when its list is present and non-empty. */
  function Part(spec: SectionSpec): seq<Node> {
    if NonEmpty(spec.entries) then RenderSection(TimelineOf(spec)) else []
  }

  /** The view model a row contributes: its section when its list is present and non-empty. */
  function RowSections(spec: SectionSpec): seq<Section> {
    if NonEmpty(spec.entries) then [TimelineOf(spec)] else []
  }

  lemma PresentStep(t: seq<SectionSpec>)
    requires t != []
    ensures PresentSections(t) == PresentSections(t[..|t| - 1]) + RowSections(t[|t| - 1])
  {
  }

  /** Four rows contribute their sections in table order. */
  lemma PresentFour(t: seq<SectionSpec>)
    requires |t| == 4
    ensures PresentSections(t) == RowSections(t[0]) + RowSections(t[1]) + RowSections(t[2]) + RowSections(t[3])
  {
    var s0, s1, s2, s3 := RowSections(t[0]), RowSections(t[1]), RowSections(t[2]), RowSections(t[3]);
    assert PresentSections(t[..1]) == s0 by {
      assert t[..1][..0] == [];
      PresentStep(t[..1]);
    }
    assert PresentSections(t[..2]) == s0 + s1 by {
      assert t[..2][..1] == t[..1];
      PresentStep(t[..2]);
    }
    assert PresentSections(t[..3]) == s0 + s1 + s2 by {
      assert t[..3][..2] == t[..2];
      PresentStep(t[..3]);
    }
    assert t[..3] == t[..|t| - 1];
    PresentStep(t);
  }

  lemma RowPart(spec: SectionSpec)
    ensures RenderAll(RowSections(spec)) == Part(spec)
  {
    if NonEmpty(spec.entries) {
      FlatMapOne(TimelineOf(spec), RenderSection);
    }
  }

  /** A four-row table walked row by row. */
  lemma RenderAllFour(t: seq<SectionSpec>)
    requires |t| == 4
    ensures RenderAll(PresentSections(t)) == Part(t[0]) + Part(t[1]) + Part(t[2]) + Part(t[3])
  {
    var s0, s1, s2, s3 := RowSections(t[0]), RowSections(t[1]), RowSections(t[2]), RowSections(t[3]);
    PresentFour(t);
    FlatMapAppend(s0 + s1 + s2, s3, RenderSection);
    FlatMapAppend(s0 + s1, s2, RenderSection);
    FlatMapAppend(s0, s1, RenderSection);
    RowPart(t[0]);
    RowPart(t[1]);
    RowPart(t[2]);
    RowPart(t[3]);
  }

  lemma PersonalIds(p: Personal)
    ensures |RenderPersonal(p)| == 1 && TopIds(RenderPersonal(p)) == ["personal"]
  {
  }

  /** `[id]` when `shown`, and nothing otherwise. */
  function IdIf(shown: bool, id: string): seq<string> {
    if shown then [id] else []
  }

  /** The page is the personal section (when shown) followed by each row's part. */
  lemma PageParts(d: SiteData)
    ensures var t := SectionTable(d);
            Page(d) == PersonalPart(d) + (Part(t[0]) + Part(t[1]) + Part(t[2]) + Part(t[3]))
  {
    RenderAllFour(SectionTable(d));
  }

  /** A row contributes its own id when its list is non-empty, and nothing otherwise. */
  lemma PartIds(spec: SectionSpec)
    ensures TopIds(Part(spec)) == IdIf(NonEmpty(spec.entries), spec.id)
    ensures |TopIds(Part(spec))| == |Part(spec)|
  {
    if NonEmpty(spec.entries) {
      var r := RenderSection(TimelineOf(spec));
      assert TopIds(r) == [spec.id];
    }
  }

  /** Four rows contribute the ids of their non-empty lists, in order. */
  lemma PartsIds(t: seq<SectionSpec>)
    requires |t| == 4
    ensures var rest := Part(t[0]) + Part(t[1]) + Part(t[2]) + Part(t[3]);
            var ids := IdIf(NonEmpty(t[0].entries), t[0].id) + IdIf(NonEmpty(t[1].entries), t[1].id)
                       + IdIf(NonEmpty(t[2].entries), t[2].id) + IdIf(NonEmpty(t[3].entries), t[3].id);
            TopIds(rest) == ids && |rest| == |ids|
  {
    var p0, p1, p2, p3 := Part(t[0]), Part(t[1]), Part(t[2]), Part(t[3]);
    PartIds(t[0]);
    PartIds(t[1]);
    PartIds(t[2]);
    PartIds(t[3]);
    TopIdsAppend(p0, p1);
    TopIdsAppend(p0 + p1, p2);
    TopIdsAppend(p0 + p1 + p2, p3);
  }

  /** The personal section and the section of each non-empty list, nothing else, in table order. */
  lemma PageIds(d: SiteData)
    ensures TopIds(Page(d)) ==
              IdIf(ShowsPersonal(d), "personal")
              + IdIf(NonEmpty(d.experience), "experience")
              + IdIf(NonEmpty(d.education), "education")
              + IdIf(NonEmpty(d.thoughts), "thoughts")
              + IdIf(NonEmpty(d.projects), "projects")
    ensures |TopIds(Page(d))| == |Page(d)|
  {
    var t := SectionTable(d);
    var personal := PersonalPart(d);
    var i := IdIf(ShowsPersonal(d), "personal");
    assert TopIds(personal) == i && |personal| == |i| by {
      if ShowsPersonal(d) {
        PersonalIds(d.personal.value);
      }
    }
    var rest := Part(t[0]) + Part(t[1]) + Part(t[2]) + Part(t[3]);
    var i0, i1 := IdIf(NonEmpty(d.experience), "experience"), IdIf(NonEmpty(d.education), "education");
    var i2, i3 := IdIf(NonEmpty(d.thoughts), "thoughts"), IdIf(NonEmpty(d.projects), "projects");
    PartsIds(t);
    TopIdsAppend(personal, rest);
    PageParts(d);
    RegroupLeft(i, i0, i1, i2, i3);
  }

  /** A row contributes one item block per entry of its list, in order. */
  lemma PartItems(spec: SectionSpec)
    ensures Find(Part(spec), ByClass("item")) == MapNodes(Records(Listed(spec.entries)), RenderItem)
  {
    if NonEmpty(spec.entries) {
      TimelineSectionShape(TimelineOf(spec));
    } else {
      assert Records(Listed(spec.entries)) == [];
    }
  }

  /** The personal section holds no item block. */
  lemma PersonalHasNoItems(p: Personal)
    ensures Find(RenderPersonal(p), ByClass("item")) == []
  {
    PersonalFindClass(p, "item");
    if p.contact.Some? {
      var items := p.contact.value;
      forall i | 0 <= i < |items| ensures FindIn(ContactLink(items[i]), ByClass("item")) == [] {
        ContactLinkFind(items[i], "item");
      }
      FindMapNone(items, ContactLink, ByClass("item"));
      FindElement(ContactBlock(p.contact)[0], ByClass("item"));
    }
  }

  /**
   * The item blocks of the page are those of experience, education, thoughts
   * and projects, one per entry, in that order.
   */
  lemma PageItems(d: SiteData)
    ensures Find(Page(d), ByClass("item")) ==
              MapNodes(Records(Listed(d.experience)) + Records(Listed(d.education))
                       + Records(Listed(d.thoughts)) + Records(Listed(d.projects)), RenderItem)
  {
    var t := SectionTable(d);
    var sel := ByClass("item");
    var personal := PersonalPart(d);
    assert Find(personal, sel) == [] by {
      if ShowsPersonal(d) { PersonalHasNoItems(d.personal.value); }
    }
    RenderAllFour(t);
    var p0, p1, p2, p3 := Part(t[0]), Part(t[1]), Part(t[2]), Part(t[3]);
    assert Page(d) == personal + (p0 + p1 + p2 + p3);
    FindAppend(personal, p0 + p1 + p2 + p3, sel);
    FindAppend(p0 + p1 + p2, p3, sel);
    FindAppend(p0 + p1, p2, sel);
    FindAppend(p0, p1, sel);
    PartItems(t[0]);
    PartItems(t[1]);
    PartItems(t[2]);
    PartItems(t[3]);
    var r0, r1, r2, r3 := Records(Listed(d.experience)), Records(Listed(d.education)),
                          Records(Listed(d.thoughts)), Records(Listed(d.projects));
    MapNodesAppend(r0 + r1 + r2, r3, RenderItem);
    MapNodesAppend(r0 + r1, r2, RenderItem);
    MapNodesAppend(r0, r1, RenderItem);
  }

  /** The container and the document title that `render` writes. */
  class PersonalSite {
    var container: seq<Node>
    var title: string

    /** `render(data)`: clears the container, then appends the present parts one by one. */
    method Render(data: SiteData)
      modifies this
      ensures container == Page(data)
      ensures title == if ShowsPersonal(data) then data.personal.value.name.value else old(title)
    {
      var table := SectionTable(data);
      container := [];
      if data.personal.Some? && Truthy(data.personal.value.name) {
        title := data.personal.value.name.value;
        container := container + RenderPersonal(data.personal.value);
      }
      ghost var personal := container;
      assert personal == PersonalPart(data);
      AppendSection(table[0]);
      AppendSection(table[1]);
      AppendSection(table[2]);
      AppendSection(table[3]);
      RegroupLeft(personal, Part(table[0]), Part(table[1]), Part(table[2]), Part(table[3]));
      PageParts(data);
    }

    /** One `if (list && list.length > 0)` block of `render`: a timeline section appended after the content. */
    method AppendSection(spec: SectionSpec)
      modifies this
      ensures container == old(container) + Part(spec)
      ensures title == old(title)
    {
      if NonEmpty(spec.entries) {
        container := container + RenderSection(TimelineOf(spec));
      }
    }
  }
}
