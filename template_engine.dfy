/**
 * The static templates of `TemplateEngine` in js/main.js. Each turns one part
 * of the data document into a markup fragment, kept here as the node forest
 * the fragment parses to (module Html).
 */
module TemplateEngine {
  import opened Html

  // ---------------------------------------------------------------------------
  // The data document, as far as the templates read it

  datatype Personal = Personal(name: Option<string>, title: Option<string>, bio: Option<string>)

  datatype Experience = Experience(
    title: Option<string>, company: Option<string>, location: Option<string>,
    duration: Option<string>, description: Option<string>,
    achievements: Option<seq<string>>, skills: Option<seq<string>>)

  datatype Education = Education(
    degree: Option<string>, university: Option<string>, location: Option<string>,
    year: Option<string>, specialization: Option<string>, description: Option<string>)

  datatype Contact = Contact(url: Option<string>, icon: Option<string>, labelText: Option<string>)

  datatype Data = Data(
    personal: Option<Personal>, interests: Option<seq<string>>,
    experience: Option<seq<Experience>>, education: Option<seq<Education>>,
    contact: Option<seq<Contact>>)

  // ---------------------------------------------------------------------------
  // The templates

  /** What precedes a location: a space, a bullet (U+2022) and a space. */
  const Bullet: string := " \U{2022} "

  /** An element with a single class, holding a single text. */
  function Leaf(tag: string, cls: string, text: string): Node {
    Element(tag, [cls], [], [Text(text)])
  }

  /** The placeholder a template returns for a missing or empty list. */
  function Loading(message: string): Node {
    Leaf("div", "loading", message)
  }

  /**
   * `renderPersonalSection` with `extra` appended to the children of its
   * `<main>`; the template itself appends nothing.
   */
  function PersonalSection(p: Personal, extra: seq<Node>): seq<Node> {
    [ProfileHeader(p), Element("main", [], [], [BioParagraph(p)] + extra)]
  }

  /** The `<header>` of `renderPersonalSection`: portrait, name and title. */
  function ProfileHeader(p: Personal): Node {
    Element("header", [], [], [
      PortraitFrame(p), NameHeading(p), TitleCaption(p)])
  }

  /** The portrait, in its frame: always the site's own image, with the name as alt text. */
  function PortraitFrame(p: Personal): Node {
    Element("div", ["profile-image-container"], [], [Portrait(p)])
  }

  function Portrait(p: Personal): Node {
    Element("img", ["profile-image"], [Attr("src", "images/me.png"), Attr("alt", Interp(p.name))], [])
  }

  function NameHeading(p: Personal): Node {
    Leaf("h1", "name", Interp(p.name))
  }

  function TitleCaption(p: Personal): Node {
    Leaf("p", "title", Interp(p.title))
  }

  function BioParagraph(p: Personal): Node {
    Leaf("p", "bio", Interp(p.bio))
  }

  function RenderPersonalSection(p: Personal): seq<Node> {
    PersonalSection(p, [])
  }

  function InterestTag(interest: string): Node {
    Leaf("span", "interest-tag", interest)
  }

  function RenderInterests(interests: Option<seq<string>>): seq<Node> {
    if AbsentOrEmpty(interests) then []
    else [Element("div", ["interests"], [], MapNodes(interests.value, InterestTag))]
  }

  function AchievementItem(achievement: string): Node {
    Element("li", [], [], [Text(achievement)])
  }

  function RenderAchievements(achievements: Option<seq<string>>): seq<Node> {
    if AbsentOrEmpty(achievements) then []
    else [Element("div", ["achievements"], [], [
            Leaf("h4", "achievements-title", "Key Achievements:"),
            Element("ul", ["achievements-list"], [], MapNodes(achievements.value, AchievementItem))])]
  }

  function SkillTag(skill: string): Node {
    Leaf("span", "skill-tag", skill)
  }

  function RenderSkills(skills: Option<seq<string>>): seq<Node> {
    if AbsentOrEmpty(skills) then []
    else [Element("div", ["skills"], [], MapNodes(skills.value, SkillTag))]
  }

  /** The location span of an experience or education item, shown when the location is truthy. */
  function LocationSpan(location: Option<string>): seq<Node> {
    if Truthy(location) then [Leaf("span", "location", Bullet + location.value)] else []
  }

  /** The header of an experience item; its duration span is there even when the duration is missing. */
  function ExperienceHeader(e: Experience): Node {
    Element("div", ["experience-header"], [], [
      Element("div", [], [], [JobTitle(e), Company(e)] + LocationSpan(e.location)),
      Duration(e)])
  }

  function JobTitle(e: Experience): Node {
    Leaf("h3", "job-title", Interp(e.title))
  }

  function Company(e: Experience): Node {
    Leaf("span", "company", Interp(e.company))
  }

  function Duration(e: Experience): Node {
    Leaf("span", "duration", Interp(e.duration))
  }

  function JobDescription(e: Experience): Node {
    Leaf("p", "job-description", Interp(e.description))
  }

  /** One element of `experiences.map(...)` in `renderExperience`. */
  function ExperienceItem(e: Experience): Node {
    Element("div", ["experience-item"], [],
      [ExperienceHeader(e), JobDescription(e)] + RenderAchievements(e.achievements) + RenderSkills(e.skills))
  }

  /**
   * The `<section class="resume">` of `renderExperience` around the rendered
   * `items`, with `extra` appended after its experience container; the
   * template itself appends nothing.
   */
  function ResumeSection(items: seq<Node>, extra: seq<Node>): Node {
    Element("section", ["resume"], [], [
      Leaf("h2", "section-title", "Experience"),
      Element("div", ["experience-container"], [], items)] + extra)
  }

  function RenderExperience(experiences: Option<seq<Experience>>): seq<Node> {
    if AbsentOrEmpty(experiences) then [Loading("No experience data available")]
    else [ResumeSection(MapNodes(experiences.value, ExperienceItem), [])]
  }

  function Specialization(specialization: Option<string>): seq<Node> {
    if Truthy(specialization) then [Leaf("span", "gpa", specialization.value)] else []
  }

  function EducationHeader(e: Education): Node {
    Element("div", ["education-header"], [], [
      Element("div", [], [], [Degree(e), University(e)] + LocationSpan(e.location)),
      Element("div", [], [], [Year(e)] + Specialization(e.specialization))])
  }

  function Degree(e: Education): Node {
    Leaf("h3", "degree", Interp(e.degree))
  }

  function University(e: Education): Node {
    Leaf("span", "university", Interp(e.university))
  }

  function Year(e: Education): Node {
    Leaf("span", "year", Interp(e.year))
  }

  function EducationDescription(e: Education): Node {
    Leaf("p", "education-description", Interp(e.description))
  }

  /** One element of `educations.map(...)` in `renderEducation`. */
  function EducationItem(e: Education): Node {
    Element("div", ["education-item"], [], [EducationHeader(e), EducationDescription(e)])
  }

  /** The heading and container `renderEducation` puts around the rendered `items`. */
  function EducationBlock(items: seq<Node>): seq<Node> {
    [Leaf("h2", "section-title", "Education"), Element("div", ["education-container"], [], items)]
  }

  function RenderEducation(educations: Option<seq<Education>>): seq<Node> {
    if AbsentOrEmpty(educations) then [Loading("No education data available")]
    else EducationBlock(MapNodes(educations.value, EducationItem))
  }

  /** Links to web pages and to PDF files open in a new tab. */
  predicate OpensNewTab(url: string) {
    StartsWith(url, "http") || EndsWith(url, ".pdf")
  }

  /** Some contact has no url: `contact.url.startsWith` then throws a TypeError. */
  predicate MissingUrl(contacts: seq<Contact>) {
    exists i :: 0 <= i < |contacts| && contacts[i].url.None?
  }

  /** One contact link; `RenderContact` only builds it for a contact that has a url. */
  function ContactLink(c: Contact): Node {
    Element("a", ["contact-link"],
      [Attr("href", Interp(c.url))] + (if c.url.Some? && OpensNewTab(c.url.value) then [Attr("target", "_blank")] else []),
      [Element("span", [], [], [Text(Interp(c.icon))]), Text(Interp(c.labelText))])
  }

  /** The heading and containers `renderContact` puts around the rendered `links`. */
  function ContactBlock(links: seq<Node>): seq<Node> {
    [Leaf("h2", "section-title", "Contact"),
     Element("div", ["contact"], [], [Element("div", ["contact-links"], [], links)])]
  }

  /** `renderContact`; None when the template throws. */
  function RenderContact(contacts: Option<seq<Contact>>): Option<seq<Node>> {
    if AbsentOrEmpty(contacts) then Some([Loading("No contact information available")])
    else if MissingUrl(contacts.value) then None
    else Some(ContactBlock(MapNodes(contacts.value, ContactLink)))
  }

  // ---------------------------------------------------------------------------
  // The lists

  /** `renderInterests`: nothing for a missing or empty list, else one interest tag per interest, in order. */
  lemma InterestsRendered(interests: Option<seq<string>>)
    ensures RenderInterests(interests) == [] <==> AbsentOrEmpty(interests)
    ensures OnePerText(Find(RenderInterests(interests), ByClass("interest-tag")), Listed(interests))
  {
    if !AbsentOrEmpty(interests) {
      FindElement(RenderInterests(interests)[0], ByClass("interest-tag"));
      LeafList(interests.value, InterestTag, ByClass("interest-tag"));
    }
  }

  /** `renderAchievements`: nothing for a missing or empty list, else one `<li>` per achievement, in order. */
  lemma AchievementsRendered(achievements: Option<seq<string>>)
    ensures RenderAchievements(achievements) == [] <==> AbsentOrEmpty(achievements)
    ensures OnePerText(Find(RenderAchievements(achievements), ByTag("li")), Listed(achievements))
  {
    if !AbsentOrEmpty(achievements) {
      var h4 := Leaf("h4", "achievements-title", "Key Achievements:");
      var ul := Element("ul", ["achievements-list"], [], MapNodes(achievements.value, AchievementItem));
      FindElement(Element("div", ["achievements"], [], [h4, ul]), ByTag("li"));
      FindPair(h4, ul, ByTag("li"));
      FindLeaf(h4, ByTag("li"));
      FindElement(ul, ByTag("li"));
      LeafList(achievements.value, AchievementItem, ByTag("li"));
    }
  }

  /** `renderSkills`: nothing for a missing or empty list, else one skill tag per skill, in order. */
  lemma SkillsRendered(skills: Option<seq<string>>)
    ensures RenderSkills(skills) == [] <==> AbsentOrEmpty(skills)
    ensures OnePerText(Find(RenderSkills(skills), ByClass("skill-tag")), Listed(skills))
  {
    if !AbsentOrEmpty(skills) {
      FindElement(RenderSkills(skills)[0], ByClass("skill-tag"));
      LeafList(skills.value, SkillTag, ByClass("skill-tag"));
    }
  }

  lemma LocationFind(location: Option<string>, sel: Selector)
    requires sel !in {ByClass("location"), ByTag("span")}
    ensures Find(LocationSpan(location), sel) == []
  {
    if Truthy(location) {
      FindLeaf(LocationSpan(location)[0], sel);
    }
  }

  lemma AchievementsFind(achievements: Option<seq<string>>, sel: Selector)
    requires sel !in {ByClass("achievements"), ByClass("achievements-title"), ByClass("achievements-list"),
                      ByTag("div"), ByTag("h4"), ByTag("ul"), ByTag("li")}
    ensures Find(RenderAchievements(achievements), sel) == []
  {
    if !AbsentOrEmpty(achievements) {
      var h4 := Leaf("h4", "achievements-title", "Key Achievements:");
      var ul := Element("ul", ["achievements-list"], [], MapNodes(achievements.value, AchievementItem));
      assert Find([ul], sel) == [] by {
        FindElement(ul, sel);
        forall i | 0 <= i < |achievements.value| ensures FindIn(AchievementItem(achievements.value[i]), sel) == [] {
          FindLeaf(AchievementItem(achievements.value[i]), sel);
        }
        FindMapNone(achievements.value, AchievementItem, sel);
      }
      assert Find([h4], sel) == [] by { FindLeaf(h4, sel); }
      FindElement(Element("div", ["achievements"], [], [h4, ul]), sel);
      FindPair(h4, ul, sel);
    }
  }

  lemma SkillsFind(skills: Option<seq<string>>, sel: Selector)
    requires sel !in {ByClass("skills"), ByClass("skill-tag"), ByTag("div"), ByTag("span")}
    ensures Find(RenderSkills(skills), sel) == []
  {
    if !AbsentOrEmpty(skills) {
      FindElement(RenderSkills(skills)[0], sel);
      forall i | 0 <= i < |skills.value| ensures FindIn(SkillTag(skills.value[i]), sel) == [] {
        FindLeaf(SkillTag(skills.value[i]), sel);
      }
      FindMapNone(skills.value, SkillTag, sel);
    }
  }

  // ---------------------------------------------------------------------------
  // The personal section

  /** The profile header holds nothing but its own portrait, name and title. */
  lemma ProfileHeaderFind(p: Personal, sel: Selector)
    requires sel !in {ByClass("profile-image-container"), ByClass("profile-image"), ByClass("name"), ByClass("title"),
                      ByTag("header"), ByTag("div"), ByTag("img"), ByTag("h1"), ByTag("p")}
    ensures Find([ProfileHeader(p)], sel) == []
  {
    assert Find([PortraitFrame(p)], sel) == [] by {
      FindElement(Portrait(p), sel);
      FindElement(PortraitFrame(p), sel);
    }
    assert Find([NameHeading(p)], sel) == [] by { FindLeaf(NameHeading(p), sel); }
    assert Find([TitleCaption(p)], sel) == [] by { FindLeaf(TitleCaption(p), sel); }
    FindTriple(PortraitFrame(p), NameHeading(p), TitleCaption(p), sel);
    FindElement(ProfileHeader(p), sel);
  }

  /** Outside its fixed parts, only what is appended to `<main>` can match in the personal section. */
  lemma PersonalSectionFind(p: Personal, extra: seq<Node>, sel: Selector)
    requires sel !in {ByClass("profile-image-container"), ByClass("profile-image"), ByClass("name"), ByClass("title"),
                      ByClass("bio"), ByTag("header"), ByTag("div"), ByTag("img"), ByTag("h1"), ByTag("p"), ByTag("main")}
    ensures Find(PersonalSection(p, extra), sel) == Find(extra, sel)
  {
    var main := Element("main", [], [], [BioParagraph(p)] + extra);
    ProfileHeaderFind(p, sel);
    assert Find([main], sel) == Find(extra, sel) by {
      FindElement(main, sel);
      FindAppend([BioParagraph(p)], extra, sel);
      FindLeaf(BioParagraph(p), sel);
    }
    FindPair(ProfileHeader(p), main, sel);
  }

  /** The matches of a class in `renderPersonalSection`: those among the portrait, the name, the title and the bio. */
  lemma PersonalSectionClass(p: Personal, cls: string)
    ensures Find(RenderPersonalSection(p), ByClass(cls)) ==
              Find([PortraitFrame(p)], ByClass(cls)) + Find([NameHeading(p)], ByClass(cls))
              + Find([TitleCaption(p)], ByClass(cls)) + Find([BioParagraph(p)], ByClass(cls))
  {
    var sel := ByClass(cls);
    var main := Element("main", [], [], [BioParagraph(p)] + []);
    assert Find([ProfileHeader(p)], sel) ==
           Find([PortraitFrame(p)], sel) + Find([NameHeading(p)], sel) + Find([TitleCaption(p)], sel) by {
      FindElement(ProfileHeader(p), sel);
      FindTriple(PortraitFrame(p), NameHeading(p), TitleCaption(p), sel);
    }
    assert Find([main], sel) == Find([BioParagraph(p)], sel) by {
      FindElement(main, sel);
      EmptyAppend([BioParagraph(p)]);
    }
    FindPair(ProfileHeader(p), main, sel);
  }

  /** The portrait frame holds no name, title or bio. */
  lemma FrameFind(p: Personal, cls: string)
    requires cls != "profile-image-container" && cls != "profile-image"
    ensures Find([PortraitFrame(p)], ByClass(cls)) == []
  {
    FindElement(PortraitFrame(p), ByClass(cls));
    FindElement(Portrait(p), ByClass(cls));
  }

  lemma PersonalName(p: Personal)
    ensures Find(RenderPersonalSection(p), ByClass("name")) == [NameHeading(p)]
  {
    var sel := ByClass("name");
    PersonalSectionClass(p, "name");
    FrameFind(p, "name");
    assert Find([NameHeading(p)], sel) == [NameHeading(p)] by { FindLeaf(NameHeading(p), sel); }
    assert Find([TitleCaption(p)], sel) == [] by { FindLeaf(TitleCaption(p), sel); }
    assert Find([BioParagraph(p)], sel) == [] by { FindLeaf(BioParagraph(p), sel); }
  }

  lemma PersonalTitle(p: Personal)
    ensures Find(RenderPersonalSection(p), ByClass("title")) == [TitleCaption(p)]
  {
    var sel := ByClass("title");
    PersonalSectionClass(p, "title");
    FrameFind(p, "title");
    assert Find([NameHeading(p)], sel) == [] by { FindLeaf(NameHeading(p), sel); }
    assert Find([TitleCaption(p)], sel) == [TitleCaption(p)] by { FindLeaf(TitleCaption(p), sel); }
    assert Find([BioParagraph(p)], sel) == [] by { FindLeaf(BioParagraph(p), sel); }
  }

  lemma PersonalBio(p: Personal)
    ensures Find(RenderPersonalSection(p), ByClass("bio")) == [BioParagraph(p)]
  {
    var sel := ByClass("bio");
    PersonalSectionClass(p, "bio");
    FrameFind(p, "bio");
    assert Find([NameHeading(p)], sel) == [] by { FindLeaf(NameHeading(p), sel); }
    assert Find([TitleCaption(p)], sel) == [] by { FindLeaf(TitleCaption(p), sel); }
    assert Find([BioParagraph(p)], sel) == [BioParagraph(p)] by { FindLeaf(BioParagraph(p), sel); }
  }

  lemma PersonalImage(p: Personal)
    ensures Find(RenderPersonalSection(p), ByClass("profile-image")) == [Portrait(p)]
  {
    var sel := ByClass("profile-image");
    PersonalSectionClass(p, "profile-image");
    assert Find([PortraitFrame(p)], sel) == [Portrait(p)] by {
      FindElement(PortraitFrame(p), sel);
      FindElement(Portrait(p), sel);
    }
    assert Find([NameHeading(p)], sel) == [] by { FindLeaf(NameHeading(p), sel); }
    assert Find([TitleCaption(p)], sel) == [] by { FindLeaf(TitleCaption(p), sel); }
    assert Find([BioParagraph(p)], sel) == [] by { FindLeaf(BioParagraph(p), sel); }
  }

  /**
   * `renderPersonalSection` shows the name, the title and the bio once each,
   * in the `name`, `title` and `bio` elements, and one portrait whose alt
   * text is the name.
   */
  lemma PersonalShown(p: Personal)
    ensures OnePerText(Find(RenderPersonalSection(p), ByClass("name")), [Interp(p.name)])
    ensures OnePerText(Find(RenderPersonalSection(p), ByClass("title")), [Interp(p.title)])
    ensures OnePerText(Find(RenderPersonalSection(p), ByClass("bio")), [Interp(p.bio)])
    ensures var images := Find(RenderPersonalSection(p), ByClass("profile-image"));
            && |images| == 1 && images[0].Element?
            && AttrOf(images[0].attrs, "src") == Some("images/me.png")
            && AttrOf(images[0].attrs, "alt") == Some(Interp(p.name))
  {
    PersonalName(p);
    PersonalTitle(p);
    PersonalBio(p);
    PersonalImage(p);
    LeafText(NameHeading(p));
    LeafText(TitleCaption(p));
    LeafText(BioParagraph(p));
    PortraitAttrs(p);
  }

  lemma PortraitAttrs(p: Personal)
    ensures AttrOf(Portrait(p).attrs, "src") == Some("images/me.png")
    ensures AttrOf(Portrait(p).attrs, "alt") == Some(Interp(p.name))
  {
  }

  /** The interests block holds nothing but its interest tags. */
  lemma InterestsFind(interests: Option<seq<string>>, sel: Selector)
    requires sel !in {ByClass("interests"), ByClass("interest-tag"), ByTag("div"), ByTag("span")}
    ensures Find(RenderInterests(interests), sel) == []
  {
    if !AbsentOrEmpty(interests) {
      FindElement(RenderInterests(interests)[0], sel);
      forall i | 0 <= i < |interests.value| ensures FindIn(InterestTag(interests.value[i]), sel) == [] {
        FindLeaf(InterestTag(interests.value[i]), sel);
      }
      FindMapNone(interests.value, InterestTag, sel);
    }
  }

  // ---------------------------------------------------------------------------
  // Experience

  /** Two leaves followed by `rest`, in a plain `<div>`: only `rest` can match. */
  lemma TitlesFind(first: Node, second: Node, rest: seq<Node>, sel: Selector)
    requires first.Element? && |first.children| == 1 && first.children[0].Text? && !Matches(first, sel)
    requires second.Element? && |second.children| == 1 && second.children[0].Text? && !Matches(second, sel)
    requires sel != ByTag("div")
    ensures Find([Element("div", [], [], [first, second] + rest)], sel) == Find(rest, sel)
  {
    FindElement(Element("div", [], [], [first, second] + rest), sel);
    FindPairThen(first, second, rest, sel);
    FindLeaf(first, sel);
    FindLeaf(second, sel);
  }

  lemma ExperienceHeaderFind(e: Experience, sel: Selector)
    requires sel !in {ByClass("experience-header"), ByClass("job-title"), ByClass("company"),
                      ByClass("duration"), ByTag("div"), ByTag("h3"), ByTag("span")}
    ensures Find([ExperienceHeader(e)], sel) == Find(LocationSpan(e.location), sel)
  {
    var titles := Element("div", [], [], [JobTitle(e), Company(e)] + LocationSpan(e.location));
    TitlesFind(JobTitle(e), Company(e), LocationSpan(e.location), sel);
    FindElement(ExperienceHeader(e), sel);
    FindLeaf(Duration(e), sel);
    FindPair(titles, Duration(e), sel);
  }

  /** Below the fixed parts of an experience item, only its location, achievements and skills can match. */
  lemma ExperienceChildrenFind(e: Experience, sel: Selector)
    requires sel !in {ByClass("experience-header"), ByClass("job-title"), ByClass("company"),
                      ByClass("duration"), ByClass("job-description"),
                      ByTag("div"), ByTag("h3"), ByTag("span"), ByTag("p")}
    ensures Find(ExperienceItem(e).children, sel) ==
              Find(LocationSpan(e.location), sel) + Find(RenderAchievements(e.achievements), sel)
              + Find(RenderSkills(e.skills), sel)
  {
    var header, desc := ExperienceHeader(e), JobDescription(e);
    assert Find([header, desc], sel) == Find(LocationSpan(e.location), sel) by {
      ExperienceHeaderFind(e, sel);
      FindLeaf(desc, sel);
      assert [header, desc] == [header] + [desc];
      FindAppend([header], [desc], sel);
    }
    FindThree([header, desc], RenderAchievements(e.achievements), RenderSkills(e.skills), sel);
  }

  /** An experience item shows its location, after the bullet, exactly when it is truthy. */
  lemma ExperienceLocation(e: Experience)
    ensures OnePerText(Find([ExperienceItem(e)], ByClass("location")),
                       if Truthy(e.location) then [Bullet + e.location.value] else [])
  {
    var item, loc := ExperienceItem(e), LocationSpan(e.location);
    FindElement(item, ByClass("location"));
    ExperienceChildrenFind(e, ByClass("location"));
    AchievementsFind(e.achievements, ByClass("location"));
    SkillsFind(e.skills, ByClass("location"));
    if Truthy(e.location) {
      FindLeaf(loc[0], ByClass("location"));
    }
  }

  /** An experience item shows one `<li>` per achievement, in order. */
  lemma ExperienceAchievements(e: Experience)
    ensures OnePerText(Find([ExperienceItem(e)], ByTag("li")), Listed(e.achievements))
  {
    var sel := ByTag("li");
    assert Find([ExperienceItem(e)], sel) == Find(RenderAchievements(e.achievements), sel) by {
      FindElement(ExperienceItem(e), sel);
      ExperienceChildrenFind(e, sel);
      LocationFind(e.location, sel);
      SkillsFind(e.skills, sel);
    }
    AchievementsRendered(e.achievements);
  }

  /** An experience item shows one skill tag per skill, in order. */
  lemma ExperienceSkills(e: Experience)
    ensures OnePerText(Find([ExperienceItem(e)], ByClass("skill-tag")), Listed(e.skills))
  {
    var sel := ByClass("skill-tag");
    assert Find([ExperienceItem(e)], sel) == Find(RenderSkills(e.skills), sel) by {
      FindElement(ExperienceItem(e), sel);
      ExperienceChildrenFind(e, sel);
      LocationFind(e.location, sel);
      AchievementsFind(e.achievements, sel);
    }
    SkillsRendered(e.skills);
  }

  /** A class no part of an experience item carries matches nothing inside it. */
  lemma ExperienceItemFindNone(e: Experience, cls: string)
    requires cls !in {"experience-item", "experience-header", "job-title", "company", "duration",
                      "job-description", "location", "achievements", "achievements-title",
                      "achievements-list", "skills", "skill-tag"}
    ensures FindIn(ExperienceItem(e), ByClass(cls)) == []
  {
    ExperienceChildrenFind(e, ByClass(cls));
    LocationFind(e.location, ByClass(cls));
    AchievementsFind(e.achievements, ByClass(cls));
    SkillsFind(e.skills, ByClass(cls));
  }

  /** The header's matches of a class other than its own and the location's: those among its three fixed leaves. */
  lemma ExperienceHeaderClass(e: Experience, cls: string)
    requires cls != "experience-header" && cls != "location"
    ensures Find([ExperienceHeader(e)], ByClass(cls)) ==
              Find([JobTitle(e)], ByClass(cls)) + Find([Company(e)], ByClass(cls)) + Find([Duration(e)], ByClass(cls))
  {
    var sel := ByClass(cls);
    var titles := Element("div", [], [], [JobTitle(e), Company(e)] + LocationSpan(e.location));
    assert Find([titles], sel) == Find([JobTitle(e)], sel) + Find([Company(e)], sel) by {
      FindFrame(titles, JobTitle(e), Company(e), LocationSpan(e.location), sel);
      LocationFind(e.location, sel);
    }
    FindElement(ExperienceHeader(e), sel);
    FindPair(titles, Duration(e), sel);
  }

  /** The matches of a class no optional part of an experience item carries: those among its four fixed leaves. */
  lemma ExperienceFixedFind(e: Experience, cls: string)
    requires cls !in {"experience-item", "experience-header", "location", "achievements", "achievements-title",
                      "achievements-list", "skills", "skill-tag"}
    ensures Find([ExperienceItem(e)], ByClass(cls)) ==
              Find([JobTitle(e)], ByClass(cls)) + Find([Company(e)], ByClass(cls))
              + Find([Duration(e)], ByClass(cls)) + Find([JobDescription(e)], ByClass(cls))
  {
    var sel := ByClass(cls);
    ExperienceHeaderClass(e, cls);
    assert Find(RenderAchievements(e.achievements), sel) == [] by { AchievementsFind(e.achievements, sel); }
    assert Find(RenderSkills(e.skills), sel) == [] by { SkillsFind(e.skills, sel); }
    FindThree([ExperienceHeader(e), JobDescription(e)], RenderAchievements(e.achievements), RenderSkills(e.skills), sel);
    FindPair(ExperienceHeader(e), JobDescription(e), sel);
    FindElement(ExperienceItem(e), sel);
  }

  lemma JobTitleFound(e: Experience)
    ensures Find([ExperienceItem(e)], ByClass("job-title")) == [JobTitle(e)]
  {
    var sel := ByClass("job-title");
    ExperienceFixedFind(e, "job-title");
    assert Find([JobTitle(e)], sel) == [JobTitle(e)] by { FindLeaf(JobTitle(e), sel); }
    assert Find([Company(e)], sel) == [] by { FindLeaf(Company(e), sel); }
    assert Find([Duration(e)], sel) == [] by { FindLeaf(Duration(e), sel); }
    assert Find([JobDescription(e)], sel) == [] by { FindLeaf(JobDescription(e), sel); }
  }

  lemma CompanyFound(e: Experience)
    ensures Find([ExperienceItem(e)], ByClass("company")) == [Company(e)]
  {
    var sel := ByClass("company");
    ExperienceFixedFind(e, "company");
    assert Find([JobTitle(e)], sel) == [] by { FindLeaf(JobTitle(e), sel); }
    assert Find([Company(e)], sel) == [Company(e)] by { FindLeaf(Company(e), sel); }
    assert Find([Duration(e)], sel) == [] by { FindLeaf(Duration(e), sel); }
    assert Find([JobDescription(e)], sel) == [] by { FindLeaf(JobDescription(e), sel); }
  }

  lemma DurationFound(e: Experience)
    ensures Find([ExperienceItem(e)], ByClass("duration")) == [Duration(e)]
  {
    var sel := ByClass("duration");
    ExperienceFixedFind(e, "duration");
    assert Find([JobTitle(e)], sel) == [] by { FindLeaf(JobTitle(e), sel); }
    assert Find([Company(e)], sel) == [] by { FindLeaf(Company(e), sel); }
    assert Find([Duration(e)], sel) == [Duration(e)] by { FindLeaf(Duration(e), sel); }
    assert Find([JobDescription(e)], sel) == [] by { FindLeaf(JobDescription(e), sel); }
  }

  lemma JobDescriptionFound(e: Experience)
    ensures Find([ExperienceItem(e)], ByClass("job-description")) == [JobDescription(e)]
  {
    var sel := ByClass("job-description");
    ExperienceFixedFind(e, "job-description");
    assert Find([JobTitle(e)], sel) == [] by { FindLeaf(JobTitle(e), sel); }
    assert Find([Company(e)], sel) == [] by { FindLeaf(Company(e), sel); }
    assert Find([Duration(e)], sel) == [] by { FindLeaf(Duration(e), sel); }
    assert Find([JobDescription(e)], sel) == [JobDescription(e)] by { FindLeaf(JobDescription(e), sel); }
  }

  /**
   * An experience item always shows its title, company, duration and
   * description, once each, in the `job-title`, `company`, `duration` and
   * `job-description` elements ("undefined" for a missing field). The
   * duration span is there even when the duration is missing.
   */
  lemma ExperienceFixedShown(e: Experience)
    ensures OnePerText(Find([ExperienceItem(e)], ByClass("job-title")), [Interp(e.title)])
    ensures OnePerText(Find([ExperienceItem(e)], ByClass("company")), [Interp(e.company)])
    ensures OnePerText(Find([ExperienceItem(e)], ByClass("duration")), [Interp(e.duration)])
    ensures OnePerText(Find([ExperienceItem(e)], ByClass("job-description")), [Interp(e.description)])
  {
    JobTitleFound(e);
    CompanyFound(e);
    DurationFound(e);
    JobDescriptionFound(e);
    LeafText(JobTitle(e));
    LeafText(Company(e));
    LeafText(Duration(e));
    LeafText(JobDescription(e));
  }

  /** Below the heading and the experience container of the resume section, only the items and `extra` can match. */
  lemma ResumeSectionFind(items: seq<Node>, extra: seq<Node>, sel: Selector)
    requires sel !in {ByClass("resume"), ByClass("section-title"), ByClass("experience-container"),
                      ByTag("section"), ByTag("h2"), ByTag("div")}
    ensures Find([ResumeSection(items, extra)], sel) == Find(items, sel) + Find(extra, sel)
  {
    var h2 := Leaf("h2", "section-title", "Experience");
    var container := Element("div", ["experience-container"], [], items);
    FindFrame(ResumeSection(items, extra), h2, container, extra, sel);
    FindLeaf(h2, sel);
    FindElement(container, sel);
    EmptyAppend(Find(items, sel));
  }

  /** `renderExperience`: a resume section exactly when the list is non-empty, else the placeholder. */
  lemma ExperienceResume(experiences: Option<seq<Experience>>)
    ensures Find(RenderExperience(experiences), ByClass("resume")) != [] <==> NonEmpty(experiences)
    ensures AbsentOrEmpty(experiences) ==> RenderExperience(experiences) == [Loading("No experience data available")]
  {
  }

  /** `renderExperience`: one experience item per experience, in order; none for the placeholder. */
  lemma ExperienceRendered(experiences: Option<seq<Experience>>)
    ensures Find(RenderExperience(experiences), ByClass("experience-item")) ==
              MapNodes(Listed(experiences), ExperienceItem)
  {
    var sel := ByClass("experience-item");
    if AbsentOrEmpty(experiences) {
      FindLeaf(Loading("No experience data available"), sel);
      assert Listed(experiences) == [];
    } else {
      var items := MapNodes(experiences.value, ExperienceItem);
      ExperienceItems(experiences.value);
      ResumeSectionFind(items, [], sel);
    }
  }

  /** Rendered experience items are blocks of their class. */
  lemma ExperienceItems(xs: seq<Experience>)
    ensures Find(MapNodes(xs, ExperienceItem), ByClass("experience-item")) == MapNodes(xs, ExperienceItem)
  {
    forall i | 0 <= i < |xs| ensures IsBlock(ExperienceItem(xs[i]), ByClass("experience-item")) {
      ExperienceItemBlock(xs[i]);
    }
    FindMapBlocks(xs, ExperienceItem, ByClass("experience-item"));
  }

  /** An experience item holds no other experience item. */
  lemma ExperienceItemBlock(e: Experience)
    ensures IsBlock(ExperienceItem(e), ByClass("experience-item"))
  {
    var sel := ByClass("experience-item");
    ExperienceChildrenFind(e, sel);
    LocationFind(e.location, sel);
    AchievementsFind(e.achievements, sel);
    SkillsFind(e.skills, sel);
  }

  // ---------------------------------------------------------------------------
  // Education

  lemma SpecializationFind(specialization: Option<string>, sel: Selector)
    requires sel !in {ByClass("gpa"), ByTag("span")}
    ensures Find(Specialization(specialization), sel) == []
  {
    if Truthy(specialization) {
      FindLeaf(Specialization(specialization)[0], sel);
    }
  }

  lemma EducationHeaderFind(e: Education, sel: Selector)
    requires sel !in {ByClass("education-header"), ByClass("degree"), ByClass("university"),
                      ByClass("year"), ByTag("div"), ByTag("h3"), ByTag("span")}
    ensures Find([EducationHeader(e)], sel) ==
              Find(LocationSpan(e.location), sel) + Find(Specialization(e.specialization), sel)
  {
    var names := Element("div", [], [], [Degree(e), University(e)] + LocationSpan(e.location));
    var spec := Specialization(e.specialization);
    var dates := Element("div", [], [], [Year(e)] + spec);
    TitlesFind(Degree(e), University(e), LocationSpan(e.location), sel);
    assert Find([dates], sel) == Find(spec, sel) by {
      FindElement(dates, sel);
      FindAppend([Year(e)], spec, sel);
      FindLeaf(Year(e), sel);
    }
    FindElement(EducationHeader(e), sel);
    FindPair(names, dates, sel);
  }

  /** Below the fixed parts of an education item, only its location and specialization can match. */
  lemma EducationChildrenFind(e: Education, sel: Selector)
    requires sel !in {ByClass("education-header"), ByClass("degree"), ByClass("university"),
                      ByClass("year"), ByClass("education-description"),
                      ByTag("div"), ByTag("h3"), ByTag("span"), ByTag("p")}
    ensures Find(EducationItem(e).children, sel) ==
              Find(LocationSpan(e.location), sel) + Find(Specialization(e.specialization), sel)
  {
    EducationHeaderFind(e, sel);
    FindLeaf(EducationDescription(e), sel);
    FindPair(EducationHeader(e), EducationDescription(e), sel);
  }

  /** An education item shows its location, after the bullet, exactly when it is truthy. */
  lemma EducationLocation(e: Education)
    ensures OnePerText(Find([EducationItem(e)], ByClass("location")),
                       if Truthy(e.location) then [Bullet + e.location.value] else [])
  {
    var item, loc := EducationItem(e), LocationSpan(e.location);
    FindElement(item, ByClass("location"));
    EducationChildrenFind(e, ByClass("location"));
    SpecializationFind(e.specialization, ByClass("location"));
    if Truthy(e.location) {
      FindLeaf(loc[0], ByClass("location"));
    }
  }

  /** An education item shows its specialization exactly when it is truthy. */
  lemma EducationSpecialization(e: Education)
    ensures OnePerText(Find([EducationItem(e)], ByClass("gpa")),
                       if Truthy(e.specialization) then [e.specialization.value] else [])
  {
    var item, spec := EducationItem(e), Specialization(e.specialization);
    FindElement(item, ByClass("gpa"));
    EducationChildrenFind(e, ByClass("gpa"));
    LocationFind(e.location, ByClass("gpa"));
    if Truthy(e.specialization) {
      FindLeaf(spec[0], ByClass("gpa"));
    }
  }

  /** The matches of one of an education item's fixed classes: those among its four fixed leaves. */
  lemma EducationFixedFind(e: Education, cls: string)
    requires cls in {"degree", "university", "year", "education-description"}
    ensures Find([EducationItem(e)], ByClass(cls)) ==
              Find([Degree(e)], ByClass(cls)) + Find([University(e)], ByClass(cls))
              + Find([Year(e)], ByClass(cls)) + Find([EducationDescription(e)], ByClass(cls))
  {
    var sel := ByClass(cls);
    var names := Element("div", [], [], [Degree(e), University(e)] + LocationSpan(e.location));
    var dates := Element("div", [], [], [Year(e)] + Specialization(e.specialization));
    assert Find([names], sel) == Find([Degree(e)], sel) + Find([University(e)], sel) by {
      FindFrame(names, Degree(e), University(e), LocationSpan(e.location), sel);
      LocationFind(e.location, sel);
    }
    assert Find([dates], sel) == Find([Year(e)], sel) by {
      FindElement(dates, sel);
      FindAppend([Year(e)], Specialization(e.specialization), sel);
      SpecializationFind(e.specialization, sel);
    }
    assert Find([EducationHeader(e)], sel) == Find([names], sel) + Find([dates], sel) by {
      FindElement(EducationHeader(e), sel);
      FindPair(names, dates, sel);
    }
    FindElement(EducationItem(e), sel);
    FindPair(EducationHeader(e), EducationDescription(e), sel);
  }

  lemma DegreeFound(e: Education)
    ensures Find([EducationItem(e)], ByClass("degree")) == [Degree(e)]
  {
    var sel := ByClass("degree");
    EducationFixedFind(e, "degree");
    assert Find([Degree(e)], sel) == [Degree(e)] by { FindLeaf(Degree(e), sel); }
    assert Find([University(e)], sel) == [] by { FindLeaf(University(e), sel); }
    assert Find([Year(e)], sel) == [] by { FindLeaf(Year(e), sel); }
    assert Find([EducationDescription(e)], sel) == [] by { FindLeaf(EducationDescription(e), sel); }
  }

  lemma UniversityFound(e: Education)
    ensures Find([EducationItem(e)], ByClass("university")) == [University(e)]
  {
    var sel := ByClass("university");
    EducationFixedFind(e, "university");
    assert Find([Degree(e)], sel) == [] by { FindLeaf(Degree(e), sel); }
    assert Find([University(e)], sel) == [University(e)] by { FindLeaf(University(e), sel); }
    assert Find([Year(e)], sel) == [] by { FindLeaf(Year(e), sel); }
    assert Find([EducationDescription(e)], sel) == [] by { FindLeaf(EducationDescription(e), sel); }
  }

  lemma YearFound(e: Education)
    ensures Find([EducationItem(e)], ByClass("year")) == [Year(e)]
  {
    var sel := ByClass("year");
    EducationFixedFind(e, "year");
    assert Find([Degree(e)], sel) == [] by { FindLeaf(Degree(e), sel); }
    assert Find([University(e)], sel) == [] by { FindLeaf(University(e), sel); }
    assert Find([Year(e)], sel) == [Year(e)] by { FindLeaf(Year(e), sel); }
    assert Find([EducationDescription(e)], sel) == [] by { FindLeaf(EducationDescription(e), sel); }
  }

  lemma EducationDescriptionFound(e: Education)
    ensures Find([EducationItem(e)], ByClass("education-description")) == [EducationDescription(e)]
  {
    var sel := ByClass("education-description");
    EducationFixedFind(e, "education-description");
    assert Find([Degree(e)], sel) == [] by { FindLeaf(Degree(e), sel); }
    assert Find([University(e)], sel) == [] by { FindLeaf(University(e), sel); }
    assert Find([Year(e)], sel) == [] by { FindLeaf(Year(e), sel); }
    assert Find([EducationDescription(e)], sel) == [EducationDescription(e)] by { FindLeaf(EducationDescription(e), sel); }
  }

  /**
   * An education item always shows its degree, university, year and
   * description, once each, in the `degree`, `university`, `year` and
   * `education-description` elements ("undefined" for a missing field).
   */
  lemma EducationFixedShown(e: Education)
    ensures OnePerText(Find([EducationItem(e)], ByClass("degree")), [Interp(e.degree)])
    ensures OnePerText(Find([EducationItem(e)], ByClass("university")), [Interp(e.university)])
    ensures OnePerText(Find([EducationItem(e)], ByClass("year")), [Interp(e.year)])
    ensures OnePerText(Find([EducationItem(e)], ByClass("education-description")), [Interp(e.description)])
  {
    DegreeFound(e);
    UniversityFound(e);
    YearFound(e);
    EducationDescriptionFound(e);
    LeafText(Degree(e));
    LeafText(University(e));
    LeafText(Year(e));
    LeafText(EducationDescription(e));
  }

  /** Below the heading and the container of the education block, only the items can match. */
  lemma EducationBlockFind(items: seq<Node>, sel: Selector)
    requires sel !in {ByClass("section-title"), ByClass("education-container"), ByTag("h2"), ByTag("div")}
    ensures Find(EducationBlock(items), sel) == Find(items, sel)
  {
    var h2 := Leaf("h2", "section-title", "Education");
    var container := Element("div", ["education-container"], [], items);
    FindLeaf(h2, sel);
    FindElement(container, sel);
    FindPair(h2, container, sel);
  }

  /** `renderEducation`: one education item per education, in order; the placeholder for a missing or empty list. */
  lemma EducationRendered(educations: Option<seq<Education>>)
    ensures Find(RenderEducation(educations), ByClass("education-item")) ==
              MapNodes(Listed(educations), EducationItem)
    ensures AbsentOrEmpty(educations) ==> RenderEducation(educations) == [Loading("No education data available")]
  {
    var sel := ByClass("education-item");
    if AbsentOrEmpty(educations) {
      FindLeaf(Loading("No education data available"), sel);
      assert Listed(educations) == [];
    } else {
      var ys := educations.value;
      EducationBlockFind(MapNodes(ys, EducationItem), sel);
      forall i | 0 <= i < |ys| ensures IsBlock(EducationItem(ys[i]), sel) {
        EducationChildrenFind(ys[i], sel);
        LocationFind(ys[i].location, sel);
        SpecializationFind(ys[i].specialization, sel);
      }
      FindMapBlocks(ys, EducationItem, sel);
    }
  }

  // ---------------------------------------------------------------------------
  // Contact

  /**
   * A contact link points at the contact's url, opens a new tab exactly when
   * the url is a web address or a PDF, and reads icon then label.
   */
  lemma ContactLinkShape(c: Contact)
    requires c.url.Some?
    ensures IsBlock(ContactLink(c), ByClass("contact-link"))
    ensures AttrOf(ContactLink(c).attrs, "href") == c.url
    ensures AttrOf(ContactLink(c).attrs, "target") == Some("_blank") <==> OpensNewTab(c.url.value)
    ensures TextOf([ContactLink(c)]) == Interp(c.icon) + Interp(c.labelText)
  {
    var a := ContactLink(c);
    var span, caption := Element("span", [], [], [Text(Interp(c.icon))]), Text(Interp(c.labelText));
    assert Find(a.children, ByClass("contact-link")) == [] by {
      FindLeaf(span, ByClass("contact-link"));
      FindPair(span, caption, ByClass("contact-link"));
      assert [caption][1..] == [];
    }
    assert a.attrs[1..] == if OpensNewTab(c.url.value) then [Attr("target", "_blank")] else [];
    assert TextOf([a]) == Interp(c.icon) + Interp(c.labelText) by {
      TextOfElement(a);
      TextOfPair(span, caption);
      TextOfElement(span);
      assert [Text(Interp(c.icon))][1..] == [] && [caption][1..] == [];
    }
    assert [a][1..] == [];
  }

  /** Below the heading and the containers of the contact block, only the links can match. */
  lemma ContactBlockFind(links: seq<Node>, sel: Selector)
    requires sel !in {ByClass("section-title"), ByClass("contact"), ByClass("contact-links"), ByTag("h2"), ByTag("div")}
    ensures Find(ContactBlock(links), sel) == Find(links, sel)
  {
    var h2 := Leaf("h2", "section-title", "Contact");
    var inner := Element("div", ["contact-links"], [], links);
    var outer := Element("div", ["contact"], [], [inner]);
    FindLeaf(h2, sel);
    FindElement(inner, sel);
    FindElement(outer, sel);
    FindPair(h2, outer, sel);
  }

  /**
   * `renderContact`: it throws exactly when the list is non-empty and some
   * contact has no url; otherwise a non-empty list gives one contact link
   * per contact, in order, with that contact's url and new-tab rule.
   */
  lemma ContactRendered(contacts: Option<seq<Contact>>)
    ensures RenderContact(contacts).None? <==> NonEmpty(contacts) && MissingUrl(contacts.value)
    ensures AbsentOrEmpty(contacts) ==> RenderContact(contacts) == Some([Loading("No contact information available")])
    ensures RenderContact(contacts).Some? && NonEmpty(contacts) ==>
              var links := Find(RenderContact(contacts).value, ByClass("contact-link"));
              |links| == |contacts.value| &&
              forall i :: 0 <= i < |links| ==>
                links[i].Element? &&
                AttrOf(links[i].attrs, "href") == contacts.value[i].url &&
                (AttrOf(links[i].attrs, "target") == Some("_blank") <==> OpensNewTab(contacts.value[i].url.value)) &&
                TextOf([links[i]]) == Interp(contacts.value[i].icon) + Interp(contacts.value[i].labelText)
  {
    if NonEmpty(contacts) && !MissingUrl(contacts.value) {
      var cs := contacts.value;
      var sel := ByClass("contact-link");
      forall i | 0 <= i < |cs|
        ensures IsBlock(ContactLink(cs[i]), sel)
        ensures AttrOf(ContactLink(cs[i]).attrs, "href") == cs[i].url
        ensures AttrOf(ContactLink(cs[i]).attrs, "target") == Some("_blank") <==> OpensNewTab(cs[i].url.value)
        ensures TextOf([ContactLink(cs[i])]) == Interp(cs[i].icon) + Interp(cs[i].labelText)
      {
        ContactLinkShape(cs[i]);
      }
      FindMapBlocks(cs, ContactLink, sel);
      ContactBlockFind(MapNodes(cs, ContactLink), sel);
    }
  }

  /** A contact link holds nothing but itself and its icon span. */
  lemma ContactLinkFind(c: Contact, sel: Selector)
    requires sel !in {ByClass("contact-link"), ByTag("a"), ByTag("span")}
    requires !sel.ById?
    ensures FindIn(ContactLink(c), sel) == []
  {
    var span, caption := Element("span", [], [], [Text(Interp(c.icon))]), Text(Interp(c.labelText));
    FindLeaf(span, sel);
    FindPair(span, caption, sel);
    assert [caption][1..] == [];
  }

  /** What `renderContact` returns holds no match outside its own classes and tags. */
  lemma ContactFind(contacts: Option<seq<Contact>>, sel: Selector)
    requires sel !in {ByClass("section-title"), ByClass("contact"), ByClass("contact-links"), ByClass("contact-link"),
                      ByClass("loading"), ByTag("h2"), ByTag("div"), ByTag("a"), ByTag("span")}
    requires !sel.ById?
    requires RenderContact(contacts).Some?
    ensures Find(RenderContact(contacts).value, sel) == []
  {
    if AbsentOrEmpty(contacts) {
      FindLeaf(Loading("No contact information available"), sel);
    } else {
      var cs := contacts.value;
      forall i | 0 <= i < |cs| ensures FindIn(ContactLink(cs[i]), sel) == [] {
        ContactLinkFind(cs[i], sel);
      }
      FindMapNone(cs, ContactLink, sel);
      ContactBlockFind(MapNodes(cs, ContactLink), sel);
    }
  }

  /** The new-tab rule on a mail link, a web link and a PDF file. */
  lemma OpensNewTabExamples()
    ensures !OpensNewTab("mailto:a@b.com")
    ensures OpensNewTab("https://gh.com/x")
    ensures OpensNewTab("files/cv.pdf")
  {
    assert "mailto:a@b.com"[..4] == "mail" && "mailto:a@b.com"[10..] == ".com";
    assert "https://gh.com/x"[..4] == "http";
    assert "files/cv.pdf"[8..] == ".pdf";
  }
}
