/**
 * The renderer pipeline of js/main.js: four renderers that write the
 * templates of module TemplateEngine into one shared `.container` element,
 * run in a fixed order by `PersonalSiteApp`. The state they act on is the
 * container's children and the document title (Dom); each renderer is
 * specified by a step function on that state, and the pipeline by a fold of
 * the steps, which stops at the first renderer that throws.
 */
module SiteApp {
  import opened Html
  import opened TemplateEngine

  /** The children of the `.container` element and `document.title`. */
  datatype Dom = Dom(container: seq<Node>, title: string)

  datatype Renderer = PersonalInfoRenderer | ExperienceRenderer | EducationRenderer | ContactRenderer

  /** The order of `this.renderers` in the `PersonalSiteApp` constructor. */
  const Pipeline: seq<Renderer> := [PersonalInfoRenderer, ExperienceRenderer, EducationRenderer, ContactRenderer]

  /** The outcome of running renderers: the state reached, and whether a renderer threw there. */
  datatype Outcome = Outcome(dom: Dom, threw: bool)

  // ---------------------------------------------------------------------------
  // One renderer: None when its `render` throws (it then has changed nothing)

  /**
   * `PersonalInfoRenderer.render`: sets the title to the name, replaces the
   * container with the personal section and, when the interests block is not
   * empty, appends it inside the section's `<main>` (a TypeError if there
   * were none).
   */
  function PersonalStep(d: Data, st: Dom): Option<Dom> {
    if d.personal.None? then Some(st)
    else
      var p := d.personal.value;
      var interests := RenderInterests(d.interests);
      if interests == [] then Some(Dom(RenderPersonalSection(p), Interp(p.name)))
      else match InsertFirst(RenderPersonalSection(p), ByTag("main"), interests)
        case None => None
        case Some(c) => Some(Dom(c, Interp(p.name)))
  }

  /** `ExperienceRenderer.render`: appends `renderExperience` to the container. */
  function ExperienceStep(d: Data, st: Dom): Dom {
    if d.experience.None? then st
    else Dom(st.container + RenderExperience(d.experience), st.title)
  }

  /** `EducationRenderer.render`: appends `renderEducation` inside the first `.resume`, if there is one. */
  function EducationStep(d: Data, st: Dom): Dom {
    if d.education.None? then st
    else match InsertFirst(st.container, ByClass("resume"), RenderEducation(d.education))
      case None => st
      case Some(c) => Dom(c, st.title)
  }

  /** `ContactRenderer.render`: appends `renderContact` to the container; throws when that does. */
  function ContactStep(d: Data, st: Dom): Option<Dom> {
    if d.contact.None? then Some(st)
    else match RenderContact(d.contact)
      case None => None
      case Some(f) => Some(Dom(st.container + f, st.title))
  }

  /** The data field a renderer reads; it returns at once when that field is absent. */
  predicate FieldAbsent(r: Renderer, d: Data) {
    match r
    case PersonalInfoRenderer => d.personal.None?
    case ExperienceRenderer => d.experience.None?
    case EducationRenderer => d.education.None?
    case ContactRenderer => d.contact.None?
  }

  function Step(r: Renderer, d: Data, st: Dom): (out: Option<Dom>)
    ensures FieldAbsent(r, d) ==> out == Some(st)
    ensures r != PersonalInfoRenderer && out.Some? ==> out.value.title == st.title
  {
    match r
    case PersonalInfoRenderer => PersonalStep(d, st)
    case ExperienceRenderer => Some(ExperienceStep(d, st))
    case EducationRenderer => Some(EducationStep(d, st))
    case ContactRenderer => ContactStep(d, st)
  }

  /** The renderers' `render(data)` calls on one data object. */
  function Steps(d: Data): (Renderer, Dom) -> Option<Dom> {
    (r, st) => Step(r, d, st)
  }

  /**
   * `renderers.forEach(renderer => renderer.render(data))` with `step` as the
   * renderers' `render(data)`: an exception (`None`) ends the loop.
   */
  function Run(rs: seq<Renderer>, step: (Renderer, Dom) -> Option<Dom>, st: Dom): Outcome
    decreases |rs|
  {
    if rs == [] then Outcome(st, false)
    else match step(rs[0], st)
      case None => Outcome(st, true)
      case Some(next) => Run(rs[1..], step, next)
  }

  // ---------------------------------------------------------------------------
  // The page the pipeline builds, defined part by part

  /** The personal section with the interests block inside its `<main>`. */
  function PersonalView(d: Data): seq<Node> {
    if d.personal.None? then [] else PersonalSection(d.personal.value, RenderInterests(d.interests))
  }

  /**
   * The experience part: nothing without the field, the placeholder for an
   * empty list, else the resume section with the education block appended.
   */
  function ResumeView(d: Data): seq<Node> {
    if d.experience.None? then []
    else if AbsentOrEmpty(d.experience) then [Loading("No experience data available")]
    else [ResumeSection(MapNodes(d.experience.value, ExperienceItem),
                        if d.education.None? then [] else RenderEducation(d.education))]
  }

  /** The contact renderer throws: a non-empty contact list with a contact lacking a url. */
  predicate ContactFails(d: Data) {
    NonEmpty(d.contact) && MissingUrl(d.contact.value)
  }

  function ContactView(d: Data): seq<Node> {
    if d.contact.None? then []
    else match RenderContact(d.contact)
      case None => []
      case Some(f) => f
  }

  function PageView(d: Data): seq<Node> {
    PersonalView(d) + ResumeView(d) + ContactView(d)
  }

  function TitleView(d: Data, title: string): string {
    if d.personal.None? then title else Interp(d.personal.value.name)
  }

  // ---------------------------------------------------------------------------
  // Properties of the steps

  /** The personal section has a `<main>`, so appending the interests never throws. */
  lemma PersonalMain(p: Personal, interests: seq<Node>)
    ensures InsertFirst(RenderPersonalSection(p), ByTag("main"), interests) == Some(PersonalSection(p, interests))
  {
    var bio := BioParagraph(p);
    var main := Element("main", [], [], [bio] + []);
    assert FindIn(ProfileHeader(p), ByTag("main")) == [] by {
      ProfileHeaderFind(p, ByTag("main"));
      assert [ProfileHeader(p)][1..] == [];
    }
    assert RenderPersonalSection(p) == [ProfileHeader(p)] + [main];
    PassOver(ProfileHeader(p), [main], ByTag("main"), interests);
    assert [main] == [main] + [];
    InsertFirstHere(main, [], ByTag("main"), interests);
    assert AppendChildren(main, interests) == Element("main", [], [], [bio] + interests) by {
      assert [bio] + [] + interests == [bio] + interests;
    }
    assert [ProfileHeader(p)] + ([AppendChildren(main, interests)] + []) == PersonalSection(p, interests);
  }

  /**
   * `PersonalInfoRenderer`: with personal data it never throws, sets the
   * title to the name and leaves exactly the personal section, with the
   * interests inside `<main>`, whatever the container held before.
   */
  lemma PersonalRendered(d: Data, st: Dom)
    ensures d.personal.Some? ==> PersonalStep(d, st) == Some(Dom(PersonalView(d), Interp(d.personal.value.name)))
  {
    if d.personal.Some? {
      var p := d.personal.value;
      var interests := RenderInterests(d.interests);
      if interests == [] {
        assert PersonalSection(p, interests) == RenderPersonalSection(p);
      } else {
        PersonalMain(p, interests);
      }
    }
  }

  /** The personal section holds no match outside its own classes and tags and those of the interests block. */
  lemma PersonalViewFind(d: Data, sel: Selector)
    requires sel !in {ByClass("profile-image-container"), ByClass("profile-image"), ByClass("name"), ByClass("title"),
                      ByClass("bio"), ByClass("interests"), ByClass("interest-tag"),
                      ByTag("header"), ByTag("div"), ByTag("img"), ByTag("h1"), ByTag("p"), ByTag("main"), ByTag("span")}
    ensures Find(PersonalView(d), sel) == []
  {
    if d.personal.Some? {
      PersonalSectionFind(d.personal.value, RenderInterests(d.interests), sel);
      InterestsFind(d.interests, sel);
    }
  }

  /** The `.resume` of a rendered experience list takes what is inserted at its end. */
  lemma ResumeReceives(items: seq<Node>, frag: seq<Node>)
    ensures InsertFirst([ResumeSection(items, [])], ByClass("resume"), frag) == Some([ResumeSection(items, frag)])
  {
    var section := ResumeSection(items, []);
    var h2 := Leaf("h2", "section-title", "Experience");
    var container := Element("div", ["experience-container"], [], items);
    assert [section] == [section] + [];
    InsertFirstHere(section, [], ByClass("resume"), frag);
    assert AppendChildren(section, frag) == ResumeSection(items, frag) by {
      assert [h2, container] + [] + frag == [h2, container] + frag;
    }
    assert [AppendChildren(section, frag)] + [] == [ResumeSection(items, frag)];
  }

  /**
   * `EducationRenderer` after the experience part, behind a `prefix` with no
   * `.resume` (the personal section): the education block lands at the end
   * of the resume section when there is one; otherwise it is dropped and
   * nothing changes.
   */
  lemma EducationIntoResume(d: Data, prefix: seq<Node>, title: string)
    requires Find(prefix, ByClass("resume")) == []
    ensures EducationStep(d, Dom(prefix + ExperiencePart(d), title)) == Dom(prefix + ResumeView(d), title)
  {
    var sel := ByClass("resume");
    var experience := ExperiencePart(d);
    if d.education.Some? {
      var frag := RenderEducation(d.education);
      InsertFirstSkips(prefix, experience, sel, frag);
      if AbsentOrEmpty(d.experience) {
        assert Find(experience, sel) == [] by {
          if d.experience.Some? {
            FindLeaf(Loading("No experience data available"), sel);
          }
        }
        InsertFirstFails(experience, sel, frag);
      } else {
        var items := MapNodes(d.experience.value, ExperienceItem);
        assert experience == [ResumeSection(items, [])];
        ResumeReceives(items, frag);
      }
    } else {
      assert ResumeView(d) == experience;
    }
  }

  /** `ContactRenderer` at the end of the pipeline: it throws exactly when a listed contact has no url. */
  lemma ContactAppended(d: Data, st: Dom)
    ensures ContactStep(d, st).None? <==> ContactFails(d)
    ensures !ContactFails(d) ==> ContactStep(d, st) == Some(Dom(st.container + ContactView(d), st.title))
  {
    ContactRendered(d.contact);
    if d.contact.None? {
      assert st.container + [] == st.container;
    }
  }

  // ---------------------------------------------------------------------------
  // The whole pipeline

  /** One renderer, then the rest from the state it leaves, unless it throws. */
  lemma RunCons(r: Renderer, rs: seq<Renderer>, step: (Renderer, Dom) -> Option<Dom>, st: Dom)
    ensures step(r, st).None? ==> Run([r] + rs, step, st) == Outcome(st, true)
    ensures step(r, st).Some? ==> Run([r] + rs, step, st) == Run(rs, step, step(r, st).value)
  {
    assert ([r] + rs)[0] == r && ([r] + rs)[1..] == rs;
  }

  /** What `ExperienceRenderer` appends. */
  function ExperiencePart(d: Data): seq<Node> {
    if d.experience.None? then [] else RenderExperience(d.experience)
  }

  /** The first three renderers, which never throw, from an emptied container. */
  lemma FirstThree(d: Data, title: string)
    ensures Step(PersonalInfoRenderer, d, Dom([], title)) == Some(Dom(PersonalView(d), TitleView(d, title)))
    ensures Step(ExperienceRenderer, d, Dom(PersonalView(d), TitleView(d, title))) ==
              Some(Dom(PersonalView(d) + ExperiencePart(d), TitleView(d, title)))
    ensures Step(EducationRenderer, d, Dom(PersonalView(d) + ExperiencePart(d), TitleView(d, title))) ==
              Some(Dom(PersonalView(d) + ResumeView(d), TitleView(d, title)))
  {
    assert Step(PersonalInfoRenderer, d, Dom([], title)) == Some(Dom(PersonalView(d), TitleView(d, title))) by {
      PersonalRendered(d, Dom([], title));
    }
    assert PersonalView(d) + [] == PersonalView(d);
    PersonalViewFind(d, ByClass("resume"));
    EducationIntoResume(d, PersonalView(d), TitleView(d, title));
  }

  /** The pipeline through renderers that do not throw, up to the contact renderer. */
  lemma RunToContact(step: (Renderer, Dom) -> Option<Dom>, s0: Dom, s1: Dom, s2: Dom, s3: Dom)
    requires step(PersonalInfoRenderer, s0) == Some(s1)
    requires step(ExperienceRenderer, s1) == Some(s2)
    requires step(EducationRenderer, s2) == Some(s3)
    ensures Run(Pipeline, step, s0) == Run([ContactRenderer], step, s3)
  {
  }

  /**
   * What the pipeline leaves after `initialize` has emptied the container:
   * the personal section (with its interests), then the experience part
   * (with the education block inside the resume section), then the contact
   * part; the title is the name when there is personal data. When the
   * contact renderer throws, the container holds everything before it.
   */
  lemma PipelineResult(d: Data, title: string)
    ensures Run(Pipeline, Steps(d), Dom([], title)) ==
              if ContactFails(d) then Outcome(Dom(PersonalView(d) + ResumeView(d), TitleView(d, title)), true)
              else Outcome(Dom(PageView(d), TitleView(d, title)), false)
  {
    var step := Steps(d);
    var s0 := Dom([], title);
    var s1 := Dom(PersonalView(d), TitleView(d, title));
    var s2 := Dom(PersonalView(d) + ExperiencePart(d), TitleView(d, title));
    var s3 := Dom(PersonalView(d) + ResumeView(d), TitleView(d, title));
    FirstThree(d, title);
    assert step(PersonalInfoRenderer, s0) == Step(PersonalInfoRenderer, d, s0);
    assert step(ExperienceRenderer, s1) == Step(ExperienceRenderer, d, s1);
    assert step(EducationRenderer, s2) == Step(EducationRenderer, d, s2);
    RunToContact(step, s0, s1, s2, s3);
    assert Run([ContactRenderer], step, s3) ==
             if ContactFails(d) then Outcome(s3, true) else Outcome(Dom(PageView(d), TitleView(d, title)), false) by {
      ContactAppended(d, s3);
      assert step(ContactRenderer, s3) == Step(ContactRenderer, d, s3);
      RunCons(ContactRenderer, [], step, s3);
      assert [ContactRenderer] == [ContactRenderer] + [];
    }
  }

  /** The education items of the experience part: those of the education block inside a resume section. */
  lemma ResumeEducation(d: Data)
    ensures Find(ResumeView(d), ByClass("education-item")) ==
              if NonEmpty(d.experience) then MapNodes(Listed(d.education), EducationItem) else []
  {
    var sel := ByClass("education-item");
    if d.experience.Some? && AbsentOrEmpty(d.experience) {
      FindLeaf(Loading("No experience data available"), sel);
    } else if d.experience.Some? {
      var xs := d.experience.value;
      var extra := if d.education.None? then [] else RenderEducation(d.education);
      assert Find(MapNodes(xs, ExperienceItem), sel) == [] by {
        forall i | 0 <= i < |xs| ensures FindIn(ExperienceItem(xs[i]), sel) == [] {
          ExperienceItemFindNone(xs[i], "education-item");
        }
        FindMapNone(xs, ExperienceItem, sel);
      }
      assert Find(extra, sel) == MapNodes(Listed(d.education), EducationItem) by {
        EducationRendered(d.education);
      }
      ResumeSectionFind(MapNodes(xs, ExperienceItem), extra, sel);
    }
  }

  /**
   * Education items appear only inside the resume section: one per
   * education entry when a non-empty experience list was rendered, none
   * otherwise, even when education data is present.
   */
  lemma EducationNeedsExperience(d: Data)
    ensures Find(PageView(d), ByClass("education-item")) ==
              if NonEmpty(d.experience) then MapNodes(Listed(d.education), EducationItem) else []
  {
    var sel := ByClass("education-item");
    PersonalViewFind(d, sel);
    assert Find(ContactView(d), sel) == [] by {
      if d.contact.Some? && RenderContact(d.contact).Some? {
        ContactFind(d.contact, sel);
      }
    }
    ResumeEducation(d);
    FindThree(PersonalView(d), ResumeView(d), ContactView(d), sel);
  }

  // ---------------------------------------------------------------------------
  // The objects

  /** The shared `.container` element and the document whose title the renderers set. */
  class Page {
    var container: seq<Node>
    var title: string

    constructor(title: string)
      ensures container == [] && this.title == title
    {
      container := [];
      this.title := title;
    }

    function State(): Dom
      reads this
    {
      Dom(container, title)
    }
  }

  class PersonalInfo {
    const page: Page

    constructor(page: Page)
      ensures this.page == page
    {
      this.page := page;
    }

    method Render(data: Data)
      modifies page
      ensures Some(page.State()) == Step(PersonalInfoRenderer, data, old(page.State()))
    {
      if data.personal.None? {
        return;
      }
      var p := data.personal.value;
      page.title := Interp(p.name);
      var personalHtml := RenderPersonalSection(p);
      var interestsHtml := RenderInterests(data.interests);
      page.container := personalHtml;
      if interestsHtml != [] {
        PersonalMain(p, interestsHtml);
        var inserted := InsertFirst(page.container, ByTag("main"), interestsHtml);
        page.container := inserted.value;
      }
    }
  }

  class ExperienceSection {
    const page: Page

    constructor(page: Page)
      ensures this.page == page
    {
      this.page := page;
    }

    method Render(data: Data)
      modifies page
      ensures Some(page.State()) == Step(ExperienceRenderer, data, old(page.State()))
    {
      if data.experience.None? {
        return;
      }
      var experienceHtml := RenderExperience(data.experience);
      page.container := page.container + experienceHtml;
    }
  }

  class EducationSection {
    const page: Page

    constructor(page: Page)
      ensures this.page == page
    {
      this.page := page;
    }

    method Render(data: Data)
      modifies page
      ensures Some(page.State()) == Step(EducationRenderer, data, old(page.State()))
    {
      if data.education.None? {
        return;
      }
      var educationHtml := RenderEducation(data.education);
      var inserted := InsertFirst(page.container, ByClass("resume"), educationHtml);
      if inserted.Some? {
        page.container := inserted.value;
      }
    }
  }

  class ContactSection {
    const page: Page

    constructor(page: Page)
      ensures this.page == page
    {
      this.page := page;
    }

    /** `threw` reports the TypeError of `renderContact`; the page is then unchanged. */
    method Render(data: Data) returns (threw: bool)
      modifies page
      ensures threw <==> Step(ContactRenderer, data, old(page.State())).None?
      ensures threw ==> page.State() == old(page.State())
      ensures !threw ==> Some(page.State()) == Step(ContactRenderer, data, old(page.State()))
    {
      threw := false;
      if data.contact.None? {
        return;
      }
      var contactHtml := RenderContact(data.contact);
      if contactHtml.None? {
        threw := true;
        return;
      }
      page.container := page.container + contactHtml.value;
    }
  }

  class PersonalSiteApp {
    const page: Page
    const personalInfo: PersonalInfo
    const experience: ExperienceSection
    const education: EducationSection
    const contact: ContactSection
    const renderers: seq<Renderer>

    /** Every renderer writes to the app's page. */
    predicate Valid() {
      personalInfo.page == page && experience.page == page && education.page == page && contact.page == page
    }

    constructor(page: Page)
      ensures Valid() && this.page == page && renderers == Pipeline
    {
      this.page := page;
      personalInfo := new PersonalInfo(page);
      experience := new ExperienceSection(page);
      education := new EducationSection(page);
      contact := new ContactSection(page);
      renderers := Pipeline;
    }

    /** `renderer.render(data)` for one element of `renderers`. */
    method Apply(r: Renderer, data: Data) returns (threw: bool)
      requires Valid()
      modifies page
      ensures threw <==> Step(r, data, old(page.State())).None?
      ensures threw ==> page.State() == old(page.State())
      ensures !threw ==> Some(page.State()) == Step(r, data, old(page.State()))
    {
      threw := false;
      match r {
        case PersonalInfoRenderer =>
          PersonalRendered(data, page.State());
          personalInfo.Render(data);
        case ExperienceRenderer =>
          experience.Render(data);
        case EducationRenderer =>
          education.Render(data);
        case ContactRenderer =>
          threw := contact.Render(data);
      }
    }

    /**
     * The `forEach` of `initialize`: the renderers in order, until one throws.
     * With the container emptied beforehand, the page is the one
     * `PipelineResult` describes.
     */
    method RenderAll(data: Data) returns (threw: bool)
      requires Valid()
      modifies page
      ensures Outcome(page.State(), threw) == Run(renderers, Steps(data), old(page.State()))
    {
      threw := false;
      var i := 0;
      while i < |renderers| && !threw
        invariant 0 <= i <= |renderers|
        invariant Run(renderers, Steps(data), old(page.State())) ==
                    if threw then Outcome(page.State(), true) else Run(renderers[i..], Steps(data), page.State())
      {
        assert renderers[i..] == [renderers[i]] + renderers[i + 1..];
        RunCons(renderers[i], renderers[i + 1..], Steps(data), page.State());
        threw := Apply(renderers[i], data);
        i := i + 1;
      }
      if !threw {
        assert renderers[i..] == [];
      }
    }
  }
}
