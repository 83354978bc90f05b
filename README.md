# halprez.github.io page templating, in Dafny

This project models the data-driven HTML templating of the halprez.github.io personal site and proves what pages it builds. The site has two variants of this code:

- **main.js, class `PersonalSite`.** `render` empties the page container. It then writes the personal section and sets the document title, when the personal data has a truthy name. After that it appends one timeline section for each non-empty list, in this order: experience, education, thoughts, projects. Each section is built by `renderSection` and its helpers, which are pure template functions.
- **js/main.js, `TemplateEngine` and the renderer pipeline.** The templates are static template functions. Four renderer objects share the `.container` element: `PersonalInfoRenderer`, `ExperienceRenderer`, `EducationRenderer` and `ContactRenderer`. `PersonalSiteApp` runs them in that fixed order with `forEach`.

How the model represents things:

- **Markup.** A fragment is the tree of nodes it parses to. `Html.Node` is either `Text` or `Element(tag, classes, attrs, children)`. A query (`querySelector`, or a property stated about the page) is `Html.Find`: every element matching a class, tag or id selector, in document order.
- **Appending.** `insertAdjacentHTML('beforeend', …)` on the container appends to a node sequence. On an element found by `querySelector`, it is `Html.InsertFirst`: the fragment is appended to the children of the first match, and the result is `None` when nothing matches.
- **Field values.** Every field of the data document is an `Option`. The JavaScript rules are spelled out:
  - a string is truthy when it is present and not empty (`Html.Truthy`);
  - a missing value interpolates as `"undefined"` (`Html.Interp`);
  - an empty list is still truthy, so `if (!data.x)` tests presence only, while `!x || x.length === 0` is `Html.AbsentOrEmpty`.
- **Modules and files.**
  - **`html.dfy`** (module `Html`): the node tree, queries and insertion.
  - **`site_render.dfy`** (module `SiteRender`): main.js. Its templates are functions. `PersonalSite` is a class whose `Render` method writes the container and title fields in the order the source does.
  - **`template_engine.dfy`** (module `TemplateEngine`): the templates of js/main.js.
  - **`site_app.dfy`** (module `SiteApp`): the pipeline.
    - Each renderer is a class sharing one `Page` object, which holds the container and the title.
    - The `render` method of each renderer is proved against a step function on `Dom`.
    - `RenderAll` is the `forEach` loop, proved against `Run`, a fold of the steps that stops at the first step that throws.
- **A throwing contact.** In `renderContact`, `contact.url.startsWith(...)` throws a TypeError when a contact has no url. The model keeps this: `RenderContact` returns `None`, the contact renderer reports `threw`, and the pipeline stops there.
- **The bullet in main.js.** main.js writes the bullet before an item's location as the three characters `â€¢`, a doubly encoded "•". The model keeps it as written (`SiteRender.LocationBullet`). js/main.js writes the real bullet (`TemplateEngine.Bullet`).

## Model

| member | source | states |
|---|---|---|
| SiteRender.PersonalSite.Render | main.js:41-88 | The container ends up holding exactly `Page(data)`, whatever it held before. The title becomes the name exactly when personal data with a truthy name is present, and is otherwise unchanged. |
| SiteRender.PersonalSite.AppendSection | main.js:50-58 | One `if (list && list.length > 0)` block appends that list's timeline section, or nothing, after the existing content, and leaves the title alone. |
| SiteRender.PageIds | main.js:41-88 | The page's top-level elements are, in order: `personal` when the name is truthy, then `experience`, `education`, `thoughts` and `projects`, each exactly when its list is present and non-empty. Each id names exactly one top-level element. |
| SiteRender.PageItems | main.js:50-87 | The page's item blocks are one per entry of the four lists, in list order. A missing or empty list contributes none. The personal section contributes none. |
| SiteRender.PersonalIds | main.js:92 | The personal markup is a single element, with id `personal`. |
| SiteRender.RenderSection | main.js:117-123 | `renderSection` always yields one section with the section's id. It has class `tags` exactly when the type is "tags", and class `timeline` otherwise, including when the type is missing. |
| SiteRender.HeadingRule | main.js:156-158 | The heading content holds a `section-title-link` anchor exactly when `link` is truthy. That anchor points at `"#" + link` and shows the title. Either way, the heading's text is the title. |
| SiteRender.TimelineSectionShape | main.js:139-166 | A timeline section holds exactly one item block per element of `items`, in input order. Its heading follows the link rule. |
| SiteRender.TagsSectionShape | main.js:125-137 | A tags section holds one `tag` span per item, in order, each showing that item's text. Its heading follows the link rule. |
| SiteRender.ItemTitleShown | main.js:143-144 | Every item block has exactly one `item-title` heading showing the title and one `item-subtitle` span showing the subtitle. Both are there even when the field is missing, and then show "undefined". |
| SiteRender.ItemLocationShown | main.js:146 | An item block holds one `item-location` span, showing the bullet and the location, exactly when the location is truthy. Otherwise it holds none. |
| SiteRender.ItemDurationShown | main.js:148 | An item block holds one `item-duration` span with the duration exactly when the duration is truthy. |
| SiteRender.ItemDescriptionShown | main.js:150 | An item block holds one `item-description` paragraph with the description exactly when the description is truthy. |
| SiteRender.ItemDetailsShown | main.js:151 | An item block holds an `item-details` list exactly when `details` is present, even when it is empty. That list has one `<li>` per detail, in order. |
| SiteRender.ItemTagsShown | main.js:152 | An item block holds an `item-tags` block exactly when `tags` is present, even when it is empty. That block has one `tag` span per tag, in order. |
| SiteRender.ItemClasses | main.js:140-154 | An item block has no element with a class outside the template's own item classes, apart from itself (class `item`). |
| SiteRender.DetailsList | main.js:168-171 | `renderDetails` yields one `<li>` per detail, in order, each holding that detail. |
| SiteRender.TagsList | main.js:173-176 | `renderTags` yields one `tag` span per tag, in order, each holding that tag. |
| SiteRender.ContactLink | main.js:103 | A contact link points at the url and has `target="_blank"` exactly when the url is truthy. |
| SiteRender.ContactBlockLinks | main.js:100-110 | The `contact-links` block is there exactly when `contact` is present. It holds one link per contact item, in order, with that item's href and the new-tab rule. |
| SiteRender.PersonalShown | main.js:90-99 | The personal section has exactly one `name`, one `title` and one `bio` element, showing the name, the title and the bio. It has exactly one `profile-image`, whose `src` is the image field and whose `alt` is the name. |
| SiteRender.PersonalContacts | main.js:90-114 | The contact block and the contact links of the whole personal section are exactly those of the contact rule above. |
| TemplateEngine.PersonalShown | js/main.js:46-59 | The personal section has exactly one `name`, one `title` and one `bio` element, showing the name, the title and the bio. It has exactly one `profile-image`, whose `src` is the fixed `images/me.png` and whose `alt` is the name. |
| TemplateEngine.InterestsRendered | js/main.js:61-69 | The interests block is empty exactly for a missing or empty list. Otherwise there is one `interest-tag` per interest, in order. |
| TemplateEngine.AchievementsRendered | js/main.js:149-159 | The achievements block is empty exactly for a missing or empty list. Otherwise there is one `<li>` per achievement, in order. |
| TemplateEngine.SkillsRendered | js/main.js:161-166 | The skills block is empty exactly for a missing or empty list. Otherwise there is one `skill-tag` per skill, in order. |
| TemplateEngine.ExperienceResume | js/main.js:71-98 | The output holds a `.resume` section exactly when the experience list is present and non-empty. A missing or empty list yields exactly the "No experience data available" placeholder. |
| TemplateEngine.ExperienceRendered | js/main.js:76-90 | There is exactly one `experience-item` block per experience, in input order. There are none for a missing or empty list. |
| TemplateEngine.ExperienceFixedShown | js/main.js:80-86 | Every experience item has exactly one `job-title`, one `company`, one `duration` and one `job-description` element, showing the title, the company, the duration and the description ("undefined" when missing). Unlike the `item-duration` span of main.js:147, the duration span is always there. |
| TemplateEngine.ExperienceLocation | js/main.js:82 | An experience item has one `location` span, showing the bullet and the location, exactly when the location is truthy. |
| TemplateEngine.ExperienceAchievements | js/main.js:87 | An experience item's `<li>` elements are its achievements, one each, in order. |
| TemplateEngine.ExperienceSkills | js/main.js:88 | An experience item's `skill-tag` spans are its skills, one each, in order. |
| TemplateEngine.EducationRendered | js/main.js:100-126 | There is exactly one `education-item` block per education entry, in input order. A missing or empty list yields exactly the "No education data available" placeholder, with no items. |
| TemplateEngine.EducationFixedShown | js/main.js:109-118 | Every education item has exactly one `degree`, one `university`, one `year` and one `education-description` element, showing those fields ("undefined" when missing). |
| TemplateEngine.EducationLocation | js/main.js:111 | An education item has one `location` span exactly when its location is truthy. |
| TemplateEngine.EducationSpecialization | js/main.js:115 | An education item has one `gpa` span with the specialization exactly when the specialization is truthy. |
| TemplateEngine.ContactLinkShape | js/main.js:133-139 | A contact link is one `contact-link` element with the url as href. It has `target="_blank"` exactly when the url starts with "http" or ends with ".pdf". Its text is the icon followed by the label. |
| TemplateEngine.ContactRendered | js/main.js:128-147 | `renderContact` throws exactly when the list is non-empty and some contact lacks a url. A missing or empty list yields exactly the "No contact information available" placeholder. Otherwise a non-empty list yields one link per contact, in order, each with its href, new-tab rule and text. |
| TemplateEngine.OpensNewTabExamples | js/main.js:135 | The new-tab rule on sample urls: a `mailto:` link stays in the tab, an `https` link and a `.pdf` file open a new one. |
| SiteApp.Step | js/main.js:181-226 | Each renderer leaves the page unchanged when its data field is absent. Only the personal renderer changes the title. |
| SiteApp.PersonalMain | js/main.js:189-194 | The personal section always has a `<main>`, so inserting the interests there never throws, and the interests end up after the bio. |
| SiteApp.PersonalRendered | js/main.js:181-196 | With personal data, the personal renderer never throws. It sets the title to the name and replaces the container with the personal section, with the interests inside `<main>`, whatever the container held. |
| SiteApp.EducationIntoResume | js/main.js:207-217 | After the experience part, the education markup lands at the end of the resume section. When the experience part has no `.resume` (an absent or empty list), the education markup is dropped and nothing changes. |
| SiteApp.ContactAppended | js/main.js:219-226 | The contact renderer throws exactly when a listed contact has no url. Otherwise it appends the contact markup after the existing content. |
| SiteApp.RunToContact | js/main.js:324-329 | In the pipeline order, three renderers that do not throw bring the run to the contact renderer. |
| SiteApp.PipelineResult | js/main.js:345-348 | Starting from the emptied container, the page ends up as the personal section, then the experience part (with education inside the resume section), then the contact part. The title is the name when personal data is present. When the contact renderer throws, the page keeps everything before it and the run reports the throw. |
| SiteApp.EducationNeedsExperience | js/main.js:207-217 | The finished page has one `education-item` per education entry when a non-empty experience list was rendered, and none otherwise, even when education data is present. |
| SiteApp.PersonalInfo.Render | js/main.js:181-196 | The personal renderer's method changes the page exactly as its step does. |
| SiteApp.ExperienceSection.Render | js/main.js:198-205 | The experience renderer's method changes the page exactly as its step does. |
| SiteApp.EducationSection.Render | js/main.js:207-217 | The education renderer's method changes the page exactly as its step does. |
| SiteApp.ContactSection.Render | js/main.js:219-226 | The contact renderer's method reports a throw exactly when its step throws, and then leaves the page as it was. Otherwise it changes the page as the step does. |
| SiteApp.PersonalSiteApp.constructor | js/main.js:319-329 | The app's renderers all write to one page, in the pipeline order. |
| SiteApp.PersonalSiteApp.Apply | js/main.js:348 | `renderer.render(data)` for one renderer of the pipeline: the page changes as that renderer's step says, or stays as it was when the step throws. |
| SiteApp.PersonalSiteApp.RenderAll | js/main.js:348 | The `forEach` loop leaves the page and the throw flag that the fold of the steps (`Run`) predicts. Together with `PipelineResult`, that is the page described there. |
| Html.InsertFirstSkips | js/main.js:212-214 | `querySelector('.resume')` looks past any leading content without a match: an insertion there lands in the first matching element after it. |
| Html.InsertFirstFails | js/main.js:212-213 | The insertion into the first match is not made exactly when no element matches the selector. |

## Left out

- Data loading and start-up are not part of this model: `DataRepository.loadSiteData`, `PersonalSite.loadData`, `init`/`initialize`, the loading and error placeholders and `initializeResume`. The data is a parameter. When the contact renderer throws, the model reports `threw` and does not model the `catch` in `initialize` that replaces the page with an error message.
- The visual effects (cursor, parallax, scroll, typing, hover, floating menu) are not part of this model. They are timers, event handlers and floating-point arithmetic with no contract to state.
- `DOMManager` and the `.container` lookup are left out. The container is assumed to exist, and the case where `querySelector('.container')` returns null is not modelled.
- HTML parsing, escaping and whitespace are left out. A field value is a text node, whereas the source interpolates it unescaped, so a value holding markup would add elements that the model does not show. The whitespace of the template literals is dropped.
- Only strings, lists and records are modelled as field values; numbers and booleans in the data are not modelled. A JSON `null` is modelled as an absent field. Guards treat the two alike, but where the source interpolates a null field it prints "null" (`${null}`, and `document.title = null` at js/main.js:185), while the model prints "undefined" (`Html.Interp`).
- SiteApp.PersonalStep: the `None` case, a throw because `<main>` is missing, cannot happen (`PersonalMain`). The model therefore does not record that the source would already have set the title and replaced the container before throwing.
- TemplateEngine.ContactLink: its `url.Some?` test never fails, because `RenderContact` only builds links once every contact has a url.
