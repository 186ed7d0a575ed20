/** The page renderers. Each takes the loaded portfolio data (None for
    `null`) and yields either its fixed fallback fragment or a summary of
    the parts of its markup the model tracks. */
module Renderers {
  import opened Wrappers
  import opened DataCache
  import Services
  import Projects
  import Tabs

  const HomeFallback: string :=
    "<div class=\"section\"><div class=\"container\"><p>Veri yuklenirken bir hata olustu.</p></div></div>"
  const PageFallback: string :=
    "<div class=\"section\"><div class=\"container\"><p>Veri yuklenemedi.</p></div></div>"

  datatype Page = HomePage | AboutPage | ProjectsPage | SkillsPage | ContactPage

  /** The tracked parts of the home page: the hero's name, title and short
      bio, and one emoji per service card. */
  datatype HomeView = HomeView(name: string, title: string, shortBio: string, serviceIcons: seq<string>)

  datatype Fragment =
    | Fallback(html: string)
    | HomeContent(home: HomeView)
    | AboutContent(tabs: Tabs.TabView)
    | ProjectsContent(filters: Projects.FilterView)
    | SkillsContent
    | ContactContent

  /** `renderHomePage`. */
  function RenderHome(data: Option<PortfolioData>): (r: Fragment)
    ensures data.None? ==> r == Fallback(HomeFallback)
    ensures data.Some? ==> r.HomeContent?
    ensures data.Some? ==>
      && r.home.name == data.value.personal.name
      && r.home.title == data.value.personal.title
      && r.home.shortBio == Services.ShortBio(data.value.personal.bio)
      && |r.home.serviceIcons| == |data.value.services|
      && forall i :: 0 <= i < |r.home.serviceIcons| ==>
           r.home.serviceIcons[i] == Services.ServiceEmoji(data.value.services[i].title)
  {
    if data.None? then Fallback(HomeFallback)
    else
      var d := data.value;
      HomeContent(HomeView(
        d.personal.name, d.personal.title,
        Services.ShortBio(d.personal.bio),
        seq(|d.services|, i requires 0 <= i < |d.services| => Services.ServiceEmoji(d.services[i].title))))
  }

  /** `renderAboutPage`: the tabs start on "experience". */
  function RenderAbout(data: Option<PortfolioData>): (r: Fragment)
    ensures data.None? ==> r == Fallback(PageFallback)
    ensures data.Some? ==> r.AboutContent? && r.tabs == Tabs.SwitchTab(r.tabs, Some("experience"))
    ensures data.Some? ==>
      && |r.tabs.buttons| == 2 && |r.tabs.panels| == 2
      && r.tabs.buttons[0] == Tabs.TabButton(Some("experience"), true, true)
      && r.tabs.buttons[1] == Tabs.TabButton(Some("education"), false, false)
      && r.tabs.panels[0] == Tabs.TabPanel("experience-tab", true)
      && r.tabs.panels[1] == Tabs.TabPanel("education-tab", false)
  {
    if data.None? then Fallback(PageFallback)
    else
      Tabs.InitialIsExperience();
      AboutContent(Tabs.Initial)
  }

  /** The category of each project, in order. */
  function ProjectCategories(ps: seq<Project>): (cats: seq<string>)
    ensures |cats| == |ps|
    ensures forall i :: 0 <= i < |ps| ==> cats[i] == ps[i].category
  {
    seq(|ps|, i requires 0 <= i < |ps| => ps[i].category)
  }

  /** `renderProjectsPage`: the filter bar seeded from the de-duplicated
      categories with its first button active, and every card shown. */
  function RenderProjects(data: Option<PortfolioData>): (r: Fragment)
    ensures data.None? ==> r == Fallback(PageFallback)
    ensures data.Some? ==> r.ProjectsContent?
    ensures data.Some? ==>
      var cats := ProjectCategories(data.value.projects);
      && r.filters.buttons == Projects.FilterBar(cats)
      && |r.filters.cards| == |data.value.projects|
      && forall i :: 0 <= i < |r.filters.cards| ==>
           r.filters.cards[i].shown && r.filters.cards[i].category == Some(data.value.projects[i].category)
  {
    if data.None? then Fallback(PageFallback)
    else
      var cats := ProjectCategories(data.value.projects);
      ProjectsContent(Projects.FilterView(Projects.FilterBar(cats), Projects.Cards(cats)))
  }

  /** `renderSkillsPage`; its markup is not tracked. */
  function RenderSkills(data: Option<PortfolioData>): (r: Fragment)
    ensures data.None? <==> r == Fallback(PageFallback)
  {
    if data.None? then Fallback(PageFallback) else SkillsContent
  }

  /** `renderContactPage`; its markup is not tracked. */
  function RenderContact(data: Option<PortfolioData>): (r: Fragment)
    ensures data.None? <==> r == Fallback(PageFallback)
  {
    if data.None? then Fallback(PageFallback) else ContactContent
  }

  function Render(page: Page, data: Option<PortfolioData>): Fragment {
    match page
    case HomePage => RenderHome(data)
    case AboutPage => RenderAbout(data)
    case ProjectsPage => RenderProjects(data)
    case SkillsPage => RenderSkills(data)
    case ContactPage => RenderContact(data)
  }

  /** The fixed fallback of each page. */
  function FallbackOf(page: Page): string {
    if page == HomePage then HomeFallback else PageFallback
  }

  /** Every renderer falls back exactly when there is no data, and the
      fallback depends on nothing but the page. */
  lemma EveryRendererFallsBack(page: Page, data: Option<PortfolioData>)
    ensures Render(page, data).Fallback? <==> data.None?
    ensures data.None? ==> Render(page, data) == Fallback(FallbackOf(page))
  {
  }

  /** A page rendered through the cache falls back iff the cache was empty
      and the fetch did not deliver a document. */
  lemma RenderThroughCache(page: Page, cache: Option<PortfolioData>, outcome: FetchOutcome)
    ensures Render(page, LoadPortfolioData(cache, outcome).result).Fallback?
      <==> cache.None? && Delivered(outcome).None?
  {
  }
}
