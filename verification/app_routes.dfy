/** The site's route table: five routes, each rendering its page. */
module AppRoutes {
  import opened Wrappers
  import Router
  import UrlFragment
  import opened Renderers

  const RouteNames: set<string> := {"home", "about", "projects", "skills", "contact"}

  /** `setupRouter`: registers the five routes in order. */
  function SetupRouter(s: Router.State<Page>): (r: Router.State<Page>)
    ensures r.routes.Keys == s.routes.Keys + RouteNames
    ensures r.routes["home"] == HomePage && r.routes["about"] == AboutPage
    ensures r.routes["projects"] == ProjectsPage && r.routes["skills"] == SkillsPage
    ensures r.routes["contact"] == ContactPage
    ensures r.currentRoute == s.currentRoute && r.fragment == s.fragment
    ensures r.defaultRoute == s.defaultRoute
  {
    var s1 := Router.AddRoute(s, "home", HomePage);
    var s2 := Router.AddRoute(s1, "about", AboutPage);
    var s3 := Router.AddRoute(s2, "projects", ProjectsPage);
    var s4 := Router.AddRoute(s3, "skills", SkillsPage);
    Router.AddRoute(s4, "contact", ContactPage)
  }

  /** The site started on a URL with `fragment`. */
  function Startup(fragment: string): Router.State<Page> {
    SetupRouter(Router.Init(fragment))
  }

  /** The valid fragments are exactly the five route names: the initial
      resolution activates a valid fragment at once, an empty one activates
      home, and any other is redirected to home, which the next resolution
      activates. */
  lemma StartupResolves(fragment: string)
    ensures Startup(fragment).routes.Keys == RouteNames
    ensures var r := Router.HandleRouteChange(Startup(fragment));
      && (fragment in RouteNames ==> r.state.currentRoute == Some(fragment))
      && (fragment == "" ==> r.state.currentRoute == Some("home")
                             && Router.Invoked(r.effects) == [HomePage])
      && (fragment !in RouteNames && fragment != "" ==>
            && r.state.currentRoute.None?
            && r.state.fragment == "home"
            && Router.HandleRouteChange(r.state).state.currentRoute == Some("home")
            && Router.Invoked(Router.HandleRouteChange(r.state).effects) == [HomePage])
  {
    if fragment !in RouteNames && fragment != "" {
      UnknownFragmentRedirects(fragment);
    }
  }

  /** An unknown fragment on the site's router is redirected to home. */
  lemma UnknownFragmentRedirects(fragment: string)
    requires fragment !in RouteNames && fragment != ""
    ensures var r := Router.HandleRouteChange(Startup(fragment));
      && r.state.currentRoute.None?
      && r.state.fragment == "home"
      && r.state.routes == Startup(fragment).routes
  {
    assert Router.AssignedFragment("home") == "home" by {
      assert Router.StripHash("home") == "home";
      assert UrlFragment.Safe("home");
    }
  }
}
