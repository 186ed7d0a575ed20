/** The hash router: a name-to-handler table, a default route, the advisory
    current route and the URL fragment that drives it. Handlers are opaque
    values of type `H`; running one is recorded as an `Invoke` effect.
    Resolution, which the browser triggers through `hashchange`, is the
    explicit step `HandleRouteChange`. */
module Router {
  import opened Wrappers
  import opened Seqs
  import opened UrlFragment

  const DefaultRoute: string := "home"

  datatype State<H> = State(
    routes: map<string, H>,
    defaultRoute: string,
    currentRoute: Option<string>,
    fragment: string)  // the URL fragment, without the leading '#'

  /** Observable effects of the router, in the order they happen. */
  datatype Effect<H> =
    | SetCurrent(name: string)
    | Invoke(handler: H)
    | UpdateNav(active: string)
    | ScrollToTop
    | SetFragment(fragment: string)

  datatype Step<H> = Step(state: State<H>, effects: seq<Effect<H>>)

  /** A freshly constructed router on a page whose URL has `fragment`. */
  function Init<H>(fragment: string): State<H> {
    State(map[], DefaultRoute, None, fragment)
  }

  /** `currentRoute` is either unset or a registered name. */
  ghost predicate Valid<H>(s: State<H>) {
    s.currentRoute.Some? ==> s.currentRoute.value in s.routes
  }

  /** `addRoute(name, handler)`: last write wins, nothing else changes. */
  function AddRoute<H>(s: State<H>, name: string, handler: H): (r: State<H>)
    ensures r.routes.Keys == s.routes.Keys + {name}
    ensures name in r.routes && r.routes[name] == handler
    ensures forall n :: n in s.routes && n != name ==> r.routes[n] == s.routes[n]
    ensures r.defaultRoute == s.defaultRoute && r.currentRoute == s.currentRoute
    ensures r.fragment == s.fragment
    ensures Valid(s) ==> Valid(r)
  {
    s.(routes := s.routes[name := handler])
  }

  /** The assigned value without a single leading '#'. */
  function StripHash(value: string): (v: string)
    ensures value == v || value == "#" + v
    ensures |value| > 0 && value[0] == '#' ==> |v| == |value| - 1
  {
    if |value| > 0 && value[0] == '#' then value[1..] else value
  }

  /** The fragment the browser keeps after `location.hash = value`, which
      `location.hash.slice(1)` reads back: a single leading '#' is dropped
      and the rest is percent-encoded. It is the value itself exactly when
      that rest holds only characters the fragment keeps. */
  function AssignedFragment(value: string): (f: string)
    ensures f == Encode(StripHash(value))
    ensures Safe(f)
    ensures f == StripHash(value) <==> Safe(StripHash(value))
  {
    EncodeFixedPoints(StripHash(value));
    Encode(StripHash(value))
  }

  /** `navigate(path)`: writes the fragment and nothing else. */
  function Navigate<H>(s: State<H>, path: string): (r: State<H>)
    ensures r.fragment == AssignedFragment(path)
    ensures r.routes == s.routes && r.currentRoute == s.currentRoute
    ensures r.defaultRoute == s.defaultRoute
  {
    s.(fragment := AssignedFragment(path))
  }

  /** The route name a resolution looks up: `hash.slice(1) || defaultRoute`. */
  function Target<H>(s: State<H>): (t: string)
    ensures s.fragment == "" ==> t == s.defaultRoute
    ensures s.fragment != "" ==> t == s.fragment
  {
    if s.fragment == "" then s.defaultRoute else s.fragment
  }

  /** The handlers an effect trace runs, in order. */
  function Invoked<H>(es: seq<Effect<H>>): seq<H> {
    if es == [] then []
    else (if es[0].Invoke? then [es[0].handler] else []) + Invoked(es[1..])
  }

  /** `handleRouteChange()`: a registered target becomes current and its
      handler runs; an unregistered one redirects the fragment to the
      default route. */
  function HandleRouteChange<H>(s: State<H>): (r: Step<H>)
    ensures r.state.routes == s.routes && r.state.defaultRoute == s.defaultRoute
    ensures Target(s) in s.routes ==>
      && r.state.currentRoute == Some(Target(s))
      && r.state.fragment == s.fragment
      && r.effects == [SetCurrent(Target(s)), Invoke(s.routes[Target(s)]), UpdateNav(Target(s)), ScrollToTop]
      && Invoked(r.effects) == [s.routes[Target(s)]]
    ensures Target(s) !in s.routes ==>
      && r.state.currentRoute == s.currentRoute
      && r.state.fragment == AssignedFragment(s.defaultRoute)
      && r.effects == [SetFragment(AssignedFragment(s.defaultRoute))]
      && Invoked(r.effects) == []
    ensures Valid(s) ==> Valid(r.state)
  {
    var name := Target(s);
    if name in s.routes then
      var es: seq<Effect<H>> := [SetCurrent(name), Invoke(s.routes[name]), UpdateNav(name), ScrollToTop];
      assert es[1..][1..][1..][1..] == [];
      assert Invoked(es[1..][1..][1..]) == [];
      assert Invoked(es[1..][1..]) == [];
      assert Invoked(es[1..]) == [s.routes[name]];
      Step(s.(currentRoute := Some(name)), es)
    else
      var n := Navigate(s, s.defaultRoute);
      Step(n, [SetFragment(n.fragment)])
  }

  /** `getCurrentRoute()`: the advisory route; a registered name once set. */
  function GetCurrentRoute<H>(s: State<H>): (r: Option<string>)
    requires Valid(s)
    ensures r == s.currentRoute
    ensures r.Some? ==> r.value in s.routes
  {
    s.currentRoute
  }

  /** A navigation link: its `data-page` (if any) and whether it is active. */
  datatype NavLink = NavLink(page: Option<string>, active: bool)

  /** `updateNavLinks(route)`: a link is active iff its page equals `route`. */
  function UpdateNavLinks(links: seq<NavLink>, route: string): (r: seq<NavLink>)
    ensures |r| == |links|
    ensures forall i :: 0 <= i < |r| ==>
      r[i].page == links[i].page && (r[i].active <==> links[i].page == Some(route))
  {
    seq(|links|, i requires 0 <= i < |links| =>
      NavLink(links[i].page, links[i].page == Some(route)))
  }

  function IsActive(l: NavLink): bool {
    l.active
  }

  predicate DistinctPages(links: seq<NavLink>) {
    forall i, j :: 0 <= i < j < |links| ==> links[i].page != links[j].page
  }

  /** With distinct pages, the links hold exactly one active link when some
      link points at `route`, and none otherwise. */
  lemma NavLinksOneActive(links: seq<NavLink>, route: string)
    requires DistinctPages(links)
    ensures Count(UpdateNavLinks(links, route), IsActive)
      == if exists i :: 0 <= i < |links| && links[i].page == Some(route) then 1 else 0
  {
    var u := UpdateNavLinks(links, route);
    if exists i :: 0 <= i < |links| && links[i].page == Some(route) {
      var i :| 0 <= i < |links| && links[i].page == Some(route);
      forall j | 0 <= j < |u| ensures IsActive(u[j]) <==> j == i {
        if j < i {
          assert links[j].page != links[i].page;
        } else if i < j {
          assert links[i].page != links[j].page;
        }
      }
      CountOne(u, IsActive, i);
    } else {
      CountNone(u, IsActive);
    }
  }

  /** The operations a page session applies to the router. `HashChange` is
      the browser delivering a fragment change (or the initial load). */
  datatype Op<H> = Add(name: string, handler: H) | Go(path: string) | HashChange

  function Apply<H>(s: State<H>, op: Op<H>): Step<H> {
    match op
    case Add(n, h) => Step(AddRoute(s, n, h), [])
    case Go(p) => Step(Navigate(s, p), [])
    case HashChange => HandleRouteChange(s)
  }

  function Run<H>(s: State<H>, ops: seq<Op<H>>): Step<H>
    decreases |ops|
  {
    if ops == [] then Step(s, [])
    else
      var first := Apply(s, ops[0]);
      var rest := Run(first.state, ops[1..]);
      Step(rest.state, first.effects + rest.effects)
  }

  /** The name the last `SetCurrent` effect of `es` sets, `cur` if none. */
  function LastActivated<H>(es: seq<Effect<H>>, cur: Option<string>): Option<string>
    decreases |es|
  {
    if es == [] then cur
    else LastActivated(es[1..], if es[0].SetCurrent? then Some(es[0].name) else cur)
  }

  lemma {:induction false} LastActivatedAppend<H>(a: seq<Effect<H>>, b: seq<Effect<H>>, cur: Option<string>)
    ensures LastActivated(a + b, cur) == LastActivated(b, LastActivated(a, cur))
    decreases |a|
  {
    if a == [] {
      assert a + b == b;
    } else {
      assert (a + b)[1..] == a[1..] + b;
      LastActivatedAppend(a[1..], b, if a[0].SetCurrent? then Some(a[0].name) else cur);
    }
  }

  /** Over any session, `currentRoute` is exactly the name of the most recent
      successful resolution (unset before the first one), and it is always a
      registered name. */
  lemma {:induction false} RunTracksCurrentRoute<H>(s: State<H>, ops: seq<Op<H>>)
    requires Valid(s)
    ensures Run(s, ops).state.currentRoute == LastActivated(Run(s, ops).effects, s.currentRoute)
    ensures Valid(Run(s, ops).state)
    decreases |ops|
  {
    if ops != [] {
      var first := Apply(s, ops[0]);
      RunTracksCurrentRoute(first.state, ops[1..]);
      var rest := Run(first.state, ops[1..]);
      LastActivatedAppend(first.effects, rest.effects, s.currentRoute);
      assert LastActivated(first.effects, s.currentRoute) == first.state.currentRoute by {
        var es := first.effects;
        if ops[0].HashChange? && Target(s) in s.routes {
          var t := Some(Target(s));
          assert es[1..][1..][1..][1..] == [];
          assert LastActivated(es[1..][1..][1..], t) == t;
          assert LastActivated(es[1..][1..], t) == t;
          assert LastActivated(es[1..], t) == t;
        } else if ops[0].HashChange? {
          assert es[1..] == [];
        }
      }
    }
  }

  /** With nothing current to begin with, no activation leaves nothing
      current. */
  lemma {:induction false} NoActivationKeepsUnset<H>(es: seq<Effect<H>>)
    ensures LastActivated(es, None).None? <==> forall k :: 0 <= k < |es| ==> !es[k].SetCurrent?
    decreases |es|
  {
    if es != [] {
      NoActivationKeepsUnset(es[1..]);
      if !es[0].SetCurrent? {
        assert forall k :: 1 <= k < |es| ==> es[k] == es[1..][k - 1];
      } else {
        LastActivatedIsSet(es[1..], es[0].name);
      }
    }
  }

  lemma {:induction false} LastActivatedIsSet<H>(es: seq<Effect<H>>, name: string)
    ensures LastActivated(es, Some(name)).Some?
    decreases |es|
  {
    if es != [] {
      LastActivatedIsSet(es[1..], if es[0].SetCurrent? then es[0].name else name);
    }
  }

  /** On a new router, `currentRoute` stays null until the first successful
      resolution of a session and is set from then on. */
  lemma UnsetUntilFirstActivation<H>(fragment: string, ops: seq<Op<H>>)
    ensures var r := Run(Init<H>(fragment), ops);
      r.state.currentRoute.None? <==> forall k :: 0 <= k < |r.effects| ==> !r.effects[k].SetCurrent?
  {
    RunTracksCurrentRoute(Init<H>(fragment), ops);
    NoActivationKeepsUnset(Run(Init<H>(fragment), ops).effects);
  }

  /** Re-registering a name replaces its handler: only the last one runs. */
  lemma ReRegisterInvokesLast<H>(s: State<H>, name: string, a: H, b: H)
    requires name != "" && name[0] != '#' && Safe(name)
    ensures var t := Navigate(AddRoute(AddRoute(s, name, a), name, b), name);
      Invoked(HandleRouteChange(t).effects) == [b]
  {
  }

  /** Setting the fragment to a registered name makes it current after the
      next resolution, and runs its handler once. */
  lemma NavigateThenResolve<H>(s: State<H>, name: string)
    requires name in s.routes && name != "" && name[0] != '#' && Safe(name)
    ensures HandleRouteChange(Navigate(s, name)).state.currentRoute == Some(name)
    ensures Invoked(HandleRouteChange(Navigate(s, name)).effects) == [s.routes[name]]
  {
  }

  /** An unregistered target heals: the redirect rewrites the fragment to the
      default route and the resolution that follows activates the default. */
  lemma UnknownRouteHeals<H>(s: State<H>)
    requires Target(s) !in s.routes
    requires s.defaultRoute in s.routes && s.defaultRoute != "" && s.defaultRoute[0] != '#'
    requires Safe(s.defaultRoute)
    ensures var s1 := HandleRouteChange(s).state;
      && s1.fragment == s.defaultRoute
      && HandleRouteChange(s1).state.currentRoute == Some(s.defaultRoute)
      && Invoked(HandleRouteChange(s1).effects) == [s.routes[s.defaultRoute]]
  {
  }

  /** With an unregistered default, a redirect is a fixed point: resolving
      again changes nothing and runs nothing, so the redirect cannot loop
      through distinct fragments. */
  lemma UnregisteredDefaultSettles<H>(s: State<H>)
    requires Target(s) !in s.routes && s.defaultRoute !in s.routes
    requires AssignedFragment(s.defaultRoute) !in s.routes
    ensures var s1 := HandleRouteChange(s).state;
      HandleRouteChange(s1).state == s1 && Invoked(HandleRouteChange(s1).effects) == []
  {
  }

  /** A registered name with a character the fragment escapes is unreachable
      by `navigate`: the fragment reads back escaped, which is no route, so
      the resolution redirects to the default and the handler never runs. */
  lemma EscapedNameRedirects<H>(h: H)
    ensures var s := AddRoute(Init<H>(""), "ileti\U{015F}im", h);
      var r := HandleRouteChange(Navigate(s, "ileti\U{015F}im"));
      && r.state.currentRoute.None?
      && Invoked(r.effects) == []
      && r.state.fragment == "home"
  {
    EncodeSample();
    var name := "ileti\U{015F}im";
    assert StripHash(name) == name;
    assert "ileti%C5%9Fim" != name by {
      assert "ileti%C5%9Fim"[5] != name[5];
    }
    assert StripHash("home") == "home";
    EncodeKeepsSafe("home");
  }

  /** An empty fragment resolves to the default route, `"home"` on a fresh
      router. */
  lemma EmptyFragmentIsDefault<H>(s: State<H>)
    requires s.fragment == ""
    ensures Target(s) == s.defaultRoute
    ensures Target(Init<H>("")) == "home"
  {
  }
}
