/** Tab switching on the about page: buttons carry `data-tab`, the `active`
    class and `aria-selected`; panels are matched by the id `<tab>-tab`. */
module Tabs {
  import opened Wrappers

  datatype TabButton = TabButton(tab: Option<string>, active: bool, selected: bool)
  datatype TabPanel = TabPanel(id: string, shown: bool)
  datatype TabView = TabView(buttons: seq<TabButton>, panels: seq<TabPanel>)

  /** The string JavaScript builds from the tab name in `tabName + '-tab'`. */
  function PanelId(tabName: Option<string>): string {
    (if tabName.Some? then tabName.value else "undefined") + "-tab"
  }

  /** `switchTab(tabName)`: a button is active and selected iff its
      `data-tab` equals the name; a panel is shown iff its id is the name
      followed by `-tab`. A None name is `undefined`, which equals no
      attribute value but still names the panel `undefined-tab`. */
  function SwitchTab(v: TabView, tabName: Option<string>): (r: TabView)
    ensures |r.buttons| == |v.buttons| && |r.panels| == |v.panels|
    ensures forall i :: 0 <= i < |r.buttons| ==>
      && r.buttons[i].tab == v.buttons[i].tab
      && (r.buttons[i].active <==> tabName.Some? && v.buttons[i].tab == tabName)
      && r.buttons[i].selected == r.buttons[i].active
    ensures forall i :: 0 <= i < |r.panels| ==>
      && r.panels[i].id == v.panels[i].id
      && (r.panels[i].shown <==> (tabName.Some? && v.panels[i].id == tabName.value + "-tab")
                                 || (tabName.None? && v.panels[i].id == "undefined-tab"))
  {
    var on := (b: TabButton) => tabName.Some? && b.tab == tabName;
    TabView(
      seq(|v.buttons|, i requires 0 <= i < |v.buttons| =>
        TabButton(v.buttons[i].tab, on(v.buttons[i]), on(v.buttons[i]))),
      seq(|v.panels|, i requires 0 <= i < |v.panels| =>
        v.panels[i].(shown := v.panels[i].id == PanelId(tabName))))
  }

  predicate DistinctTabs(bs: seq<TabButton>) {
    forall i, j :: 0 <= i < j < |bs| ==> bs[i].tab != bs[j].tab
  }

  predicate DistinctIds(ps: seq<TabPanel>) {
    forall i, j :: 0 <= i < j < |ps| ==> ps[i].id != ps[j].id
  }

  /** Clicking button `k` of a bar with distinct tab names selects that
      button alone; with distinct panel ids at most one panel is shown, and
      a shown panel is the clicked tab's. */
  lemma ClickSelectsOne(v: TabView, k: nat)
    requires k < |v.buttons| && v.buttons[k].tab.Some?
    requires DistinctTabs(v.buttons) && DistinctIds(v.panels)
    ensures var r := SwitchTab(v, v.buttons[k].tab);
      && (forall i :: 0 <= i < |r.buttons| ==> (r.buttons[i].active <==> i == k))
      && (forall i, j :: 0 <= i < |r.panels| && 0 <= j < |r.panels| && r.panels[i].shown && r.panels[j].shown ==> i == j)
      && (forall i :: 0 <= i < |r.panels| && r.panels[i].shown ==> r.panels[i].id == v.buttons[k].tab.value + "-tab")
  {
  }

  /** The about page as rendered: "experience" selected and shown,
      "education" not. */
  const Initial: TabView := TabView(
    [TabButton(Some("experience"), true, true), TabButton(Some("education"), false, false)],
    [TabPanel("experience-tab", true), TabPanel("education-tab", false)])

  /** The rendered tab state is the one `switchTab("experience")` produces,
      and switching to "education" and back restores it. */
  lemma InitialIsExperience()
    ensures SwitchTab(Initial, Some("experience")) == Initial
    ensures SwitchTab(SwitchTab(Initial, Some("education")), Some("experience")) == Initial
  {
  }
}
