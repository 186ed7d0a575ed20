/** The projects page's filtering: the category list that seeds the filter
    bar, the bar itself, the card filter and a click on a filter button. */
module Projects {
  import opened Wrappers
  import opened Seqs

  const All: string := "all"

  predicate Distinct(s: seq<string>) {
    forall i, j :: 0 <= i < j < |s| ==> s[i] != s[j]
  }

  /** Index of the first occurrence of `x` in `s`. */
  function FirstIndex(s: seq<string>, x: string): (k: nat)
    requires x in s
    ensures k < |s| && s[k] == x && x !in s[..k]
  {
    if s[0] == x then 0
    else
      var k := FirstIndex(s[1..], x);
      assert s[..k + 1] == [s[0]] + s[1..][..k];
      k + 1
  }

  /** The de-duplicating loop of `renderProjectsPage`: appends each
      category of `cats` not yet in `acc`, in order. */
  function AddNew(acc: seq<string>, cats: seq<string>): (r: seq<string>)
    requires Distinct(acc)
    ensures |acc| <= |r| && r[..|acc|] == acc
    ensures Distinct(r)
    ensures forall c :: c in r <==> c in acc || c in cats
    ensures forall i :: |acc| <= i < |r| ==> r[i] !in acc && r[i] in cats
    ensures forall i, j :: |acc| <= i < j < |r| ==> FirstIndex(cats, r[i]) < FirstIndex(cats, r[j])
    decreases |cats|
  {
    if cats == [] then acc
    else if cats[0] in acc then
      var r := AddNew(acc, cats[1..]);
      forall i | |acc| <= i < |r| ensures FirstIndex(cats, r[i]) == 1 + FirstIndex(cats[1..], r[i]) {
        assert r[i] != cats[0];
      }
      r
    else
      var acc' := acc + [cats[0]];
      var r := AddNew(acc', cats[1..]);
      assert r[..|acc|] == acc by { assert r[..|acc'|][..|acc|] == acc; }
      forall i | |acc'| <= i < |r| ensures FirstIndex(cats, r[i]) == 1 + FirstIndex(cats[1..], r[i]) {
        assert r[i] != cats[0] by { assert cats[0] == acc'[|acc|] == r[|acc|]; }
      }
      assert r[|acc|] == cats[0] by { assert r[..|acc'|] == acc'; }
      r
  }

  /** The filter categories: `"all"` first, then every project category
      once, in order of first appearance. */
  function Categories(cats: seq<string>): (r: seq<string>)
    ensures |r| >= 1 && r[0] == All
    ensures Distinct(r)
    ensures forall c :: c in r <==> c == All || c in cats
    ensures forall i, j :: 1 <= i < j < |r| ==> FirstIndex(cats, r[i]) < FirstIndex(cats, r[j])
  {
    var r := AddNew([All], cats);
    assert r[0] == r[..1][0];
    r
  }

  /** The category counted once even when a project uses `"all"`. */
  lemma CategoriesSample()
    ensures Categories(["web", "all", "api", "web"]) == ["all", "web", "api"]
  {
  }

  /** A filter button: its `data-filter`, its caption and the `active` class. */
  datatype FilterButton = FilterButton(filter: Option<string>, caption: string, active: bool)

  /** The captions of the known category keys. */
  const Captions: map<string, string> := map["all" := "Tumu", "web" := "Web", "mobile" := "Mobil", "api" := "API"]

  /** The button caption of a category key: the table's caption for a known
      key, the key itself for any other. */
  function CategoryLabel(c: string): (l: string)
    ensures c in Captions ==> l == Captions[c]
    ensures c !in Captions ==> l == c
  {
    if c == "all" then "Tumu"
    else if c == "web" then "Web"
    else if c == "mobile" then "Mobil"
    else if c == "api" then "API"
    else c
  }

  /** The rendered filter bar: one button per category, only the first active. */
  function FilterBar(cats: seq<string>): (r: seq<FilterButton>)
    ensures |r| == |Categories(cats)|
    ensures forall j :: 0 <= j < |r| ==>
      && r[j].filter == Some(Categories(cats)[j])
      && r[j].caption == CategoryLabel(Categories(cats)[j])
      && (r[j].active <==> j == 0)
  {
    var ks := Categories(cats);
    seq(|ks|, j requires 0 <= j < |ks| => FilterButton(Some(ks[j]), CategoryLabel(ks[j]), j == 0))
  }

  /** A project card: its `data-category` attribute (None when absent) and
      whether it is displayed. */
  datatype ProjectCard = ProjectCard(category: Option<string>, shown: bool)

  /** `filterProjects(category)`: a card is shown iff the filter is `"all"` or
      equals the card's category. A None filter is `undefined`, which equals
      no attribute value, not even an absent one. */
  function FilterProjects(cards: seq<ProjectCard>, category: Option<string>): (r: seq<ProjectCard>)
    ensures |r| == |cards|
    ensures forall i :: 0 <= i < |r| ==> r[i].category == cards[i].category
    ensures forall i :: 0 <= i < |r| ==>
      (r[i].shown <==> category == Some(All) || (category.Some? && cards[i].category == category))
  {
    seq(|cards|, i requires 0 <= i < |cards| =>
      cards[i].(shown := category == Some(All) || (category.Some? && cards[i].category == category)))
  }

  datatype FilterView = FilterView(buttons: seq<FilterButton>, cards: seq<ProjectCard>)

  /** A click on filter button `k`: it alone becomes active, and the cards
      are filtered by its `data-filter`. */
  function ClickFilter(v: FilterView, k: nat): (r: FilterView)
    requires k < |v.buttons|
    ensures |r.buttons| == |v.buttons|
    ensures forall j :: 0 <= j < |r.buttons| ==>
      r.buttons[j].filter == v.buttons[j].filter && r.buttons[j].caption == v.buttons[j].caption
      && (r.buttons[j].active <==> j == k)
    ensures r.cards == FilterProjects(v.cards, v.buttons[k].filter)
  {
    FilterView(
      seq(|v.buttons|, j requires 0 <= j < |v.buttons| => v.buttons[j].(active := j == k)),
      FilterProjects(v.cards, v.buttons[k].filter))
  }

  function IsActive(b: FilterButton): bool {
    b.active
  }

  /** The rendered bar and every click on it keep exactly one active button. */
  lemma ExactlyOneActiveFilter(cats: seq<string>, cards: seq<ProjectCard>, k: nat)
    requires k < |FilterBar(cats)|
    ensures Count(FilterBar(cats), IsActive) == 1
    ensures Count(ClickFilter(FilterView(FilterBar(cats), cards), k).buttons, IsActive) == 1
  {
    CountOne(FilterBar(cats), IsActive, 0);
    CountOne(ClickFilter(FilterView(FilterBar(cats), cards), k).buttons, IsActive, k);
  }

  /** The cards rendered for projects with these categories: all shown. */
  function Cards(cats: seq<string>): (r: seq<ProjectCard>)
    ensures |r| == |cats|
    ensures forall i :: 0 <= i < |r| ==> r[i] == ProjectCard(Some(cats[i]), true)
  {
    seq(|cats|, i requires 0 <= i < |cats| => ProjectCard(Some(cats[i]), true))
  }

  /** On the rendered page, a project's card is shown after clicking button
      `k` exactly when that button is `"all"` or the project's own category,
      and every category but `"all"` has a button of its own. */
  lemma FilterBarSelectsProjects(cats: seq<string>, k: nat, i: nat)
    requires k < |FilterBar(cats)| && i < |cats|
    ensures ClickFilter(FilterView(FilterBar(cats), Cards(cats)), k).cards[i].shown
      <==> k == 0 || Categories(cats)[k] == cats[i]
    ensures exists j :: 0 <= j < |FilterBar(cats)| && FilterBar(cats)[j].filter == Some(cats[i])
  {
    var ks := Categories(cats);
    assert cats[i] in ks;
    var j :| 0 <= j < |ks| && ks[j] == cats[i];
    assert FilterBar(cats)[j].filter == Some(cats[i]);
    if k != 0 {
      assert ks[k] != All by { assert ks[0] == All; }
    }
  }

  /** The page as rendered is what clicking its first button produces. */
  lemma RenderedIsAllFilter(cats: seq<string>)
    ensures ClickFilter(FilterView(FilterBar(cats), Cards(cats)), 0)
      == FilterView(FilterBar(cats), Cards(cats))
  {
  }
}
