/** Scroll effects: the header's `scrolled` class and the scroll-top
    button's `visible` class, each absent when its element is missing. */
module Scroll {
  import opened Wrappers

  const HeaderThreshold: real := 50.0
  const ScrollTopThreshold: real := 300.0

  datatype ScrollView = ScrollView(
    headerScrolled: Option<bool>,   // None: no header element
    scrollTopVisible: Option<bool>) // None: no scroll-top button

  /** `handleScroll` at vertical offset `y`: strict thresholds of 50 and 300. */
  function HandleScroll(v: ScrollView, y: real): (r: ScrollView)
    ensures r.headerScrolled.Some? <==> v.headerScrolled.Some?
    ensures r.scrollTopVisible.Some? <==> v.scrollTopVisible.Some?
    ensures r.headerScrolled.Some? ==> (r.headerScrolled.value <==> y > 50.0)
    ensures r.scrollTopVisible.Some? ==> (r.scrollTopVisible.value <==> y > 300.0)
  {
    ScrollView(
      if v.headerScrolled.Some? then Some(y > HeaderThreshold) else None,
      if v.scrollTopVisible.Some? then Some(y > ScrollTopThreshold) else None)
  }

  /** The view depends on the latest offset only: earlier scrolling leaves
      no trace. */
  lemma ScrollIsMemoryless(v: ScrollView, y1: real, y2: real)
    ensures HandleScroll(HandleScroll(v, y1), y2) == HandleScroll(v, y2)
  {
  }

  /** Scrolling further down never removes a class, and a visible scroll-top
      button implies a shadowed header. */
  lemma ScrollMonotone(v: ScrollView, y1: real, y2: real)
    requires y1 <= y2 && v.headerScrolled.Some? && v.scrollTopVisible.Some?
    ensures HandleScroll(v, y1).headerScrolled.value ==> HandleScroll(v, y2).headerScrolled.value
    ensures HandleScroll(v, y1).scrollTopVisible.value ==> HandleScroll(v, y2).scrollTopVisible.value
    ensures HandleScroll(v, y1).scrollTopVisible.value ==> HandleScroll(v, y1).headerScrolled.value
  {
  }
}
