/** The paging bookkeeping of the `ButtonList` widget (pyos/buttonlist.py): a
    fixed number of list buttons shows one page of a list of strings, two
    arrow buttons and a "page/pages" label page through it, and optional
    filter buttons highlight the active filter. Button construction and
    layout are left out; each button is reduced to its text and whether it is
    hidden, and the click callbacks, which are foreign code, to the indices
    they are called with. */
module ButtonList {
  import opened Outcomes
  import opened Py
  import Util

  /** A list button: its text and whether it is hidden. */
  datatype Slot = Slot(text: string, hidden: bool)

  /** A callback call: the list callback or the filter callback, with the
      index it received. */
  datatype Report = ListClick(index: int) | FilterClick(index: int)

  /** The widget as a value. `filters` is empty when no filter buttons were
      made; `highlight[i]` tells whether filter button `i` has the active
      colour. */
  datatype Widget = Widget(
    data: seq<string>, itpp: nat, filters: seq<string>, hasFilterCb: bool,
    page: int, activeFilter: int,
    slots: seq<Slot>, arrowsHidden: bool, labelHidden: bool, labelText: string,
    highlight: seq<bool>, reports: seq<Report>)

  datatype Step = Step(status: Status, next: Widget)

  /** `ceil(n / itpp)`, the number of pages. */
  function NumPages(n: nat, itpp: nat): nat
    requires itpp >= 1
  {
    (n + itpp - 1) / itpp
  }

  /** The pages are just enough to hold every entry: none for an empty list,
      otherwise all but the last page are full and the last is not empty. */
  lemma NumPagesMeaning(n: nat, itpp: nat)
    requires itpp >= 1
    ensures NumPages(n, itpp) == 0 <==> n == 0
    ensures n <= NumPages(n, itpp) * itpp
    ensures n > 0 ==> (NumPages(n, itpp) - 1) * itpp < n
  {
    var k := NumPages(n, itpp);
    var m := n + itpp - 1;
    assert m == k * itpp + m % itpp;
    if n > 0 {
      assert (k - 1) * itpp == k * itpp - itpp;
    }
  }

  /** What the widget keeps true: at least one item per page, one slot per
      item of a page, one highlight flag per filter button, and a page no
      lower than -1 (where paging backwards on an empty list leaves it; the
      list may be refilled in place while the page stays there). */
  predicate Sane(w: Widget) {
    w.itpp >= 1 && |w.slots| == w.itpp && |w.highlight| == |w.filters| && w.page >= -1
  }

  /** The list buttons showing the page that starts at entry `offset`:
      buttons with an entry take its text and are shown, the others are
      hidden and keep their text. */
  function Shown(data: seq<string>, offset: int, slots: seq<Slot>): (r: seq<Slot>)
    requires -|data| <= offset
    ensures |r| == |slots|
    ensures forall i :: 0 <= i < |slots| ==> r[i] == ShownAt(data, offset + i, slots[i])
  {
    seq(|slots|, i requires 0 <= i < |slots| => ShownAt(data, offset + i, slots[i]))
  }

  /** A list button for entry `idx`: when `idx < len(data)` it shows
      `data[idx]`, read with Python's rule for negative indices; otherwise it
      is hidden. */
  function ShownAt(data: seq<string>, idx: int, slot: Slot): Slot
    requires -|data| <= idx
  {
    if idx < |data| then Slot(data[PyIndex(|data|, idx).value], false) else slot.(hidden := true)
  }

  /** The page label, `f'{page + 1}/{num_pages}'`; page -1 reads `0/n`. */
  function Label(page: int, pages: nat): string
    requires page >= -1
  {
    Util.Decimal(page + 1) + "/" + Util.Decimal(pages)
  }

  /** `_update_filter()`: with filter buttons, exactly the active one is
      highlighted. */
  function Highlighted(w: Widget): Widget {
    if |w.filters| == 0 then w
    else w.(highlight := seq(|w.filters|, i => i == w.activeFilter))
  }

  /** The page `update_content` settles on: 0 when a reset is asked, and a
      page past the end pulled back to the last page (0 for an empty list). */
  function SettledPage(page: int, reset: bool, pages: nat): int {
    var p0 := if reset then 0 else page;
    if p0 + 1 > pages then (if pages - 1 > 0 then pages - 1 else 0) else p0
  }

  /** The list buttons switched to page `p`. */
  function ShowPage(w: Widget, p: int): Widget
    requires -|w.data| <= p * w.itpp
  {
    w.(page := p, slots := Shown(w.data, p * w.itpp, w.slots))
  }

  /** The page label and the arrows: shown, the label naming the page, when
      there is more than one page; hidden otherwise. */
  function Paging(w: Widget, pages: nat): Widget
    requires w.page >= -1
  {
    if pages > 1 then w.(labelHidden := false, labelText := Label(w.page, pages), arrowsHidden := false)
    else w.(labelHidden := true, arrowsHidden := true)
  }

  /** The display part of `update_content`: show the page, update the
      label and arrows, refresh the filter highlight. Button `i` reads
      `data[page * itpp + i]` whenever that index is below `len(data)`; on a
      negative page the first button's index is the lowest, so when it is
      below `-len(data)` that read raises `IndexError` before anything
      changes. */
  function Display(w: Widget, pages: nat): Step
    requires w.page >= -1
  {
    if w.page * w.itpp < -|w.data| then Step(Raised(IndexError), w)
    else Step(Done, Highlighted(Paging(ShowPage(w, w.page), pages)))
  }

  /** `update_content(reset_page)`: settle the page, then display it. */
  function Refresh(w: Widget, reset: bool): Step
    requires Sane(w)
  {
    var n := NumPages(|w.data|, w.itpp);
    Display(w.(page := SettledPage(w.page, reset, n)), n)
  }

  /** The page an arrow click moves to: stepping below the first page wraps
      to `last`, stepping past `last` wraps to the first. */
  function Turn(page: int, direction: int, last: int): int {
    if page + direction < 0 then last
    else if page + direction > last then 0
    else page + direction
  }

  /** `_change_page(direction)`: turn the page, then `update_content()`. */
  function ChangePageStep(w: Widget, direction: int): Step
    requires Sane(w)
  {
    var last := NumPages(|w.data|, w.itpp) - 1;
    var w1 := w.(page := Turn(w.page, direction, last));
    assert Sane(w1) by {
      if w1.page < 0 {
        NumPagesMeaning(|w.data|, w.itpp);
      }
    }
    Refresh(w1, false)
  }

  /** `_cb_redirect(pos)`: the list callback gets the entry index of button
      `pos` on the current page. */
  function ClickStep(w: Widget, pos: int): Widget {
    w.(reports := w.reports + [ListClick(w.page * w.itpp + pos)])
  }

  /** `_filtercb_redirect(pos)`: the filter callback gets `page * itpp +
      pos`, filter `pos` becomes the active one and the highlight is
      refreshed. Without a filter callback the call raises `TypeError`. */
  function FilterClickStep(w: Widget, pos: int): Step {
    if !w.hasFilterCb then Step(Raised(TypeError), w)
    else Step(Done, Highlighted(w.(reports := w.reports + [FilterClick(w.page * w.itpp + pos)], activeFilter := pos)))
  }

  /** Button `i`'s read `data[page * itpp + i]` is made (the index is below
      `len(data)`) and raises `IndexError`. */
  predicate ReadRaises(w: Widget, i: int) {
    var idx := w.page * w.itpp + i;
    idx < |w.data| && PyIndex(|w.data|, idx).None?
  }

  /** The list buttons show the current page: button `i` is shown exactly
      when `page * itpp + i < len(data)`, and then shows the entry Python
      reads at that index. */
  predicate Displayed(w: Widget) {
    |w.slots| == w.itpp && -|w.data| <= w.page * w.itpp &&
    forall i :: 0 <= i < |w.slots| ==>
      (!w.slots[i].hidden <==> w.page * w.itpp + i < |w.data|) &&
      (!w.slots[i].hidden ==> w.slots[i].text == w.data[PyIndex(|w.data|, w.page * w.itpp + i).value])
  }

  /** Displaying a page raises `IndexError` exactly when one of the buttons'
      reads `data[page * itpp + i]` is out of Python's index range, which
      happens only on page -1 with fewer than `itpp` entries; a failed
      display changes nothing. Otherwise the buttons display the page (on
      page -1, the last `itpp` entries), and the label and arrows are shown
      exactly when there is more than one page, the label then naming the
      page and the page count. */
  lemma DisplayMeaning(w: Widget, pages: nat)
    requires |w.slots| == w.itpp && |w.highlight| == |w.filters| && w.page >= -1
    ensures Display(w, pages).status == Raised(IndexError) <==>
      exists i :: 0 <= i < w.itpp && ReadRaises(w, i)
    ensures Display(w, pages).status == Done <==> w.page >= 0 || w.itpp <= |w.data|
    ensures Display(w, pages).status != Done ==> Display(w, pages) == Step(Raised(IndexError), w)
    ensures var r := Display(w, pages).next;
      Display(w, pages).status == Done ==>
        Displayed(r) && r.page == w.page &&
        (r.labelHidden <==> pages <= 1) && (r.arrowsHidden <==> pages <= 1) &&
        (pages > 1 ==> r.labelText == Label(w.page, pages))
    ensures var r := Display(w, pages).next;
      Display(w, pages).status == Done && w.page == -1 ==>
        forall i :: 0 <= i < w.itpp ==> r.slots[i] == Slot(w.data[|w.data| - w.itpp + i], false)
    ensures var r := Display(w, pages).next;
      r.data == w.data && r.itpp == w.itpp && r.filters == w.filters && r.reports == w.reports &&
      |r.slots| == |w.slots| && |r.highlight| == |w.highlight|
  {
    ReadsMeaning(w);
    if Display(w, pages).status == Done {
      DisplayShows(w, pages);
    }
  }

  /** The success half of `DisplayMeaning`. */
  lemma DisplayShows(w: Widget, pages: nat)
    requires |w.slots| == w.itpp && |w.highlight| == |w.filters| && w.page >= -1
    requires -|w.data| <= w.page * w.itpp
    ensures var r := Highlighted(Paging(ShowPage(w, w.page), pages));
      Displayed(r) && r.page == w.page &&
      (r.labelHidden <==> pages <= 1) && (r.arrowsHidden <==> pages <= 1) &&
      (pages > 1 ==> r.labelText == Label(w.page, pages))
    ensures var r := Highlighted(Paging(ShowPage(w, w.page), pages));
      w.page == -1 ==> forall i :: 0 <= i < w.itpp ==> r.slots[i] == Slot(w.data[|w.data| - w.itpp + i], false)
  {
    var s := ShowPage(w, w.page);
    ShownDisplays(w, w.page);
    var p := Paging(s, pages);
    var r := Highlighted(p);
    assert r.slots == s.slots && r.page == s.page && r.data == s.data && r.itpp == s.itpp;
    DisplayedKept(s, r);
    if w.page == -1 {
      LastEntriesShown(r);
    }
  }

  /** Whether the buttons display the page depends only on the list, the
      page and the buttons. */
  lemma DisplayedKept(a: Widget, b: Widget)
    requires Displayed(a)
    requires b.slots == a.slots && b.page == a.page && b.data == a.data && b.itpp == a.itpp
    ensures Displayed(b)
  {
  }

  /** On page -1 the buttons that display it show the last `itpp` entries. */
  lemma LastEntriesShown(w: Widget)
    requires Displayed(w) && w.page == -1
    ensures forall i :: 0 <= i < w.itpp ==> w.slots[i] == Slot(w.data[|w.data| - w.itpp + i], false)
  {
    forall i | 0 <= i < w.itpp
      ensures w.slots[i] == Slot(w.data[|w.data| - w.itpp + i], false)
    {
      assert w.page * w.itpp + i == i - w.itpp;
    }
  }

  /** Some button's read raises exactly when the first one's does, that is
      on page -1 with fewer than `itpp` entries. */
  lemma ReadsMeaning(w: Widget)
    requires w.page >= -1
    ensures (exists i :: 0 <= i < w.itpp && ReadRaises(w, i)) <==> w.page * w.itpp < -|w.data|
    ensures w.page * w.itpp < -|w.data| <==> w.page == -1 && |w.data| < w.itpp
  {
    var offset := w.page * w.itpp;
    if w.page >= 0 {
      assert offset >= 0;
    } else {
      assert offset == -(w.itpp as int);
    }
    if offset < -|w.data| {
      assert ReadRaises(w, 0);
    } else {
      forall i | 0 <= i < w.itpp
        ensures !ReadRaises(w, i)
      {
        assert offset <= w.page * w.itpp + i;
      }
    }
  }

  /** A refresh fails only when the page was left at -1 by paging
      backwards over an empty list and the list still holds fewer than
      `itpp` entries, and then changes nothing. When it succeeds, the page
      is 0 if a reset was asked, kept if it was in range (page -1 included),
      pulled back to the last page if it was past the end; the buttons
      display it; the label and arrows are shown exactly when there is more
      than one page, the label then naming the page and the page count. */
  lemma RefreshMeaning(w: Widget, reset: bool)
    requires Sane(w)
    ensures Refresh(w, reset).status == Done <==> reset || w.page >= 0 || w.itpp <= |w.data|
    ensures Refresh(w, reset).status != Done ==> Refresh(w, reset) == Step(Raised(IndexError), w)
    ensures var r := Refresh(w, reset).next; var n := NumPages(|w.data|, w.itpp);
      Refresh(w, reset).status == Done ==>
        Sane(r) && Displayed(r) &&
        (reset ==> r.page == 0) &&
        (!reset && w.page < n ==> r.page == w.page) &&
        (!reset && w.page >= n ==> r.page == if n > 0 then n - 1 else 0) &&
        (n > 0 ==> r.page < n) &&
        (r.labelHidden <==> n <= 1) && (r.arrowsHidden <==> n <= 1) &&
        (n > 1 ==> r.labelText == Label(r.page, n)) &&
        r.data == w.data && r.reports == w.reports
  {
    var n := NumPages(|w.data|, w.itpp);
    SettledPageMeaning(w.page, reset, n);
    var w1 := w.(page := SettledPage(w.page, reset, n));
    DisplayMeaning(w1, n);
    if w1.page < 0 {
      assert w1 == w;
    }
  }

  /** The settled page is 0 after a reset, kept when in range, the last page
      when past the end, and negative only when it already was. */
  lemma SettledPageMeaning(page: int, reset: bool, pages: nat)
    ensures reset ==> SettledPage(page, reset, pages) == 0
    ensures !reset && page < pages ==> SettledPage(page, reset, pages) == page
    ensures !reset && page >= pages ==> SettledPage(page, reset, pages) == if pages > 0 then pages - 1 else 0
    ensures SettledPage(page, reset, pages) < 0 <==> !reset && page < 0
    ensures pages > 0 && SettledPage(page, reset, pages) >= 0 ==> SettledPage(page, reset, pages) < pages
  {
  }

  /** After switching to a page, the buttons display it. */
  lemma ShownDisplays(w: Widget, p: int)
    requires |w.slots| == w.itpp && -|w.data| <= p * w.itpp
    ensures Displayed(ShowPage(w, p))
  {
  }

  /** Paging wraps around: forwards from the last page goes to the first,
      backwards from the first goes to the last, and within the pages a step
      forward is undone by a step back and the other way round. */
  lemma TurnWraps(page: int, last: int)
    requires 0 <= page <= last
    ensures Turn(last, 1, last) == 0 && Turn(0, -1, last) == last
    ensures Turn(Turn(page, 1, last), -1, last) == page
    ensures Turn(Turn(page, -1, last), 1, last) == page
  {
  }

  /** Paging keeps a valid page valid, and on an empty list paging backwards
      raises `IndexError` while paging forwards succeeds on page 0. */
  lemma ChangePageMeaning(w: Widget, direction: int)
    requires Sane(w)
    ensures |w.data| > 0 ==> ChangePageStep(w, direction).status == Done
    ensures |w.data| > 0 && w.page < NumPages(|w.data|, w.itpp) ==>
      ChangePageStep(w, direction).next.page == Turn(w.page, direction, NumPages(|w.data|, w.itpp) - 1)
    ensures |w.data| == 0 && w.page == 0 ==>
      (ChangePageStep(w, -1).status == Raised(IndexError) && ChangePageStep(w, -1).next.page == -1)
    ensures |w.data| == 0 && w.page == 0 ==> ChangePageStep(w, 1).status == Done && ChangePageStep(w, 1).next.page == 0
  {
    var last := NumPages(|w.data|, w.itpp) - 1;
    NumPagesMeaning(|w.data|, w.itpp);
    var w1 := w.(page := Turn(w.page, direction, last));
    RefreshMeaning(w1, false);
    if |w.data| == 0 && w.page == 0 {
      RefreshMeaning(w.(page := Turn(0, 1, last)), false);
      RefreshMeaning(w.(page := Turn(0, -1, last)), false);
    }
  }

  /** A click on a shown list button reports the index of the entry that
      button shows: Python's `data[index]` is that entry, and on a page other
      than -1 the index is a plain position in the list. */
  lemma ClickReportsShown(w: Widget, pos: int)
    requires Displayed(w) && 0 <= pos < |w.slots| && !w.slots[pos].hidden
    ensures var r := ClickStep(w, pos).reports[|w.reports|];
      r.ListClick? && PyIndex(|w.data|, r.index).Some? &&
      w.data[PyIndex(|w.data|, r.index).value] == w.slots[pos].text
    ensures var r := ClickStep(w, pos).reports[|w.reports|];
      w.page >= 0 ==> 0 <= r.index < |w.data| && w.data[r.index] == w.slots[pos].text
  {
  }

  /** Paging backwards over an empty list leaves page -1 and raises; once
      the caller refills the list in place with at least `itpp` entries,
      `update_content()` succeeds on page -1 and shows the last `itpp`
      entries, the label reading `0/n` when there are several pages. */
  lemma RefillAfterBackPage(w: Widget, d: seq<string>)
    requires Sane(w) && |w.data| == 0 && w.page == 0 && |d| >= w.itpp
    ensures ChangePageStep(w, -1).status == Raised(IndexError)
    ensures var b := ChangePageStep(w, -1).next; var r := Refresh(b.(data := d), false);
      b.page == -1 && r.status == Done && r.next.page == -1 &&
      (forall i :: 0 <= i < w.itpp ==> r.next.slots[i] == Slot(d[|d| - w.itpp + i], false)) &&
      (NumPages(|d|, w.itpp) > 1 ==> r.next.labelText == Label(-1, NumPages(|d|, w.itpp)))
  {
    ChangePageMeaning(w, -1);
    var b := ChangePageStep(w, -1).next;
    NumPagesMeaning(|d|, w.itpp);
    RefreshMeaning(b.(data := d), false);
    DisplayMeaning(b.(data := d), NumPages(|d|, w.itpp));
  }

  /** When the caller shortens the list in place so that the current page
      is past the end, `update_content()` pulls the page back to the new last
      page. */
  lemma ShrinkClampsPage(w: Widget, d: seq<string>)
    requires Sane(w) && 0 < |d| && NumPages(|d|, w.itpp) <= w.page
    ensures var r := Refresh(w.(data := d), false);
      r.status == Done && r.next.page == NumPages(|d|, w.itpp) - 1 && Displayed(r.next)
  {
    NumPagesMeaning(|d|, w.itpp);
    RefreshMeaning(w.(data := d), false);
  }

  /** A string of digits followed by `/` and anything: the first `/` comes
      right after the digits. */
  lemma SlashSplits(a: string, b: string)
    requires forall i :: 0 <= i < |a| ==> '0' <= a[i] <= '9'
    ensures (a + "/" + b)[|a|] == '/'
    ensures forall i :: 0 <= i < |a| ==> (a + "/" + b)[i] != '/'
    ensures (a + "/" + b)[..|a|] == a && (a + "/" + b)[|a| + 1..] == b
  {
  }

  /** Two strings of digits, each followed by `/` and anything: when the
      results are equal, so are the digits and so is what follows. */
  lemma SlashUnique(a: string, b: string, a': string, b': string)
    requires forall i :: 0 <= i < |a| ==> '0' <= a[i] <= '9'
    requires forall i :: 0 <= i < |a'| ==> '0' <= a'[i] <= '9'
    requires a + "/" + b == a' + "/" + b'
    ensures a == a' && b == b'
  {
    SlashSplits(a, b);
    SlashSplits(a', b');
  }

  /** The page label determines the page and the page count. */
  lemma LabelNamesPage(p: int, n: nat, p': int, n': nat)
    requires p >= -1 && p' >= -1 && Label(p, n) == Label(p', n')
    ensures p == p' && n == n'
  {
    SlashUnique(Util.Decimal(p + 1), Util.Decimal(n), Util.Decimal(p' + 1), Util.Decimal(n'));
    Util.DecimalRoundTrip(p + 1);
    Util.DecimalRoundTrip(p' + 1);
    Util.DecimalRoundTrip(n);
    Util.DecimalRoundTrip(n');
  }

  /** A filter click reports `page * itpp + pos` and leaves exactly filter
      `pos` highlighted. */
  lemma FilterClickMeaning(w: Widget, pos: int)
    requires w.hasFilterCb && |w.filters| > 0
    ensures var r := FilterClickStep(w, pos);
      r.status == Done && r.next.activeFilter == pos &&
      r.next.reports == w.reports + [FilterClick(w.page * w.itpp + pos)] &&
      |r.next.highlight| == |w.filters| &&
      forall i :: 0 <= i < |w.filters| ==> (r.next.highlight[i] <==> i == pos)
  {
  }

  /** The widget object. */
  class List {
    /** The caller's list, which callers change in place. */
    var data: seq<string>
    const itpp: nat
    const filters: seq<string>
    const hasFilterCb: bool
    var page: int
    var activeFilter: int
    var slots: seq<Slot>
    var arrowsHidden: bool
    var labelHidden: bool
    var labelText: string
    var highlight: seq<bool>
    /** The callback calls made so far, oldest first. */
    var reports: seq<Report>

    function State(): Widget
      reads this
    {
      Widget(data, itpp, filters, hasFilterCb, page, activeFilter, slots,
        arrowsHidden, labelHidden, labelText, highlight, reports)
    }

    /** The widget as built: page 0, button `i` showing entry `i` (or an
        empty text), arrows and an empty label shown, no filter highlighted. */
    constructor (data: seq<string>, itpp: nat, filters: seq<string>, hasFilterCb: bool)
      requires itpp >= 1
      ensures State() == Widget(data, itpp, filters, hasFilterCb, 0, 0,
        seq(itpp, i => Slot(if 0 <= i < |data| then data[i] else "", false)),
        false, false, "", seq(|filters|, _ => false), [])
      ensures Sane(State())
    {
      this.data := data;
      this.itpp := itpp;
      this.filters := filters;
      this.hasFilterCb := hasFilterCb;
      page := 0;
      activeFilter := 0;
      slots := seq(itpp, i => Slot(if 0 <= i < |data| then data[i] else "", false));
      arrowsHidden := false;
      labelHidden := false;
      labelText := "";
      highlight := seq(|filters|, _ => false);
      reports := [];
    }

    /** `ButtonList(data, onclick, itpp, ..., filters, filtercb)` with its
        argument checks: filters without a filter callback, or a filters list
        of length 1, raise `ValueError`. `filters` is `None` or a list; both
        `None` and an empty list make no filter buttons. */
    static method Create(data: seq<string>, itpp: nat, filters: Option<seq<string>>, hasFilterCb: bool)
      returns (r: Result<List>)
      requires itpp >= 1
      ensures var fs := if filters.Some? then filters.value else [];
        r.Err? <==> (|fs| > 0 && !hasFilterCb) || |fs| == 1
      ensures r.Err? ==> r.error == ValueError
      ensures r.Ok? ==> fresh(r.value) && Sane(r.value.State()) && r.value.page == 0 && r.value.data == data
      ensures var fs := if filters.Some? then filters.value else [];
        r.Ok? ==> r.value.State() == Widget(data, itpp, fs, hasFilterCb, 0, 0,
          seq(itpp, i => Slot(if 0 <= i < |data| then data[i] else "", false)),
          false, false, "", seq(|fs|, _ => false), [])
    {
      var fs := if filters.Some? then filters.value else [];
      if |fs| > 0 && !hasFilterCb {
        return Err(ValueError);
      }
      if filters.Some? && |fs| == 1 {
        return Err(ValueError);
      }
      var b := new List(data, itpp, fs, hasFilterCb);
      r := Ok(b);
    }

    /** `_update_filter()` */
    method UpdateFilter()
      requires |highlight| == |filters|
      modifies this
      ensures State() == Highlighted(old(State()))
    {
      if |filters| == 0 {
        return;
      }
      var hl := highlight;
      for i := 0 to |filters|
        invariant |hl| == |filters|
        invariant forall j :: 0 <= j < i ==> hl[j] == (j == activeFilter)
      {
        hl := hl[i := i == activeFilter];
      }
      highlight := hl;
    }

    /** A caller changing the list it handed in (appending, popping,
        clearing): only the list changes. */
    method SetData(d: seq<string>)
      modifies this
      ensures State() == old(State()).(data := d)
    {
      data := d;
    }

    /** The button loop of `update_content`. */
    method FillSlots() returns (st: Status)
      requires Sane(State())
      modifies this
      ensures st == Raised(IndexError) <==> old(page) * itpp < -|old(data)|
      ensures st == Raised(IndexError) ==> State() == old(State())
      ensures st != Raised(IndexError) ==> st == Done && State() == ShowPage(old(State()), old(page))
    {
      var offset := page * itpp;
      var ss := slots;
      for i := 0 to itpp
        invariant |ss| == itpp
        invariant offset < -|data| ==> i == 0
        invariant offset >= -|data| ==> forall j :: 0 <= j < i ==> ss[j] == ShownAt(data, offset + j, slots[j])
        invariant forall j :: i <= j < itpp ==> ss[j] == slots[j]
      {
        var idx := offset + i;
        if idx < |data| {
          match PyIndex(|data|, idx)
          case None =>
            return Raised(IndexError);
          case Some(k) =>
            ss := ss[i := Slot(data[k], false)];
        } else {
          ss := ss[i := ss[i].(hidden := true)];
        }
      }
      assert ss == Shown(data, offset, slots);
      slots := ss;
      st := Done;
    }

    /** The label and arrow part of `update_content`. */
    method SetPaging(pages: nat)
      requires page >= -1
      modifies this
      ensures State() == Paging(old(State()), pages)
    {
      if pages > 1 {
        labelHidden := false;
        labelText := Util.Decimal(page + 1) + "/" + Util.Decimal(pages);
        arrowsHidden := false;
      } else {
        labelHidden := true;
        arrowsHidden := true;
      }
    }

    /** The page settling part of `update_content`. */
    method Settle(reset: bool) returns (n: nat)
      requires Sane(State())
      modifies this
      ensures n == NumPages(|data|, itpp)
      ensures State() == old(State()).(page := SettledPage(old(page), reset, n))
      ensures Sane(State())
    {
      if reset {
        page := 0;
      }
      n := (|data| + itpp - 1) / itpp;
      if page + 1 > n {
        page := if n - 1 > 0 then n - 1 else 0;
      }
      SettledPageMeaning(old(page), reset, n);
    }

    /** The display part of `update_content`. */
    method Show(n: nat) returns (st: Status)
      requires Sane(State())
      modifies this
      ensures st == Display(old(State()), n).status
      ensures State() == Display(old(State()), n).next
    {
      ghost var w := State();
      st := FillSlots();
      if st != Done {
        return;
      }
      assert State() == ShowPage(w, w.page);
      SetPaging(n);
      assert State() == Paging(ShowPage(w, w.page), n);
      UpdateFilter();
    }

    /** `update_content(reset_page)` */
    method UpdateContent(reset: bool) returns (st: Status)
      requires Sane(State())
      modifies this
      ensures st == Refresh(old(State()), reset).status
      ensures State() == Refresh(old(State()), reset).next
    {
      var n := Settle(reset);
      st := Show(n);
    }

    /** `_change_page(direction)` */
    method ChangePage(direction: int) returns (st: Status)
      requires Sane(State())
      modifies this
      ensures st == ChangePageStep(old(State()), direction).status
      ensures State() == ChangePageStep(old(State()), direction).next
    {
      var last := (|data| + itpp - 1) / itpp - 1;
      if page + direction < 0 {
        page := last;
      } else if page + direction > last {
        page := 0;
      } else {
        page := page + direction;
      }
      assert Sane(State()) by {
        NumPagesMeaning(|data|, itpp);
      }
      st := UpdateContent(false);
    }

    /** `_cb_redirect(pos)` */
    method Click(pos: int)
      modifies this
      ensures State() == ClickStep(old(State()), pos)
    {
      reports := reports + [Report.ListClick(page * itpp + pos)];
    }

    /** `_filtercb_redirect(pos)` */
    method FilterClick(pos: int) returns (st: Status)
      requires Sane(State())
      modifies this
      ensures st == FilterClickStep(old(State()), pos).status
      ensures State() == FilterClickStep(old(State()), pos).next
    {
      if !hasFilterCb {
        return Raised(TypeError);
      }
      reports := reports + [Report.FilterClick(page * itpp + pos)];
      activeFilter := pos;
      UpdateFilter();
      st := Done;
    }
  }
}
