/** TabFreeAuiNotebook as the source writes it: loops that grow or consume a string and
    move tabs between panes. Each loop of LoadPerspective is a method of its own. */
module Notebook {
  import opened Text
  import opened TabLayout

  class TabFreeAuiNotebook {
    var panes: seq<Pane>
    var tabCount: nat
    var curPage: int
    var manager: string

    function Snapshot(): Book
      reads this
    {
      Book(panes, tabCount, curPage, manager)
    }

    constructor (b: Book)
      ensures Snapshot() == b
    {
      panes, tabCount, curPage, manager := b.panes, b.count, b.current, b.manager;
    }

    method PageList(pane: Pane) returns (list: string)
      ensures list == Join(PageTexts(pane, |pane.pages|, curPage), ',')
    {
      list := "";
      var p := 0;
      while p < |pane.pages|
        invariant 0 <= p <= |pane.pages|
        invariant list == Join(PageTexts(pane, p, curPage), ',')
      {
        var page := pane.pages[p];
        ghost var before := list;
        if p != 0 {
          list := list + ",";
        }
        ghost var head := list;
        if ToInt(page) == curPage {
          list := list + "*";
        } else if p == pane.active {
          list := list + "+";
        }
        list := list + Decimal(page);
        assert list == head + PageText(pane, p, curPage);
        PageJoined(pane, p, curPage, before, head);
        p := p + 1;
      }
    }

    method SavePerspective() returns (tabs: string)
      ensures tabs == SaveLayout(Snapshot())
    {
      tabs := "";
      ghost var done := [];
      var i := 0;
      while i < |panes|
        invariant 0 <= i <= |panes|
        invariant done == Real(panes[..i])
        invariant tabs == Join(PaneTexts(done, curPage), '|')
      {
        var pane := panes[i];
        assert panes[..i + 1][..i] == panes[..i];
        i := i + 1;
        if pane.name == "dummy" {
          continue;
        }
        JoinPanes(done, pane, curPage);
        if tabs != "" {
          tabs := tabs + "|";
        }
        var list := PageList(pane);
        tabs := tabs + (pane.name + "=" + list);
        done := done + [pane];
      }
      assert panes[..|panes|] == panes;
      tabs := tabs + "@" + manager;
    }

    method TakeTabsOut() returns (found: bool)
      modifies this`panes
      ensures (found, panes) == RemoveTabs(old(panes), 0, tabCount)
    {
      var i := 0;
      while i < tabCount
        invariant 0 <= i <= tabCount
        invariant RemoveTabs(panes, i, tabCount) == RemoveTabs(old(panes), 0, tabCount)
      {
        var k := FindTab(panes, i);
        if k == |panes| {
          return false;
        }
        panes := panes[k := RemovePage(panes[k], i)];
        i := i + 1;
      }
      return true;
    }

    method ReadTabs(list: string, sel: nat) returns (f: Fill, readded: set<nat>)
      ensures f == AddTabs(Fill([], -1, sel), Pieces(list, ','), tabCount)
      ensures forall t :: t in readded <==> t in f.pages
    {
      var tabList := list;
      var pages: seq<nat> := [];
      var active := -1;
      var selPage: nat := sel;
      readded := {};
      while true
        invariant AddTabs(Fill(pages, active, selPage), Pieces(tabList, ','), tabCount)
               == AddTabs(Fill([], -1, sel), Pieces(list, ','), tabCount)
        invariant forall t :: t in readded <==> t in pages
        decreases |tabList|
      {
        var tab := BeforeFirst(tabList, ',');
        if tab == "" {
          return Fill(pages, active, selPage), readded;
        }
        tabList := AfterFirst(tabList, ',');
        var c := tab[0];
        if c == '+' || c == '*' {
          tab := tab[1..];
        }
        var tabIdx := ToSize(Atoi(tab));
        if tabIdx >= tabCount {
          continue;
        }
        var newpageIdx := |pages|;
        pages := pages + [tabIdx];
        readded := readded + {tabIdx};
        if c == '+' {
          active := newpageIdx;
        } else if c == '*' {
          selPage := tabIdx;
        }
      }
    }

    method ReadPanes(layout: string) returns (r: Reading, readded: set<nat>)
      ensures r == ReadLayout(layout, tabCount)
      ensures forall t :: t in readded <==> t in Pages(r.panes)
    {
      var tabs := BeforeFirst(layout, '@');
      r, readded := Reading([], 0), {};
      while true
        invariant AddPanes(r, Pieces(tabs, '|'), tabCount) == ReadLayout(layout, tabCount)
        invariant forall t :: t in readded <==> t in Pages(r.panes)
        decreases |tabs|
      {
        var tabPart := BeforeFirst(tabs, '|');
        if tabPart == "" {
          break;
        }
        var name := BeforeFirst(tabPart, '=');
        var f, placed := ReadTabs(AfterFirst(tabPart, '='), r.selected);
        var pane := Pane(name, f.pages, f.active);
        PagesSnoc(r.panes, pane);
        r := Reading(r.panes + [pane], f.selected);
        readded := readded + placed;
        tabs := AfterFirst(tabs, '|');
      }
    }

    method ReinsertMissing(added: seq<Pane>, readded: set<nat>) returns (full: seq<Pane>)
      requires added != [] && forall t :: t in readded <==> t in Pages(added)
      ensures full == AppendMissing(added, tabCount)
    {
      var last := added[|added| - 1];
      ghost var base, read := last.pages, Pages(added);
      var i := 0;
      while i < tabCount
        invariant 0 <= i <= tabCount
        invariant last == added[|added| - 1].(pages := base + Missing(read, i))
      {
        if i !in readded {
          last := last.(pages := last.pages + [i]);
          assert last.pages == base + (Missing(read, i) + [i]);
        }
        i := i + 1;
      }
      full := added[..|added| - 1] + [last];
    }

    /** wxAuiNotebook::SetSelection as this code relies on it. */
    method SetSelection(page: nat)
      modifies this`panes, this`curPage
      ensures page >= tabCount ==> panes == old(panes) && curPage == old(curPage)
      ensures page < tabCount ==> panes == Select(old(panes), page) && curPage == page
    {
      if page < tabCount {
        curPage := page;
        var k := FindTab(panes, page);
        if k < |panes| {
          panes := panes[k := panes[k].(active := IndexOf(panes[k].pages, page))];
        }
      }
    }

    /** NoPaneRead stands for the failed assertion on dest_tabs. */
    method LoadPerspective(layout: string) returns (status: Status)
      modifies this
      ensures (status, Snapshot()) == Load(old(Snapshot()), layout)
    {
      var found := TakeTabsOut();
      if !found {
        return TabNotFound;
      }
      panes := DropEmpty(panes);
      var r, readded := ReadPanes(layout);
      manager := AfterFirst(layout, '@');
      if r.panes == [] {
        return NoPaneRead;
      }
      var full := ReinsertMissing(r.panes, readded);
      panes := panes + full;
      curPage := -1;
      SetSelection(r.selected);
      return Done;
    }
  }

  /** Adding one pane's text to the text of the panes before it. */
  lemma JoinPanes(done: seq<Pane>, pane: Pane, current: int)
    ensures Join(PaneTexts(done, current), '|') != "" <==> done != []
    ensures Join(PaneTexts(done + [pane], current), '|')
         == (if done == [] then "" else Join(PaneTexts(done, current), '|') + "|") + PaneText(pane, current)
  {
    var ts := PaneTexts(done, current);
    assert PaneTexts(done + [pane], current) == ts + [PaneText(pane, current)];
    if done != [] {
      assert ts[0] == PaneText(done[0], current) && |ts[0]| > 0;
      JoinSnoc(ts, PaneText(pane, current), '|');
    }
  }

  /** One more page in a pane's list. */
  lemma PageJoined(pane: Pane, p: nat, current: int, list: string, head: string)
    requires p < |pane.pages| && list == Join(PageTexts(pane, p, current), ',')
    requires head == if p == 0 then "" else list + ","
    ensures head + PageText(pane, p, current) == Join(PageTexts(pane, p + 1, current), ',')
  {
    JoinNext(PageTexts(pane, p, current), PageText(pane, p, current), ',');
  }
}
