/** Loading one layout text after another: exactly when a load keeps the notebook
    consistent, and any sequence of loads. */
module TabLayoutLoads {
  import opened Text
  import opened TabLayout
  import opened TabLayoutProofs

  // ----- What reading makes of each part

  /** The pane read from a part. */
  predicate PartRead(pane: Pane, part: string, count: nat) {
    && pane.name == BeforeFirst(part, '=')
    && multiset(pane.pages) == ListPages(Pieces(AfterFirst(part, '='), ','), count)
    && -1 <= pane.active < |pane.pages|
  }

  lemma {:induction false} AddTabsRange(f: Fill, tabs: seq<string>, count: nat)
    requires forall t :: t in tabs ==> t != ""
    requires -1 <= f.active < |f.pages|
    ensures var g := AddTabs(f, tabs, count);
      -1 <= g.active < |g.pages| && (g.selected < count || g.selected == f.selected)
    decreases |tabs|
  {
    if tabs != [] {
      assert tabs[0] in tabs && forall t :: t in tabs[1..] ==> t in tabs;
      AddTabsRange(AddTab(f, tabs[0], count), tabs[1..], count);
    }
  }

  lemma AddPaneReads(r: Reading, part: string, count: nat) returns (pane: Pane)
    ensures var t := AddPane(r, part, count);
      t.panes == r.panes + [pane] && PartRead(pane, part, count) && (t.selected < count || t.selected == r.selected)
  {
    var tabs := Pieces(AfterFirst(part, '='), ',');
    AddTabsRange(Fill([], -1, r.selected), tabs, count);
    AddTabsPages(Fill([], -1, r.selected), tabs, count);
    var f := AddTabs(Fill([], -1, r.selected), tabs, count);
    pane := Pane(BeforeFirst(part, '='), f.pages, f.active);
  }

  predicate AllRead(panes: seq<Pane>, parts: seq<string>, count: nat) {
    |panes| == |parts| && forall i :: 0 <= i < |parts| ==> PartRead(panes[i], parts[i], count)
  }

  lemma AllReadSnoc(panes: seq<Pane>, parts: seq<string>, pane: Pane, part: string, count: nat)
    requires AllRead(panes, parts, count) && PartRead(pane, part, count)
    ensures AllRead(panes + [pane], parts + [part], count)
  {}

  lemma {:induction false} AddPanesRead(r: Reading, done: seq<string>, parts: seq<string>, count: nat)
    requires AllRead(r.panes, done, count)
    ensures var t := AddPanes(r, parts, count);
      AllRead(t.panes, done + parts, count) && (t.selected < count || t.selected == r.selected)
    decreases |parts|
  {
    if parts == [] {
      assert done + parts == done;
    } else {
      var pane := AddPaneReads(r, parts[0], count);
      AllReadSnoc(r.panes, done, pane, parts[0], count);
      AddPanesRead(AddPane(r, parts[0], count), done + [parts[0]], parts[1..], count);
      ShiftHead(done, parts);
    }
  }

  lemma ShiftHead(done: seq<string>, parts: seq<string>)
    requires parts != []
    ensures (done + [parts[0]]) + parts[1..] == done + parts
  {}

  function Parts(layout: string): seq<string> { Pieces(BeforeFirst(layout, '@'), '|') }

  // ----- Which texts keep a notebook consistent

  predicate IsDummyPart(part: string) { BeforeFirst(part, '=') == "dummy" }

  predicate ListsNone(part: string, count: nat) { ListPages(Pieces(AfterFirst(part, '='), ','), count) == multiset{} }

  predicate DummiesListNone(parts: seq<string>, count: nat) {
    forall i :: 0 <= i < |parts| && IsDummyPart(parts[i]) ==> ListsNone(parts[i], count)
  }

  lemma DummiesListNoneSnoc(parts: seq<string>, part: string, count: nat)
    ensures DummiesListNone(parts + [part], count)
       <==> DummiesListNone(parts, count) && (IsDummyPart(part) ==> ListsNone(part, count))
  {
    var all := parts + [part];
    assert all[|parts|] == part && forall i :: 0 <= i < |parts| ==> all[i] == parts[i];
  }

  /** No tab ends in a pane named "dummy": no part of that name lists one, and the last part
      has another name unless every tab is listed somewhere. */
  predicate SparesDummy(layout: string, count: nat) {
    var parts := Parts(layout);
    && DummiesListNone(parts, count)
    && (parts != [] && IsDummyPart(parts[|parts| - 1]) ==> Missing(MentionedPages(layout, count), count) == [])
  }

  ghost predicate NoRepeat(layout: string, count: nat) {
    forall x: nat :: MentionedPages(layout, count)[x] <= 1
  }

  lemma ReadAll(layout: string, count: nat)
    ensures var r := ReadLayout(layout, count);
      && AllRead(r.panes, Parts(layout), count) && Pages(r.panes) == MentionedPages(layout, count)
      && (r.selected < count || r.selected == 0)
  {
    AddPanesRead(Reading([], 0), [], Parts(layout), count);
    assert [] + Parts(layout) == Parts(layout);
    AddPanesPages(Reading([], 0), Parts(layout), count);
  }

  lemma EmptyPages(pages: seq<nat>)
    ensures multiset(pages) == multiset{} <==> pages == []
  {
    if pages != [] { assert pages[0] in multiset(pages); }
  }

  predicate Spared(pane: Pane) { IsDummy(pane) ==> pane.pages == [] }

  lemma PaneSpared(pane: Pane, part: string, count: nat, missing: seq<nat>)
    requires PartRead(pane, part, count)
    ensures Spared(pane.(pages := pane.pages + missing))
       <==> (IsDummyPart(part) ==> ListsNone(part, count) && missing == [])
  {
    EmptyPages(pane.pages);
    assert pane.pages + missing == [] <==> pane.pages == [] && missing == [];
  }

  lemma FrontSpared(panes: seq<Pane>, parts: seq<string>, count: nat)
    requires AllRead(panes, parts, count)
    ensures DummiesEmpty(panes) <==> DummiesListNone(parts, count)
  {
    forall i | 0 <= i < |parts| ensures Spared(panes[i]) <==> (IsDummyPart(parts[i]) ==> ListsNone(parts[i], count)) {
      PaneSpared(panes[i], parts[i], count, []);
      assert panes[i].pages + [] == panes[i].pages;
    }
    assert DummiesEmpty(panes) <==> forall i :: 0 <= i < |panes| ==> Spared(panes[i]);
  }

  lemma CompletedDummies(layout: string, count: nat)
    requires ReadLayout(layout, count).panes != []
    ensures DummiesEmpty(AppendMissing(ReadLayout(layout, count).panes, count)) <==> SparesDummy(layout, count)
  {
    ReadAll(layout, count);
    CompletedSpared(ReadLayout(layout, count).panes, Parts(layout), count);
  }

  lemma CompletedSpared(panes: seq<Pane>, parts: seq<string>, count: nat)
    requires AllRead(panes, parts, count) && panes != []
    ensures DummiesEmpty(AppendMissing(panes, count))
       <==> DummiesListNone(parts, count) && (IsDummyPart(parts[|parts| - 1]) ==> Missing(Pages(panes), count) == [])
  {
    var n := |panes| - 1;
    FrontRead(panes, parts, count);
    LastSpared(panes[..n], parts[..n], panes[n], parts[n], count, Missing(Pages(panes), count));
  }

  lemma FrontRead(panes: seq<Pane>, parts: seq<string>, count: nat)
    requires AllRead(panes, parts, count) && panes != []
    ensures var n := |panes| - 1;
      AllRead(panes[..n], parts[..n], count) && PartRead(panes[n], parts[n], count) && parts == parts[..n] + [parts[n]]
  {
    var n := |panes| - 1;
    forall i | 0 <= i < n ensures PartRead(panes[..n][i], parts[..n][i], count) {
      assert PartRead(panes[i], parts[i], count);
    }
  }

  lemma LastSpared(panes: seq<Pane>, parts: seq<string>, last: Pane, part: string, count: nat, missing: seq<nat>)
    requires AllRead(panes, parts, count) && PartRead(last, part, count)
    ensures DummiesEmpty(panes + [last.(pages := last.pages + missing)])
       <==> DummiesListNone(parts + [part], count) && (IsDummyPart(part) ==> missing == [])
  {
    var full := last.(pages := last.pages + missing);
    FrontSpared(panes, parts, count);
    DummiesListNoneSnoc(parts, part, count);
    PaneSpared(last, part, count, missing);
    SplitDummiesEmpty(panes, [full]);
    OneSpared(full);
  }

  lemma OneSpared(pane: Pane)
    ensures DummiesEmpty([pane]) <==> Spared(pane)
  {
    assert [pane][0] == pane;
  }

  /** Every pane's active position is one of its pages or -1. */
  predicate InRangeActive(panes: seq<Pane>) {
    forall i :: 0 <= i < |panes| ==> -1 <= panes[i].active < |panes[i].pages|
  }

  lemma SelectGood(panes: seq<Pane>, page: nat)
    requires DummiesEmpty(panes) && Pages(panes)[page] == 1 && InRangeActive(panes)
    ensures forall i :: 0 <= i < |panes| ==> GoodActive(Select(panes, page)[i], page)
  {
    assert page in Pages(panes);
    var w := WhichPane(panes, page);
    var k := FindTab(panes, page);
    forall i | 0 <= i < |panes| ensures GoodActive(Select(panes, page)[i], page) {
      if page in panes[i].pages {
        if k < i { ShownOnce(panes, page, k, i); }
      }
    }
  }

  ghost predicate OnceEach(panes: seq<Pane>, count: nat) {
    forall x: nat :: Pages(panes)[x] == (if x < count then 1 else 0)
  }

  lemma SelectedConsistent(panes: seq<Pane>, count: nat, page: nat, frames: string)
    requires page < count && InRangeActive(panes) && DummiesEmpty(panes) && OnceEach(panes, count)
    ensures Consistent(Book(Select(panes, page), count, page, frames))
  {
    var r := Select(panes, page);
    SamePages(r, panes);
    SameDummiesEmpty(r, panes);
    SelectGood(panes, page);
  }

  lemma FinishConsistent(kept: seq<Pane>, r: Reading, count: nat, frames: string)
    requires r.panes != [] && (r.selected < count || r.selected == 0)
    requires var panes := kept + AppendMissing(r.panes, count);
      InRangeActive(panes) && DummiesEmpty(panes) && OnceEach(panes, count)
    ensures Consistent(Finish(kept, r, count, frames))
  {
    if r.selected < count { SelectedConsistent(kept + AppendMissing(r.panes, count), count, r.selected, frames); }
  }

  /** From a consistent notebook, a load that succeeds leaves a consistent one if and only
      if the text repeats no tab and puts none in a pane named "dummy". Pane names are kept
      as read here; the pane manager's renaming of a repeated one is not part of this model. */
  lemma LoadConsistent(b: Book, layout: string)
    requires Consistent(b) && Load(b, layout).0 == Done
    ensures Consistent(Load(b, layout).1) <==> NoRepeat(layout, b.count) && SparesDummy(layout, b.count)
    ensures Load(b, layout).1.count == b.count
  {
    var r := ReadLayout(layout, b.count);
    var kept, full := Dummies(b.panes), AppendMissing(r.panes, b.count);
    RemoveTabsEmpties(b.panes, 0, b.count);
    LoadOutcome(b, layout);
    ReadAll(layout, b.count);
    KeptDummies(b);
    LoadedDummies(b, layout, kept);
    if NoRepeat(layout, b.count) && SparesDummy(layout, b.count) {
      CompletedRange(r.panes, b.count);
      SamePages(Load(b, layout).1.panes, kept + full);
      FinishConsistent(kept, r, b.count, AfterFirst(layout, '@'));
    }
  }

  lemma LoadedDummies(b: Book, layout: string, kept: seq<Pane>)
    requires Load(b, layout).0 == Done && kept == DropEmpty(RemoveTabs(b.panes, 0, b.count).1) && DummiesEmpty(kept)
    ensures var full := AppendMissing(ReadLayout(layout, b.count).panes, b.count);
      && (DummiesEmpty(Load(b, layout).1.panes) <==> SparesDummy(layout, b.count))
      && (DummiesEmpty(kept + full) <==> SparesDummy(layout, b.count))
  {
    var full := AppendMissing(ReadLayout(layout, b.count).panes, b.count);
    CompletedDummies(layout, b.count);
    SplitDummiesEmpty(kept, full);
    SameDummiesEmpty(Load(b, layout).1.panes, kept + full);
  }

  lemma {:induction false} DummiesFrom(panes: seq<Pane>)
    ensures forall i :: 0 <= i < |Dummies(panes)| ==> Dummies(panes)[i] in panes
  {
    if panes != [] { DummiesFrom(panes[..|panes| - 1]); }
  }

  lemma KeptDummies(b: Book)
    requires Consistent(b)
    ensures InRangeActive(Dummies(b.panes)) && DummiesEmpty(Dummies(b.panes))
  {
    DummiesFrom(b.panes);
    DummyMembers(b.panes);
  }

  lemma CompletedRange(panes: seq<Pane>, count: nat)
    requires panes != [] && InRangeActive(panes)
    ensures InRangeActive(AppendMissing(panes, count))
  {}

  lemma SameDummiesEmpty(a: seq<Pane>, b: seq<Pane>)
    requires |a| == |b| && forall i :: 0 <= i < |a| ==> a[i].name == b[i].name && a[i].pages == b[i].pages
    ensures DummiesEmpty(a) <==> DummiesEmpty(b)
  {}

  lemma SplitDummiesEmpty(a: seq<Pane>, b: seq<Pane>)
    ensures DummiesEmpty(a + b) <==> DummiesEmpty(a) && DummiesEmpty(b)
  {
    if DummiesEmpty(a + b) {
      forall i | 0 <= i < |a| && IsDummy(a[i]) ensures a[i].pages == [] { assert (a + b)[i] == a[i]; }
      forall i | 0 <= i < |b| && IsDummy(b[i]) ensures b[i].pages == [] { assert (a + b)[|a| + i] == b[i]; }
    }
  }

  // ----- Any sequence of loads

  /** A text that loads and keeps a notebook with count tabs consistent. */
  ghost predicate GoodLayout(layout: string, count: nat) {
    && layout != "" && layout[0] != '@' && layout[0] != '|'
    && NoRepeat(layout, count) && SparesDummy(layout, count)
  }

  /** The notebook after loading the texts in turn, up to the first load that fails. */
  function LoadAll(b: Book, layouts: seq<string>): (Status, Book)
    decreases |layouts|
  {
    if layouts == [] then (Done, b)
    else
      var (status, next) := Load(b, layouts[0]);
      if status == Done then LoadAll(next, layouts[1..]) else (status, next)
  }

  /** After any sequence of good texts every tab is still shown exactly once, outside the
      dummy, with the current tab active in its pane. */
  lemma {:induction false} LoadsKeepConsistent(b: Book, layouts: seq<string>)
    requires Consistent(b) && forall i :: 0 <= i < |layouts| ==> GoodLayout(layouts[i], b.count)
    ensures var (status, t) := LoadAll(b, layouts); status == Done && Consistent(t) && t.count == b.count
    decreases |layouts|
  {
    if layouts != [] {
      LoadOutcome(b, layouts[0]);
      LoadConsistent(b, layouts[0]);
      LoadsKeepConsistent(Load(b, layouts[0]).1, layouts[1..]);
    }
  }

  // ----- A loaded book can be saved

  lemma RealNamesClean(panes: seq<Pane>, n: nat)
    requires n <= |panes| && (forall i :: 0 <= i < n ==> IsDummy(panes[i])) && CleanNames(panes[n..])
    ensures CleanNames(Real(panes))
  {
    RealMembers(panes);
    forall i | 0 <= i < |Real(panes)| ensures CleanName(Real(panes)[i].name) {
      var j :| 0 <= j < |panes| && panes[j] == Real(panes)[i];
      assert j >= n && panes[n..][j - n] == panes[j];
    }
  }

  /** Whatever text a notebook with tabs was laid out from, if the load kept it consistent,
      what it saves next is read back exactly. */
  lemma LoadedRoundTrips(b: Book, layout: string, c: Book)
    requires Consistent(b) && GoodLayout(layout, b.count)
    requires Consistent(c) && c.count == b.count && 0 < b.count <= INT_LIMIT
    ensures Load(c, SaveLayout(Load(b, layout).1)) == (Done, Again(Load(b, layout).1, c))
  {
    var t := Load(b, layout).1;
    LoadOutcome(b, layout);
    LoadConsistent(b, layout);
    LoadedNamesClean(b, layout);
    RemoveTabsEmpties(b.panes, 0, b.count);
    DummyMembers(b.panes);
    KeptNames(b, layout);
    RealNamesClean(t.panes, |Dummies(b.panes)|);
    PagesOfReal(t.panes);
    assert 0 in Pages(Real(t.panes));
    RoundTrip(t, c);
  }

  lemma KeptNames(b: Book, layout: string)
    requires Load(b, layout).0 == Done
    ensures var kept := DropEmpty(RemoveTabs(b.panes, 0, b.count).1);
      |kept| <= |Load(b, layout).1.panes| && forall i :: 0 <= i < |kept| ==>
          Load(b, layout).1.panes[i].name == kept[i].name
  {}

  // ----- The text itself

  /** What one book is saved as: pane names, page lists, the marks of the current tab and of
      an active page, the separators, and no dummy. */
  lemma SavedText(left: Pane, right: Pane, dummy: Pane)
    requires left == Pane("left", [0, 12], 1) && right == Pane("right", [3], 0) && dummy == Pane("dummy", [], -1)
    ensures SaveLayout(Book([dummy, left, right], 13, 12, "mgr")) == "left=0,*12|right=+3@mgr"
  {
    SavedAs(left, right, dummy, 13, 12, "mgr");
    TextOfTwo(left, 12);
    TextOfOne(right, 12);
    Spelled(PaneText(left, 12), PaneText(right, 12));
  }

  lemma Spelled(left: string, right: string)
    requires left == "left=0,*12" && right == "right=+3"
    ensures left + ['|'] + right + "@" + "mgr" == "left=0,*12|right=+3@mgr"
  {}

  lemma SavedAs(left: Pane, right: Pane, dummy: Pane, count: nat, current: int, manager: string)
    requires IsDummy(dummy) && !IsDummy(left) && !IsDummy(right)
    ensures SaveLayout(Book([dummy, left, right], count, current, manager))
         == PaneText(left, current) + ['|'] + PaneText(right, current) + "@" + manager
  {
    RealOf(dummy, left, right);
    TextOfPanes(left, right, current);
    JoinTwo(PaneText(left, current), PaneText(right, current), '|');
  }

  lemma TextOfPanes(left: Pane, right: Pane, current: int)
    ensures PaneTexts([left, right], current) == [PaneText(left, current), PaneText(right, current)]
  {}

  lemma JoinTwo(a: string, b: string, c: char)
    ensures Join([a, b], c) == a + [c] + b
  {
    assert [a, b][1..] == [b];
  }

  lemma RealOf(dummy: Pane, left: Pane, right: Pane)
    requires IsDummy(dummy) && !IsDummy(left) && !IsDummy(right)
    ensures Real([dummy, left, right]) == [left, right]
  {
    assert [dummy, left, right][..2] == [dummy, left];
    assert [dummy, left][..1] == [dummy];
    assert [dummy][..0] == [];
    assert Real([dummy]) == [];
    assert Real([dummy, left]) == [left];
  }

  lemma TextOfTwo(left: Pane, current: int)
    requires left == Pane("left", [0, 12], 1) && current == 12
    ensures PaneText(left, current) == "left=0,*12"
  {
    assert Decimal(0) == "0" && Decimal(1) == "1" && Decimal(12) == "12";
    assert PageText(left, 0, current) == "0" && PageText(left, 1, current) == "*12";
    assert PageTexts(left, 1, current) == ["0"];
    assert PageTexts(left, 2, current) == ["0", "*12"];
    JoinTwo("0", "*12", ',');
  }

  lemma TextOfOne(right: Pane, current: int)
    requires right == Pane("right", [3], 0) && current == 12
    ensures PaneText(right, current) == "right=+3"
  {
    assert Decimal(3) == "3";
    assert PageText(right, 0, current) == "+3";
    assert PageTexts(right, 1, current) == ["+3"];
  }
}
