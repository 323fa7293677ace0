/** What SavePerspective and LoadPerspective guarantee together: no text loses a tab, and
    exactly which books survive a save and a load. */
module TabLayoutProofs {
  import opened Text
  import opened TabLayout

  // ----- Pages of panes as a multiset

  lemma UnionAssoc(x: multiset<nat>, y: multiset<nat>, z: multiset<nat>)
    ensures (x + y) + z == x + (y + z)
  {}

  lemma PagesLast(panes: seq<Pane>, front: seq<Pane>, last: Pane)
    requires panes == front + [last]
    ensures Pages(panes) == Pages(front) + multiset(last.pages)
  {
    PagesSnoc(front, last);
  }

  lemma SplitLast(a: seq<Pane>, b: seq<Pane>, front: seq<Pane>, last: Pane)
    requires b == front + [last]
    ensures a + b == (a + front) + [last]
  {}

  lemma {:induction false} PagesConcat(a: seq<Pane>, b: seq<Pane>)
    ensures Pages(a + b) == Pages(a) + Pages(b)
    decreases |b|
  {
    if b == [] {
      assert a + b == a;
    } else {
      var front, last := b[..|b| - 1], b[|b| - 1];
      SplitLast(a, b, front, last);
      PagesConcat(a, front);
      PagesLast(b, front, last);
      PagesLast(a + b, a + front, last);
      UnionAssoc(Pages(a), Pages(front), multiset(last.pages));
    }
  }

  lemma PagesAt(panes: seq<Pane>, k: nat)
    requires k < |panes|
    ensures Pages(panes) == Pages(panes[..k]) + multiset(panes[k].pages) + Pages(panes[k + 1..])
  {
    PartsAt(panes, k);
    PagesSplit(panes, panes[..k + 1], panes[..k], panes[k], panes[k + 1..]);
  }

  lemma PartsAt(panes: seq<Pane>, k: nat)
    requires k < |panes|
    ensures panes == panes[..k + 1] + panes[k + 1..] && panes[..k + 1] == panes[..k] + [panes[k]]
  {}

  lemma PagesSplit(panes: seq<Pane>, upTo: seq<Pane>, front: seq<Pane>, pane: Pane, back: seq<Pane>)
    requires upTo == front + [pane] && panes == upTo + back
    ensures Pages(panes) == Pages(front) + multiset(pane.pages) + Pages(back)
  {
    PagesConcat(upTo, back);
    PagesLast(upTo, front, pane);
  }

  lemma {:induction false} WhichPane(panes: seq<Pane>, x: nat) returns (k: nat)
    requires x in Pages(panes)
    ensures k < |panes| && x in panes[k].pages
  {
    var n := |panes| - 1;
    if x in panes[n].pages {
      k := n;
    } else {
      k := WhichPane(panes[..n], x);
    }
  }

  lemma {:induction false} SamePages(a: seq<Pane>, b: seq<Pane>)
    requires |a| == |b| && forall i :: 0 <= i < |a| ==> a[i].pages == b[i].pages
    ensures Pages(a) == Pages(b)
  {
    if a != [] {
      SamePages(a[..|a| - 1], b[..|b| - 1]);
    }
  }

  lemma {:induction false} CountMissing(read: multiset<nat>, count: nat, i: nat)
    ensures multiset(Missing(read, count))[i] == if i < count && i !in read then 1 else 0
  {
    if count > 0 {
      CountMissing(read, count - 1, i);
    }
  }

  // ----- Books

  ghost predicate DummiesEmpty(panes: seq<Pane>) {
    forall i :: 0 <= i < |panes| && IsDummy(panes[i]) ==> panes[i].pages == []
  }

  /** Every tab, and nothing else, is shown exactly once. */
  ghost predicate EachOnce(b: Book) {
    forall x: nat :: Pages(b.panes)[x] == (if x < b.count then 1 else 0)
  }

  /** The active position is a page or -1, and the current tab's pane has it active. */
  predicate GoodActive(pane: Pane, current: int) {
    && -1 <= pane.active < |pane.pages|
    && (current >= 0 && current in pane.pages ==> pane.active >= 0 && pane.pages[pane.active] == current)
  }

  /** A book as the notebook keeps it: every tab shown exactly once, and the pane of the
      current tab has it as its active page. */
  ghost predicate Consistent(b: Book) {
    && DummiesEmpty(b.panes)
    && EachOnce(b)
    && (forall i :: 0 <= i < |b.panes| ==> GoodActive(b.panes[i], b.current))
    && (if b.count == 0 then b.current == -1 else 0 <= b.current < b.count)
  }

  /** A pane whose text is read back as written. */
  predicate Sound(pane: Pane) {
    CleanName(pane.name) && forall x :: x in pane.pages ==> x < INT_LIMIT
  }

  predicate AllSound(panes: seq<Pane>) {
    forall i :: 0 <= i < |panes| ==> Sound(panes[i])
  }

  predicate CleanName(name: string) { '=' !in name && '|' !in name && '@' !in name }

  lemma {:induction false} RealMembers(panes: seq<Pane>)
    ensures forall i :: 0 <= i < |Real(panes)| ==> Real(panes)[i] in panes && !IsDummy(Real(panes)[i])
  {
    if panes != [] {
      RealMembers(panes[..|panes| - 1]);
    }
  }

  lemma {:induction false} DummyMembers(panes: seq<Pane>)
    ensures forall i :: 0 <= i < |Dummies(panes)| ==> IsDummy(Dummies(panes)[i])
  {
    if panes != [] {
      DummyMembers(panes[..|panes| - 1]);
    }
  }

  lemma {:induction false} PagesOfReal(panes: seq<Pane>)
    requires DummiesEmpty(panes)
    ensures Pages(Real(panes)) == Pages(panes)
  {
    if panes != [] {
      var init, last := panes[..|panes| - 1], panes[|panes| - 1];
      PagesOfReal(init);
      if IsDummy(last) {
        assert Real(panes) == Real(init) && last.pages == [];
      } else {
        PagesSnoc(Real(init), last);
      }
    }
  }

  lemma {:induction false} PagesOfDummies(panes: seq<Pane>)
    requires DummiesEmpty(panes)
    ensures Pages(Dummies(panes)) == multiset{}
  {
    if panes != [] {
      var init, last := panes[..|panes| - 1], panes[|panes| - 1];
      PagesOfDummies(init);
      if IsDummy(last) {
        PagesSnoc(Dummies(init), last);
      } else {
        assert Dummies(panes) == Dummies(init);
      }
    }
  }

  lemma {:induction false} SameDummies(a: seq<Pane>, b: seq<Pane>)
    requires |a| == |b|
    requires forall i :: 0 <= i < |a| ==> a[i] == b[i] || (!IsDummy(a[i]) && !IsDummy(b[i]))
    ensures Dummies(a) == Dummies(b)
  {
    if a != [] {
      SameDummies(a[..|a| - 1], b[..|b| - 1]);
    }
  }

  lemma {:induction false} DropEmptyOfEmpty(panes: seq<Pane>)
    requires forall i :: 0 <= i < |panes| ==> panes[i].pages == []
    ensures DropEmpty(panes) == Dummies(panes)
  {
    if panes != [] {
      DropEmptyOfEmpty(panes[..|panes| - 1]);
    }
  }

  ghost predicate ShowOnce(panes: seq<Pane>, i: nat, count: nat) {
    forall x: nat :: Pages(panes)[x] == (if i <= x < count then 1 else 0)
  }

  lemma NoPagesLeft(panes: seq<Pane>, count: nat)
    requires ShowOnce(panes, count, count)
    ensures forall i :: 0 <= i < |panes| ==> panes[i].pages == []
  {
    forall i | 0 <= i < |panes| ensures panes[i].pages == [] {
      PagesAt(panes, i);
      var m := multiset(panes[i].pages);
      assert forall x: nat :: m[x] <= Pages(panes)[x];
      assert m == multiset{} && |m| == |panes[i].pages|;
    }
  }

  lemma TakeOnePage(panes: seq<Pane>, k: nat, page: nat)
    requires k < |panes| && page in panes[k].pages
    ensures Pages(panes) == Pages(panes[k := RemovePage(panes[k], page)]) + multiset{page}
  {
    var next := panes[k := RemovePage(panes[k], page)];
    RemovedPage(panes[k], page);
    PagesAt(panes, k);
    PagesAt(next, k);
    assert next[..k] == panes[..k] && next[k + 1..] == panes[k + 1..];
  }

  lemma RemoveOneTab(panes: seq<Pane>, i: nat, count: nat) returns (next: seq<Pane>)
    requires i < count && DummiesEmpty(panes) && ShowOnce(panes, i, count)
    ensures RemoveTabs(panes, i, count) == RemoveTabs(next, i + 1, count)
    ensures DummiesEmpty(next) && ShowOnce(next, i + 1, count) && Dummies(next) == Dummies(panes)
  {
    assert i in Pages(panes);
    var w := WhichPane(panes, i);
    var k := FindTab(panes, i);
    next := panes[k := RemovePage(panes[k], i)];
    TakeOnePage(panes, k, i);
    OneLess(Pages(panes), Pages(next), i, count);
    SameDummies(panes, next);
  }

  lemma OneLess(before: multiset<nat>, after: multiset<nat>, i: nat, count: nat)
    requires before == after + multiset{i} && i < count
    requires forall x: nat :: before[x] == (if i <= x < count then 1 else 0)
    ensures forall x: nat :: after[x] == (if i + 1 <= x < count then 1 else 0)
  {
    forall x: nat ensures after[x] == if i + 1 <= x < count then 1 else 0 {
      assert before[x] == after[x] + multiset{i}[x];
    }
  }

  /** Taking a tab out leaves the active page active, wherever it moves to, unless it is the
      one taken out. */
  lemma RemovedActive(pane: Pane, page: nat)
    requires page in pane.pages && -1 <= pane.active < |pane.pages|
    ensures var r, k := RemovePage(pane, page), IndexOf(pane.pages, page);
      if pane.active == -1 || pane.active == k then r.active == -1
      else 0 <= r.active < |r.pages| && r.pages[r.active] == pane.pages[pane.active]
  {}

  /** The second panes are the first without one of each tab from i up to stop. */
  ghost predicate TakenOut(panes: seq<Pane>, left: seq<Pane>, i: nat, stop: nat) {
    |left| == |panes| && forall x: nat :: Pages(panes)[x] == Pages(left)[x] + if i <= x < stop then 1 else 0
  }

  lemma OneMoreOut(panes: seq<Pane>, next: seq<Pane>, left: seq<Pane>, i: nat, stop: nat)
    requires |next| == |panes| && Pages(panes) == Pages(next) + multiset{i} && TakenOut(next, left, i + 1, stop)
    requires i < stop
    ensures TakenOut(panes, left, i, stop)
  {
    forall x: nat ensures Pages(panes)[x] == Pages(left)[x] + if i <= x < stop then 1 else 0 {
      assert Pages(panes)[x] == Pages(next)[x] + multiset{i}[x];
    }
  }

  /** When a tab is shown nowhere, the tabs below it have been taken out and no others. */
  lemma {:induction false} RemoveTabsStops(panes: seq<Pane>, i: nat, count: nat) returns (stop: nat)
    requires i <= count
    ensures var (found, left) := RemoveTabs(panes, i, count);
      && (found ==> stop == count) && (!found ==> i <= stop < count && FindTab(left, stop) == |left|)
      && TakenOut(panes, left, i, stop)
    decreases count - i
  {
    stop := i;
    if i < count && FindTab(panes, i) < |panes| {
      var k := FindTab(panes, i);
      var next := panes[k := RemovePage(panes[k], i)];
      TakeOnePage(panes, k, i);
      stop := RemoveTabsStops(next, i + 1, count);
      OneMoreOut(panes, next, RemoveTabs(next, i + 1, count).1, i, stop);
    }
  }

  /** Taking tabs i..count out of panes that show each of them once empties every pane. */
  lemma {:induction false} RemoveTabsEmpties(panes: seq<Pane>, i: nat, count: nat)
    requires i <= count && DummiesEmpty(panes) && ShowOnce(panes, i, count)
    ensures RemoveTabs(panes, i, count).0
    ensures DropEmpty(RemoveTabs(panes, i, count).1) == Dummies(panes)
    decreases count - i
  {
    if i == count {
      NoPagesLeft(panes, count);
      DropEmptyOfEmpty(panes);
    } else {
      var next := RemoveOneTab(panes, i, count);
      RemoveTabsEmpties(next, i + 1, count);
    }
  }

  lemma RemovedPage(pane: Pane, page: nat)
    requires page in pane.pages
    ensures multiset(pane.pages) == multiset(RemovePage(pane, page).pages) + multiset{page}
  {
    var k := IndexOf(pane.pages, page);
    assert pane.pages == pane.pages[..k] + [page] + pane.pages[k + 1..];
  }

  // ----- What a text mentions

  /** The valid tab indices a layout text names, with multiplicity. */
  function ListPages(tabs: seq<string>, count: nat): multiset<nat>
    requires forall t :: t in tabs ==> t != ""
    decreases |tabs|
  {
    if tabs == [] then multiset{}
    else
      assert tabs[0] in tabs && forall t :: t in tabs[1..] ==> t in tabs;
      (if TabPage(tabs[0]) < count then multiset{TabPage(tabs[0])} else multiset{}) + ListPages(tabs[1..], count)
  }

  function PartPages(parts: seq<string>, count: nat): multiset<nat>
    decreases |parts|
  {
    if parts == [] then multiset{}
    else ListPages(Pieces(AfterFirst(parts[0], '='), ','), count) + PartPages(parts[1..], count)
  }

  function MentionedPages(layout: string, count: nat): multiset<nat> {
    PartPages(Pieces(BeforeFirst(layout, '@'), '|'), count)
  }

  lemma {:induction false} AddTabsPages(f: Fill, tabs: seq<string>, count: nat)
    requires forall t :: t in tabs ==> t != ""
    ensures multiset(AddTabs(f, tabs, count).pages) == multiset(f.pages) + ListPages(tabs, count)
    decreases |tabs|
  {
    if tabs != [] {
      assert tabs[0] in tabs && forall t :: t in tabs[1..] ==> t in tabs;
      AddTabsPages(AddTab(f, tabs[0], count), tabs[1..], count);
    }
  }

  lemma {:induction false} AddPanesPages(r: Reading, parts: seq<string>, count: nat)
    ensures Pages(AddPanes(r, parts, count).panes) == Pages(r.panes) + PartPages(parts, count)
    ensures |AddPanes(r, parts, count).panes| == |r.panes| + |parts|
    decreases |parts|
  {
    if parts != [] {
      var next := AddPane(r, parts[0], count);
      AddTabsPages(Fill([], -1, r.selected), Pieces(AfterFirst(parts[0], '='), ','), count);
      assert next.panes[..|r.panes|] == r.panes;
      AddPanesPages(next, parts[1..], count);
    }
  }

  lemma {:induction false} MentionedBelow(tabs: seq<string>, count: nat, x: nat)
    requires forall t :: t in tabs ==> t != ""
    requires x in ListPages(tabs, count)
    ensures x < count
    decreases |tabs|
  {
    assert tabs[0] in tabs && forall t :: t in tabs[1..] ==> t in tabs;
    if !(TabPage(tabs[0]) < count && x == TabPage(tabs[0])) {
      MentionedBelow(tabs[1..], count, x);
    }
  }

  lemma {:induction false} MentionedPagesBelow(parts: seq<string>, count: nat, x: nat)
    requires x in PartPages(parts, count)
    ensures x < count
    decreases |parts|
  {
    var list := Pieces(AfterFirst(parts[0], '='), ',');
    if x in ListPages(list, count) {
      MentionedBelow(list, count, x);
    } else {
      MentionedPagesBelow(parts[1..], count, x);
    }
  }

  lemma AppendMissingPages(panes: seq<Pane>, count: nat)
    requires panes != []
    ensures Pages(AppendMissing(panes, count)) == Pages(panes) + multiset(Missing(Pages(panes), count))
  {}

  // ----- Parser totality and tab completeness

  lemma LoadedPages(b: Book, layout: string)
    requires Load(b, layout).0 == Done
    ensures ReadLayout(layout, b.count).panes != []
    ensures Pages(Load(b, layout).1.panes) ==
      Pages(DropEmpty(RemoveTabs(b.panes, 0, b.count).1)) + Pages(AppendMissing(ReadLayout(layout, b.count).panes,
          b.count))
  {
    var kept := DropEmpty(RemoveTabs(b.panes, 0, b.count).1);
    var full := AppendMissing(ReadLayout(layout, b.count).panes, b.count);
    PagesConcat(kept, full);
    SamePages(Load(b, layout).1.panes, kept + full);
  }

  /** How often a tab stands in the panes read and completed. */
  lemma CompletedPages(layout: string, count: nat, x: nat)
    requires ReadLayout(layout, count).panes != []
    ensures Pages(AppendMissing(ReadLayout(layout, count).panes, count))[x]
      == (if x >= count then 0
             else if x in MentionedPages(layout, count) then MentionedPages(layout, count)[x]
             else 1)
  {
    var r := ReadLayout(layout, count);
    var parts := Pieces(BeforeFirst(layout, '@'), '|');
    AddPanesPages(Reading([], 0), parts, count);
    if x in PartPages(parts, count) {
      MentionedPagesBelow(parts, count, x);
    }
    AppendMissingPages(r.panes, count);
    CountMissing(Pages(r.panes), count, x);
  }

  /** Reading any text leaves every tab in some pane: a tab stands there as often as the
      text mentions it, and once if the text does not. */
  lemma NoTabLost(b: Book, layout: string, x: nat)
    requires Load(b, layout).0 == Done
    ensures x < b.count ==> x in Pages(Load(b, layout).1.panes)
    ensures Consistent(b) ==>
      Pages(Load(b, layout).1.panes)[x]
      == (if x >= b.count then 0
             else if x in MentionedPages(layout, b.count) then MentionedPages(layout, b.count)[x]
             else 1)
  {
    LoadedPages(b, layout);
    CompletedPages(layout, b.count, x);
    if Consistent(b) {
      RemoveTabsEmpties(b.panes, 0, b.count);
      PagesOfDummies(b.panes);
    }
  }

  /** Which texts have no first pane. */
  lemma NoFirstPane(layout: string, count: nat)
    ensures ReadLayout(layout, count).panes == [] <==> layout == "" || layout[0] == '@' || layout[0] == '|'
  {
    var head := BeforeFirst(layout, '@');
    var first := BeforeFirst(head, '|');
    AddPanesPages(Reading([], 0), Pieces(head, '|'), count);
    assert |layout| > |head| ==> layout[|head|] == '@';
    assert |head| > |first| ==> head[|first|] == '|';
    assert head != "" ==> head[0] == layout[0] && head[0] in head;
    assert first != "" ==> first[0] == head[0] && first[0] in first;
  }

  predicate IsInPlace(b: Book, x: nat) { Pages(b.panes)[x] == if x < b.count then 1 else 0 }

  lemma EachIsInPlace(b: Book, mentioned: multiset<nat>)
    requires forall x: nat :: IsInPlace(b, x) <==> mentioned[x] <= 1
    ensures EachOnce(b) <==> forall x: nat :: mentioned[x] <= 1
  {
    if EachOnce(b) {
      forall x: nat ensures mentioned[x] <= 1 { assert IsInPlace(b, x); }
    } else {
      var x: nat :| Pages(b.panes)[x] != if x < b.count then 1 else 0;
      assert !IsInPlace(b, x);
    }
  }

  lemma TabOutcome(b: Book, layout: string, x: nat)
    requires Consistent(b) && Load(b, layout).0 == Done
    ensures IsInPlace(Load(b, layout).1, x) <==> MentionedPages(layout, b.count)[x] <= 1
  {
    NoTabLost(b, layout, x);
    if x in MentionedPages(layout, b.count) {
      MentionedPagesBelow(Pieces(BeforeFirst(layout, '@'), '|'), b.count, x);
    }
    SameCount(b, layout);
  }

  lemma SameCount(b: Book, layout: string)
    ensures Load(b, layout).1.count == b.count
  {}

  /** From a consistent book, loading fails exactly on texts without a first pane, and the
      result shows every tab exactly once if and only if the text repeats none. */
  lemma LoadOutcome(b: Book, layout: string)
    requires Consistent(b)
    ensures Load(b, layout).0 == if layout == "" || layout[0] == '@' || layout[0] == '|' then NoPaneRead else Done
    ensures Load(b, layout).0 == Done ==>
      (EachOnce(Load(b, layout).1) <==> (forall x: nat :: MentionedPages(layout, b.count)[x] <= 1))
  {
    RemoveTabsEmpties(b.panes, 0, b.count);
    NoFirstPane(layout, b.count);
    if Load(b, layout).0 == Done {
      forall x: nat ensures IsInPlace(Load(b, layout).1, x) <==> MentionedPages(layout, b.count)[x] <= 1 {
        TabOutcome(b, layout, x);
      }
      EachIsInPlace(Load(b, layout).1, MentionedPages(layout, b.count));
    }
  }

  /** A text without a first pane leaves the dummies only, and has set the manager's text. */
  lemma NoPaneLeaves(b: Book, layout: string)
    requires Consistent(b) && Load(b, layout).0 == NoPaneRead
    ensures Load(b, layout).1 == Book(Dummies(b.panes), b.count, b.current, AfterFirst(layout, '@'))
  {
    RemoveTabsEmpties(b.panes, 0, b.count);
  }

  /** A tab that no pane shows stops the load: the panes stay without the tabs before it, and
      nothing else changes. */
  lemma LoadStops(b: Book, layout: string) returns (stop: nat)
    requires Load(b, layout).0 == TabNotFound
    ensures var t := Load(b, layout).1;
      && t.count == b.count && t.current == b.current && t.manager == b.manager && |t.panes| == |b.panes|
      && stop < b.count && FindTab(t.panes, stop) == |t.panes|
      && forall x: nat :: Pages(b.panes)[x] == Pages(t.panes)[x] + if x < stop then 1 else 0
  {
    stop := RemoveTabsStops(b.panes, 0, b.count);
  }

  // ----- Reading back a saved layout

  function Under(pages: seq<nat>, count: nat): seq<nat> {
    if pages == [] then []
    else Under(pages[..|pages| - 1], count) + if pages[|pages| - 1] < count then [pages[|pages| - 1]] else []
  }

  /** The active position a pane is read back with: only a '+' mark carries one. */
  function RestoredActive(pane: Pane, k: nat, current: int, count: nat): int
    requires k <= |pane.pages|
  {
    if 0 <= pane.active < k && pane.pages[pane.active] != current && pane.pages[pane.active] < count
    then |Under(pane.pages[..pane.active], count)| else -1
  }

  /** A saved pane as a notebook with count tabs reads it. */
  function Restored(pane: Pane, current: int, count: nat): Pane {
    Pane(pane.name, Under(pane.pages, count), RestoredActive(pane, |pane.pages|, current, count))
  }

  function RestoredAll(panes: seq<Pane>, current: int, count: nat): (r: seq<Pane>)
    ensures |r| == |panes| && forall i :: 0 <= i < |r| ==> r[i] == Restored(panes[i], current, count)
  {
    seq(|panes|, i requires 0 <= i < |panes| => Restored(panes[i], current, count))
  }

  /** The selection read back: the saved current page when it still exists. */
  function RestoredSelection(shown: multiset<nat>, current: int, count: nat, before: nat): nat {
    if 0 <= current < count && current in shown then current else before
  }

  lemma {:induction false} AddTabsSnoc(f: Fill, tabs: seq<string>, tab: string, count: nat)
    requires tab != "" && forall t :: t in tabs ==> t != ""
    ensures AddTabs(f, tabs + [tab], count) == AddTab(AddTabs(f, tabs, count), tab, count)
    decreases |tabs|
  {
    if tabs == [] {
      assert tabs + [tab] == [tab];
    } else {
      assert tabs[0] in tabs && forall t :: t in tabs[1..] ==> t in tabs;
      assert (tabs + [tab])[1..] == tabs[1..] + [tab];
      AddTabsSnoc(AddTab(f, tabs[0], count), tabs[1..], tab, count);
    }
  }

  lemma {:induction false} AddPanesSnoc(r: Reading, parts: seq<string>, part: string, count: nat)
    ensures AddPanes(r, parts + [part], count) == AddPane(AddPanes(r, parts, count), part, count)
    decreases |parts|
  {
    if parts == [] {
      assert parts + [part] == [part];
    } else {
      assert (parts + [part])[1..] == parts[1..] + [part];
      AddPanesSnoc(AddPane(r, parts[0], count), parts[1..], part, count);
    }
  }

  /** A page's text is read back as its mark and its index. */
  lemma ReadPageText(pane: Pane, p: nat, current: int)
    requires p < |pane.pages| && pane.pages[p] < INT_LIMIT
    ensures var t := PageText(pane, p, current);
      && TabPage(t) == pane.pages[p]
      && (t[0] == '*' <==> pane.pages[p] == current)
      && (t[0] == '+' <==> pane.pages[p] != current && p == pane.active)
  {
    var page := pane.pages[p];
    var t := PageText(pane, p, current);
    AtoiOfDecimal(page);
    assert Decimal(page)[0] in Decimal(page);
    assert t == Decimal(page) || t[1..] == Decimal(page);
  }

  /** Reading the text of page k after the first k. */
  lemma ReadNextPage(f: Fill, pane: Pane, k: nat, current: int, count: nat, sel: nat)
    requires k < |pane.pages| && pane.pages[k] < INT_LIMIT
    requires f == RestoredFill(pane, k, current, count, sel)
    ensures AddTab(f, PageText(pane, k, current), count) == RestoredFill(pane, k + 1, current, count, sel)
  {
    var first, next := pane.pages[..k], pane.pages[..k + 1];
    assert next[..k] == first && next == first + [pane.pages[k]];
    ReadPageText(pane, k, current);
  }

  /** What the first k page texts of a pane are read back as. */
  function RestoredFill(pane: Pane, k: nat, current: int, count: nat, sel: nat): Fill
    requires k <= |pane.pages|
  {
    Fill(Under(pane.pages[..k], count), RestoredActive(pane, k, current, count),
         RestoredSelection(multiset(pane.pages[..k]), current, count, sel))
  }

  lemma {:induction false} ReadPageTexts(pane: Pane, k: nat, current: int, count: nat, sel: nat)
    requires k <= |pane.pages| && forall p :: p in pane.pages ==> p < INT_LIMIT
    ensures AddTabs(Fill([], -1, sel), PageTexts(pane, k, current), count)
         == RestoredFill(pane, k, current, count, sel)
  {
    if k > 0 {
      assert pane.pages[k - 1] in pane.pages;
      var start, texts := Fill([], -1, sel), PageTexts(pane, k - 1, current);
      ReadPageTexts(pane, k - 1, current, count, sel);
      AddTabsSnoc(start, texts, PageText(pane, k - 1, current), count);
      ReadNextPage(AddTabs(start, texts, count), pane, k - 1, current, count, sel);
    }
  }

  lemma PaneTextShape(pane: Pane, current: int)
    requires CleanName(pane.name)
    ensures PaneText(pane, current) != "" && '|' !in PaneText(pane, current) && '@' !in PaneText(pane, current)
    ensures BeforeFirst(PaneText(pane, current), '=') == pane.name
    ensures Pieces(AfterFirst(PaneText(pane, current), '='), ',') == PageTexts(pane, |pane.pages|, current)
  {
    var ts := PageTexts(pane, |pane.pages|, current);
    JoinAvoids(ts, ',', '|');
    JoinAvoids(ts, ',', '@');
    SplitAtFirst(pane.name, '=', Join(ts, ','));
    PiecesOfJoin(ts, ',');
  }

  /** Reading one pane's text adds the restored pane. */
  lemma ReadPaneText(r: Reading, pane: Pane, current: int, count: nat)
    requires Sound(pane)
    ensures AddPane(r, PaneText(pane, current), count)
         == Reading(r.panes + [Restored(pane, current, count)],
                    RestoredSelection(multiset(pane.pages), current, count, r.selected))
  {
    PaneTextShape(pane, current);
    ReadPageTexts(pane, |pane.pages|, current, count, r.selected);
    assert pane.pages[..|pane.pages|] == pane.pages;
  }

  lemma RestoredAllSnoc(panes: seq<Pane>, pane: Pane, current: int, count: nat)
    ensures RestoredAll(panes + [pane], current, count) == RestoredAll(panes, current, count) + [Restored(pane,
        current, count)]
    ensures PaneTexts(panes + [pane], current) == PaneTexts(panes, current) + [PaneText(pane, current)]
  {}

  lemma {:induction false} ReadPaneTexts(panes: seq<Pane>, current: int, count: nat)
    requires AllSound(panes)
    ensures AddPanes(Reading([], 0), PaneTexts(panes, current), count)
         == Reading(RestoredAll(panes, current, count), RestoredSelection(Pages(panes), current, count, 0))
  {
    if panes != [] {
      var init, last := panes[..|panes| - 1], panes[|panes| - 1];
      assert panes == init + [last];
      ReadPaneTexts(init, current, count);
      RestoredAllSnoc(init, last, current, count);
      AddPanesSnoc(Reading([], 0), PaneTexts(init, current), PaneText(last, current), count);
      var r := AddPanes(Reading([], 0), PaneTexts(init, current), count);
      ReadPaneText(r, last, current, count);
      PagesSnoc(init, last);
    }
  }

  /** A saved book, loaded by any consistent notebook with any number of tabs: the same
      panes in order, each with the tabs that still exist in order, the tabs the text did
      not know appended in ascending order to the last pane, and the manager text verbatim. */
  lemma Reload(b: Book, c: Book)
    requires Consistent(c) && Real(b.panes) != []
    requires AllSound(Real(b.panes))
    ensures Load(c, SaveLayout(b)) == (Done,
      Finish(Dummies(c.panes),
             Reading(RestoredAll(Real(b.panes), b.current, c.count),
                     RestoredSelection(Pages(Real(b.panes)), b.current, c.count, 0)),
             c.count, b.manager))
  {
    var texts := PaneTexts(Real(b.panes), b.current);
    forall t | t in texts ensures t != "" && '|' !in t && '@' !in t {
      var i :| 0 <= i < |texts| && texts[i] == t;
      PaneTextShape(Real(b.panes)[i], b.current);
    }
    JoinAvoids(texts, '|', '@');
    SplitAtFirst(Join(texts, '|'), '@', b.manager);
    PiecesOfJoin(texts, '|');
    ReadPaneTexts(Real(b.panes), b.current, c.count);
    RemoveTabsEmpties(c.panes, 0, c.count);
  }

  lemma {:induction false} UnderAll(pages: seq<nat>, count: nat)
    requires forall i :: 0 <= i < |pages| ==> pages[i] < count
    ensures Under(pages, count) == pages
  {
    if pages != [] {
      UnderAll(pages[..|pages| - 1], count);
    }
  }

  lemma OncePosition(s: seq<nat>, x: nat, i: nat, j: nat)
    requires multiset(s)[x] <= 1 && i < j < |s| && s[i] == x
    ensures s[j] != x
  {
    assert s == s[..j] + [s[j]] + s[j + 1..];
    assert s[..j][i] == x;
    assert x in multiset(s[..j]);
  }

  lemma PanePages(b: Book, pane: Pane)
    requires Consistent(b) && pane in b.panes
    ensures forall x :: x in pane.pages ==> x < b.count && multiset(pane.pages)[x] == 1
    ensures GoodActive(pane, b.current)
  {
    var k :| 0 <= k < |b.panes| && b.panes[k] == pane;
    PagesAt(b.panes, k);
    forall x | x in pane.pages ensures x < b.count && multiset(pane.pages)[x] == 1 {
      assert x in multiset(pane.pages) && multiset(pane.pages)[x] <= Pages(b.panes)[x];
    }
  }

  lemma ActivePosition(b: Book, pane: Pane)
    requires Consistent(b) && pane in b.panes && b.current >= 0 && b.current in pane.pages
    ensures IndexOf(pane.pages, b.current) == pane.active
  {
    PanePages(b, pane);
    var i := IndexOf(pane.pages, b.current);
    if i < pane.active {
      OncePosition(pane.pages, b.current, i, pane.active);
    }
  }

  /** A pane is read back as it was, except that the pane of the current tab has lost its
      active page: its mark was the '*'. */
  function Unmarked(pane: Pane, current: int): Pane {
    if current >= 0 && current in pane.pages then pane.(active := -1) else pane
  }

  lemma RestoredSame(pane: Pane, current: int, count: nat)
    requires -1 <= current && GoodActive(pane, current)
    requires forall i :: 0 <= i < |pane.pages| ==> pane.pages[i] < count
    ensures Restored(pane, current, count) == Unmarked(pane, current)
  {
    UnderAll(pane.pages, count);
    if pane.active >= 0 {
      UnderAll(pane.pages[..pane.active], count);
      assert pane.pages[pane.active] in pane.pages;
    }
  }

  /** Two panes of a consistent book never show the same tab. */
  lemma ShownOnce(panes: seq<Pane>, x: nat, i: nat, j: nat)
    requires Pages(panes)[x] <= 1 && i < j < |panes| && x in panes[i].pages
    ensures x !in panes[j].pages
  {
    PagesAt(panes, j);
    PagesAt(panes[..j], i);
    assert x in multiset(panes[i].pages);
    assert panes[..j][i] == panes[i];
    assert Pages(panes[..j])[x] >= multiset(panes[i].pages)[x] >= 1;
  }

  /** Restoring every pane of a consistent book, in order. */
  lemma RestoredAllSame(b: Book)
    requires Consistent(b)
    ensures var shown := Real(b.panes);
      var read := RestoredAll(shown, b.current, b.count);
      && Pages(read) == Pages(shown) == Pages(b.panes)
      && (forall i :: 0 <= i < |shown| ==> shown[i] in b.panes && !IsDummy(shown[i]))
      && (forall i :: 0 <= i < |shown| ==> read[i] == Unmarked(shown[i], b.current))
  {
    RealMembers(b.panes);
    PagesOfReal(b.panes);
    var shown := Real(b.panes);
    var read := RestoredAll(shown, b.current, b.count);
    forall i | 0 <= i < |shown| ensures read[i] == Unmarked(shown[i], b.current) {
      PanePages(b, shown[i]);
      assert forall k :: 0 <= k < |shown[i].pages| ==> shown[i].pages[k] in shown[i].pages;
      RestoredSame(shown[i], b.current, b.count);
    }
    SamePages(read, shown);
  }

  lemma CurrentPane(b: Book) returns (w: nat)
    requires Consistent(b) && b.current >= 0
    ensures w < |Real(b.panes)| && b.current in Real(b.panes)[w].pages
    ensures forall i :: 0 <= i < |Real(b.panes)| && i != w ==> b.current !in Real(b.panes)[i].pages
  {
    PagesOfReal(b.panes);
    var shown := Real(b.panes);
    assert Pages(shown)[b.current] == 1;
    w := WhichPane(shown, b.current);
    forall i | 0 <= i < |shown| && i != w ensures b.current !in shown[i].pages {
      if i < w {
        if b.current in shown[i].pages { ShownOnce(shown, b.current, i, w); }
      } else {
        ShownOnce(shown, b.current, w, i);
      }
    }
  }

  /** Selecting the current tab makes it active again in the one pane that shows it. */
  lemma SelectRestores(b: Book, kept: seq<Pane>)
    requires Consistent(b) && b.current >= 0
    requires forall i :: 0 <= i < |kept| ==> IsDummy(kept[i])
    ensures Select(kept + RestoredAll(Real(b.panes), b.current, b.count), b.current) == kept + Real(b.panes)
  {
    RestoredAllSame(b);
    var w := CurrentPane(b);
    ActivePosition(b, Real(b.panes)[w]);
    SelectUnmarked(kept, Real(b.panes), RestoredAll(Real(b.panes), b.current, b.count), b.current, w);
  }

  lemma SelectUnmarked(kept: seq<Pane>, shown: seq<Pane>, read: seq<Pane>, current: nat, w: nat)
    requires |read| == |shown| && w < |shown| && !IsDummy(shown[w]) && current in shown[w].pages
    requires IndexOf(shown[w].pages, current) == shown[w].active
    requires forall i :: 0 <= i < |kept| ==> IsDummy(kept[i])
    requires forall i :: 0 <= i < |shown| ==> read[i] == Unmarked(shown[i], current)
    requires forall i :: 0 <= i < |shown| && i != w ==> current !in shown[i].pages
    ensures Select(kept + read, current) == kept + shown
  {}

  /** The book a round trip should give: the loading notebook's dummies, then b's panes. */
  function Again(b: Book, c: Book): Book {
    Book(Dummies(c.panes) + Real(b.panes), b.count, b.current, b.manager)
  }

  predicate CleanNames(panes: seq<Pane>) {
    forall i :: 0 <= i < |panes| ==> CleanName(panes[i].name)
  }

  lemma RealSound(b: Book)
    requires Consistent(b) && b.count <= INT_LIMIT && CleanNames(Real(b.panes))
    ensures AllSound(Real(b.panes))
  {
    RealMembers(b.panes);
    forall i | 0 <= i < |Real(b.panes)| ensures Sound(Real(b.panes)[i]) {
      PanePages(b, Real(b.panes)[i]);
    }
  }

  lemma CleanRoundTrip(b: Book, c: Book)
    requires Consistent(b) && Consistent(c) && c.count == b.count <= INT_LIMIT
    requires Real(b.panes) != [] && CleanNames(Real(b.panes))
    ensures Load(c, SaveLayout(b)) == (Done, Again(b, c))
  {
    RealSound(b);
    Reload(b, c);
    DummyMembers(c.panes);
    FinishRestores(b, Dummies(c.panes));
  }

  lemma FinishRestores(b: Book, kept: seq<Pane>)
    requires Consistent(b) && Real(b.panes) != []
    requires forall i :: 0 <= i < |kept| ==> IsDummy(kept[i])
    ensures Finish(kept,
                   Reading(RestoredAll(Real(b.panes), b.current, b.count),
                           RestoredSelection(Pages(Real(b.panes)), b.current, b.count, 0)),
                   b.count, b.manager)
         == Book(kept + Real(b.panes), b.count, b.current, b.manager)
  {
    var shown := Real(b.panes);
    RestoredAllSame(b);
    var read := RestoredAll(shown, b.current, b.count);
    NothingMissing(read, b.count);
    if b.count > 0 {
      SelectRestores(b, kept);
    } else {
      NothingUnmarked(shown, read, b.current);
    }
  }

  lemma NothingUnmarked(shown: seq<Pane>, read: seq<Pane>, current: int)
    requires current < 0 && |read| == |shown|
    requires forall i :: 0 <= i < |shown| ==> read[i] == Unmarked(shown[i], current)
    ensures read == shown
  {}

  lemma NothingMissing(panes: seq<Pane>, count: nat)
    requires panes != [] && forall x: nat :: x < count ==> Pages(panes)[x] == 1
    ensures AppendMissing(panes, count) == panes
  {
    var m := Missing(Pages(panes), count);
    var all: multiset<nat> := multiset(m);
    forall x: nat ensures all[x] == 0 { CountMissing(Pages(panes), count, x); }
    assert all == multiset{} && |all| == |m|;
    var last := panes[|panes| - 1];
    assert last.pages + m == last.pages;
    assert panes == panes[..|panes| - 1] + [last];
  }

  /** The layout round trip, and exactly when it holds. Loading what a consistent book b
      saved, in a consistent notebook c with the same tabs, gives back b's panes, active
      pages, current page and manager text if and only if b has a pane other than the
      dummy and no pane name contains '=', '|' or '@'. */
  lemma RoundTrip(b: Book, c: Book)
    requires Consistent(b) && Consistent(c) && c.count == b.count <= INT_LIMIT
    ensures Load(c, SaveLayout(b)) == (Done, Again(b, c))
       <==> Real(b.panes) != [] && CleanNames(Real(b.panes))
  {
    if Real(b.panes) != [] && CleanNames(Real(b.panes)) {
      CleanRoundTrip(b, c);
    }
    if Load(c, SaveLayout(b)) == (Done, Again(b, c)) {
      LoadedNamesClean(c, SaveLayout(b));
      RemoveTabsEmpties(c.panes, 0, c.count);
      assert (Dummies(c.panes) + Real(b.panes))[|Dummies(c.panes)|..] == Real(b.panes);
    }
  }

  lemma NameOfPart(part: string)
    requires '|' !in part && '@' !in part
    ensures CleanName(BeforeFirst(part, '='))
  {}

  lemma {:induction false} ReadNamesClean(r: Reading, parts: seq<string>, count: nat)
    requires CleanNames(r.panes)
    requires forall t :: t in parts ==> '|' !in t && '@' !in t
    ensures CleanNames(AddPanes(r, parts, count).panes)
    decreases |parts|
  {
    if parts != [] {
      assert parts[0] in parts && forall t :: t in parts[1..] ==> t in parts;
      NameOfPart(parts[0]);
      ReadNamesClean(AddPane(r, parts[0], count), parts[1..], count);
    }
  }

  lemma {:induction false} PiecesAvoid(s: string, c: char, d: char)
    requires d !in s
    ensures forall t :: t in Pieces(s, c) ==> d !in t
    decreases |s|
  {
    var head := BeforeFirst(s, c);
    if head != "" {
      assert forall i :: 0 <= i < |head| ==> head[i] == s[i] && s[i] in s;
      var rest := AfterFirst(s, c);
      assert rest == "" || rest == s[|head| + 1..];
      PiecesAvoid(rest, c, d);
    }
  }

  lemma ReadLayoutNamesClean(layout: string, count: nat)
    ensures CleanNames(ReadLayout(layout, count).panes)
  {
    PiecesAvoid(BeforeFirst(layout, '@'), '|', '@');
    ReadNamesClean(Reading([], 0), Pieces(BeforeFirst(layout, '@'), '|'), count);
  }

  /** No pane is ever read back under a name containing a separator. */
  lemma LoadedNamesClean(c: Book, layout: string)
    requires Load(c, layout).0 == Done
    ensures var kept := DropEmpty(RemoveTabs(c.panes, 0, c.count).1);
      var panes := Load(c, layout).1.panes;
      |kept| < |panes| && CleanNames(panes[|kept|..])
  {
    ReadLayoutNamesClean(layout, c.count);
    FinishNamesClean(DropEmpty(RemoveTabs(c.panes, 0, c.count).1), ReadLayout(layout, c.count),
                     c.count, AfterFirst(layout, '@'));
  }

  lemma FinishNamesClean(kept: seq<Pane>, r: Reading, count: nat, frames: string)
    requires r.panes != [] && CleanNames(r.panes)
    ensures var panes := Finish(kept, r, count, frames).panes;
      |kept| < |panes| && CleanNames(panes[|kept|..])
  {}
}
