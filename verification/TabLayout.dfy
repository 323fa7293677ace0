/** TabFreeAuiNotebook's layout text (src/topFrame.cpp): the values, the text a book is
    saved as, and what reading any text back does. */
module TabLayout {
  import opened Text

  /** A pane of the notebook: its name, the tab indices it shows from left to right, and
      the position of its active page (-1 for none). */
  datatype Pane = Pane(name: string, pages: seq<nat>, active: int)

  /** panes: in manager order; count: number of tabs; current: selected tab or -1;
      manager: the frame manager's own perspective text. */
  datatype Book = Book(panes: seq<Pane>, count: nat, current: int, manager: string)

  datatype Status = Done | TabNotFound | NoPaneRead

  // ----- Saving

  function PageText(pane: Pane, p: nat, current: int): (s: string)
    requires p < |pane.pages|
    ensures s != "" && ',' !in s && '|' !in s && '@' !in s
  {
    var page := pane.pages[p];
    var mark := if ToInt(page) == current then "*" else if p == pane.active then "+" else "";
    mark + Decimal(page)
  }

  /** The texts of the first k pages. */
  function PageTexts(pane: Pane, k: nat, current: int): (ts: seq<string>)
    requires k <= |pane.pages|
    ensures |ts| == k
    ensures forall t :: t in ts ==> t != "" && ',' !in t && '|' !in t && '@' !in t
  {
    if k == 0 then [] else PageTexts(pane, k - 1, current) + [PageText(pane, k - 1, current)]
  }

  function PaneText(pane: Pane, current: int): string {
    pane.name + "=" + Join(PageTexts(pane, |pane.pages|, current), ',')
  }

  predicate IsDummy(pane: Pane) { pane.name == "dummy" }

  /** The panes that carry tabs. */
  function Real(panes: seq<Pane>): seq<Pane> {
    if panes == [] then []
    else Real(panes[..|panes| - 1]) + if IsDummy(panes[|panes| - 1]) then [] else [panes[|panes| - 1]]
  }

  function Dummies(panes: seq<Pane>): seq<Pane> {
    if panes == [] then []
    else Dummies(panes[..|panes| - 1]) + if IsDummy(panes[|panes| - 1]) then [panes[|panes| - 1]] else []
  }

  function PaneTexts(panes: seq<Pane>, current: int): (ts: seq<string>)
    ensures |ts| == |panes| && forall i :: 0 <= i < |ts| ==> ts[i] == PaneText(panes[i], current)
  {
    seq(|panes|, i requires 0 <= i < |panes| => PaneText(panes[i], current))
  }

  function SaveLayout(b: Book): string {
    Join(PaneTexts(Real(b.panes), b.current), '|') + "@" + b.manager
  }

  // ----- Taking the old tabs out

  function IndexOf(s: seq<nat>, x: nat): (k: nat)
    requires x in s
    ensures k < |s| && s[k] == x && x !in s[..k]
  {
    if s[0] == x then 0 else 1 + IndexOf(s[1..], x)
  }

  /** Position of the first pane showing the tab; |panes| when none does. */
  function FindTab(panes: seq<Pane>, page: nat): (k: nat)
    ensures k <= |panes|
    ensures k < |panes| ==> !IsDummy(panes[k]) && page in panes[k].pages
    ensures forall j :: 0 <= j < k ==> IsDummy(panes[j]) || page !in panes[j].pages
  {
    if panes == [] || (!IsDummy(panes[0]) && page in panes[0].pages) then 0
    else 1 + FindTab(panes[1..], page)
  }

  function RemovePage(pane: Pane, page: nat): Pane
    requires page in pane.pages
  {
    var k := IndexOf(pane.pages, page);
    Pane(pane.name, pane.pages[..k] + pane.pages[k + 1..],
         if pane.active > k then pane.active - 1 else if pane.active == k then -1 else pane.active)
  }

  /** Takes tabs i..count out of their panes, stopping at the first that no pane shows. */
  function RemoveTabs(panes: seq<Pane>, i: nat, count: nat): (bool, seq<Pane>)
    requires i <= count
    decreases count - i
  {
    if i == count then (true, panes)
    else
      var k := FindTab(panes, i);
      if k == |panes| then (false, panes)
      else RemoveTabs(panes[k := RemovePage(panes[k], i)], i + 1, count)
  }

  /** RemoveEmptyTabFrames. */
  function DropEmpty(panes: seq<Pane>): seq<Pane> {
    if panes == [] then []
    else
      var last := panes[|panes| - 1];
      DropEmpty(panes[..|panes| - 1]) + if IsDummy(last) || last.pages != [] then [last] else []
  }

  // ----- Reading a layout

  /** What reading one pane's tab list has produced so far. */
  datatype Fill = Fill(pages: seq<nat>, active: int, selected: nat)

  function TabPage(tab: string): nat
    requires tab != ""
  {
    ToSize(Atoi(if tab[0] == '+' || tab[0] == '*' then tab[1..] else tab))
  }

  function AddTab(f: Fill, tab: string, count: nat): Fill
    requires tab != ""
  {
    var c := tab[0];
    var page := TabPage(tab);
    if page >= count then f
    else Fill(f.pages + [page], if c == '+' then |f.pages| else f.active, if c == '*' then page else f.selected)
  }

  function AddTabs(f: Fill, tabs: seq<string>, count: nat): Fill
    requires forall t :: t in tabs ==> t != ""
    decreases |tabs|
  {
    if tabs == [] then f
    else
      assert tabs[0] in tabs && forall t :: t in tabs[1..] ==> t in tabs;
      AddTabs(AddTab(f, tabs[0], count), tabs[1..], count)
  }

  datatype Reading = Reading(panes: seq<Pane>, selected: nat)

  function AddPane(r: Reading, part: string, count: nat): Reading {
    var f := AddTabs(Fill([], -1, r.selected), Pieces(AfterFirst(part, '='), ','), count);
    Reading(r.panes + [Pane(BeforeFirst(part, '='), f.pages, f.active)], f.selected)
  }

  function AddPanes(r: Reading, parts: seq<string>, count: nat): Reading
    decreases |parts|
  {
    if parts == [] then r else AddPanes(AddPane(r, parts[0], count), parts[1..], count)
  }

  /** Every page of every pane, with multiplicity. */
  function Pages(panes: seq<Pane>): multiset<nat> {
    if panes == [] then multiset{}
    else Pages(panes[..|panes| - 1]) + multiset(panes[|panes| - 1].pages)
  }

  lemma PagesSnoc(panes: seq<Pane>, pane: Pane)
    ensures Pages(panes + [pane]) == Pages(panes) + multiset(pane.pages)
  {}

  /** The tabs that were not read back, in ascending order. */
  function Missing(read: multiset<nat>, count: nat): (m: seq<nat>)
    ensures forall i: nat :: i in m <==> i < count && i !in read
    ensures forall i :: 0 <= i < |m| ==> m[i] < count
    ensures forall i, j :: 0 <= i < j < |m| ==> m[i] < m[j]
  {
    if count == 0 then []
    else Missing(read, count - 1) + if count - 1 in read then [] else [count - 1]
  }

  function AppendMissing(panes: seq<Pane>, count: nat): seq<Pane>
    requires panes != []
  {
    var last := panes[|panes| - 1];
    panes[..|panes| - 1] + [last.(pages := last.pages + Missing(Pages(panes), count))]
  }

  /** SetSelection: the pane showing the selected tab makes it its active page. */
  function Select(panes: seq<Pane>, page: nat): (r: seq<Pane>)
    ensures |r| == |panes|
    ensures forall i :: 0 <= i < |r| ==> r[i].name == panes[i].name && r[i].pages == panes[i].pages
  {
    var k := FindTab(panes, page);
    if k == |panes| then panes else panes[k := panes[k].(active := IndexOf(panes[k].pages, page))]
  }

  function Finish(kept: seq<Pane>, r: Reading, count: nat, frames: string): Book
    requires r.panes != []
  {
    var panes := kept + AppendMissing(r.panes, count);
    if r.selected < count then Book(Select(panes, r.selected), count, r.selected, frames)
    else Book(panes, count, -1, frames)
  }

  function ReadLayout(layout: string, count: nat): Reading {
    AddPanes(Reading([], 0), Pieces(BeforeFirst(layout, '@'), '|'), count)
  }

  function Load(b: Book, layout: string): (Status, Book) {
    var (found, left) := RemoveTabs(b.panes, 0, b.count);
    if !found then (TabNotFound, b.(panes := left))
    else
      var kept := DropEmpty(left);
      var r := ReadLayout(layout, b.count);
      var frames := AfterFirst(layout, '@');
      if r.panes == [] then (NoPaneRead, b.(panes := kept, manager := frames))
      else (Done, Finish(kept, r, b.count, frames))
  }
}
