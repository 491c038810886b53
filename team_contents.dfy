/** The team-contents listing: it drains the paginated list of a team's namespaces
    into a set (the list may repeat a namespace), sorts the ids numerically, and
    then drains the recursive listing of each namespace in that order, reporting
    every entry. The Dropbox calls are recorded instead of sent and answered by
    the pages the server returns; the printed report is a list of lines. */
module TeamContents {

  import opened Paging

  /** An entry of a folder listing, by its metadata type, with its lower-cased path. */
  datatype Entry =
    | FileMetadata(pathLower: string)
    | FolderMetadata(pathLower: string)
    | DeletedMetadata(pathLower: string)

  /** The Dropbox calls the listing makes. */
  datatype Call =
    | NamespacesList
    | NamespacesListContinue(cursor: string)
    | ListFolder(namespaceId: nat, path: string, recursive: bool, includeMountedFolders: bool)
    | ListFolderContinue(namespaceId: nat, cursor: string)

  /** The lines the listing prints. */
  datatype Line =
    | ReceivedNamespaces(count: nat)
    | ListingNamespace(namespaceId: nat)
    | ReceivedEntry(entry: Entry)

  /** The set of namespace ids collected so far, which the page handler adds to. */
  class NamespaceIdSet {
    var ids: set<nat>

    constructor ()
      ensures ids == {}
    {
      ids := {};
    }

    /** `handle_namespaces_result`: adds the id of every namespace of the page. */
    method HandleNamespacesResult(page: Page<nat>)
      modifies this
      ensures ids == old(ids) + set x | x in page.items
    {
      for i := 0 to |page.items|
        invariant ids == old(ids) + set x | x in page.items[..i]
      {
        assert page.items[..i + 1] == page.items[..i] + [page.items[i]];
        ids := ids + {page.items[i]};
      }
      assert page.items[..|page.items|] == page.items;
    }
  }

  // ----------------------------------------------------------- numeric sort

  /** `m` is the least id of `s`. */
  predicate IsLeast(m: nat, s: set<nat>) {
    m in s && forall y :: y in s ==> m <= y
  }

  /** A non-empty set of ids has a least element. */
  lemma {:induction false} LeastExists(s: set<nat>)
    requires s != {}
    ensures exists m :: IsLeast(m, s)
    decreases |s|
  {
    var x :| x in s;
    if s == {x} {
      assert IsLeast(x, s);
    } else {
      var rest := s - {x};
      LeastExists(rest);
      var m :| IsLeast(m, rest);
      var least := if x < m then x else m;
      forall y | y in s
        ensures least <= y
      {
        if y != x {
          assert y in rest;
        }
      }
      assert IsLeast(least, s);
    }
  }

  function MinOf(s: set<nat>): (m: nat)
    requires s != {}
    ensures IsLeast(m, s)
  {
    LeastExists(s);
    var m :| IsLeast(m, s);
    m
  }

  /** `sorted(list(ids), key=int)`: the ids in ascending numeric order, each once. */
  function SortedIds(s: set<nat>): (r: seq<nat>)
    ensures forall i, j :: 0 <= i < j < |r| ==> r[i] < r[j]
    ensures forall x :: x in r <==> x in s
    ensures |r| == |s|
    decreases |s|
  {
    if s == {} then []
    else
      var m := MinOf(s);
      var rest := SortedIds(s - {m});
      assert forall x :: x in s - {m} ==> m <= x;
      assert forall x :: x in rest ==> m < x;
      [m] + rest
  }

  // ---------------------------------------------------------- calls and lines

  function ContinueNamespaces(cursor: string): Call {
    NamespacesListContinue(cursor)
  }

  function ContinueFolder(namespaceId: nat): string -> Call {
    cursor => ListFolderContinue(namespaceId, cursor)
  }

  /** The calls draining the namespace list: the first call, then one continue
      call per later page with the cursor of the page before. */
  function NamespaceCalls(pages: seq<Page<nat>>): (r: seq<Call>)
    ensures |r| == |pages|
    ensures |pages| > 0 ==> r[0] == NamespacesList
    ensures forall k :: 1 <= k < |pages| ==> r[k] == NamespacesListContinue(pages[k - 1].cursor)
  {
    DrainCalls(NamespacesList, ContinueNamespaces, pages)
  }

  /** The calls draining one namespace's listing: the root folder (`""`),
      recursively and without mounted folders, then one continue call per later
      page with the cursor of the page before, all rooted at the namespace. */
  function FolderCalls(namespaceId: nat, pages: seq<Page<Entry>>): (r: seq<Call>)
    ensures |r| == |pages|
    ensures |pages| > 0 ==> r[0] == ListFolder(namespaceId, "", true, false)
    ensures forall k :: 1 <= k < |pages| ==> r[k] == ListFolderContinue(namespaceId, pages[k - 1].cursor)
  {
    DrainCalls(ListFolder(namespaceId, "", true, false), ContinueFolder(namespaceId), pages)
  }

  /** One report line per entry, in order. */
  function EntryLines(entries: seq<Entry>): (r: seq<Line>)
    ensures |r| == |entries| && forall i :: 0 <= i < |entries| ==> r[i] == ReceivedEntry(entries[i])
  {
    seq(|entries|, i requires 0 <= i < |entries| => ReceivedEntry(entries[i]))
  }

  /** The lines for two runs of entries are those of the first, then those of the second. */
  lemma EntryLinesAppend(a: seq<Entry>, b: seq<Entry>)
    ensures EntryLines(a + b) == EntryLines(a) + EntryLines(b)
  {
    assert forall i :: |a| <= i < |a + b| ==> (a + b)[i] == b[i - |a|];
  }

  /** The listing calls for the namespaces `ids`, one drain after the other. */
  function ListingCalls(ids: seq<nat>, listing: nat -> seq<Page<Entry>>): seq<Call> {
    if ids == [] then []
    else ListingCalls(ids[..|ids| - 1], listing) + FolderCalls(ids[|ids| - 1], listing(ids[|ids| - 1]))
  }

  /** The report for the namespaces `ids`: for each, a heading line and then one
      line per entry of its listing. */
  function Transcript(ids: seq<nat>, listing: nat -> seq<Page<Entry>>): seq<Line> {
    if ids == [] then []
    else
      Transcript(ids[..|ids| - 1], listing)
        + [ListingNamespace(ids[|ids| - 1])] + EntryLines(Items(listing(ids[|ids| - 1])))
  }

  /** Listing one more namespace appends its calls and its part of the report. */
  lemma ListingStep(ids: seq<nat>, n: nat, listing: nat -> seq<Page<Entry>>)
    requires n < |ids|
    ensures ListingCalls(ids[..n + 1], listing) == ListingCalls(ids[..n], listing) + FolderCalls(ids[n], listing(ids[n]))
    ensures Transcript(ids[..n + 1], listing)
      == Transcript(ids[..n], listing) + [ListingNamespace(ids[n])] + EntryLines(Items(listing(ids[n])))
  {
    assert ids[..n + 1][..n] == ids[..n];
  }

  // ------------------------------------------------------------- the listing

  /** `handle_listing_result`: one line per entry of the page. */
  method HandleListingResult(page: Page<Entry>) returns (lines: seq<Line>)
    ensures lines == EntryLines(page.items)
  {
    lines := [];
    for i := 0 to |page.items|
      invariant lines == EntryLines(page.items[..i])
    {
      lines := lines + [ReceivedEntry(page.items[i])];
    }
    assert page.items[..|page.items|] == page.items;
  }

  /** Drains one namespace's listing: the first call, then continue calls with the
      previous page's cursor while the page says more follow. */
  method ListNamespace(namespaceId: nat, pages: seq<Page<Entry>>) returns (calls: seq<Call>, lines: seq<Line>)
    requires Drains(pages)
    ensures calls == FolderCalls(namespaceId, pages)
    ensures lines == EntryLines(Items(pages))
  {
    var k := 0;
    var listingResult := pages[0];
    calls := [ListFolder(namespaceId, "", true, false)];
    lines := HandleListingResult(listingResult);
    assert Items(pages[..1]) == Items([]) + pages[0].items;
    while listingResult.hasMore
      invariant 0 <= k < |pages| && listingResult == pages[k]
      invariant calls == FolderCalls(namespaceId, pages[..k + 1])
      invariant lines == EntryLines(Items(pages[..k + 1]))
      decreases |pages| - k
    {
      DrainsHasNext(pages, k);
      DrainStep(ListFolder(namespaceId, "", true, false), ContinueFolder(namespaceId), pages, k);
      calls := calls + [ListFolderContinue(namespaceId, listingResult.cursor)];
      k := k + 1;
      listingResult := pages[k];
      var more := HandleListingResult(listingResult);
      EntryLinesAppend(Items(pages[..k]), listingResult.items);
      lines := lines + more;
    }
    assert pages[..k + 1] == pages;
  }

  /** Drains the namespace list into a set of ids: the first call, then continue
      calls with the previous page's cursor while the page says more follow. */
  method CollectNamespaceIds(namespacePages: seq<Page<nat>>) returns (ids: set<nat>, calls: seq<Call>)
    requires Drains(namespacePages)
    ensures ids == ItemSet(namespacePages)
    ensures calls == NamespaceCalls(namespacePages)
  {
    var collector := new NamespaceIdSet();
    var k := 0;
    var namespacesResult := namespacePages[0];
    calls := [NamespacesList];
    collector.HandleNamespacesResult(namespacesResult);
    assert Items(namespacePages[..1]) == Items([]) + namespacePages[0].items;
    while namespacesResult.hasMore
      invariant 0 <= k < |namespacePages| && namespacesResult == namespacePages[k]
      invariant calls == NamespaceCalls(namespacePages[..k + 1])
      invariant collector.ids == ItemSet(namespacePages[..k + 1])
      decreases |namespacePages| - k
    {
      DrainsHasNext(namespacePages, k);
      DrainStep(NamespacesList, ContinueNamespaces, namespacePages, k);
      calls := calls + [NamespacesListContinue(namespacesResult.cursor)];
      k := k + 1;
      namespacesResult := namespacePages[k];
      collector.HandleNamespacesResult(namespacesResult);
    }
    assert namespacePages[..k + 1] == namespacePages;
    ids := collector.ids;
  }

  /** Lists the namespaces `ids` in order: for each, a heading line, then the
      drain of its listing. */
  method ListNamespaces(ids: seq<nat>, listing: nat -> seq<Page<Entry>>) returns (calls: seq<Call>, lines: seq<Line>)
    requires forall ns :: Drains(listing(ns))
    ensures calls == ListingCalls(ids, listing)
    ensures lines == Transcript(ids, listing)
  {
    calls := [];
    lines := [];
    for n := 0 to |ids|
      invariant calls == ListingCalls(ids[..n], listing)
      invariant lines == Transcript(ids[..n], listing)
    {
      var namespaceId := ids[n];
      ListingStep(ids, n, listing);
      lines := lines + [ListingNamespace(namespaceId)];
      var namespaceCalls, entryLines := ListNamespace(namespaceId, listing(namespaceId));
      calls := calls + namespaceCalls;
      lines := lines + entryLines;
    }
    assert ids[..|ids|] == ids;
  }

  /** `list_all_contents`: collects the namespace ids of every page of the
      namespace list, sorts them numerically, reports their number, and lists
      every namespace in that order. */
  method ListAllContents(namespacePages: seq<Page<nat>>, listing: nat -> seq<Page<Entry>>)
    returns (namespaceIds: seq<nat>, calls: seq<Call>, lines: seq<Line>)
    requires Drains(namespacePages)
    requires forall ns :: Drains(listing(ns))
    ensures namespaceIds == SortedIds(ItemSet(namespacePages))
    ensures forall x :: x in namespaceIds <==> exists k :: 0 <= k < |namespacePages| && x in namespacePages[k].items
    ensures forall i, j :: 0 <= i < j < |namespaceIds| ==> namespaceIds[i] < namespaceIds[j]
    ensures calls == NamespaceCalls(namespacePages) + ListingCalls(namespaceIds, listing)
    ensures lines == [ReceivedNamespaces(|namespaceIds|)] + Transcript(namespaceIds, listing)
  {
    var ids, namespaceCalls := CollectNamespaceIds(namespacePages);
    ItemsMembers(namespacePages);
    namespaceIds := SortedIds(ids);
    var listingCalls, listingLines := ListNamespaces(namespaceIds, listing);
    calls := namespaceCalls + listingCalls;
    lines := [ReceivedNamespaces(|namespaceIds|)] + listingLines;
  }

  // ---------------------------------------------------------- the report

  /** The namespaces a report lists, in the order of their heading lines. */
  function Headings(lines: seq<Line>): seq<nat> {
    if lines == [] then []
    else (if lines[0].ListingNamespace? then [lines[0].namespaceId] else []) + Headings(lines[1..])
  }

  /** The entries a report lists, in order. */
  function ReportedEntries(lines: seq<Line>): seq<Entry> {
    if lines == [] then []
    else (if lines[0].ReceivedEntry? then [lines[0].entry] else []) + ReportedEntries(lines[1..])
  }

  /** The headings of two parts of a report are those of the first, then those of the second. */
  lemma {:induction false} HeadingsAppend(a: seq<Line>, b: seq<Line>)
    ensures Headings(a + b) == Headings(a) + Headings(b)
  {
    if a == [] {
      assert a + b == b;
    } else {
      var first := if a[0].ListingNamespace? then [a[0].namespaceId] else [];
      assert (a + b)[0] == a[0] && (a + b)[1..] == a[1..] + b;
      assert Headings(a + b) == first + Headings(a[1..] + b);
      HeadingsAppend(a[1..], b);
      assert Headings(a) == first + Headings(a[1..]);
    }
  }

  /** The entries of two parts of a report are those of the first, then those of the second. */
  lemma {:induction false} EntriesAppend(a: seq<Line>, b: seq<Line>)
    ensures ReportedEntries(a + b) == ReportedEntries(a) + ReportedEntries(b)
  {
    if a == [] {
      assert a + b == b;
    } else {
      var first := if a[0].ReceivedEntry? then [a[0].entry] else [];
      assert (a + b)[0] == a[0] && (a + b)[1..] == a[1..] + b;
      assert ReportedEntries(a + b) == first + ReportedEntries(a[1..] + b);
      EntriesAppend(a[1..], b);
      assert ReportedEntries(a) == first + ReportedEntries(a[1..]);
    }
  }

  lemma {:induction false} EntryLinesReport(entries: seq<Entry>)
    ensures Headings(EntryLines(entries)) == []
    ensures ReportedEntries(EntryLines(entries)) == entries
  {
    if entries != [] {
      assert EntryLines(entries)[1..] == EntryLines(entries[1..]);
      EntryLinesReport(entries[1..]);
      assert entries == [entries[0]] + entries[1..];
    }
  }

  /** Every entry of the listings of `ids`, namespace by namespace, in page order
      and then in order within a page. */
  function AllEntries(ids: seq<nat>, listing: nat -> seq<Page<Entry>>): seq<Entry> {
    if ids == [] then []
    else AllEntries(ids[..|ids| - 1], listing) + Items(listing(ids[|ids| - 1]))
  }

  /** The report heads exactly the namespaces `ids`, in their order, and reports
      every entry of every listing exactly once, in order. */
  lemma {:induction false} TranscriptReport(ids: seq<nat>, listing: nat -> seq<Page<Entry>>)
    ensures Headings(Transcript(ids, listing)) == ids
    ensures ReportedEntries(Transcript(ids, listing)) == AllEntries(ids, listing)
  {
    if ids != [] {
      var n := |ids| - 1;
      var entries := Items(listing(ids[n]));
      TranscriptReport(ids[..n], listing);
      HeadingsAppend(Transcript(ids[..n], listing), [ListingNamespace(ids[n])]);
      EntriesAppend(Transcript(ids[..n], listing), [ListingNamespace(ids[n])]);
      HeadingsAppend(Transcript(ids[..n], listing) + [ListingNamespace(ids[n])], EntryLines(entries));
      EntriesAppend(Transcript(ids[..n], listing) + [ListingNamespace(ids[n])], EntryLines(entries));
      EntryLinesReport(entries);
      assert Headings([ListingNamespace(ids[n])]) == [ids[n]];
      assert ReportedEntries([ListingNamespace(ids[n])]) == [];
      assert ids[..n] + [ids[n]] == ids;
    }
  }

  /** The listing reports each collected namespace exactly once, in ascending
      numeric order, and every entry of its listing after it. */
  lemma ListedInSortedOrder(namespacePages: seq<Page<nat>>, listing: nat -> seq<Page<Entry>>)
    ensures var ids := SortedIds(ItemSet(namespacePages));
      && Headings(Transcript(ids, listing)) == ids
      && (forall i, j :: 0 <= i < j < |ids| ==> ids[i] < ids[j])
      && ReportedEntries(Transcript(ids, listing)) == AllEntries(ids, listing)
  {
    TranscriptReport(SortedIds(ItemSet(namespacePages)), listing);
  }
}
