/**
 * The client's application store. Each action replaces some of the store's
 * fields by new lists built with spread, `map`, `filter` and `slice`; the
 * store is a class whose methods assign exactly those fields, and the new
 * lists are the functions of the `Records` module.
 */
module Store {
  import opened Wrappers
  import opened Records

  /** The dashboard counters the store starts with. */
  datatype DashboardStats = DashboardStats(
    totalClients: nat,
    activeClients: nat,
    pendingDocuments: nat,
    pendingTasks: nat,
    upcomingDeadlines: nat,
    monthlyRevenue: real)

  /**
   * The initial counters: all clients, the active ones, the unprocessed
   * documents and the tasks not completed, with fixed deadlines and revenue.
   */
  function InitialStats(clients: seq<Record>, documents: seq<Record>, tasks: seq<Record>): (s: DashboardStats)
    ensures s.totalClients == |clients|
    ensures s.activeClients == Count(clients, StatusIs("active"))
    ensures s.pendingDocuments == Count(documents, Falsy("processed"))
    ensures s.pendingTasks == Count(tasks, StatusIsNot("completed"))
    ensures s.activeClients <= s.totalClients
    ensures s.pendingDocuments <= |documents| && s.pendingTasks <= |tasks|
    ensures s.activeClients == |clients| <==> forall c :: c in clients ==> HasStr(c, "status", "active")
    ensures s.pendingDocuments == 0 <==> forall d :: d in documents ==> Truthy(d, "processed")
    ensures s.pendingTasks == 0 <==> forall t :: t in tasks ==> HasStr(t, "status", "completed")
    ensures s.upcomingDeadlines == 3 && s.monthlyRevenue == 12500.0
  {
    DashboardStats(
      |clients|,
      Count(clients, StatusIs("active")),
      Count(documents, Falsy("processed")),
      Count(tasks, StatusIsNot("completed")),
      3,
      12500.0)
  }

  /** `[spreadsheet, ...recent.slice(0, 4)]`. */
  function RecentAfterAdd(recent: seq<Record>, spreadsheet: Record): (r: seq<Record>)
    ensures 1 <= |r| <= 5 && r[0] == spreadsheet
    ensures |r| == if |recent| < 4 then |recent| + 1 else 5
    ensures forall i :: 1 <= i < |r| ==> r[i] == recent[i - 1]
  {
    [spreadsheet] + recent[..if |recent| < 4 then |recent| else 4]
  }

  /** `current?.id === id ? revised : current`. */
  function CurrentAfterUpdate(current: Option<Record>, id: string, updates: Record, now: int): (r: Option<Record>)
    ensures r.Some? <==> current.Some?
    ensures current.Some? && HasId(current.value, id) ==> r == Some(Revise(current.value, updates, Some(now)))
    ensures current.Some? && !HasId(current.value, id) ==> r == current
  {
    if current.Some? && HasId(current.value, id) then Some(Revise(current.value, updates, Some(now))) else current
  }

  /** `current?.id === id ? null : current`. */
  function CurrentAfterDelete(current: Option<Record>, id: string): (r: Option<Record>)
    ensures r.None? <==> current.None? || HasId(current.value, id)
    ensures r.Some? ==> r == current
  {
    if current.Some? && HasId(current.value, id) then None else current
  }

  /**
   * `getRecentSpreadsheets(limit = 5)`: a sorted copy, newest first, cut at
   * `limit`. It holds `slice(0, limit)` many spreadsheets of the store (five
   * by default, or fewer stored; a negative limit counts from the end),
   * newest first, each at most as often as the store holds it, and no stored
   * spreadsheet left out is newer than a listed one.
   */
  function RecentByTime(spreadsheets: seq<Record>, limit: Option<int>): (r: seq<Record>)
    ensures |r| == SliceEnd(|spreadsheets|, if limit.Some? then limit.value else 5)
    ensures limit.None? ==> |r| == if |spreadsheets| < 5 then |spreadsheets| else 5
    ensures limit.Some? && limit.value >= 0 ==> |r| <= limit.value
    ensures limit.Some? && limit.value < 0 ==> |r| == if |spreadsheets| + limit.value > 0 then |spreadsheets| + limit.value else 0
    ensures NewestFirst(r)
    ensures multiset(r) <= multiset(spreadsheets)
    ensures forall x, k :: x in multiset(spreadsheets) - multiset(r) && 0 <= k < |r| ==>
      UpdatedTime(x) <= UpdatedTime(r[k])
  {
    var sorted := SortByRecency(spreadsheets);
    var e := SliceEnd(|sorted|, if limit.Some? then limit.value else 5);
    SortedPrefix(spreadsheets, sorted, e);
    sorted[..e]
  }

  /** A prefix of the newest-first sort of a list is newest first, drawn from the list, and no older than the rest. */
  lemma SortedPrefix(xs: seq<Record>, sorted: seq<Record>, e: nat)
    requires multiset(sorted) == multiset(xs) && NewestFirst(sorted) && e <= |sorted|
    ensures |sorted[..e]| == e
    ensures NewestFirst(sorted[..e])
    ensures multiset(sorted[..e]) <= multiset(xs)
    ensures forall x, k :: x in multiset(xs) - multiset(sorted[..e]) && 0 <= k < e ==>
      UpdatedTime(x) <= UpdatedTime(sorted[..e][k])
  {
    NewestPrefix(sorted, e);
  }

  /** A prefix of a list sorted newest first holds entries no older than any entry after it. */
  lemma NewestPrefix(sorted: seq<Record>, e: nat)
    requires NewestFirst(sorted) && e <= |sorted|
    ensures multiset(sorted[..e]) <= multiset(sorted)
    ensures forall x, k :: x in multiset(sorted) - multiset(sorted[..e]) && 0 <= k < e ==>
      UpdatedTime(x) <= UpdatedTime(sorted[..e][k])
  {
    var r, rest := sorted[..e], sorted[e..];
    assert sorted == r + rest;
    assert multiset(sorted) == multiset(r) + multiset(rest);
    forall x, k | x in multiset(sorted) - multiset(r) && 0 <= k < e
      ensures UpdatedTime(x) <= UpdatedTime(r[k])
    {
      assert x in multiset(rest);
      var j :| 0 <= j < |rest| && rest[j] == x;
      assert sorted[e + j] == x && sorted[k] == r[k];
    }
  }

  /** The application store (the HEAD side of its merge). */
  class AppStore {
    var spreadsheets: seq<Record>
    var currentSpreadsheet: Option<Record>
    var recentSpreadsheets: seq<Record>
    var clients: seq<Record>
    var documents: seq<Record>
    var tasks: seq<Record>
    var calendarEvents: seq<Record>
    var dashboardStats: Option<DashboardStats>

    /** The initial state over the mock data. */
    constructor (mockClients: seq<Record>, mockDocuments: seq<Record>, mockTasks: seq<Record>, mockEvents: seq<Record>)
      ensures spreadsheets == [] && currentSpreadsheet.None? && recentSpreadsheets == []
      ensures clients == mockClients && documents == mockDocuments
      ensures tasks == mockTasks && calendarEvents == mockEvents
      ensures dashboardStats == Some(InitialStats(mockClients, mockDocuments, mockTasks))
    {
      spreadsheets := [];
      currentSpreadsheet := None;
      recentSpreadsheets := [];
      clients := mockClients;
      documents := mockDocuments;
      tasks := mockTasks;
      calendarEvents := mockEvents;
      dashboardStats := Some(InitialStats(mockClients, mockDocuments, mockTasks));
    }

    method AddSpreadsheet(spreadsheet: Record)
      modifies this`spreadsheets, this`recentSpreadsheets
      ensures spreadsheets == old(spreadsheets) + [spreadsheet]
      ensures recentSpreadsheets == RecentAfterAdd(old(recentSpreadsheets), spreadsheet)
    {
      spreadsheets := spreadsheets + [spreadsheet];
      recentSpreadsheets := RecentAfterAdd(recentSpreadsheets, spreadsheet);
    }

    method UpdateSpreadsheet(id: string, updates: Record, now: int)
      modifies this`spreadsheets, this`recentSpreadsheets, this`currentSpreadsheet
      ensures spreadsheets == UpdateId(old(spreadsheets), id, updates, Some(now))
      ensures recentSpreadsheets == UpdateId(old(recentSpreadsheets), id, updates, Some(now))
      ensures currentSpreadsheet == CurrentAfterUpdate(old(currentSpreadsheet), id, updates, now)
    {
      spreadsheets := UpdateId(spreadsheets, id, updates, Some(now));
      recentSpreadsheets := UpdateId(recentSpreadsheets, id, updates, Some(now));
      currentSpreadsheet := CurrentAfterUpdate(currentSpreadsheet, id, updates, now);
    }

    method DeleteSpreadsheet(id: string)
      modifies this`spreadsheets, this`recentSpreadsheets, this`currentSpreadsheet
      ensures spreadsheets == WithoutId(old(spreadsheets), id)
      ensures recentSpreadsheets == WithoutId(old(recentSpreadsheets), id)
      ensures currentSpreadsheet == CurrentAfterDelete(old(currentSpreadsheet), id)
    {
      spreadsheets := WithoutId(spreadsheets, id);
      recentSpreadsheets := WithoutId(recentSpreadsheets, id);
      currentSpreadsheet := CurrentAfterDelete(currentSpreadsheet, id);
    }

    /** `getSpreadsheetById`: the first stored spreadsheet with the id. */
    function GetSpreadsheetById(id: string): (r: Option<Record>)
      reads this
      ensures r.Some? <==> exists s :: s in spreadsheets && HasId(s, id)
      ensures r.Some? ==>
        exists i :: 0 <= i < |spreadsheets| && spreadsheets[i] == r.value
          && HasId(r.value, id) && forall j :: 0 <= j < i ==> !HasId(spreadsheets[j], id)
    {
      FindById(spreadsheets, id)
    }

    /** `getRecentSpreadsheets(limit = 5)`; the stored list is not reordered. */
    function GetRecentSpreadsheets(limit: Option<int>): (r: seq<Record>)
      reads this
      ensures r == SortByRecency(spreadsheets)[..SliceEnd(|spreadsheets|, if limit.Some? then limit.value else 5)]
      ensures |r| == SliceEnd(|spreadsheets|, if limit.Some? then limit.value else 5)
      ensures NewestFirst(r) && multiset(r) <= multiset(spreadsheets)
      ensures limit.None? ==> |r| == if |spreadsheets| < 5 then |spreadsheets| else 5
      ensures limit.Some? && limit.value < 0 ==> |r| == if |spreadsheets| + limit.value > 0 then |spreadsheets| + limit.value else 0
      ensures limit.Some? && limit.value >= 0 ==> |r| <= limit.value
      ensures forall x, k :: x in multiset(spreadsheets) - multiset(r) && 0 <= k < |r| ==>
        UpdatedTime(x) <= UpdatedTime(r[k])
    {
      RecentByTime(spreadsheets, limit)
    }

    method AddClient(client: Record)
      modifies this`clients
      ensures clients == old(clients) + [client]
    {
      clients := clients + [client];
    }

    method UpdateClient(id: string, updates: Record)
      modifies this`clients
      ensures clients == UpdateId(old(clients), id, updates, None)
    {
      clients := UpdateId(clients, id, updates, None);
    }

    method DeleteClient(id: string)
      modifies this`clients
      ensures clients == WithoutId(old(clients), id)
    {
      clients := WithoutId(clients, id);
    }

    method AddDocument(document: Record)
      modifies this`documents
      ensures documents == old(documents) + [document]
    {
      documents := documents + [document];
    }

    method DeleteDocument(id: string)
      modifies this`documents
      ensures documents == WithoutId(old(documents), id)
    {
      documents := WithoutId(documents, id);
    }

    method AddTask(task: Record)
      modifies this`tasks
      ensures tasks == old(tasks) + [task]
    {
      tasks := tasks + [task];
    }

    method UpdateTask(id: string, updates: Record)
      modifies this`tasks
      ensures tasks == UpdateId(old(tasks), id, updates, None)
    {
      tasks := UpdateId(tasks, id, updates, None);
    }

    method DeleteTask(id: string)
      modifies this`tasks
      ensures tasks == WithoutId(old(tasks), id)
    {
      tasks := WithoutId(tasks, id);
    }

    method AddCalendarEvent(event: Record)
      modifies this`calendarEvents
      ensures calendarEvents == old(calendarEvents) + [event]
    {
      calendarEvents := calendarEvents + [event];
    }

    method UpdateCalendarEvent(id: string, updates: Record)
      modifies this`calendarEvents
      ensures calendarEvents == UpdateId(old(calendarEvents), id, updates, None)
    {
      calendarEvents := UpdateId(calendarEvents, id, updates, None);
    }

    method DeleteCalendarEvent(id: string)
      modifies this`calendarEvents
      ensures calendarEvents == WithoutId(old(calendarEvents), id)
    {
      calendarEvents := WithoutId(calendarEvents, id);
    }
  }

  /** A deleted spreadsheet can no longer be looked up. */
  lemma DeletedNotFound(spreadsheets: seq<Record>, id: string)
    ensures FindById(WithoutId(spreadsheets, id), id).None?
  {
  }

  /** A spreadsheet just added can be looked up by its id unless an earlier one has the same id. */
  lemma AddedFound(spreadsheets: seq<Record>, spreadsheet: Record, id: string)
    requires HasId(spreadsheet, id)
    requires forall s :: s in spreadsheets ==> !HasId(s, id)
    ensures FindById(spreadsheets + [spreadsheet], id) == Some(spreadsheet)
  {
    var xs := spreadsheets + [spreadsheet];
    assert xs[|spreadsheets|] == spreadsheet;
    var r := FindById(xs, id);
    var i :| 0 <= i < |xs| && xs[i] == r.value && forall j :: 0 <= j < i ==> !HasId(xs[j], id);
  }
}
