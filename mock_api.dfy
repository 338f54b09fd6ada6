/**
 * The mock API service: module-level lists of clients, documents and tasks
 * that its methods change in place (`push`, `splice`, assignment at an
 * index, and a field write on a found task). The lists are the fields of a
 * class; `Date.now()` and `new Date()` are parameters.
 */
module MockApi {
  import opened Text
  import opened Wrappers
  import opened Records

  /** `Document['fileType']`. */
  datatype DocumentType = Invoice | Receipt | BankStatement | Payroll | Tax | Other

  /** The last element of a non-empty list of parts. */
  function LastPart(parts: seq<string>): string
    requires |parts| >= 1
  {
    parts[|parts| - 1]
  }

  /** Splitting at the first separator leaves the same last part as splitting the rest. */
  lemma LastPartOfRest(s: string, sep: char)
    requires sep in s
    ensures LastPart(Split(s, sep)) == LastPart(Split(s[IndexOfChar(s, sep) + 1..], sep))
  {
    var i := IndexOfChar(s, sep);
    var q := Split(s[i + 1..], sep);
    SplitCons(s, sep);
    LastOfCons(Split(s, sep), s[..i], q);
  }

  lemma LastOfCons(p: seq<string>, x: string, q: seq<string>)
    requires |q| >= 1 && p == [x] + q
    ensures LastPart(p) == LastPart(q)
  {
    assert p[|q|] == q[|q| - 1];
  }

  /** The last separator of `s` seen from the rest after its first one. */
  lemma LastSeparatorOfRest(s: string, sep: char)
    requires sep in s
    ensures var t := s[IndexOfChar(s, sep) + 1..];
      && (sep in t ==> LastIndexOfChar(s, sep) == IndexOfChar(s, sep) + 1 + LastIndexOfChar(t, sep))
      && (sep !in t ==> LastIndexOfChar(s, sep) == IndexOfChar(s, sep))
  {
    var i := IndexOfChar(s, sep);
    var t := s[i + 1..];
    if sep in t {
      var k := LastIndexOfChar(t, sep);
      assert s[i + 1 + k + 1..] == t[k + 1..];
      LastIndexOfCharAt(s, sep, i + 1 + k);
    } else {
      LastIndexOfCharAt(s, sep, i);
    }
  }

  /** `s.split(sep).pop()` is the text after the last separator. */
  lemma {:induction false} LastPartAfterLast(s: string, sep: char)
    requires sep in s
    ensures LastPart(Split(s, sep)) == s[LastIndexOfChar(s, sep) + 1..]
    decreases |s|
  {
    var i := IndexOfChar(s, sep);
    var t := s[i + 1..];
    LastPartOfRest(s, sep);
    LastSeparatorOfRest(s, sep);
    if sep in t {
      LastPartAfterLast(t, sep);
      LastPartInRest(s, sep, i, t);
    } else {
      assert Split(t, sep) == [t];
    }
  }

  /** The step of the induction: the part after the last separator of the rest is the one of `s`. */
  lemma LastPartInRest(s: string, sep: char, i: nat, t: string)
    requires i < |s| && t == s[i + 1..] && sep in t
    requires LastIndexOfChar(s, sep) == i + 1 + LastIndexOfChar(t, sep)
    ensures t[LastIndexOfChar(t, sep) + 1..] == s[LastIndexOfChar(s, sep) + 1..]
  {
    var k := LastIndexOfChar(t, sep);
    SuffixOfSuffix(s, i + 1, k + 1);
  }

  lemma SuffixOfSuffix(s: string, i: nat, k: nat)
    requires i + k <= |s|
    ensures s[i..][k..] == s[i + k..]
  {
  }

  /** `filename.split('.').pop()?.toLowerCase()`. */
  function Extension(filename: string): string {
    ToLower(LastPart(Split(filename, '.')))
  }

  /** `getFileType`: the document type for a file name's extension. */
  function FileType(filename: string): DocumentType {
    var ext := Extension(filename);
    if ext == "pdf" then Invoice
    else if ext == "xlsx" || ext == "xls" || ext == "csv" then Payroll
    else if ext == "jpg" || ext == "jpeg" || ext == "png" then Receipt
    else Other
  }

  /** The extension of `name.ext` is `ext` in lower case, whatever the name. */
  lemma ExtensionOf(name: string, ext: string)
    requires '.' !in ext
    ensures Extension(name + "." + ext) == ToLower(ext)
  {
    var s := name + "." + ext;
    assert s[|name|] == '.';
    assert s[|name| + 1..] == ext;
    LastIndexOfCharAt(s, '.', |name|);
    LastPartAfterLast(s, '.');
    assert s[|name| + 1..] == ext;
  }

  /** A name without a dot is its own extension. */
  lemma DotlessName(name: string)
    requires '.' !in name
    ensures Extension(name) == ToLower(name)
  {
    assert Split(name, '.') == [name];
  }

  /**
   * The type of `name.ext` is decided by the lower-cased extension alone:
   * invoice exactly for `pdf`, payroll exactly for `xlsx`, `xls` and `csv`,
   * receipt exactly for `jpg`, `jpeg` and `png`, and other for the rest.
   */
  lemma FileTypeByExtension(name: string, ext: string)
    requires '.' !in ext
    ensures var e := ToLower(ext);
      && (FileType(name + "." + ext) == Invoice <==> e == "pdf")
      && (FileType(name + "." + ext) == Payroll <==> e == "xlsx" || e == "xls" || e == "csv")
      && (FileType(name + "." + ext) == Receipt <==> e == "jpg" || e == "jpeg" || e == "png")
      && (FileType(name + "." + ext) == Other <==>
            !(e in ["pdf", "xlsx", "xls", "csv", "jpg", "jpeg", "png"]))
  {
    ExtensionOf(name, ext);
  }

  /** The string a document type is stored as. */
  function FileTypeName(t: DocumentType): string {
    match t
    case Invoice => "invoice"
    case Receipt => "receipt"
    case BankStatement => "bank_statement"
    case Payroll => "payroll"
    case Tax => "tax"
    case Other => "other"
  }

  /** Each document type is stored under its own name. */
  lemma FileTypeNamesDiffer(a: DocumentType, b: DocumentType)
    ensures FileTypeName(a) == FileTypeName(b) <==> a == b
  {
    if a != b {
      var m, n := FileTypeName(a), FileTypeName(b);
      assert |m| != |n| || m[0] != n[0];
    }
  }

  /** `{ ...data, id: prefix + Date.now(), createdAt: new Date() }`. */
  function Created(data: Record, prefix: string, now: nat, created: int): (r: Record)
    ensures r.Keys == data.Keys + {"id", "createdAt"}
    ensures HasId(r, prefix + DecimalText(now))
    ensures r["createdAt"] == Time(created)
    ensures forall k :: k in data && k != "id" && k != "createdAt" ==> r[k] == data[k]
  {
    data["id" := Str(prefix + DecimalText(now))]["createdAt" := Time(created)]
  }

  /** Records created at different clock readings get different ids; at the same reading they clash. */
  lemma {:induction false} CreatedIdsDiffer(prefix: string, now1: nat, now2: nat)
    ensures prefix + DecimalText(now1) == prefix + DecimalText(now2) <==> now1 == now2
  {
    if prefix + DecimalText(now1) == prefix + DecimalText(now2) {
      assert DecimalText(now1) == (prefix + DecimalText(now1))[|prefix|..];
      assert DecimalText(now2) == (prefix + DecimalText(now2))[|prefix|..];
      DecimalTextValue(now1);
      DecimalTextValue(now2);
    }
  }

  /** `xs.filter(x => x.clientId === clientId)`. */
  function WithClient(xs: seq<Record>, clientId: string): (r: seq<Record>)
    ensures |r| <= |xs|
    ensures forall x :: x in r <==> x in xs && HasStr(x, "clientId", clientId)
  {
    if xs == [] then []
    else
      assert xs == [xs[0]] + xs[1..];
      var rest := WithClient(xs[1..], clientId);
      if HasStr(xs[0], "clientId", clientId) then [xs[0]] + rest else rest
  }

  /** Filtering a concatenation by client filters each part and keeps them in order. */
  lemma {:induction false} WithClientAppend(xs: seq<Record>, ys: seq<Record>, clientId: string)
    ensures WithClient(xs + ys, clientId) == WithClient(xs, clientId) + WithClient(ys, clientId)
    decreases |xs|
  {
    if xs == [] {
      assert xs + ys == ys;
    } else {
      assert (xs + ys)[1..] == xs[1..] + ys;
      assert (xs + ys)[0] == xs[0];
      WithClientAppend(xs[1..], ys, clientId);
    }
  }

  /** The document `uploadDocument` builds for a file. */
  function Uploaded(
    fileName: string, fileSize: real, clientId: string, amount: Value, vat: Value,
    now: nat, uploaded: int, month: int, year: int): (d: Record)
    ensures HasId(d, "doc_" + DecimalText(now))
    ensures HasStr(d, "clientId", clientId)
    ensures HasStr(d, "filename", fileName) && HasStr(d, "originalName", fileName)
    ensures HasStr(d, "fileType", FileTypeName(FileType(fileName)))
    ensures "processed" in d && d["processed"] == Flag(false)
    ensures "amount" in d && d["amount"] == amount && "vat" in d && d["vat"] == vat
    ensures "fileSize" in d && d["fileSize"] == Number(fileSize)
    ensures "uploadDate" in d && d["uploadDate"] == Time(uploaded)
    ensures "month" in d && d["month"] == Number(month as real) && "year" in d && d["year"] == Number(year as real)
    ensures d.Keys == {"id", "clientId", "filename", "originalName", "fileType", "fileSize",
                       "uploadDate", "month", "year", "processed", "amount", "vat"}
  {
    map[
      "id" := Str("doc_" + DecimalText(now)),
      "clientId" := Str(clientId),
      "filename" := Str(fileName),
      "originalName" := Str(fileName),
      "fileType" := Str(FileTypeName(FileType(fileName))),
      "fileSize" := Number(fileSize),
      "uploadDate" := Time(uploaded),
      "month" := Number(month as real),
      "year" := Number(year as real),
      "processed" := Flag(false),
      "amount" := amount,
      "vat" := vat]
  }

  /** The task as `updateTaskStatus` leaves it. */
  function WithStatus(task: Record, status: string, now: int): (r: Record)
    ensures HasStr(r, "status", status)
    ensures status == "completed" ==> "completedAt" in r && r["completedAt"] == Time(now)
    ensures status != "completed" ==>
      ("completedAt" in r <==> "completedAt" in task) &&
      ("completedAt" in task ==> r["completedAt"] == task["completedAt"])
    ensures forall k :: k in task && k != "status" && k != "completedAt" ==> k in r && r[k] == task[k]
    ensures r.Keys == task.Keys + {"status"} + (if status == "completed" then {"completedAt"} else {})
  {
    var t := task["status" := Str(status)];
    if status == "completed" then t["completedAt" := Time(now)] else t
  }

  /** `index = xs.findIndex(...); if (index !== -1) xs.splice(index, 1)`. */
  function RemoveFirst(xs: seq<Record>, id: string): seq<Record> {
    match FirstIndex(xs, id)
    case None => xs
    case Some(i) => RemoveAt(xs, i)
  }

  /** Setting the same status twice is the same as setting it once. */
  lemma WithStatusIdempotent(task: Record, status: string, now: int)
    ensures WithStatus(WithStatus(task, status, now), status, now) == WithStatus(task, status, now)
  {
  }

  /** Without an entry with the id, deleting through the API changes nothing. */
  lemma RemoveFirstAbsent(xs: seq<Record>, id: string)
    requires forall x :: x in xs ==> !HasId(x, id)
    ensures RemoveFirst(xs, id) == xs
  {
  }

  /**
   * With one, it removes exactly one entry with the id, the first, and keeps
   * the others in order.
   */
  lemma RemoveFirstPresent(xs: seq<Record>, id: string, x: Record)
    requires x in xs && HasId(x, id)
    ensures |RemoveFirst(xs, id)| == |xs| - 1
    ensures Count(RemoveFirst(xs, id), IdIs(id)) == Count(xs, IdIs(id)) - 1
    ensures Subsequence(RemoveFirst(xs, id), xs)
    ensures FirstIndex(xs, id).Some?
    ensures var i := FirstIndex(xs, id).value;
      && HasId(xs[i], id) && (forall j :: 0 <= j < i ==> !HasId(xs[j], id))
      && RemoveFirst(xs, id) == xs[..i] + xs[i + 1..]
  {
    var i := FirstIndex(xs, id).value;
    assert RemoveFirst(xs, id) == xs[..i] + xs[i + 1..];
    CountWithout(xs, i, IdIs(id));
    DropOneSubsequence(xs, i);
  }

  /**
   * Unlike the store's filter, which drops every entry with the id, the API
   * keeps the later duplicates.
   */
  lemma DeleteKeepsDuplicates(xs: seq<Record>, id: string)
    requires Count(xs, IdIs(id)) >= 2
    ensures exists x :: x in RemoveFirst(xs, id) && HasId(x, id)
    ensures forall x :: x in WithoutId(xs, id) ==> !HasId(x, id)
  {
    var x :| x in xs && Meets(x, IdIs(id));
    RemoveFirstPresent(xs, id, x);
    var y :| y in RemoveFirst(xs, id) && Meets(y, IdIs(id));
  }

  /** Leaving out the entry at `i` lowers a count by whether that entry meets the criterion. */
  lemma CountWithout(xs: seq<Record>, i: nat, c: Criterion)
    requires i < |xs|
    ensures Count(xs[..i] + xs[i + 1..], c) + (if Meets(xs[i], c) then 1 else 0) == Count(xs, c)
  {
    assert xs == xs[..i] + ([xs[i]] + xs[i + 1..]);
    CountAppend(xs[..i], [xs[i]] + xs[i + 1..], c);
    CountAppend([xs[i]], xs[i + 1..], c);
    CountAppend(xs[..i], xs[i + 1..], c);
  }

  /** Leaving out one entry keeps the others in order. */
  lemma {:induction false} DropOneSubsequence(xs: seq<Record>, i: nat)
    requires i < |xs|
    ensures Subsequence(xs[..i] + xs[i + 1..], xs)
    decreases i
  {
    if i == 0 {
      assert xs[..0] + xs[1..] == xs[1..];
      SubsequenceOfTail(xs);
    } else {
      DropOneSubsequence(xs[1..], i - 1);
      var r := xs[..i] + xs[i + 1..];
      assert r[0] == xs[0];
      assert r[1..] == xs[1..][..i - 1] + xs[1..][i..];
    }
  }

  /** The tail of a list is a subsequence of it. */
  lemma {:induction false} SubsequenceOfTail(xs: seq<Record>)
    requires xs != []
    ensures Subsequence(xs[1..], xs)
    decreases |xs|
  {
    if |xs| > 1 {
      if xs[1] == xs[0] {
        SubsequenceOfTail(xs[1..]);
      } else {
        SubsequenceReflexive(xs[1..]);
        SubsequenceSkip(xs[1..], xs);
      }
    }
  }

  lemma {:induction false} SubsequenceReflexive(xs: seq<Record>)
    ensures Subsequence(xs, xs)
    decreases |xs|
  {
    if xs != [] {
      SubsequenceReflexive(xs[1..]);
    }
  }

  /** Skipping a first entry that differs from the head of `a`. */
  lemma SubsequenceSkip(a: seq<Record>, b: seq<Record>)
    requires b != [] && Subsequence(a, b[1..]) && a != [] && a[0] != b[0]
    ensures Subsequence(a, b)
  {
  }

  /** The dashboard figures of the mock API. */
  datatype ApiStats = ApiStats(
    totalClients: nat,
    activeClients: nat,
    pendingDocuments: nat,
    pendingTasks: nat,
    upcomingDeadlines: nat,
    monthlyRevenue: real,
    totalSpreadsheets: nat)

  /** A week in milliseconds. */
  const Week: int := 7 * 24 * 60 * 60 * 1000

  /**
   * `getDashboardStats`: the counts over the client, document and task
   * lists. A deadline is upcoming when the due date lies strictly within
   * the next week.
   */
  function DashboardStats(clients: seq<Record>, documents: seq<Record>, tasks: seq<Record>, now: int): (s: ApiStats)
    ensures s.totalClients == |clients|
    ensures s.activeClients == Count(clients, StatusIs("active"))
    ensures s.pendingDocuments == Count(documents, Falsy("processed"))
    ensures s.pendingTasks == Count(tasks, StatusIsNot("completed"))
    ensures s.upcomingDeadlines == Count(tasks, DueWithin(now, Week))
    ensures s.activeClients + Count(clients, StatusIsNot("active")) == |clients|
    ensures s.pendingDocuments <= |documents|
    ensures s.pendingDocuments == 0 <==> forall d :: d in documents ==> Truthy(d, "processed")
    ensures s.pendingTasks + Count(tasks, StatusIs("completed")) == |tasks|
    ensures s.upcomingDeadlines <= |tasks|
    ensures s.upcomingDeadlines == 0 <==>
      forall t: Record :: t in tasks && "dueDate" in t && t["dueDate"].Time? ==>
        !(now < t["dueDate"].ms < now + Week)
    ensures s.monthlyRevenue == 12500.0 && s.totalSpreadsheets == 3
  {
    StatusCountsPartition(clients, "active");
    StatusCountsPartition(tasks, "completed");
    assert forall t: Record :: t in tasks ==>
      (Meets(t, DueWithin(now, Week)) <==> "dueDate" in t && t["dueDate"].Time? && now < t["dueDate"].ms < now + Week)
    by {
      forall t: Record | t in tasks {
        DueWithinMeets(t, now, Week);
      }
    }
    ApiStats(
      |clients|,
      Count(clients, StatusIs("active")),
      Count(documents, Falsy("processed")),
      Count(tasks, StatusIsNot("completed")),
      Count(tasks, DueWithin(now, Week)),
      12500.0,
      3)
  }

  /** The module-level lists of the mock API. */
  class MockStore {
    var clients: seq<Record>
    var documents: seq<Record>
    var tasks: seq<Record>
    var entries: seq<Record>

    constructor (
      mockClients: seq<Record>, mockDocuments: seq<Record>, mockTasks: seq<Record>,
      mockEntries: seq<Record>)
      ensures clients == mockClients && documents == mockDocuments
      ensures tasks == mockTasks && entries == mockEntries
    {
      clients := mockClients;
      documents := mockDocuments;
      tasks := mockTasks;
      entries := mockEntries;
    }

    /** `getClientById`: the first client with the id, or none. */
    function GetClientById(id: string): (r: Option<Record>)
      reads this
      ensures r.None? <==> forall c :: c in clients ==> !HasId(c, id)
      ensures r.Some? ==> r.value == clients[FirstIndex(clients, id).value]
    {
      FindById(clients, id)
    }

    /** `getDocumentsByClient`: the documents of one client. */
    function GetDocumentsByClient(clientId: string): (r: seq<Record>)
      reads this
      ensures forall d :: d in r <==> d in documents && HasStr(d, "clientId", clientId)
    {
      WithClient(documents, clientId)
    }

    /** `createClient`: the new client is pushed at the end and returned. */
    method CreateClient(clientData: Record, now: nat, created: int) returns (client: Record)
      modifies this`clients
      ensures client == Created(clientData, "client_", now, created)
      ensures clients == old(clients) + [client]
    {
      client := Created(clientData, "client_", now, created);
      clients := clients + [client];
    }

    /** `updateClient`: only the first client with the id is replaced by the merged record. */
    method UpdateClient(id: string, updates: Record) returns (r: Result<Record>)
      modifies this`clients
      ensures FirstIndex(old(clients), id).None? ==> r == Err("Client not found") && clients == old(clients)
      ensures FirstIndex(old(clients), id).Some? ==>
        var i := FirstIndex(old(clients), id).value;
        && clients == old(clients)[i := Merge(old(clients)[i], updates)]
        && r == Ok(clients[i])
    {
      var index := FirstIndex(clients, id);
      if index.None? {
        return Err("Client not found");
      }
      var i := index.value;
      clients := clients[i := Merge(clients[i], updates)];
      return Ok(clients[i]);
    }

    /** `deleteClient`. */
    method DeleteClient(id: string)
      modifies this`clients
      ensures clients == RemoveFirst(old(clients), id)
    {
      var index := FirstIndex(clients, id);
      if index.Some? {
        clients := RemoveAt(clients, index.value);
      }
    }

    /**
     * `uploadDocument`: the new document, typed by its file name and not yet
     * processed, is pushed at the end. The month and year of the clock
     * reading are parameters.
     */
    method UploadDocument(
      fileName: string, fileSize: real, clientId: string, amount: Value, vat: Value,
      now: nat, uploaded: int, month: int, year: int) returns (doc: Record)
      modifies this`documents
      ensures doc == Uploaded(fileName, fileSize, clientId, amount, vat, now, uploaded, month, year)
      ensures documents == old(documents) + [doc]
    {
      doc := Uploaded(fileName, fileSize, clientId, amount, vat, now, uploaded, month, year);
      documents := documents + [doc];
    }

    /** `deleteDocument`. */
    method DeleteDocument(id: string)
      modifies this`documents
      ensures documents == RemoveFirst(old(documents), id)
    {
      var index := FirstIndex(documents, id);
      if index.Some? {
        documents := RemoveAt(documents, index.value);
      }
    }

    /** `createTask`: a new task with an id, a creation date and no comments, pushed at the end. */
    method CreateTask(taskData: Record, now: nat, created: int) returns (task: Record)
      modifies this`tasks
      ensures task == Created(taskData, "task_", now, created)["comments" := Items([])]
      ensures tasks == old(tasks) + [task]
    {
      task := Created(taskData, "task_", now, created)["comments" := Items([])];
      tasks := tasks + [task];
    }

    /** `updateTaskStatus`: the first task with the id gets the status, and a completion date when completed. */
    method UpdateTaskStatus(id: string, status: string, now: int) returns (r: Result<Record>)
      modifies this`tasks
      ensures FirstIndex(old(tasks), id).None? ==> r == Err("Task not found") && tasks == old(tasks)
      ensures FirstIndex(old(tasks), id).Some? ==>
        var i := FirstIndex(old(tasks), id).value;
        && tasks == old(tasks)[i := WithStatus(old(tasks)[i], status, now)]
        && r == Ok(tasks[i])
    {
      var index := FirstIndex(tasks, id);
      if index.None? {
        return Err("Task not found");
      }
      var i := index.value;
      tasks := tasks[i := WithStatus(tasks[i], status, now)];
      return Ok(tasks[i]);
    }

    /** `createAccountingEntry`: the entry with a fresh id is pushed at the end. */
    method CreateAccountingEntry(entryData: Record, now: nat) returns (entry: Record)
      modifies this`entries
      ensures HasId(entry, "entry_" + DecimalText(now))
      ensures entry.Keys == entryData.Keys + {"id"}
      ensures forall k :: k in entryData && k != "id" ==> entry[k] == entryData[k]
      ensures entries == old(entries) + [entry]
    {
      entry := entryData["id" := Str("entry_" + DecimalText(now))];
      entries := entries + [entry];
    }

    /** `getDashboardStats` over the store's current lists. */
    function GetDashboardStats(now: int): (s: ApiStats)
      reads this
      ensures s.totalClients == |clients| && s.activeClients == Count(clients, StatusIs("active"))
      ensures s.pendingDocuments == Count(documents, Falsy("processed"))
      ensures s.pendingTasks == Count(tasks, StatusIsNot("completed"))
      ensures s.upcomingDeadlines == Count(tasks, DueWithin(now, Week))
      ensures s.monthlyRevenue == 12500.0 && s.totalSpreadsheets == 3
    {
      DashboardStats(clients, documents, tasks, now)
    }
  }
}
