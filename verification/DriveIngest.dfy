/**
 Full and incremental ingestion of a Drive: a watermark protocol.  The start token is taken
 before a non-atomic listing; incremental runs replay the change log from the saved token.
 Queued tasks run in order; requests may fail and a worker may die between two items.
 */
module DriveIngest {
  import opened Options
  import opened Indexer

  // ---------------------------------------------------------------- Drive itself

  /** What happens on Drive; `Other` stands for changes that concern no file. */
  datatype Event = Put(file: FileMeta) | Trash(file: FileMeta) | Delete(id: string) | Other {
    function Id(): string {
      match this case Put(file) => file.id case Trash(file) => file.id case Delete(id) => id case Other => ""
    }
    predicate WellFormed() { Other? || Id() != "" }
  }

  function Effect(live: map<string, FileMeta>, event: Event): map<string, FileMeta> {
    match event
    case Put(file) => live[file.id := file]
    case Trash(file) => live - {file.id}
    case Delete(id) => live - {id}
    case Other => live
  }

  /** The live files after the first n events. */
  function Live(log: seq<Event>, n: nat): map<string, FileMeta>
    requires n <= |log|
  {
    if n == 0 then map[] else Effect(Live(log, n - 1), log[n - 1])
  }

  predicate Touches(log: seq<Event>, lo: nat, hi: nat, id: string) {
    exists k :: lo <= k < hi && k < |log| && !log[k].Other? && log[k].Id() == id
  }

  // ---------------------------------------------------------------- what the API returns

  datatype WireFile = WireFile(meta: FileMeta, trashed: bool)
  datatype WireChange = WireChange(removed: bool, fileId: string, file: Option<WireFile>)

  /** How an event appears in the change list, whose entries name no parents. */
  function Wire(event: Event): WireChange {
    match event
    case Put(file) => WireChange(false, file.id, Some(WireFile(file.(parents := []), false)))
    case Trash(file) => WireChange(false, file.id, Some(WireFile(file.(parents := []), true)))
    case Delete(id) => WireChange(true, id, None)
    case Other => WireChange(false, "", None)
  }

  function WireAll(events: seq<Event>): seq<WireChange> {
    seq(|events|, k requires 0 <= k < |events| => Wire(events[k]))
  }

  datatype ChangePage = ChangePage(changes: seq<WireChange>, next: Option<nat>, newStart: Option<nat>) | ChangeFailure
  datatype FilePage = FilePage(files: seq<WireFile>, more: bool) | ListFailure

  // ---------------------------------------------------------------- discovery

  datatype Drain = Drained(changes: seq<WireChange>, next: Option<nat>, newStart: Option<nat>) | DrainFailed

  /** Draining answers to successive requests; running out of answers is a failing request. */
  function DrainPages(acc: seq<WireChange>, pages: seq<ChangePage>): Drain
    decreases pages
  {
    if pages == [] || pages[0].ChangeFailure? then DrainFailed
    else if pages[0].next.Some? then DrainPages(acc + pages[0].changes, pages[1..])
    else Drained(acc + pages[0].changes, None, pages[0].newStart)
  }

  method IterDriveChanges(token: nat, pages: seq<ChangePage>) returns (drain: Drain)
    ensures drain == DrainPages([], pages)
  {
    var all := [];
    var next := Some(token);
    var newStart := None;
    var request := 0;
    while next.Some?
      invariant request <= |pages|
      invariant if next.Some? then DrainPages(all, pages[request..]) == DrainPages([], pages)
                else Drained(all, next, newStart) == DrainPages([], pages)
      decreases |pages| - request, next.Some?
    {
      if request == |pages| || pages[request].ChangeFailure? {
        return DrainFailed;
      }
      var page := pages[request];
      request := request + 1;
      all := all + page.changes;
      next := page.next;
      if next.Some? {
        continue;
      }
      newStart := page.newStart;
      break;
    }
    drain := Drained(all, next, newStart);
  }

  function NotTrashed(files: seq<WireFile>): seq<FileMeta> {
    if files == [] then []
    else
      var init, last := files[..|files| - 1], files[|files| - 1];
      if last.trashed then NotTrashed(init) else NotTrashed(init) + [last.meta]
  }

  lemma {:induction false} NotTrashedPrefix(files: seq<WireFile>, k: nat)
    requires k <= |files|
    ensures NotTrashed(files[..k]) <= NotTrashed(files)
    decreases |files|
  {
    if k == |files| {
      assert files[..k] == files;
    } else {
      NotTrashedPrefix(files[..|files| - 1], k);
      assert files[..|files| - 1][..k] == files[..k];
    }
  }

  lemma NotTrashedLast(files: seq<WireFile>, k: nat)
    requires k < |files|
    ensures NotTrashed(files[..k + 1]) ==
            if files[k].trashed then NotTrashed(files[..k]) else NotTrashed(files[..k]) + [files[k].meta]
  {
    assert files[..k + 1][..k] == files[..k];
  }

  lemma NotTrashedStep(files: seq<WireFile>, k: nat)
    requires k < |files|
    ensures NotTrashed(files[..k + 1]) ==
            if files[k].trashed then NotTrashed(files[..k]) else NotTrashed(files[..k]) + [files[k].meta]
    ensures NotTrashed(files[..k + 1]) <= NotTrashed(files)
  {
    NotTrashedLast(files, k);
    NotTrashedPrefix(files, k + 1);
  }

  lemma PageEnd(taken: seq<FileMeta>, files: seq<WireFile>)
    ensures var all := taken + NotTrashed(files);
            taken + NotTrashed(files[..|files|]) == all && all[..|all|] == all
  {
    assert files[..|files|] == files;
  }

  /** One more entry of a page, after the files taken before it. */
  lemma PageStep(taken: seq<FileMeta>, files: seq<WireFile>, k: nat)
    requires k < |files|
    ensures var now, all := taken + NotTrashed(files[..k]), taken + NotTrashed(files);
            && |now| <= |all| && all[..|now|] == now
            && taken + NotTrashed(files[..k + 1]) == (if files[k].trashed then now else now + [files[k].meta])
            && (!files[k].trashed ==> |now| < |all|)
  {
    NotTrashedStep(files, k);
    assert NotTrashed(files[..k]) <= NotTrashed(files);
    var now, all := taken + NotTrashed(files[..k]), taken + NotTrashed(files);
    assert all[..|now|] == now;
  }

  /** Page by page, the entries that are not trashed are kept in order. */
  lemma {:induction false} NotTrashedIs(a: seq<WireFile>, b: seq<WireFile>, file: FileMeta)
    ensures NotTrashed(a + b) == NotTrashed(a) + NotTrashed(b)
    ensures NotTrashed([WireFile(file, false)]) == [file] && NotTrashed([WireFile(file, true)]) == []
    decreases |b|
  {
    assert [WireFile(file, false)][..0] == [] && [WireFile(file, true)][..0] == [];
    if b == [] {
      assert a + b == a;
    } else {
      assert (a + b)[..|a + b| - 1] == a + b[..|b| - 1];
      NotTrashedIs(a, b[..|b| - 1], file);
    }
  }

  /** The files a listing yields before it ends or a request fails. */
  function Listing(pages: seq<FilePage>): seq<FileMeta> {
    if pages == [] || pages[0].ListFailure? then []
    else if pages[0].more then NotTrashed(pages[0].files) + Listing(pages[1..])
    else NotTrashed(pages[0].files)
  }

  /** Whether the listing ends without a failing request. */
  predicate ListingEnds(pages: seq<FilePage>) {
    pages != [] && pages[0].FilePage? && (pages[0].more ==> ListingEnds(pages[1..]))
  }

  /** The raw entries of the pages a listing reads: up to the first that has no successor or fails. */
  predicate ReadsPages(pages: seq<FilePage>, n: nat) {
    && n <= |pages| && (forall k :: 0 <= k < n ==> pages[k].FilePage?)
    && (forall k :: 0 <= k < n - 1 ==> pages[k].more)
    && (n == |pages| || pages[n].ListFailure? || (n > 0 && !pages[n - 1].more))
  }

  function RawFiles(pages: seq<FilePage>, n: nat): seq<WireFile>
    requires n <= |pages| && forall k :: 0 <= k < n ==> pages[k].FilePage?
  {
    if n == 0 then [] else RawFiles(pages, n - 1) + pages[n - 1].files
  }

  lemma {:induction false} RawFilesTail(pages: seq<FilePage>, n: nat)
    requires 0 < n <= |pages| && forall k :: 0 <= k < n ==> pages[k].FilePage?
    ensures RawFiles(pages, n) == pages[0].files + RawFiles(pages[1..], n - 1)
  {
    if n > 1 { RawFilesTail(pages, n - 1); }
  }

  /** A listing yields exactly the entries that are not trashed of all the pages it reads, in order. */
  lemma {:induction false} ListingIs(pages: seq<FilePage>) returns (n: nat)
    ensures ReadsPages(pages, n) && Listing(pages) == NotTrashed(RawFiles(pages, n))
    decreases pages
  {
    n := 0;
    if pages != [] && pages[0].FilePage? {
      if pages[0].more {
        var m := ListingIs(pages[1..]);
        n := m + 1;
        RawFilesTail(pages, n);
        NotTrashedIs(pages[0].files, RawFiles(pages[1..], m), FileMeta("", "", "", [], "", None, 0, []));
      } else {
        n := 1;
        RawFilesTail(pages, 1);
        assert pages[0].files + RawFiles(pages[1..], 0) == pages[0].files;
      }
    }
  }

  // ---------------------------------------------------------------- tasks

  datatype Action = RemoveFile(id: string) | IngestFile(file: FileMeta) | Ignore

  /** What `incremental_ingest_workspace` does with one change. */
  function Decode(ch: WireChange): Action {
    if ch.removed || (ch.file.Some? && ch.file.value.trashed) then
      var id := if |ch.fileId| > 0 then ch.fileId else if ch.file.Some? then ch.file.value.meta.id else "";
      if |id| > 0 then RemoveFile(id) else Ignore
    else if ch.file.Some? && |ch.file.value.meta.id| > 0 then IngestFile(ch.file.value.meta)
    else Ignore
  }

  type Table = map<string, Fields>

  function ApplyOne(table: Table, ch: WireChange): Table {
    match Decode(ch)
    case RemoveFile(id) => table - {id}
    case IngestFile(file) => table[file.id := FieldsOf(file)]
    case Ignore => table
  }

  function Apply(table: Table, changes: seq<WireChange>): Table {
    if changes == [] then table else ApplyOne(Apply(table, changes[..|changes| - 1]), changes[|changes| - 1])
  }

  function RecordOne(table: Table, file: FileMeta): Table { table[file.id := FieldsOf(file)] }

  function Record(table: Table, files: seq<FileMeta>): Table {
    if files == [] then table else RecordOne(Record(table, files[..|files| - 1]), files[|files| - 1])
  }

  function TableOf(st: Store): Table { map id | id in st.docs :: st.docs[id].fields }

  /** The prefix of the work done before the worker dies, if it does. */
  function Done<T>(items: seq<T>, crash: Option<nat>): seq<T> {
    if crash.Some? && crash.value < |items| then items[..crash.value] else items
  }

  predicate Dies<T>(items: seq<T>, crash: Option<nat>) { crash.Some? && crash.value < |items| }

  /** The files taken from a listing, page after page, after those in acc; the flag tells whether all went well. */
  function TakePages(acc: seq<FileMeta>, pages: seq<FilePage>, crash: Option<nat>): (seq<FileMeta>, bool)
    decreases pages
  {
    if pages == [] || pages[0].ListFailure? then (acc, false)
    else
      var all := acc + NotTrashed(pages[0].files);
      if crash.Some? && |acc| <= crash.value < |all| then (all[..crash.value], false)
      else if pages[0].more then TakePages(all, pages[1..], crash)
      else (all, true)
  }

  /** A full run: the table and cursor it leaves, given the start token and the answers. */
  function FullRun(table: Table, cursor: Option<nat>, start: nat, pages: seq<FilePage>, crash: Option<nat>)
    : (Table, Option<nat>)
  {
    var (files, done) := TakePages([], pages, crash);
    (Record(table, files), if done then Some(start) else cursor)
  }

  /** An incremental run from a saved cursor. */
  function IncrementalRun(table: Table, cursor: nat, pages: seq<ChangePage>, crash: Option<nat>): (Table, Option<nat>) {
    match DrainPages([], pages)
    case DrainFailed => (table, Some(cursor))
    case Drained(changes, next, newStart) =>
      (Apply(table, Done(changes, crash)),
       if Dies(changes, crash) then Some(cursor)
       else if newStart.Some? then newStart
       else if next.Some? then next
       else Some(cursor))
  }

  /** What a listed file queues: ingested when its type is supported, its metadata recorded otherwise. */
  function ListedStep(file: FileMeta, world: World): Indexer.Step {
    if file.mime in SUPPORTED_MIMES then Indexer.Ingest(file, world) else Indexer.Upsert(file)
  }

  /** The steps for listed files, the n-th file meeting the n-th world. */
  function ListedSteps(files: seq<FileMeta>, worlds: nat -> World): seq<Indexer.Step> {
    if files == [] then []
    else
      var n := |files| - 1;
      ListedSteps(files[..n], worlds) + [ListedStep(files[n], worlds(n))]
  }

  /** The index after one change. */
  function ChangeTaken(set_: Settings, st: Store, action: Action, world: World): Store {
    match action
    case RemoveFile(id) => Removed(st, id)
    case IngestFile(file) => DriveFileIngested(set_, st, file, world).0
    case Ignore => st
  }

  function ChangesTaken(set_: Settings, st: Store, changes: seq<WireChange>, worlds: nat -> World): Store {
    if changes == [] then st
    else
      var n := |changes| - 1;
      ChangeTaken(set_, ChangesTaken(set_, st, changes[..n], worlds), Decode(changes[n]), worlds(n))
  }

  class Workspace {
    const tables: Tables
    var cursor: Option<nat>
    var filesTotal: nat

    function Mirror(): Table reads this, tables { TableOf(tables.St()) }

    constructor (tables: Tables)
      ensures this.tables == tables && cursor == None
    {
      this.tables := tables;
      cursor, filesTotal := None, 0;
    }

    /** The index is what a run that began with st0 makes of these files. */
    ghost predicate Took(st0: Store, files: seq<FileMeta>, worlds: nat -> World) reads this, tables {
      tables.St() == Indexer.After(tables.set_, st0, ListedSteps(files, worlds))
    }

    /** One listed entry, after the files taken before it: passed over when trashed, and not
        reached when the worker has died; the world says how the queued task fares. */
    method TakeEntry(entry: WireFile, crash: Option<nat>, ghost st0: Store, ghost taken: seq<FileMeta>,
                     worlds: nat -> World, total0: nat)
      returns (total: nat, died: bool)
      requires Took(st0, taken, worlds) && total0 == |taken|
      modifies tables
      ensures died == (!entry.trashed && crash == Some(total0))
      ensures total == if entry.trashed || died then total0 else total0 + 1
      ensures if entry.trashed || died then tables.St() == old(tables.St()) && Took(st0, taken, worlds)
              else
                && tables.St() ==
                   Indexer.Next(tables.set_, old(tables.St()), ListedStep(entry.meta, worlds(total0)))
                && Took(st0, taken + [entry.meta], worlds)
    {
      total, died := total0, false;
      if entry.trashed {
        return;
      }
      if crash == Some(total0) {
        died := true;
        return;
      }
      ListedNext(tables.set_, st0, taken, entry.meta, worlds);
      if entry.meta.mime in SUPPORTED_MIMES {
        var _ := tables.IngestDriveFile(entry.meta, worlds(total0));
      } else {
        tables.UpsertDriveFile(entry.meta);
      }
      total := total0 + 1;
    }

    /** The files of one page, after those taken from earlier pages of a run that began with the index st0. */
    method TakePage(files: seq<WireFile>, worlds: nat -> World, crash: Option<nat>, total0: nat,
                    ghost st0: Store, ghost taken: seq<FileMeta>)
      returns (total: nat, died: bool)
      requires total0 == |taken| && (crash.Some? ==> total0 <= crash.value)
      requires Took(st0, taken, worlds)
      modifies tables
      ensures died == (crash.Some? && crash.value < total0 + |NotTrashed(files)|)
      ensures total == if died then crash.value else total0 + |NotTrashed(files)|
      ensures Took(st0, (taken + NotTrashed(files))[..total], worlds)
    {
      total, died := total0, false;
      ghost var now := taken;
      assert taken + NotTrashed(files[..0]) == taken;
      for k := 0 to |files|
        invariant total == |now| && (crash.Some? ==> total <= crash.value)
        invariant now == taken + NotTrashed(files[..k])
        invariant Took(st0, now, worlds) && !died
      {
        PageStep(taken, files, k);
        total, died := TakeEntry(files[k], crash, st0, now, worlds, total);
        if died {
          assert (taken + NotTrashed(files))[..total] == now;
          return;
        }
        now := if files[k].trashed then now else now + [files[k].meta];
      }
      PageEnd(taken, files);
    }

    /** The whole listing, until it ends, a request fails or the worker dies. */
    method TakeListing(pages: seq<FilePage>, worlds: nat -> World, crash: Option<nat>) returns (total: nat, done: bool)
      modifies tables
      ensures var (files, ended) := TakePages([], pages, crash);
              && Took(old(tables.St()), files, worlds)
              && done == ended && total == |files|
    {
      total := 0;
      done := false;
      var request := 0;
      ghost var taken: seq<FileMeta> := [];
      assert pages[0..] == pages;
      ghost var st0 := tables.St();
      NoSteps(tables.set_, st0, worlds);
      while !done
        invariant request <= |pages| && total == |taken| && (crash.Some? ==> total <= crash.value)
        invariant Took(st0, taken, worlds)
        invariant TakePages([], pages, crash) ==
                  if done then (taken, true) else TakePages(taken, pages[request..], crash)
        decreases |pages| - request, !done
      {
        if request == |pages| || pages[request].ListFailure? {
          return;
        }
        var page := pages[request];
        TakePagesStep(taken, pages, request, crash);
        ghost var all := taken + NotTrashed(page.files);
        var died;
        total, died := TakePage(page.files, worlds, crash, total, st0, taken);
        assert !died ==> all[..total] == all;
        taken := all[..total];
        if died {
          return;
        }
        request := request + 1;
        done := !page.more;
      }
    }

    method FullIngest(start: nat, pages: seq<FilePage>, worlds: nat -> World, crash: Option<nat>)
      modifies this, tables
      ensures (Mirror(), cursor) == FullRun(old(Mirror()), old(cursor), start, pages, crash)
      ensures var (files, ended) := TakePages([], pages, crash);
              && tables.St() == Indexer.After(tables.set_, old(tables.St()), ListedSteps(files, worlds))
              && filesTotal == if ended then |files| else old(filesTotal)
    {
      var total, done := TakeListing(pages, worlds, crash);
      ListedMirror(tables.set_, old(tables.St()), TakePages([], pages, crash).0, worlds);
      if !done {
        return;
      }
      cursor := Some(start);
      filesTotal := total;
    }

    /** The index is what a run that began with st0 makes of these changes. */
    ghost predicate Changed(st0: Store, changes: seq<WireChange>, worlds: nat -> World) reads this, tables {
      tables.St() == ChangesTaken(tables.set_, st0, changes, worlds)
    }

    /** One change, after those before it. */
    method TakeChange(ch: WireChange, world: World, ghost st0: Store, ghost before: seq<WireChange>,
                      ghost worlds: nat -> World)
      requires Changed(st0, before, worlds) && world == worlds(|before|)
      modifies tables
      ensures Changed(st0, before + [ch], worlds)
    {
      ChangesNext(tables.set_, st0, before, ch, worlds);
      if ch.removed || (ch.file.Some? && ch.file.value.trashed) {
        var id := if ch.fileId != "" then ch.fileId else if ch.file.Some? then ch.file.value.meta.id else "";
        if id != "" {
          tables.RemoveDocument(id);
        }
        return;
      }
      if ch.file.Some? && ch.file.value.meta.id != "" {
        var _ := tables.IngestDriveFile(ch.file.value.meta, world);
      }
    }

    /** The changes of one drain, in order, until done or the worker dies. */
    method TakeChanges(changes: seq<WireChange>, worlds: nat -> World, crash: Option<nat>) returns (died: bool)
      modifies tables
      ensures died == Dies(changes, crash)
      ensures Changed(old(tables.St()), Done(changes, crash), worlds)
    {
      ghost var st0 := tables.St();
      NoSteps(tables.set_, st0, worlds);
      ghost var before: seq<WireChange> := [];
      for k := 0 to |changes|
        invariant crash.Some? ==> k <= crash.value
        invariant before == changes[..k] && Changed(st0, before, worlds)
      {
        if crash == Some(k) {
          assert before == Done(changes, crash);
          return true;
        }
        TakeChange(changes[k], worlds(k), st0, before, worlds);
        before := before + [changes[k]];
      }
      assert before == changes == Done(changes, crash);
      died := false;
    }

    /** The fallback to a full run needs that run's answers as well. */
    method Incremental(pages: seq<ChangePage>, start: nat, filePages: seq<FilePage>, worlds: nat -> World,
                       crash: Option<nat>)
      modifies this, tables
      ensures (Mirror(), cursor) ==
              if old(cursor).Some? then IncrementalRun(old(Mirror()), old(cursor).value, pages, crash)
              else FullRun(old(Mirror()), old(cursor), start, filePages, crash)
      ensures tables.St() ==
              if old(cursor).None? then
                Indexer.After(tables.set_, old(tables.St()),
                              ListedSteps(TakePages([], filePages, crash).0, worlds))
              else match DrainPages([], pages)
                   case DrainFailed => old(tables.St())
                   case Drained(changes, _, _) =>
                     ChangesTaken(tables.set_, old(tables.St()), Done(changes, crash), worlds)
    {
      if cursor.None? {
        FullIngest(start, filePages, worlds, crash);
        return;
      }
      var drain := IterDriveChanges(cursor.value, pages);
      if drain.DrainFailed? {
        return;
      }
      var died := TakeChanges(drain.changes, worlds, crash);
      ChangesMirror(tables.set_, old(tables.St()), Done(drain.changes, crash), worlds);
      if died {
        return;
      }
      if drain.newStart.Some? {
        cursor := drain.newStart;
      } else if drain.next.Some? {
        cursor := drain.next;
      }
    }
  }

  lemma IngestSetsFields(set_: Settings, st: Store, file: FileMeta, world: World)
    ensures TableOf(DriveFileIngested(set_, st, file, world).0) == TableOf(st)[file.id := FieldsOf(file)]
  {
    var st1 := Upserted(st, file);
    assert TableOf(st1) == TableOf(st)[file.id := FieldsOf(file)];
    IngestKeepsFields(set_, st1, file.id, world);
  }

  lemma IngestKeepsFields(set_: Settings, st: Store, id: string, world: World)
    requires id in st.docs
    ensures TableOf(Ingested(set_, st, id, world).0) == TableOf(st)
  {
  }

  lemma AfterNext(set_: Settings, st: Store, steps: seq<Indexer.Step>, step: Indexer.Step)
    ensures Indexer.After(set_, st, steps + [step]) == Indexer.Next(set_, Indexer.After(set_, st, steps), step)
  {
    assert (steps + [step])[..|steps|] == steps;
  }

  lemma {:induction false} AfterAppend(set_: Settings, st: Store, a: seq<Indexer.Step>, b: seq<Indexer.Step>)
    ensures Indexer.After(set_, st, a + b) == Indexer.After(set_, Indexer.After(set_, st, a), b)
    decreases |b|
  {
    if b == [] {
      assert a + b == a;
    } else {
      var n := |b| - 1;
      AfterAppend(set_, st, a, b[..n]);
      assert a + b == (a + b[..n]) + [b[n]];
      AfterNext(set_, st, a + b[..n], b[n]);
    }
  }

  lemma NoSteps(set_: Settings, st: Store, worlds: nat -> World)
    ensures Indexer.After(set_, st, ListedSteps([], worlds)) == st
    ensures ChangesTaken(set_, st, [], worlds) == st
  {
  }

  lemma ListedNext(set_: Settings, st: Store, files: seq<FileMeta>, file: FileMeta, worlds: nat -> World)
    ensures Indexer.After(set_, st, ListedSteps(files + [file], worlds)) ==
            Indexer.Next(set_, Indexer.After(set_, st, ListedSteps(files, worlds)), ListedStep(file, worlds(|files|)))
  {
    assert (files + [file])[..|files|] == files;
    AfterNext(set_, st, ListedSteps(files, worlds), ListedStep(file, worlds(|files|)));
  }

  lemma ChangesNext(set_: Settings, st: Store, changes: seq<WireChange>, ch: WireChange, worlds: nat -> World)
    ensures ChangesTaken(set_, st, changes + [ch], worlds) ==
            ChangeTaken(set_, ChangesTaken(set_, st, changes, worlds), Decode(ch), worlds(|changes|))
  {
    assert (changes + [ch])[..|changes|] == changes;
  }

  /** The document columns after the files are those of the last of each id. */
  lemma {:induction false} ListedMirror(set_: Settings, st: Store, files: seq<FileMeta>, worlds: nat -> World)
    ensures TableOf(Indexer.After(set_, st, ListedSteps(files, worlds))) == Record(TableOf(st), files)
  {
    if files != [] {
      var n := |files| - 1;
      var before, step := ListedSteps(files[..n], worlds), ListedStep(files[n], worlds(n));
      ListedMirror(set_, st, files[..n], worlds);
      AfterNext(set_, st, before, step);
      StepMirror(set_, Indexer.After(set_, st, before), step);
    }
  }

  lemma StepMirror(set_: Settings, st: Store, step: Indexer.Step)
    ensures TableOf(Indexer.Next(set_, st, step)) ==
            if step.Remove? then TableOf(st) - {step.id} else RecordOne(TableOf(st), step.file)
  {
    match step
    case Upsert(file) => assert TableOf(Upserted(st, file)) == RecordOne(TableOf(st), file);
    case Ingest(file, world) => IngestSetsFields(set_, st, file, world);
    case Remove(id) => assert TableOf(Removed(st, id)) == TableOf(st) - {id};
  }

  lemma {:induction false} ChangesMirror(set_: Settings, st: Store, changes: seq<WireChange>, worlds: nat -> World)
    ensures TableOf(ChangesTaken(set_, st, changes, worlds)) == Apply(TableOf(st), changes)
  {
    if changes != [] {
      var n := |changes| - 1;
      ChangesMirror(set_, st, changes[..n], worlds);
      ChangeMirror(set_, ChangesTaken(set_, st, changes[..n], worlds), changes[n], worlds(n));
    }
  }

  lemma ChangeMirror(set_: Settings, st: Store, ch: WireChange, world: World)
    ensures TableOf(ChangeTaken(set_, st, Decode(ch), world)) == ApplyOne(TableOf(st), ch)
  {
    match Decode(ch)
    case RemoveFile(id) => StepMirror(set_, st, Indexer.Remove(id));
    case IngestFile(file) => StepMirror(set_, st, Indexer.Ingest(file, world));
    case Ignore =>
  }

  // ---------------------------------------------------------------- the index under ingestion

  ghost predicate AllWorldsFaithful(set_: Settings, embed: string -> Vector, worlds: nat -> World) {
    forall n: nat {:trigger worlds(n)} :: Faithful(set_, embed, worlds(n))
  }

  lemma {:induction false} ListedStepsFaithful(set_: Settings, embed: string -> Vector, files: seq<FileMeta>,
                                               worlds: nat -> World)
    requires AllWorldsFaithful(set_, embed, worlds)
    ensures AllFaithful(set_, embed, ListedSteps(files, worlds))
  {
    if files != [] { ListedStepsFaithful(set_, embed, files[..|files| - 1], worlds); }
  }

  /** A full ingest turns a reachable index into a reachable one, wherever it stops: what holds of
      every document's rows over runs of indexer steps holds after it. */
  lemma FullIngestKeepsIndex(set_: Settings, embed: string -> Vector, before: seq<Indexer.Step>, files: seq<FileMeta>,
                             worlds: nat -> World)
    requires AllFaithful(set_, embed, before) && AllWorldsFaithful(set_, embed, worlds)
    ensures var steps := before + ListedSteps(files, worlds);
            var st := Indexer.After(set_, Indexer.After(set_, EMPTY, before), ListedSteps(files, worlds));
            AllFaithful(set_, embed, steps) && Agreement(set_, embed, st, LastIndexed(set_, steps))
  {
    ListedStepsFaithful(set_, embed, files, worlds);
    AfterAppend(set_, EMPTY, before, ListedSteps(files, worlds));
    IndexAgrees(set_, embed, before + ListedSteps(files, worlds));
  }

  /** The changes as indexer steps, those that are ignored left out. */
  lemma {:induction false} ChangesAreSteps(set_: Settings, embed: string -> Vector, st: Store, changes: seq<WireChange>,
                                           worlds: nat -> World) returns (steps: seq<Indexer.Step>)
    requires AllWorldsFaithful(set_, embed, worlds)
    ensures AllFaithful(set_, embed, steps)
    ensures ChangesTaken(set_, st, changes, worlds) == Indexer.After(set_, st, steps)
  {
    steps := [];
    if changes != [] {
      var n := |changes| - 1;
      steps := ChangesAreSteps(set_, embed, st, changes[..n], worlds);
      match Decode(changes[n]) {
        case RemoveFile(id) =>
          AfterNext(set_, st, steps, Indexer.Remove(id));
          steps := steps + [Indexer.Remove(id)];
        case IngestFile(file) =>
          AfterNext(set_, st, steps, Indexer.Ingest(file, worlds(n)));
          steps := steps + [Indexer.Ingest(file, worlds(n))];
        case Ignore =>
      }
    }
  }

  /** So does an incremental run. */
  lemma ChangesKeepIndex(set_: Settings, embed: string -> Vector, before: seq<Indexer.Step>, changes: seq<WireChange>,
                         worlds: nat -> World)
    returns (steps: seq<Indexer.Step>)
    requires AllFaithful(set_, embed, before) && AllWorldsFaithful(set_, embed, worlds)
    ensures var st := ChangesTaken(set_, Indexer.After(set_, EMPTY, before), changes, worlds);
            && AllFaithful(set_, embed, steps) && before <= steps && st == Indexer.After(set_, EMPTY, steps)
            && Agreement(set_, embed, st, LastIndexed(set_, steps))
  {
    var more := ChangesAreSteps(set_, embed, Indexer.After(set_, EMPTY, before), changes, worlds);
    AfterAppend(set_, EMPTY, before, more);
    steps := before + more;
    IndexAgrees(set_, embed, steps);
  }

  // ---------------------------------------------------------------- which files end indexed

  function FileOf(step: Indexer.Step): string { if step.Remove? then step.id else step.file.id }

  /** A step leaves every other document as it is. */
  lemma OtherDocument(set_: Settings, st: Store, step: Indexer.Step, id: string)
    requires FileOf(step) != id
    ensures var st' := Indexer.Next(set_, st, step);
            (id in st'.docs <==> id in st.docs) && (id in st.docs ==> st'.docs[id] == st.docs[id])
  {
    if step.Ingest? {
      var st1 := Upserted(st, step.file);
      if st1.docs[step.file.id].fields.mime in SUPPORTED_MIMES {
        IngestedChanges(set_, st1, step.file.id, step.world);
      }
    }
  }

  /** The n-th listed file's document, when no later file has its id, is indexed after a full ingest if and
      only if its text, chunks, embeddings and inserts all came through, provided its type is supported. */
  lemma {:induction false} ListedIndexedIff(set_: Settings, st: Store, files: seq<FileMeta>, worlds: nat -> World,
                                            n: nat)
    requires n < |files| && forall j :: n < j < |files| ==> files[j].id != files[n].id
    requires files[n].mime in SUPPORTED_MIMES
    ensures var st' := Indexer.After(set_, st, ListedSteps(files, worlds));
            files[n].id in st'.docs && (st'.docs[files[n].id].status == Indexed <==> Indexable(set_, worlds(n)))
  {
    var init, last := files[..|files| - 1], |files| - 1;
    var before, step := ListedSteps(init, worlds), ListedStep(files[last], worlds(last));
    AfterNext(set_, st, before, step);
    if n == last {
      FileIndexedIff(set_, Indexer.After(set_, st, before), files[n], worlds(n));
    } else {
      ListedIndexedIff(set_, st, init, worlds, n);
      OtherDocument(set_, Indexer.After(set_, st, before), step, files[n].id);
    }
  }

  predicate Concerns(action: Action, id: string) {
    match action
    case RemoveFile(removed) => removed == id
    case IngestFile(file) => file.id == id
    case Ignore => false
  }

  /** The same of the n-th change, when it ingests a file and no later change concerns that. */
  lemma {:induction false} ChangeIndexedIff(set_: Settings, st: Store, changes: seq<WireChange>, worlds: nat -> World,
                                            n: nat, file: FileMeta)
    requires n < |changes| && Decode(changes[n]) == IngestFile(file)
    requires forall j :: n < j < |changes| ==> !Concerns(Decode(changes[j]), file.id)
    ensures var st' := ChangesTaken(set_, st, changes, worlds);
            file.id in st'.docs
            && (st'.docs[file.id].status == Indexed <==> file.mime in SUPPORTED_MIMES && Indexable(set_, worlds(n)))
  {
    var init, last := changes[..|changes| - 1], |changes| - 1;
    var st1 := ChangesTaken(set_, st, init, worlds);
    if n == last {
      FileIndexedIff(set_, st1, file, worlds(n));
    } else {
      ChangeIndexedIff(set_, st, init, worlds, n, file);
      OtherChange(set_, st1, Decode(changes[last]), worlds(last), file.id);
    }
  }

  /** A change that is not about a document leaves it as it is. */
  lemma OtherChange(set_: Settings, st: Store, action: Action, world: World, id: string)
    requires !Concerns(action, id)
    ensures var st' := ChangeTaken(set_, st, action, world);
            (id in st'.docs <==> id in st.docs) && (id in st.docs ==> st'.docs[id] == st.docs[id])
  {
    match action
    case RemoveFile(removed) => OtherDocument(set_, st, Indexer.Remove(removed), id);
    case IngestFile(file) => OtherDocument(set_, st, Indexer.Ingest(file, world), id);
    case Ignore =>
  }

  lemma ApplyLast(table: Table, changes: seq<WireChange>, ch: WireChange)
    ensures Apply(table, changes + [ch]) == ApplyOne(Apply(table, changes), ch)
  {
    assert (changes + [ch])[..|changes|] == changes;
  }

  // ---------------------------------------------------------------- agreement with Drive

  /** The document row for an id is the live file's, or both are absent. */
  ghost predicate AgreeAt(table: Table, live: map<string, FileMeta>, id: string) {
    (id in table <==> id in live) && (id in live ==> table[id] == FieldsOf(live[id]))
  }

  /** Whatever disagrees with Drive at position c is touched again before n. */
  ghost predicate Behind(table: Table, log: seq<Event>, c: nat, n: nat)
    requires c <= n <= |log|
  {
    forall id :: !Touches(log, c, n, id) ==> AgreeAt(table, Live(log, c), id)
  }

  /** The document set with names, types and owners as Drive's live files at position w. */
  ghost predicate Converged(table: Table, log: seq<Event>, w: nat) {
    w <= |log| && table == map id | id in Live(log, w) :: FieldsOf(Live(log, w)[id])
  }

  /** A converged table in plain terms: a row for each live file, with the file's name, type, first owner
      and link cut to the columns' widths, and its modification time and size. */
  lemma ConvergedColumns(table: Table, log: seq<Event>, w: nat, id: string)
    requires Converged(table, log, w)
    ensures id in table <==> id in Live(log, w)
    ensures id in table ==> ColumnsOf(table[id], Live(log, w)[id])
  {
    if id in Live(log, w) { ColumnsAre(Live(log, w)[id]); }
  }

  predicate WellFormed(log: seq<Event>) { forall k :: 0 <= k < |log| ==> log[k].WellFormed() }

  lemma {:induction false} LivePrefix(log: seq<Event>, more: seq<Event>, n: nat)
    requires n <= |log|
    ensures Live(log + more, n) == Live(log, n)
  {
    if n > 0 { LivePrefix(log, more, n - 1); }
  }

  lemma {:induction false} LiveUntouched(log: seq<Event>, c: nat, m: nat, id: string)
    requires c <= m <= |log| && !Touches(log, c, m, id)
    ensures id in Live(log, m) <==> id in Live(log, c)
    ensures id in Live(log, m) ==> Live(log, m)[id] == Live(log, c)[id]
    decreases m
  {
    if c < m {
      assert !Touches(log, c, m - 1, id);
      LiveUntouched(log, c, m - 1, id);
      assert log[m - 1].Other? || log[m - 1].Id() != id;
    }
  }

  lemma {:induction false} LiveKey(log: seq<Event>, n: nat, id: string)
    requires n <= |log| && id in Live(log, n)
    ensures Live(log, n)[id].id == id
  {
    if id in Live(log, n - 1) { LiveKey(log, n - 1, id); }
  }

  /** Applying one wire change is the event's effect on its own id and nothing else. */
  lemma WireEffect(table: Table, live: map<string, FileMeta>, event: Event, id: string)
    requires event.WellFormed()
    ensures if !event.Other? && event.Id() == id then AgreeAt(ApplyOne(table, Wire(event)), Effect(live, event), id)
            else SameRow(ApplyOne(table, Wire(event)), table, id)
  {
  }

  /** The table after replaying the events from position c up to m. */
  function Replayed(table: Table, log: seq<Event>, c: nat, m: nat): Table
    requires c <= m <= |log|
  {
    Apply(table, WireAll(log[c..m]))
  }

  lemma WireLast(log: seq<Event>, c: nat, m: nat)
    requires c < m <= |log|
    ensures WireAll(log[c..m]) == WireAll(log[c..m - 1]) + [Wire(log[m - 1])]
  {
  }

  lemma ReplayedNone(table: Table, log: seq<Event>, c: nat)
    requires c <= |log|
    ensures Replayed(table, log, c, c) == table
  {
    assert |WireAll(log[c..c])| == 0;
  }

  lemma ReplayedLast(table: Table, log: seq<Event>, c: nat, m: nat)
    requires c < m <= |log|
    ensures Replayed(table, log, c, m) == ApplyOne(Replayed(table, log, c, m - 1), Wire(log[m - 1]))
  {
    WireLast(log, c, m);
    ApplyLast(table, WireAll(log[c..m - 1]), Wire(log[m - 1]));
  }

  lemma TouchesLast(log: seq<Event>, c: nat, m: nat, id: string)
    requires c < m <= |log|
    ensures Touches(log, c, m, id) <==> Touches(log, c, m - 1, id) || (!log[m - 1].Other? && log[m - 1].Id() == id)
  {
  }

  /** The row of an id is the same in both tables. */
  predicate SameRow(a: Table, b: Table, id: string) { (id in a <==> id in b) && (id in a ==> a[id] == b[id]) }

  /** Replaying a stretch of the log: touched ids agree with Drive afterwards, the others keep their row. */
  lemma {:induction false} ReplayAt(table: Table, log: seq<Event>, c: nat, m: nat, id: string)
    requires c <= m <= |log| && WellFormed(log)
    ensures if Touches(log, c, m, id) then AgreeAt(Replayed(table, log, c, m), Live(log, m), id)
            else SameRow(Replayed(table, log, c, m), table, id)
    decreases m
  {
    if c == m {
      ReplayedNone(table, log, c);
    } else {
      ReplayAt(table, log, c, m - 1, id);
      ReplayedLast(table, log, c, m);
      TouchesLast(log, c, m, id);
      WireEffect(Replayed(table, log, c, m - 1), Live(log, m - 1), log[m - 1], id);
      if log[m - 1].Other? || log[m - 1].Id() != id { UntouchedByLast(log, m, id); }
    }
  }

  lemma UntouchedByLast(log: seq<Event>, m: nat, id: string)
    requires 0 < m <= |log| && (log[m - 1].Other? || log[m - 1].Id() != id)
    ensures id in Live(log, m) <==> id in Live(log, m - 1)
    ensures id in Live(log, m) ==> Live(log, m)[id] == Live(log, m - 1)[id]
  {
  }

  lemma AgreeEverywhere(table: Table, log: seq<Event>, w: nat)
    requires w <= |log| && forall id :: AgreeAt(table, Live(log, w), id)
    ensures Converged(table, log, w)
  {
    var target := map id | id in Live(log, w) :: FieldsOf(Live(log, w)[id]);
    forall id
      ensures (id in table <==> id in target) && (id in table ==> table[id] == target[id])
    {
      assert AgreeAt(table, Live(log, w), id);
    }
    assert table.Keys == target.Keys;
  }

  /** Replaying from c keeps what is behind recoverable, and reaching n converges exactly. */
  lemma Replay(table: Table, log: seq<Event>, c: nat, n: nat, m: nat)
    requires c <= n <= |log| && c <= m <= |log| && WellFormed(log) && Behind(table, log, c, n)
    ensures var table' := Apply(table, WireAll(log[c..m]));
            Behind(table', log, c, |log|) && (m >= n ==> Converged(table', log, m))
  {
    var table' := Apply(table, WireAll(log[c..m]));
    forall id | !Touches(log, c, |log|, id)
      ensures AgreeAt(table', Live(log, c), id)
    {
      assert !Touches(log, c, n, id) && !Touches(log, c, m, id);
      ReplayAt(table, log, c, m, id);
    }
    if m >= n {
      forall id
        ensures AgreeAt(table', Live(log, m), id)
      {
        ReplayAt(table, log, c, m, id);
        if !Touches(log, c, m, id) {
          assert !Touches(log, c, n, id);
          LiveUntouched(log, c, m, id);
        }
      }
      AgreeEverywhere(table', log, m);
    }
  }

  lemma TouchesGrows(log: seq<Event>, more: seq<Event>, c: nat, n: nat, id: string)
    requires Touches(log, c, n, id)
    ensures Touches(log + more, c, n, id) && (n <= |log| ==> Touches(log + more, c, |log + more|, id))
  {
    var k :| c <= k < n && k < |log| && !log[k].Other? && log[k].Id() == id;
    assert (log + more)[k] == log[k];
  }

  lemma BehindGrows(table: Table, log: seq<Event>, more: seq<Event>, c: nat)
    requires c <= |log| && Behind(table, log, c, |log|)
    ensures Behind(table, log + more, c, |log|)
    ensures Behind(table, log + more, c, |log + more|)
  {
    LivePrefix(log, more, c);
    forall id | !Touches(log + more, c, |log|, id) || !Touches(log + more, c, |log + more|, id)
      ensures !Touches(log, c, |log|, id)
    {
      if Touches(log, c, |log|, id) { TouchesGrows(log, more, c, |log|, id); }
    }
  }

  // ---------------------------------------------------------------- honest answers

  /** Change pages continue the log from p; the last page reaches at least
      `floor`, the end of the log when the drain began. */
  ghost predicate Serves(log: seq<Event>, floor: nat, p: nat, pages: seq<ChangePage>)
    decreases pages
  {
    || pages == [] || pages[0].ChangeFailure?
    || var q := p + |pages[0].changes|;
       && q <= |log| && pages[0].changes == WireAll(log[p..q])
       && if pages[0].next.Some? then pages[0].next == Some(q) && Serves(log, floor, q, pages[1..])
          else q >= floor && (pages[0].newStart.None? || pages[0].newStart == Some(q))
  }

  lemma {:induction false} DrainIsLog(log: seq<Event>, floor: nat, c: nat, p: nat, acc: seq<WireChange>,
                                      pages: seq<ChangePage>)
    requires c <= p <= |log| && acc == WireAll(log[c..p]) && Serves(log, floor, p, pages)
    ensures match DrainPages(acc, pages)
            case DrainFailed => true
            case Drained(changes, next, newStart) =>
              var q := c + |changes|;
              floor <= q <= |log| && changes == WireAll(log[c..q]) && next.None?
                && (newStart.None? || newStart == Some(q))
    decreases pages
  {
    if pages != [] && pages[0].ChangePage? {
      var q := p + |pages[0].changes|;
      assert log[c..q] == log[c..p] + log[p..q];
      assert acc + pages[0].changes == WireAll(log[c..q]);
      if pages[0].next.Some? {
        DrainIsLog(log, floor, c, q, acc + pages[0].changes, pages[1..]);
      }
    }
  }

  /** A listing made while the log grew from start to its end: every file it yields was live, just
      so, at some moment in between, and a file live throughout and untouched is not missed. */
  ghost predicate TrueListing(log: seq<Event>, start: nat, files: seq<FileMeta>, ended: bool)
    requires start <= |log|
  {
    && (forall k :: 0 <= k < |files| ==> SeenLive(log, start, files[k]))
    && (ended ==> forall id :: id in Live(log, start) && !Touches(log, start, |log|, id) ==> Lists(files, id))
  }

  ghost predicate SeenLive(log: seq<Event>, start: nat, file: FileMeta) {
    exists r :: start <= r <= |log| && file.id in Live(log, r) && Live(log, r)[file.id] == file
  }

  predicate Lists(files: seq<FileMeta>, id: string) { exists k :: 0 <= k < |files| && files[k].id == id }

  lemma {:induction false} RecordAt(table: Table, files: seq<FileMeta>, id: string) returns (k: nat)
    ensures var after := Record(table, files);
            if Lists(files, id) then k < |files| && files[k].id == id && id in after && after[id] == FieldsOf(files[k])
            else SameRow(after, table, id)
  {
    k := 0;
    if files != [] {
      var n := |files| - 1;
      ListsLast(files, id);
      if files[n].id == id {
        k := n;
      } else {
        k := RecordAt(table, files[..n], id);
      }
    }
  }

  lemma ListsLast(files: seq<FileMeta>, id: string)
    requires files != []
    ensures Lists(files, id) <==> files[|files| - 1].id == id || Lists(files[..|files| - 1], id)
  {
    var n := |files| - 1;
    if Lists(files[..n], id) {
      var k :| 0 <= k < n && files[..n][k].id == id;
      assert files[k].id == id;
    }
  }

  lemma TakePagesStep(acc: seq<FileMeta>, pages: seq<FilePage>, k: nat, crash: Option<nat>)
    requires k < |pages| && pages[k].FilePage? && (crash.Some? ==> |acc| <= crash.value)
    ensures var all := acc + NotTrashed(pages[k].files);
            TakePages(acc, pages[k..], crash) ==
            if crash.Some? && crash.value < |all| then (all[..crash.value], false)
            else if pages[k].more then TakePages(all, pages[k + 1..], crash)
            else (all, true)
  {
    assert pages[k..][0] == pages[k] && pages[k..][1..] == pages[k + 1..];
  }

  /** However a listing ends, what was taken is a front part of what it yields, and all of it when all went well. */
  lemma {:induction false} TakePagesFront(acc: seq<FileMeta>, pages: seq<FilePage>, crash: Option<nat>)
    requires crash.Some? ==> |acc| <= crash.value
    ensures var (files, done) := TakePages(acc, pages, crash);
            files <= acc + Listing(pages) && (done ==> ListingEnds(pages) && files == acc + Listing(pages))
    decreases pages
  {
    if pages != [] && pages[0].FilePage? {
      var all := acc + NotTrashed(pages[0].files);
      assert acc + Listing(pages) == if pages[0].more then all + Listing(pages[1..]) else all;
      if !(crash.Some? && crash.value < |all|) && pages[0].more { TakePagesFront(all, pages[1..], crash); }
    }
  }

  // ---------------------------------------------------------------- full ingest

  /** A row for a file that was already gone at the start token and is not touched any more: nothing will remove it. */
  ghost predicate Stale(table: Table, log: seq<Event>, start: nat, id: string)
    requires start <= |log|
  {
    id in table && id !in Live(log, start) && !Touches(log, start, |log|, id)
  }

  /** What a complete listing leaves for an id that no edit touches meanwhile. */
  lemma RecordedAgrees(table: Table, log: seq<Event>, start: nat, files: seq<FileMeta>, id: string)
    requires start <= |log| && TrueListing(log, start, files, true) && !Touches(log, start, |log|, id)
    ensures AgreeAt(Record(table, files), Live(log, start), id) <==> !Stale(table, log, start, id)
  {
    var k := RecordAt(table, files, id);
    if Lists(files, id) {
      assert SeenLive(log, start, files[k]);
      var r :| start <= r <= |log| && files[k].id in Live(log, r) && Live(log, r)[files[k].id] == files[k];
      assert !Touches(log, start, r, id);
      LiveUntouched(log, start, r, id);
    }
  }

  /** A complete full ingest misses nothing that the log from its start token will not bring,
      exactly when the table held no stale row before; from an empty table it never does. */
  lemma FullIngestBehind(table: Table, log: seq<Event>, start: nat, files: seq<FileMeta>)
    requires start <= |log| && TrueListing(log, start, files, true)
    ensures Behind(Record(table, files), log, start, |log|) <==> forall id :: !Stale(table, log, start, id)
  {
    var table' := Record(table, files);
    forall id | !Touches(log, start, |log|, id)
      ensures AgreeAt(table', Live(log, start), id) <==> !Stale(table, log, start, id)
    {
      RecordedAgrees(table, log, start, files, id);
    }
    if Behind(table', log, start, |log|) {
      forall id
        ensures !Stale(table, log, start, id)
      {
        if !Touches(log, start, |log|, id) { assert AgreeAt(table', Live(log, start), id); }
      }
    }
  }

  /** After a complete full ingest and the replay of everything since its start token, an id agrees
      with Drive exactly when it was not a row of a file already gone and never touched since. */
  lemma IngestedAgrees(table: Table, log: seq<Event>, more: seq<Event>, start: nat, files: seq<FileMeta>, id: string)
    requires start <= |log| && TrueListing(log, start, files, true) && WellFormed(log + more)
    ensures var all := log + more;
            AgreeAt(Replayed(Record(table, files), all, start, |all|), Live(all, |all|), id) <==>
              !Stale(table, all, start, id)
  {
    var all := log + more;
    ReplayAt(Record(table, files), all, start, |all|, id);
    if !Touches(all, start, |all|, id) {
      if Touches(log, start, |log|, id) { TouchesGrows(log, more, start, |log|, id); }
      LivePrefix(log, more, start);
      RecordedAgrees(table, log, start, files, id);
      LiveUntouched(all, start, |all|, id);
    }
  }

  /** A complete full ingest whose changes are then drained equals Drive if and only if every row
      it started from belongs to a file still live at the start token or touched since. */
  lemma FullIngestExact(table: Table, log: seq<Event>, more: seq<Event>, start: nat, files: seq<FileMeta>)
    requires start <= |log| && TrueListing(log, start, files, true) && WellFormed(log + more)
    ensures var all := log + more;
            Converged(Apply(Record(table, files), WireAll(all[start..|all|])), all, |all|) <==>
            forall id :: id in table && id !in Live(all, start) ==> Touches(all, start, |all|, id)
  {
    var all := log + more;
    var end := Replayed(Record(table, files), all, start, |all|);
    forall id
      ensures AgreeAt(end, Live(all, |all|), id) <==> !Stale(table, all, start, id)
    {
      IngestedAgrees(table, log, more, start, files, id);
    }
    if forall id :: id in table && id !in Live(all, start) ==> Touches(all, start, |all|, id) {
      assert forall id :: !Stale(table, all, start, id);
      AgreeEverywhere(end, all, |all|);
    }
    if Converged(end, all, |all|) {
      forall id | id in table && id !in Live(all, start)
        ensures Touches(all, start, |all|, id)
      {
        assert AgreeAt(end, Live(all, |all|), id);
      }
    }
  }

  /** A full ingest that dies part way, or is repeated later, never undoes what a saved cursor relies on. */
  lemma PartialFullKeepsBehind(table: Table, log: seq<Event>, c: nat, start: nat, files: seq<FileMeta>)
    requires c <= start <= |log| && TrueListing(log, start, files, false)
    requires Behind(table, log, c, |log|)
    ensures Behind(Record(table, files), log, c, |log|)
  {
    forall id | !Touches(log, c, |log|, id)
      ensures AgreeAt(Record(table, files), Live(log, c), id)
    {
      var k := RecordAt(table, files, id);
      if Lists(files, id) {
        assert SeenLive(log, start, files[k]);
        var r :| start <= r <= |log| && files[k].id in Live(log, r) && Live(log, r)[files[k].id] == files[k];
        assert !Touches(log, c, r, id);
        LiveUntouched(log, c, r, id);
      }
    }
  }

  // ---------------------------------------------------------------- runs

  datatype Sys = Sys(log: seq<Event>, table: Table, cursor: Option<nat>)

  /** `during` are the Drive edits that happen while a task talks to the API. */
  datatype Step =
    | Edit(event: Event)
    | Full(during: seq<Event>, pages: seq<FilePage>, crash: Option<nat>)
    | Incr(during: seq<Event>, changes: seq<ChangePage>, pages: seq<FilePage>, crash: Option<nat>)

  function Next(s: Sys, step: Step): Sys {
    match step
    case Edit(event) => s.(log := s.log + [event])
    case Full(during, pages, crash) =>
      var (table, cursor) := FullRun(s.table, s.cursor, |s.log|, pages, crash);
      Sys(s.log + during, table, cursor)
    case Incr(during, changes, pages, crash) =>
      var (table, cursor) := if s.cursor.Some? then IncrementalRun(s.table, s.cursor.value, changes, crash)
                             else FullRun(s.table, s.cursor, |s.log|, pages, crash);
      Sys(s.log + during, table, cursor)
  }

  /** The step's events are well formed and the API answers truthfully about the log as it grows. */
  ghost predicate Honest(s: Sys, step: Step) {
    match step
    case Edit(event) => event.WellFormed()
    case Full(during, pages, crash) =>
      WellFormed(during) && TrueListing(s.log + during, |s.log|, Listing(pages), ListingEnds(pages))
    case Incr(during, changes, pages, crash) =>
      WellFormed(during)
      && if s.cursor.Some? then Serves(s.log + during, |s.log|, s.cursor.value, changes)
         else TrueListing(s.log + during, |s.log|, Listing(pages), ListingEnds(pages))
  }

  /** What holds whenever a cursor is saved: replaying the log from it would repair every difference. */
  ghost predicate Recoverable(s: Sys) {
    && WellFormed(s.log)
    && (s.cursor.Some? ==> s.cursor.value <= |s.log| && Behind(s.table, s.log, s.cursor.value, |s.log|))
  }

  lemma FrontIsTrue(log: seq<Event>, start: nat, front: seq<FileMeta>, files: seq<FileMeta>, ended: bool)
    requires start <= |log| && TrueListing(log, start, files, ended) && front <= files
    ensures TrueListing(log, start, front, false)
  {
    forall k | 0 <= k < |front|
      ensures SeenLive(log, start, front[k])
    {
      assert files[k] == front[k];
    }
  }

  /** The step is a full ingest: asked for, or the fallback of an incremental run without a cursor. */
  predicate IsFull(s: Sys, step: Step) { step.Full? || (step.Incr? && s.cursor.None?) }

  /** A full ingest that completes starts from a table without stale rows. */
  ghost predicate SafeStep(s: Sys, step: Step) {
    IsFull(s, step) && TakePages([], step.pages, step.crash).1 ==>
      forall id :: !Stale(s.table, s.log + step.during, |s.log|, id)
  }

  /** A full ingest keeps the table recoverable if and only if it does not complete or meets no stale row. */
  lemma FullStepIff(s: Sys, step: Step)
    requires Recoverable(s) && IsFull(s, step) && Honest(s, step)
    ensures Recoverable(Next(s, step)) <==> SafeStep(s, step)
  {
    var log, files := s.log + step.during, Listing(step.pages);
    var (front, done) := TakePages([], step.pages, step.crash);
    TakePagesFront([], step.pages, step.crash);
    assert [] + files == files;
    if done {
      FullIngestBehind(s.table, log, |s.log|, files);
    } else if s.cursor.Some? {
      BehindGrows(s.table, s.log, step.during, s.cursor.value);
      FrontIsTrue(log, |s.log|, front, files, ListingEnds(step.pages));
      PartialFullKeepsBehind(s.table, log, s.cursor.value, |s.log|, front);
    }
  }

  /** An incremental run keeps the table recoverable whatever fails, moves the watermark only to
      positions where the table equals Drive, and when nothing fails and the API gives a new
      watermark the table equals Drive there, no earlier than where the log stood at the start. */
  lemma IncrementalStep(s: Sys, during: seq<Event>, changes: seq<ChangePage>, crash: Option<nat>)
    requires Recoverable(s) && s.cursor.Some? && WellFormed(during)
    requires Serves(s.log + during, |s.log|, s.cursor.value, changes)
    ensures var (table, cursor) := IncrementalRun(s.table, s.cursor.value, changes, crash);
            var log := s.log + during;
            && Recoverable(Sys(log, table, cursor)) && cursor.Some? && cursor.value >= s.cursor.value
            && (cursor != s.cursor ==> Converged(table, log, cursor.value))
            && (match DrainPages([], changes)
                case DrainFailed => table == s.table && cursor == s.cursor
                case Drained(chs, _, newStart) => !Dies(chs, crash) && newStart.Some? ==>
                  cursor == newStart && cursor.value >= |s.log| && Converged(table, log, cursor.value))
  {
    var log, c := s.log + during, s.cursor.value;
    BehindGrows(s.table, s.log, during, c);
    DrainIsLog(log, |s.log|, c, c, [], changes);
    if DrainPages([], changes).Drained? {
      var drain := DrainPages([], changes);
      DrainApplied(s.table, log, c, |s.log|, drain.changes, drain.newStart, crash);
    }
  }

  /** The table after a drain, and the watermark it would save. */
  lemma DrainApplied(table: Table, log: seq<Event>, c: nat, n: nat, chs: seq<WireChange>, newStart: Option<nat>,
                     crash: Option<nat>)
    requires c <= n <= c + |chs| <= |log| && chs == WireAll(log[c..c + |chs|])
    requires WellFormed(log) && Behind(table, log, c, n) && (newStart.None? || newStart == Some(c + |chs|))
    ensures Behind(Apply(table, Done(chs, crash)), log, c, |log|)
    ensures !Dies(chs, crash) && newStart.Some? ==>
              Converged(Apply(table, chs), log, c + |chs|) && Behind(Apply(table, chs), log, c + |chs|, |log|)
  {
    ChangesApplied(table, log, c, n, chs, crash);
    if !Dies(chs, crash) && newStart.Some? { ConvergedIsBehind(Apply(table, chs), log, c + |chs|); }
  }

  /** Applying the drained changes, or the part of them done before the worker dies. */
  lemma ChangesApplied(table: Table, log: seq<Event>, c: nat, n: nat, chs: seq<WireChange>, crash: Option<nat>)
    requires c <= n <= c + |chs| <= |log| && chs == WireAll(log[c..c + |chs|])
    requires WellFormed(log) && Behind(table, log, c, n)
    ensures Behind(Apply(table, Done(chs, crash)), log, c, |log|)
    ensures !Dies(chs, crash) ==> Converged(Apply(table, chs), log, c + |chs|)
  {
    var m := DoneIsLog(log, c, chs, crash);
    Replay(table, log, c, n, m);
  }

  lemma DoneIsLog(log: seq<Event>, c: nat, chs: seq<WireChange>, crash: Option<nat>) returns (m: nat)
    requires c + |chs| <= |log| && chs == WireAll(log[c..c + |chs|])
    ensures c <= m <= c + |chs| && Done(chs, crash) == WireAll(log[c..m])
    ensures !Dies(chs, crash) ==> m == c + |chs| && Done(chs, crash) == chs
  {
    m := c + |Done(chs, crash)|;
    WireFront(log, c, m, c + |chs|);
  }

  lemma WireFront(log: seq<Event>, c: nat, m: nat, e: nat)
    requires c <= m <= e <= |log|
    ensures WireAll(log[c..e])[..m - c] == WireAll(log[c..m])
  {
    forall k | 0 <= k < m - c
      ensures WireAll(log[c..e])[k] == WireAll(log[c..m])[k]
    {
      assert log[c..e][k] == log[c + k] == log[c..m][k];
    }
  }

  lemma ConvergedIsBehind(table: Table, log: seq<Event>, w: nat)
    requires Converged(table, log, w)
    ensures Behind(table, log, w, |log|)
  {
  }

  function After(s: Sys, steps: seq<Step>): Sys
    decreases steps
  {
    if steps == [] then s else After(Next(s, steps[0]), steps[1..])
  }

  ghost predicate AllHonest(s: Sys, steps: seq<Step>)
    decreases steps
  {
    steps == [] || (Honest(s, steps[0]) && AllHonest(Next(s, steps[0]), steps[1..]))
  }

  /** Every step is honest, and no full ingest completes over a stale row. */
  ghost predicate AllSafe(s: Sys, steps: seq<Step>)
    decreases steps
  {
    steps == [] || (Honest(s, steps[0]) && SafeStep(s, steps[0]) && AllSafe(Next(s, steps[0]), steps[1..]))
  }

  /** Whether the second cursor is saved whenever the first is, and no earlier. */
  predicate NotBack(before: Option<nat>, after: Option<nat>) {
    before.Some? ==> after.Some? && before.value <= after.value
  }

  lemma StepKeeps(s: Sys, step: Step)
    requires Recoverable(s) && Honest(s, step) && SafeStep(s, step)
    ensures Recoverable(Next(s, step)) && NotBack(s.cursor, Next(s, step).cursor)
  {
    if IsFull(s, step) {
      FullStepIff(s, step);
    } else if step.Incr? {
      IncrementalStep(s, step.during, step.changes, step.crash);
    } else if s.cursor.Some? {
      BehindGrows(s.table, s.log, [step.event], s.cursor.value);
    }
  }

  /** Over any edits, incremental runs and full ingests, failing, dying or complete, the table stays
      recoverable and the watermark never goes back, as long as no full ingest completes over a stale row. */
  lemma {:induction false} StaysRecoverable(s: Sys, steps: seq<Step>)
    requires Recoverable(s) && AllSafe(s, steps)
    ensures Recoverable(After(s, steps)) && NotBack(s.cursor, After(s, steps).cursor)
    decreases steps
  {
    if steps != [] {
      StepKeeps(s, steps[0]);
      StaysRecoverable(Next(s, steps[0]), steps[1..]);
    }
  }

  /** Once a cursor is saved, runs without an explicit full ingest are safe. */
  lemma {:induction false} IncrementalsAreSafe(s: Sys, steps: seq<Step>)
    requires s.cursor.Some? && AllHonest(s, steps) && forall k :: 0 <= k < |steps| ==> !steps[k].Full?
    ensures AllSafe(s, steps)
    decreases steps
  {
    if steps != [] { IncrementalsAreSafe(Next(s, steps[0]), steps[1..]); }
  }

  /** From an empty table and any safe run, after a complete incremental run the documents equal
      Drive's live files at the saved watermark, which is no earlier than where the log stood when it began. */
  lemma RunConverges(before: seq<Event>, steps: seq<Step>, last: Step)
    requires WellFormed(before) && AllSafe(Sys(before, map[], None), steps)
    requires var s := After(Sys(before, map[], None), steps); s.cursor.Some? && Honest(s, last)
    requires last.Incr? && last.crash.None?
    requires DrainPages([], last.changes).Drained? && DrainPages([], last.changes).newStart.Some?
    ensures var s := After(Sys(before, map[], None), steps);
            var s' := Next(s, last);
            s'.cursor.Some? && |s.log| <= s'.cursor.value && Converged(s'.table, s'.log, s'.cursor.value)
  {
    StaysRecoverable(Sys(before, map[], None), steps);
    IncrementalStep(After(Sys(before, map[], None), steps), last.during, last.changes, last.crash);
  }

  /** From an empty table: any edits, one complete full ingest, then any edits and incremental runs
      (failing, dying or complete).  After each complete incremental run the documents equal Drive's
      live files at the saved watermark. */
  lemma DriveConverges(before: seq<Event>, full: Step, middle: seq<Step>, last: Step)
    requires WellFormed(before) && full.Full? && Honest(Sys(before, map[], None), full)
    requires Next(Sys(before, map[], None), full).cursor.Some?
    requires forall k :: 0 <= k < |middle| ==> !middle[k].Full?
    requires AllHonest(Next(Sys(before, map[], None), full), middle)
    requires last.Incr? && last.crash.None? && Honest(After(Next(Sys(before, map[], None), full), middle), last)
    requires DrainPages([], last.changes).Drained? && DrainPages([], last.changes).newStart.Some?
    ensures var s := After(Next(Sys(before, map[], None), full), middle);
            var s' := Next(s, last);
            s'.cursor.Some? && |s.log| <= s'.cursor.value && Converged(s'.table, s'.log, s'.cursor.value)
  {
    var s0 := Sys(before, map[], None);
    IncrementalsAreSafe(Next(s0, full), middle);
    assert ([full] + middle)[1..] == middle && ([full] + middle)[0] == full;
    StepKeeps(s0, full);
    StaysRecoverable(Next(s0, full), middle);
    assert After(s0, [full] + middle) == After(Next(s0, full), middle);
    RunConverges(before, [full] + middle, last);
  }

  // ---------------------------------------------------------------- a full ingest that is retried

  const FILE_A := FileMeta("a", "A", "text/plain", [], "", None, 0, [])
  const FILE_B := FileMeta("b", "B", "text/plain", [], "", None, 0, [])

  const TWO_FILES := Sys([Put(FILE_A), Put(FILE_B)], map[], None)
  const DYING_FULL := Full([], [FilePage([WireFile(FILE_A, false), WireFile(FILE_B, false)], false)], Some(1))
  const RETRIED_FULL := Full([], [FilePage([WireFile(FILE_B, false)], false)], None)

  /** Two files; the full ingest dies after the first; that file is deleted; the full ingest is
      retried and completes.  It saves a watermark past the deletion, and the deleted file's row
      stays: a full ingest never removes rows, so it converges from an empty table only. */
  lemma RetriedFullKeepsDeletedFile()
    ensures var died := Next(TWO_FILES, DYING_FULL);
            var deleted := Next(died, Edit(Delete("a")));
            var end := Next(deleted, RETRIED_FULL);
            && Honest(TWO_FILES, DYING_FULL) && Honest(died, Edit(Delete("a"))) && Honest(deleted, RETRIED_FULL)
            && end.cursor == Some(3) && |end.log| == 3 && "a" in end.table && "a" !in Live(end.log, 3)
  {
    var log2, log3 := [Put(FILE_A), Put(FILE_B)], [Put(FILE_A), Put(FILE_B), Delete("a")];
    var tableA: Table := map["a" := FieldsOf(FILE_A)];
    LiveSmall();
    assert log3[..2] == log2 && log2 + [] == log2 && log3 + [] == log3;
    FirstIngest(log2, tableA);
    assert Next(TWO_FILES, DYING_FULL) == Sys(log2, tableA, None);
    assert log2 + [Delete("a")] == log3;
    SecondIngest(log3, tableA);
  }

  lemma LiveSmall()
    ensures var log := [Put(FILE_A), Put(FILE_B), Delete("a")];
            && Live(log[..2], 2) == map["a" := FILE_A, "b" := FILE_B]
            && Live(log, 3) == map["b" := FILE_B]
  {
    var log := [Put(FILE_A), Put(FILE_B), Delete("a")];
    assert log[..2] == [Put(FILE_A), Put(FILE_B)];
    assert Live(log[..2], 1) == map["a" := FILE_A] && Live(log, 1) == map["a" := FILE_A];
    assert Live(log, 2) == map["a" := FILE_A, "b" := FILE_B];
  }

  lemma FirstIngest(log: seq<Event>, table: Table)
    requires log == [Put(FILE_A), Put(FILE_B)] && table == map["a" := FieldsOf(FILE_A)]
    requires Live(log, 2) == map["a" := FILE_A, "b" := FILE_B]
    ensures TrueListing(log, 2, Listing(DYING_FULL.pages), ListingEnds(DYING_FULL.pages))
    ensures FullRun(map[], None, 2, DYING_FULL.pages, Some(1)) == (table, None)
  {
    FirstOfTwo(table);
    assert SeenLive(log, 2, FILE_A) && SeenLive(log, 2, FILE_B);
    assert Lists([FILE_A, FILE_B], "a") by { assert [FILE_A, FILE_B][0].id == "a"; }
    assert Lists([FILE_A, FILE_B], "b") by { assert [FILE_A, FILE_B][1].id == "b"; }
  }

  lemma NotTrashedOnly(file: FileMeta)
    ensures NotTrashed([WireFile(file, false)]) == [file]
  {
    assert [WireFile(file, false)][..0] == [] && NotTrashed([]) + [file] == [file];
  }

  lemma NotTrashedTwo()
    ensures NotTrashed([WireFile(FILE_A, false), WireFile(FILE_B, false)]) == [FILE_A, FILE_B]
  {
    NotTrashedOnly(FILE_A);
    assert [WireFile(FILE_A, false), WireFile(FILE_B, false)][..1] == [WireFile(FILE_A, false)];
  }

  lemma RecordOnly(table: Table, file: FileMeta)
    ensures Record(table, [file]) == RecordOne(table, file)
  {
    assert [file][..0] == [];
  }

  lemma FirstOfTwo(table: Table)
    requires table == map["a" := FieldsOf(FILE_A)]
    ensures Listing(DYING_FULL.pages) == [FILE_A, FILE_B] && ListingEnds(DYING_FULL.pages)
    ensures FullRun(map[], None, 2, DYING_FULL.pages, Some(1)) == (table, None)
  {
    NotTrashedTwo();
    var files := [FILE_A, FILE_B];
    assert [] + files == files && files[..1] == [FILE_A];
    RecordOnly(map[], FILE_A);
  }

  lemma SecondIngest(log: seq<Event>, table: Table)
    requires |log| == 3 && Live(log, 3) == map["b" := FILE_B]
    ensures TrueListing(log, 3, Listing(RETRIED_FULL.pages), ListingEnds(RETRIED_FULL.pages))
    ensures FullRun(table, None, 3, RETRIED_FULL.pages, None) == (table["b" := FieldsOf(FILE_B)], Some(3))
  {
    OneFile(table);
    assert SeenLive(log, 3, FILE_B);
    assert Lists([FILE_B], "b") by { assert [FILE_B][0].id == "b"; }
  }

  lemma OneFile(table: Table)
    ensures Listing(RETRIED_FULL.pages) == [FILE_B] && ListingEnds(RETRIED_FULL.pages)
    ensures FullRun(table, None, 3, RETRIED_FULL.pages, None) == (table["b" := FieldsOf(FILE_B)], Some(3))
  {
    NotTrashedOnly(FILE_B);
    assert [] + [FILE_B] == [FILE_B];
    RecordOnly(table, FILE_B);
  }
}
