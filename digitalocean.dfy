/** The S3-compatible (DigitalOcean Spaces) bucket crawl
    (process_digital_ocean_buckets.py): list a public bucket page by page,
    map each `Contents` element to a flat record with a file type taken from
    its key, insert each page's records into the "fileList" collection of
    the database the page names, and, while the listing is truncated, a
    checkpoint into its "progress" collection. The check for a checkpoint
    to resume from happens after a page was fetched. */
module DigitalOceanCrawl {
  import opened Common
  import opened PyText
  import opened Database

  // ---------------------------------------------------------------------
  // generate_extension_from_name

  /** `generate_extension_from_name`: the text after the last '.', case
      kept, or "Unknown" for a name without '.'. */
  function ExtensionOf(name: string): (ext: string)
    ensures '.' !in name ==> ext == "Unknown"
    ensures '.' in name ==>
      '.' !in ext && |ext| < |name| && name[|name| - |ext| - 1] == '.' && name[|name| - |ext|..] == ext
  {
    var parts := Split(name, ".");
    ContainsChar(name, '.');
    if |parts| > 1 then
      var ext := parts[|parts| - 1];
      JoinLast(parts, ".");
      ContainsChar(ext, '.');
      var stem := Join(parts[..|parts| - 1], ".");
      assert name == stem + "." + ext;
      assert name[|name| - |ext| - 1] == '.' by {
        assert name[|stem|] == '.';
      }
      assert name[|name| - |ext|..] == ext;
      ext
    else
      "Unknown"
  }

  /** Whatever comes before the last '.', the extension is what follows it. */
  lemma ExtensionAfterLastDot(stem: string, ext: string)
    requires '.' !in ext
    ensures ExtensionOf(stem + "." + ext) == ext
  {
    var name := stem + "." + ext;
    assert name[|stem|] == '.';
    var r := ExtensionOf(name);
    assert |r| == |ext|;
    assert name[|name| - |ext|..] == ext;
  }

  /** "a/b/file.tar.gz" has file type "gz". */
  lemma ExtensionOfArchive(name: string)
    requires name == "a/b/file.tar" + "." + "gz"
    ensures ExtensionOf(name) == "gz"
  {
    ExtensionAfterLastDot("a/b/file.tar", "gz");
  }

  /** "README" has file type "Unknown". */
  lemma ExtensionOfReadme(name: string)
    requires name == "README"
    ensures ExtensionOf(name) == "Unknown"
  {
    assert '.' !in name by {
      forall i | 0 <= i < |name| ensures name[i] != '.' {
      }
    }
  }

  /** "file." has the empty file type. */
  lemma ExtensionOfTrailingDot(name: string)
    requires name == "file" + "." + ""
    ensures ExtensionOf(name) == ""
  {
    ExtensionAfterLastDot("file", "");
  }

  // ---------------------------------------------------------------------
  // The contents of a page

  /** A `Contents` element: its direct children and, when present, the
      children of its `Owner` element. */
  datatype ContentElement = ContentElement(children: Fields, owner: Option<Fields>)

  /** The document built for one object. */
  datatype ContentRecord = ContentRecord(
    key: string,
    lastModified: Option<string>,
    etag: Option<string>,
    size: Option<string>,
    storageClass: Option<string>,
    ownerId: Option<string>,
    ownerDisplayName: Option<string>,
    fileType: string)

  /** `content.find('s3:Owner/s3:<tag>').text`. */
  function OwnerText(owner: Option<Fields>, tag: string): (r: Result<Option<string>>)
    ensures r.Success? <==> owner.Some? && tag in owner.value
    ensures r.Success? ==> r.value == owner.value[tag]
    ensures r.Failure? ==> r.error == MissingElement("Owner/" + tag)
  {
    if owner.None? || tag !in owner.value then Failure(MissingElement("Owner/" + tag))
    else Success(owner.value[tag])
  }

  /** Every element the contents loop reads is there. */
  predicate ContentComplete(content: ContentElement) {
    var c := content.children;
    "Key" in c && "LastModified" in c && "ETag" in c && "Size" in c && "StorageClass" in c &&
    content.owner.Some? && "ID" in content.owner.value && "DisplayName" in content.owner.value
  }

  /** One pass of the contents loop: the seven texts read in the source's
      order, the first missing element raising; a key without text raises
      when its file type is computed. */
  function ProcessContent(content: ContentElement): (r: Result<ContentRecord>)
    ensures r.Success? <==> ContentComplete(content) && content.children["Key"].Some?
    ensures r.Success? ==>
      var c := content.children;
      var o := content.owner.value;
      r.value.key == c["Key"].value && r.value.lastModified == c["LastModified"] &&
      r.value.etag == c["ETag"] && r.value.size == c["Size"] && r.value.storageClass == c["StorageClass"] &&
      r.value.ownerId == o["ID"] && r.value.ownerDisplayName == o["DisplayName"] &&
      r.value.fileType == ExtensionOf(r.value.key)
    ensures "Key" !in content.children ==> r == Failure(MissingElement("Key"))
    ensures ContentComplete(content) && content.children["Key"].None? ==> r == Failure(MissingText("Key"))
  {
    var key :- FindText(content.children, "Key");
    var lastModified :- FindText(content.children, "LastModified");
    var etag :- FindText(content.children, "ETag");
    var size :- FindText(content.children, "Size");
    var storageClass :- FindText(content.children, "StorageClass");
    var ownerId :- OwnerText(content.owner, "ID");
    var ownerDisplayName :- OwnerText(content.owner, "DisplayName");
    if key.None? then Failure(MissingText("Key"))
    else
      Success(ContentRecord(key.value, lastModified, etag, size, storageClass, ownerId, ownerDisplayName,
                            ExtensionOf(key.value)))
  }

  /** The loop over `root.findall('s3:Contents')`: every record, in order, or
      the error of the first element that fails. */
  function ProcessContents(contents: seq<ContentElement>): Result<seq<ContentRecord>>
    decreases |contents|
  {
    if contents == [] then Success([])
    else
      var first :- ProcessContent(contents[0]);
      var rest :- ProcessContents(contents[1..]);
      Success([first] + rest)
  }

  /** A page yields all of its records, pointwise and in order, exactly when
      every element on it is processed. */
  lemma {:induction false} ProcessContentsAll(contents: seq<ContentElement>)
    ensures var r := ProcessContents(contents);
      (r.Success? <==> forall i :: 0 <= i < |contents| ==> ProcessContent(contents[i]).Success?) &&
      (r.Success? ==>
        |r.value| == |contents| &&
        forall i :: 0 <= i < |contents| ==> r.value[i] == ProcessContent(contents[i]).value)
    decreases |contents|
  {
    if contents != [] {
      ProcessContentsAll(contents[1..]);
      assert forall i :: 1 <= i < |contents| ==> contents[1..][i - 1] == contents[i];
    }
  }

  /** A page that fails fails with the error of its first failing element:
      none of its records is inserted. */
  lemma {:induction false} ProcessContentsFirstError(contents: seq<ContentElement>)
    requires ProcessContents(contents).Failure?
    ensures exists i :: (0 <= i < |contents| && ProcessContent(contents[i]) == Failure(ProcessContents(contents).error) &&
                         forall j :: 0 <= j < i ==> ProcessContent(contents[j]).Success?)
    decreases |contents|
  {
    var first := ProcessContent(contents[0]);
    if first.Failure? {
      assert ProcessContent(contents[0]) == Failure(ProcessContents(contents).error);
    } else {
      var tail := contents[1..];
      ProcessContentsFirstError(tail);
      var k :| 0 <= k < |tail| && ProcessContent(tail[k]) == Failure(ProcessContents(tail).error) &&
        (forall j :: 0 <= j < k ==> ProcessContent(tail[j]).Success?);
      assert tail[k] == contents[k + 1];
      assert forall j :: 1 <= j < k + 1 ==> tail[j - 1] == contents[j];
      assert ProcessContent(contents[k + 1]) == Failure(ProcessContents(contents).error);
    }
  }

  lemma ProcessContentsCons(contents: seq<ContentElement>)
    requires contents != []
    ensures ProcessContents(contents) ==
      match ProcessContent(contents[0])
      case Failure(e) => Failure(e)
      case Success(record) => AfterCollected([record], ProcessContents(contents[1..]))
  {
  }

  /** The contents loop of `list_public_objects`, run statement by statement. */
  method CollectContents(contents: seq<ContentElement>) returns (r: Result<seq<ContentRecord>>)
    ensures r == ProcessContents(contents)
  {
    var records: seq<ContentRecord> := [];
    var i := 0;
    assert contents[0..] == contents;
    assert AfterCollected([], ProcessContents(contents)) == ProcessContents(contents) by {
      if ProcessContents(contents).Success? {
        assert [] + ProcessContents(contents).value == ProcessContents(contents).value;
      }
    }
    while i < |contents|
      invariant 0 <= i <= |contents|
      invariant ProcessContents(contents) == AfterCollected(records, ProcessContents(contents[i..]))
    {
      assert contents[i..][0] == contents[i] && contents[i..][1..] == contents[i + 1..];
      ProcessContentsCons(contents[i..]);
      var record := ProcessContent(contents[i]);
      if record.Failure? {
        assert ProcessContents(contents[i..]) == Failure(record.error);
        return Failure(record.error);
      }
      ghost var rest := ProcessContents(contents[i + 1..]);
      assert ProcessContents(contents[i..]) == AfterCollected([record.value], rest);
      AfterCollectedAppend(records, record.value, rest);
      records := records + [record.value];
      i := i + 1;
    }
    assert contents[i..] == [];
    assert ProcessContents(contents[i..]) == Success([]);
    assert records + [] == records;
    r := Success(records);
  }

  // ---------------------------------------------------------------------
  // The request and the response

  /** `requests.get(bucket_url, params={'marker': next_marker})` when the
      marker is truthy, `requests.get(bucket_url)` otherwise. */
  function ListObjectsRequest(url: string, marker: Option<string>): (r: Request)
    ensures r.url == url
    ensures Param(r.params, "marker") == if Truthy(marker) then Some(Text(marker.value)) else None
    ensures |r.params| == if Truthy(marker) then 1 else 0
  {
    if Truthy(marker) then Request(url, [("marker", Text(marker.value))]) else Request(url, [])
  }

  /** A response body: not XML, or the children of the root element (`Name`,
      `MaxKeys`, `IsTruncated`, `NextMarker`, ...) and its `Contents`
      elements. There is no status code: the source does not look at it. */
  datatype S3Response = Unparsable | Listing(root: Fields, contents: seq<ContentElement>)

  /** The three root elements every fetched page is read for. */
  predicate RootComplete(root: Fields) {
    "Name" in root && "MaxKeys" in root && "IsTruncated" in root
  }

  /** A page that was parsed and read without an exception. */
  predicate Fetched(r: S3Response) {
    r.Listing? && RootComplete(r.root)
  }

  // ---------------------------------------------------------------------
  // The crawl loop

  /** A "progress" document: `{"page_count": ..., "next_marker": ...}`. */
  datatype S3Checkpoint = S3Checkpoint(pageCount: int, nextMarker: Option<string>)

  type S3Write = Write<ContentRecord, S3Checkpoint>

  /** The loop variables `page_count`, `next_marker`, `checked_for_progress`. */
  datatype S3State = S3State(pageCount: int, marker: Option<string>, checked: bool)

  /** What one crawl call works with: the bucket URL and the listing endpoint. */
  datatype S3Env = S3Env(url: string, server: Request -> S3Response)

  /** What one pass of `while True` did; `db` is the page's `Name`. */
  datatype S3Pass =
    | Crash(request: Request, error: Error)                                            // an exception before any insert
    | Resumed(request: Request, db: string, checkpoint: S3Checkpoint)                  // the page is dropped: `continue`
    | LastPage(request: Request, db: string, records: seq<ContentRecord>)               // not truncated: `break`
    | MarkerMissing(request: Request, db: string, records: seq<ContentRecord>)          // inserted, then no NextMarker
    | NextPage(request: Request, db: string, records: seq<ContentRecord>, checkpoint: S3Checkpoint)
  {
    predicate Terminal() { Crash? || LastPage? || MarkerMissing? }
  }

  /** One pass of the loop from state `st` with the store holding `log`. */
  function PassOf(env: S3Env, st: S3State, log: seq<S3Write>): S3Pass {
    var request := ListObjectsRequest(env.url, st.marker);
    match env.server(request)
    case Unparsable => Crash(request, MalformedXml)
    case Listing(root, contents) =>
      if "Name" !in root then Crash(request, MissingElement("Name"))
      else if "MaxKeys" !in root then Crash(request, MissingElement("MaxKeys"))
      else if "IsTruncated" !in root then Crash(request, MissingElement("IsTruncated"))
      else
        var name := root["Name"];
        // `get_last_item(None, ...)` finds no database and returns None.
        var last := if name.Some? then LastProgress(log, name.value) else None;
        if last.Some? && !st.checked then Resumed(request, name.value, last.value)
        else
          match ProcessContents(contents)
          case Failure(e) => Crash(request, e)
          case Success(records) =>
            if name.None? then Crash(request, InvalidDatabaseName)
            else if root["IsTruncated"] == Some("false") then LastPage(request, name.value, records)
            else if "NextMarker" !in root then MarkerMissing(request, name.value, records)
            else NextPage(request, name.value, records, S3Checkpoint(st.pageCount + 1, root["NextMarker"]))
  }

  /** What a pass does: it always requests the page at the current marker;
      a page that cannot be read raises; a readable page is dropped for the
      latest checkpoint of the database it names exactly when the check is
      not done and that database has one; otherwise its records go to that
      database, and the crawl stops exactly when `IsTruncated` reads
      "false", raises when there is no NextMarker, and otherwise
      checkpoints the incremented page count with the NextMarker text. */
  lemma PassOfSpec(env: S3Env, st: S3State, log: seq<S3Write>)
    ensures var p := PassOf(env, st, log);
      var r := env.server(p.request);
      p.request == ListObjectsRequest(env.url, st.marker) &&
      (r.Unparsable? ==> p == Crash(p.request, MalformedXml)) &&
      (r.Listing? && "Name" !in r.root ==> p == Crash(p.request, MissingElement("Name"))) &&
      (!p.Crash? ==> Fetched(r) && r.root["Name"] == Some(p.db)) &&
      (p.Resumed? <==>
        Fetched(r) && r.root["Name"].Some? && !st.checked && Progress(log, r.root["Name"].value) != []) &&
      (p.Resumed? ==> p.checkpoint == Progress(log, p.db)[|Progress(log, p.db)| - 1]) &&
      (p.Crash? <==>
        !Fetched(r) || (!p.Resumed? && (ProcessContents(r.contents).Failure? || r.root["Name"].None?))) &&
      (p.Crash? && Fetched(r) ==>
        p.error == match ProcessContents(r.contents) case Failure(e) => e case Success(_) => InvalidDatabaseName) &&
      (p.LastPage? || p.MarkerMissing? || p.NextPage? ==> ProcessContents(r.contents) == Success(p.records)) &&
      (p.LastPage? <==> !p.Resumed? && !p.Crash? && r.root["IsTruncated"] == Some("false")) &&
      (p.MarkerMissing? <==>
        !p.Resumed? && !p.Crash? && r.root["IsTruncated"] != Some("false") && "NextMarker" !in r.root) &&
      (p.NextPage? ==> p.checkpoint == S3Checkpoint(st.pageCount + 1, r.root["NextMarker"]))
  {
  }

  /** The loop variables after a pass. */
  function Next(st: S3State, p: S3Pass): S3State {
    match p
    case Resumed(_, _, c) => S3State(c.pageCount, c.nextMarker, true)
    case NextPage(_, _, _, c) => S3State(st.pageCount + 1, c.nextMarker, st.checked)
    case _ => st
  }

  /** The inserts a pass makes, in the order it makes them. */
  function PassWrites(p: S3Pass): seq<S3Write> {
    match p
    case LastPage(_, db, records) => [FileListInsert(db, records)]
    case MarkerMissing(_, db, records) => [FileListInsert(db, records)]
    case NextPage(_, db, records, c) => [FileListInsert(db, records), ProgressInsert(db, c)]
    case _ => []
  }

  function OutcomeOf(p: S3Pass): Outcome
    requires p.Terminal()
  {
    match p
    case Crash(_, e) => Crashed(e)
    case LastPage(_, _, _) => Completed
    case MarkerMissing(_, _, _) => Crashed(MissingElement("NextMarker"))
  }

  /** A crawl: the passes made, the inserts made, how it ended and the loop
      variables at the end. */
  datatype S3Trace = S3Trace(passes: seq<S3Pass>, writes: seq<S3Write>, outcome: Outcome, final: S3State)

  function Prepend(passes: seq<S3Pass>, writes: seq<S3Write>, t: S3Trace): S3Trace {
    S3Trace(passes + t.passes, writes + t.writes, t.outcome, t.final)
  }

  type PassFn = (S3State, seq<S3Write>) -> S3Pass

  /** At most `fuel` passes of the loop, each pass made from the loop
      variables and the store by `pass`. */
  function Crawl(fuel: nat, pass: PassFn, st: S3State, log: seq<S3Write>): S3Trace
    decreases fuel
  {
    if fuel == 0 then S3Trace([], [], OutOfFuel, st)
    else
      var p := pass(st, log);
      if p.Terminal() then S3Trace([p], PassWrites(p), OutcomeOf(p), st)
      else Prepend([p], PassWrites(p), Crawl(fuel - 1, pass, Next(st, p), log + PassWrites(p)))
  }

  function PassStep(env: S3Env): PassFn {
    (st: S3State, log: seq<S3Write>) => PassOf(env, st, log)
  }

  /** At most `fuel` passes of the loop of `list_public_objects`. */
  function Run(fuel: nat, env: S3Env, st: S3State, log: seq<S3Write>): S3Trace {
    Crawl(fuel, PassStep(env), st, log)
  }

  /** `t` is what is left of the crawl `whole` after `written` was inserted. */
  predicate Continues(whole: S3Trace, written: seq<S3Write>, t: S3Trace) {
    whole.writes == written + t.writes && whole.outcome == t.outcome && whole.final == t.final
  }

  /** One pass of `Run`: a terminal pass ends the crawl, any other leaves
      the rest of the crawl to the following passes. */
  lemma RunStep(fuel: nat, env: S3Env, st: S3State, log: seq<S3Write>, whole: S3Trace, written: seq<S3Write>)
    requires fuel > 0 && Continues(whole, written, Run(fuel, env, st, log))
    ensures var p := PassOf(env, st, log);
      var w := PassWrites(p);
      (p.Terminal() ==> whole.outcome == OutcomeOf(p) && whole.final == st && whole.writes == written + w) &&
      (!p.Terminal() ==> Continues(whole, written + w, Run(fuel - 1, env, Next(st, p), log + w)))
  {
    var p := PassOf(env, st, log);
    var w := PassWrites(p);
    assert PassStep(env)(st, log) == p;
    if !p.Terminal() {
      var rest := Run(fuel - 1, env, Next(st, p), log + w);
      assert Run(fuel, env, st, log) == Prepend([p], w, rest);
      assert written + (w + rest.writes) == (written + w) + rest.writes;
    }
  }

  /** One pass of the `while True` body of `list_public_objects`: fetch,
      read the root, the resume check, then process, insert and checkpoint.
      `stop` is set where the source leaves the loop (`break` or an
      exception). */
  method CrawlPass(store: DocumentStore<ContentRecord, S3Checkpoint>, ghost env: S3Env,
                   url: string, server: Request -> S3Response, pageCount: int, marker: Option<string>, checked: bool)
    returns (pageCount': int, marker': Option<string>, checked': bool, stop: bool, outcome: Outcome)
    requires env == S3Env(url, server)
    modifies store
    ensures var st := S3State(pageCount, marker, checked);
      var p := PassOf(env, st, old(store.log));
      store.log == old(store.log) + PassWrites(p) &&
      stop == p.Terminal() && (stop ==> outcome == OutcomeOf(p)) &&
      S3State(pageCount', marker', checked') == Next(st, p)
  {
    ghost var p := PassOf(env, S3State(pageCount, marker, checked), store.log);
    pageCount', marker', checked', stop, outcome := pageCount, marker, checked, false, OutOfFuel;
    var request := ListObjectsRequest(url, marker);
    var response := server(request);
    if response.Unparsable? {
      return pageCount, marker, checked, true, Crashed(MalformedXml);
    }
    var root := response.root;
    if "Name" !in root {
      return pageCount, marker, checked, true, Crashed(MissingElement("Name"));
    }
    if "MaxKeys" !in root {
      return pageCount, marker, checked, true, Crashed(MissingElement("MaxKeys"));
    }
    if "IsTruncated" !in root {
      return pageCount, marker, checked, true, Crashed(MissingElement("IsTruncated"));
    }
    var bucketName := root["Name"];
    var isTruncated := root["IsTruncated"];
    var lastProgress := None;
    if bucketName.Some? {
      lastProgress := store.GetLastItem(bucketName.value);
    }
    if lastProgress.Some? && !checked {
      assert p == Resumed(request, bucketName.value, lastProgress.value);
      marker' := lastProgress.value.nextMarker;
      pageCount' := lastProgress.value.pageCount;
      checked' := true;
      return;
    }
    var contents := CollectContents(response.contents);
    if contents.Failure? {
      assert p == Crash(request, contents.error);
      return pageCount, marker, checked, true, Crashed(contents.error);
    }
    if bucketName.None? {
      assert p == Crash(request, InvalidDatabaseName);
      return pageCount, marker, checked, true, Crashed(InvalidDatabaseName);
    }
    var db := bucketName.value;
    store.InsertMany(db, contents.value);
    if isTruncated == Some("false") {
      assert p == LastPage(request, db, contents.value);
      return pageCount, marker, checked, true, Completed;
    }
    if "NextMarker" !in root {
      assert p == MarkerMissing(request, db, contents.value);
      return pageCount, marker, checked, true, Crashed(MissingElement("NextMarker"));
    }
    marker' := root["NextMarker"];
    pageCount' := pageCount + 1;
    store.InsertOne(db, S3Checkpoint(pageCount', marker'));
    assert p == NextPage(request, db, contents.value, S3Checkpoint(pageCount', marker'));
  }

  /** `CrawlPass` seen from the crawl: it keeps the store equal to the
      writes of the passes made so far, and when it ends the loop it ends
      it as `Run` does. */
  method CrawlStep(store: DocumentStore<ContentRecord, S3Checkpoint>, ghost env: S3Env,
                   url: string, server: Request -> S3Response, pageCount: int, marker: Option<string>, checked: bool,
                   ghost fuel: nat, ghost log0: seq<S3Write>, ghost whole: S3Trace, ghost written: seq<S3Write>)
    returns (pageCount': int, marker': Option<string>, checked': bool, stop: bool, outcome: Outcome,
             ghost written': seq<S3Write>)
    requires env == S3Env(url, server)
    requires fuel > 0 && store.log == log0 + written
    requires Continues(whole, written, Run(fuel, env, S3State(pageCount, marker, checked), store.log))
    modifies store
    ensures store.log == log0 + written'
    ensures stop ==> outcome == whole.outcome && pageCount' == whole.final.pageCount && written' == whole.writes
    ensures !stop ==> Continues(whole, written', Run(fuel - 1, env, S3State(pageCount', marker', checked'), store.log))
  {
    ghost var st, log := S3State(pageCount, marker, checked), store.log;
    RunStep(fuel, env, st, log, whole, written);
    pageCount', marker', checked', stop, outcome := CrawlPass(store, env, url, server, pageCount, marker, checked);
    written' := written + PassWrites(PassOf(env, st, log));
  }

  /** `list_public_objects`: the `while True` loop, bounded by `fuel` passes.
      The page count is the loop variable when the loop is left. */
  method ListPublicObjects(store: DocumentStore<ContentRecord, S3Checkpoint>, url: string,
                           startMarker: Option<string>, server: Request -> S3Response, fuel: nat)
    returns (outcome: Outcome, pageCount: int)
    modifies store
    ensures var t := Run(fuel, S3Env(url, server), S3State(0, startMarker, false), old(store.log));
      outcome == t.outcome && pageCount == t.final.pageCount && store.log == old(store.log) + t.writes
  {
    pageCount := 0;
    var checked := false;
    var marker := startMarker;
    ghost var env := S3Env(url, server);
    ghost var log0 := store.log;
    ghost var written: seq<S3Write> := [];
    ghost var whole := Run(fuel, env, S3State(0, startMarker, false), log0);
    assert [] + whole.writes == whole.writes && log0 + [] == log0;
    var fuelLeft := fuel;
    while fuelLeft > 0
      invariant store.log == log0 + written
      invariant Continues(whole, written, Run(fuelLeft, env, S3State(pageCount, marker, checked), store.log))
      decreases fuelLeft
    {
      var stop;
      pageCount, marker, checked, stop, outcome, written :=
        CrawlStep(store, env, url, server, pageCount, marker, checked, fuelLeft, log0, whole, written);
      if stop {
        return;
      }
      fuelLeft := fuelLeft - 1;
    }
    outcome := OutOfFuel;
  }
}
