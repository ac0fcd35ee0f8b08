/** The Azure blob-container crawl (process_azure_buckects.py): list a public
    container page by page, map each `Blob` element to a flat record, insert
    each page's records into the bucket's "fileList" collection and, while
    the listing continues, a checkpoint into its "progress" collection; a
    crawl call first resumes from the latest checkpoint. */
module AzureCrawl {
  import opened Common
  import opened PyText
  import opened Database

  /** The value `datetime.strptime` produces; its parsing is the parameter
      `parseDate` of the operations below. */
  datatype DateTime = DateTime(year: int, month: int, day: int, hour: int, minute: int, second: int, zone: string)

  type DateParser = string -> Option<DateTime>

  /** A `Blob` element: its direct children and, when present, the children
      of its `Properties` element. */
  datatype BlobElement = BlobElement(children: Fields, properties: Option<Fields>)

  /** A parsed listing: every `Blob` element, and the top-level `NextMarker`
      element (None when absent) with its text (None when empty). */
  datatype BlobListing = BlobListing(blobs: seq<BlobElement>, nextMarker: Option<Option<string>>)

  /** A response: the status code, and the body parsed as XML (None when it
      is not XML). */
  datatype AzureResponse = AzureResponse(status: int, body: Option<BlobListing>)

  /** The document `process_blob` builds for one blob. */
  datatype BlobRecord = BlobRecord(
    name: Option<string>,
    url: Option<string>,
    lastModified: DateTime,
    etag: Option<string>,
    contentLength: Option<string>,
    contentType: Option<string>,
    contentMD5: Option<string>,
    blobType: Option<string>,
    leaseStatus: Option<string>)

  /** A "progress" document: `{"NextMarker": ..., "pageCount": ...}`. */
  datatype AzureCheckpoint = AzureCheckpoint(nextMarker: Option<string>, pageCount: int)

  type AzureWrite = Write<BlobRecord, AzureCheckpoint>

  // ---------------------------------------------------------------------
  // process_blob

  /** Every element `process_blob` reads is there. */
  predicate BlobComplete(blob: BlobElement) {
    "Name" in blob.children && "Url" in blob.children && blob.properties.Some? &&
    var p := blob.properties.value;
    "Last-Modified" in p && "Etag" in p && "Content-Length" in p && "Content-Type" in p &&
    "Content-MD5" in p && "BlobType" in p && "LeaseStatus" in p
  }

  /** The `Last-Modified` text of a complete blob parses as a date. */
  predicate DateParses(blob: BlobElement, parseDate: DateParser)
    requires BlobComplete(blob)
  {
    var text := blob.properties.value["Last-Modified"];
    text.Some? && parseDate(text.value).Some?
  }

  /** `process_blob`: read the blob's children in the source's order; the
      first missing element, an empty `Last-Modified` or an unparsable date
      raises. */
  function ProcessBlob(blob: BlobElement, parseDate: DateParser): (r: Result<BlobRecord>)
    ensures r.Success? <==> BlobComplete(blob) && DateParses(blob, parseDate)
    ensures r.Success? ==>
      var p := blob.properties.value;
      r.value.name == blob.children["Name"] && r.value.url == blob.children["Url"] &&
      Some(r.value.lastModified) == parseDate(p["Last-Modified"].value) &&
      r.value.etag == p["Etag"] && r.value.contentLength == p["Content-Length"] &&
      r.value.contentType == p["Content-Type"] && r.value.contentMD5 == p["Content-MD5"] &&
      r.value.blobType == p["BlobType"] && r.value.leaseStatus == p["LeaseStatus"]
    ensures "Name" !in blob.children ==> r == Failure(MissingElement("Name"))
    ensures "Name" in blob.children && "Url" in blob.children && blob.properties.None? ==>
      r == Failure(MissingElement("Properties"))
  {
    var name :- FindText(blob.children, "Name");
    var url :- FindText(blob.children, "Url");
    if blob.properties.None? then Failure(MissingElement("Properties"))
    else
      var p := blob.properties.value;
      var lastModifiedText :- FindText(p, "Last-Modified");
      if lastModifiedText.None? then Failure(MissingText("Last-Modified"))
      else if parseDate(lastModifiedText.value).None? then Failure(BadTimestamp(lastModifiedText.value))
      else
        var lastModified := parseDate(lastModifiedText.value).value;
        var etag :- FindText(p, "Etag");
        var contentLength :- FindText(p, "Content-Length");
        var contentType :- FindText(p, "Content-Type");
        var contentMD5 :- FindText(p, "Content-MD5");
        var blobType :- FindText(p, "BlobType");
        var leaseStatus :- FindText(p, "LeaseStatus");
        Success(BlobRecord(name, url, lastModified, etag, contentLength, contentType,
                           contentMD5, blobType, leaseStatus))
  }

  /** The loop over `root.findall('.//Blob')`: every blob's record, in order,
      or the error of the first blob that fails. */
  function ProcessBlobs(blobs: seq<BlobElement>, parseDate: DateParser): Result<seq<BlobRecord>>
    decreases |blobs|
  {
    if blobs == [] then Success([])
    else
      var first :- ProcessBlob(blobs[0], parseDate);
      var rest :- ProcessBlobs(blobs[1..], parseDate);
      Success([first] + rest)
  }

  /** A page yields all of its records, pointwise and in order, exactly when
      every blob on it is processed. */
  lemma {:induction false} ProcessBlobsAll(blobs: seq<BlobElement>, parseDate: DateParser)
    ensures var r := ProcessBlobs(blobs, parseDate);
      (r.Success? <==> forall i :: 0 <= i < |blobs| ==> ProcessBlob(blobs[i], parseDate).Success?) &&
      (r.Success? ==>
        |r.value| == |blobs| &&
        forall i :: 0 <= i < |blobs| ==> r.value[i] == ProcessBlob(blobs[i], parseDate).value)
    decreases |blobs|
  {
    if blobs != [] {
      ProcessBlobsAll(blobs[1..], parseDate);
      assert forall i :: 1 <= i < |blobs| ==> blobs[1..][i - 1] == blobs[i];
    }
  }

  /** A page that fails fails with the error of its first failing blob: no
      partial page is kept. */
  lemma {:induction false} ProcessBlobsFirstError(blobs: seq<BlobElement>, parseDate: DateParser)
    requires ProcessBlobs(blobs, parseDate).Failure?
    ensures exists i :: (0 <= i < |blobs| && ProcessBlob(blobs[i], parseDate) == Failure(ProcessBlobs(blobs, parseDate).error) &&
                         forall j :: 0 <= j < i ==> ProcessBlob(blobs[j], parseDate).Success?)
    decreases |blobs|
  {
    var first := ProcessBlob(blobs[0], parseDate);
    if first.Failure? {
      assert ProcessBlob(blobs[0], parseDate) == Failure(ProcessBlobs(blobs, parseDate).error);
    } else {
      var tail := blobs[1..];
      ProcessBlobsFirstError(tail, parseDate);
      var k :| 0 <= k < |tail| && ProcessBlob(tail[k], parseDate) == Failure(ProcessBlobs(tail, parseDate).error) &&
        (forall j :: 0 <= j < k ==> ProcessBlob(tail[j], parseDate).Success?);
      assert tail[k] == blobs[k + 1];
      assert forall j :: 1 <= j < k + 1 ==> tail[j - 1] == blobs[j];
      assert ProcessBlob(blobs[k + 1], parseDate) == Failure(ProcessBlobs(blobs, parseDate).error);
    }
  }

  lemma ProcessBlobsCons(blobs: seq<BlobElement>, parseDate: DateParser)
    requires blobs != []
    ensures ProcessBlobs(blobs, parseDate) ==
      match ProcessBlob(blobs[0], parseDate)
      case Failure(e) => Failure(e)
      case Success(record) => AfterCollected([record], ProcessBlobs(blobs[1..], parseDate))
  {
  }

  /** The blob loop of `process_public_azure_bucket`, run statement by
      statement. */
  method CollectBlobs(blobs: seq<BlobElement>, parseDate: DateParser) returns (r: Result<seq<BlobRecord>>)
    ensures r == ProcessBlobs(blobs, parseDate)
  {
    var records: seq<BlobRecord> := [];
    var i := 0;
    assert blobs[0..] == blobs;
    assert AfterCollected([], ProcessBlobs(blobs, parseDate)) == ProcessBlobs(blobs, parseDate) by {
      if ProcessBlobs(blobs, parseDate).Success? {
        assert [] + ProcessBlobs(blobs, parseDate).value == ProcessBlobs(blobs, parseDate).value;
      }
    }
    while i < |blobs|
      invariant 0 <= i <= |blobs|
      invariant ProcessBlobs(blobs, parseDate) == AfterCollected(records, ProcessBlobs(blobs[i..], parseDate))
    {
      assert blobs[i..][0] == blobs[i] && blobs[i..][1..] == blobs[i + 1..];
      ProcessBlobsCons(blobs[i..], parseDate);
      var record := ProcessBlob(blobs[i], parseDate);
      if record.Failure? {
        assert ProcessBlobs(blobs[i..], parseDate) == Failure(record.error);
        return Failure(record.error);
      }
      ghost var rest := ProcessBlobs(blobs[i + 1..], parseDate);
      assert ProcessBlobs(blobs[i..], parseDate) == AfterCollected([record.value], rest);
      AfterCollectedAppend(records, record.value, rest);
      records := records + [record.value];
      i := i + 1;
    }
    assert blobs[i..] == [];
    assert ProcessBlobs(blobs[i..], parseDate) == Success([]);
    assert records + [] == records;
    r := Success(records);
  }

  // ---------------------------------------------------------------------
  // extract_bucket_name_from_url

  /** `hostLabel` is the longest prefix of `rest` that holds no '.' and in which
      no "//" starts. */
  predicate IsLabelPrefix(rest: string, hostLabel: string) {
    hostLabel <= rest &&
    '.' !in hostLabel &&
    (forall j :: 0 <= j < |hostLabel| ==> !OccursAt(rest, "//", j)) &&
    (|hostLabel| == |rest| || rest[|hostLabel|] == '.' || OccursAt(rest, "//", |hostLabel|))
  }

  /** `hostLabel` is what `url.split("//")[1].split(".")[0]` yields. */
  predicate IsHostLabel(url: string, hostLabel: string) {
    match Find(url, "//")
    case None => false
    case Some(i) => IsLabelPrefix(url[i + 2..], hostLabel)
  }

  /** `extract_bucket_name_from_url`: the text after the first "//", up to
      the first '.' or the next "//"; a URL without "//" raises. */
  function ExtractBucketName(url: string): (r: Result<string>)
    ensures r.Failure? <==> !Contains(url, "//")
    ensures r.Failure? ==> r.error == NoSchemeSeparator
    ensures r.Success? ==> IsHostLabel(url, r.value)
  {
    var pieces := Split(url, "//");
    if |pieces| < 2 then Failure(NoSchemeSeparator)
    else
      var i := Find(url, "//").value;
      var rest := url[i + 2..];
      var host := Split(rest, "//")[0];
      assert pieces[1] == host;
      var hostLabel := Split(host, ".")[0];
      LabelIsPrefix(rest, host, hostLabel);
      Success(hostLabel)
  }

  lemma LabelIsPrefix(rest: string, host: string, hostLabel: string)
    requires host == Split(rest, "//")[0] && hostLabel == Split(host, ".")[0]
    ensures IsLabelPrefix(rest, hostLabel)
  {
    var k := match Find(rest, "//") case None => |rest| case Some(k) => k;
    assert host == rest[..k];
    var k' := match Find(host, ".") case None => |host| case Some(k') => k';
    assert hostLabel == host[..k'];
    forall j | 0 <= j < |hostLabel| ensures hostLabel[j] != '.' {
      OccursChar(host, '.', j);
    }
    if k' < |host| {
      OccursChar(host, '.', k');
    } else if k < |rest| {
      assert OccursAt(rest, "//", k);
    }
  }

  /** The host label is determined by the URL. */
  lemma LabelPrefixUnique(rest: string, a: string, b: string)
    requires IsLabelPrefix(rest, a) && IsLabelPrefix(rest, b)
    ensures a == b
  {
  }

  /** The first "//" of `scheme + "//" + after` is the one after the scheme
      when the scheme has no '/'. */
  lemma SchemeSeparator(scheme: string, after: string)
    requires '/' !in scheme
    ensures Find(scheme + "//" + after, "//") == Some(|scheme|)
  {
    var url := scheme + "//" + after;
    assert OccursAt(url, "//", |scheme|) by {
      assert url[|scheme|..|scheme| + 2] == "//";
    }
    forall j | 0 <= j < |scheme| ensures !OccursAt(url, "//", j) {
      assert url[j] == scheme[j];
    }
  }

  /** A label without '.' or '/' followed by nothing or by a '.' is the
      label prefix of the text. */
  lemma LabelThenTail(hostLabel: string, tail: string)
    requires '.' !in hostLabel && '/' !in hostLabel
    requires tail == [] || tail[0] == '.'
    ensures IsLabelPrefix(hostLabel + tail, hostLabel)
  {
    var rest := hostLabel + tail;
    forall j | 0 <= j < |hostLabel| ensures !OccursAt(rest, "//", j) {
      assert rest[j] == hostLabel[j];
    }
    if tail != [] {
      assert rest[|hostLabel|] == tail[0];
    }
  }

  /** For a URL `scheme://label.rest` whose scheme has no '/' and whose
      label has neither '.' nor '/', the bucket name is the label. */
  lemma BucketNameOfHostUrl(scheme: string, hostLabel: string, tail: string)
    requires '/' !in scheme && '.' !in hostLabel && '/' !in hostLabel
    requires tail == [] || tail[0] == '.'
    ensures ExtractBucketName(scheme + "//" + hostLabel + tail) == Success(hostLabel)
  {
    var url := scheme + "//" + hostLabel + tail;
    assert url == scheme + "//" + (hostLabel + tail);
    SchemeSeparator(scheme, hostLabel + tail);
    assert url[|scheme| + 2..] == hostLabel + tail;
    LabelThenTail(hostLabel, tail);
    LabelPrefixUnique(hostLabel + tail, hostLabel, ExtractBucketName(url).value);
  }

  /** The container URL of the source's main block,
      https://littleimages.blob.core.windows.net/documents/, names the
      bucket "littleimages". */
  lemma ExampleBucketName(url: string)
    requires url == "https:" + "//" + "littleimages" + ".blob.core.windows.net/documents/"
    ensures ExtractBucketName(url) == Success("littleimages")
  {
    BucketNameOfHostUrl("https:", "littleimages", ".blob.core.windows.net/documents/");
  }

  /** `if not azure_bucket_name`: an explicit non-empty name is used as
      given, otherwise the name comes from the URL. */
  function BucketNameFor(url: string, bucketName: Option<string>): (r: Result<string>)
    ensures Truthy(bucketName) ==> r == Success(bucketName.value)
    ensures !Truthy(bucketName) ==> (r.Success? <==> Contains(url, "//"))
    ensures !Truthy(bucketName) && r.Success? ==> IsHostLabel(url, r.value)
  {
    if Truthy(bucketName) then Success(bucketName.value) else ExtractBucketName(url)
  }

  // ---------------------------------------------------------------------
  // The request

  /** `requests.get(url, params=...)` as the loop issues it: with a marker,
      the marker and `max_results`; without one, always 1000 results. */
  function ListBlobsRequest(url: string, marker: Option<string>, maxResults: int): (r: Request)
    ensures r.url == url
    ensures Param(r.params, "marker") == if Truthy(marker) then Some(Text(marker.value)) else None
    ensures Param(r.params, "restype") == Some(Text("container"))
    ensures Param(r.params, "comp") == Some(Text("list"))
    ensures Param(r.params, "maxresults") == Some(Number(if Truthy(marker) then maxResults else 1000))
    ensures |r.params| == if Truthy(marker) then 4 else 3
  {
    var params :=
      (if Truthy(marker) then [("marker", Text(marker.value))] else []) +
      [("restype", Text("container")), ("comp", Text("list")),
       ("maxresults", Number(if Truthy(marker) then maxResults else 1000))];
    var k := if Truthy(marker) then 1 else 0;
    ParamAt(params, "restype", k);
    ParamAt(params, "comp", k + 1);
    ParamAt(params, "maxresults", k + 2);
    if Truthy(marker) then
      ParamAt(params, "marker", 0);
      Request(url, params)
    else
      ParamAbsent(params, "marker");
      Request(url, params)
  }

  // ---------------------------------------------------------------------
  // The crawl loop

  /** The loop variables `page_count`, `next_marker`, `checked_for_progress`. */
  datatype AzureState = AzureState(pageCount: int, marker: Option<string>, checked: bool)

  /** What one crawl call works with: the container URL, the database
      (bucket) name, `max_results`, the listing endpoint and the date parser. */
  datatype AzureEnv = AzureEnv(
    url: string,
    db: string,
    maxResults: int,
    server: Request -> AzureResponse,
    parseDate: DateParser)

  /** What one pass of `while True` did. */
  datatype AzurePass =
    | Resumed(checkpoint: AzureCheckpoint)                                          // `continue` without fetching
    | StatusStop(request: Request, status: int)                                      // non-200: `break`
    | Crash(request: Request, error: Error)                                          // an exception
    | LastPage(request: Request, records: seq<BlobRecord>)                           // no NextMarker: `break`
    | NextPage(request: Request, records: seq<BlobRecord>, checkpoint: AzureCheckpoint)
  {
    predicate Terminal() { StatusStop? || Crash? || LastPage? }
  }

  /** One pass of the loop from state `st` with the store holding `log`. */
  function PassOf(env: AzureEnv, st: AzureState, log: seq<AzureWrite>): AzurePass
  {
    var last := LastProgress(log, env.db);
    if last.Some? && !st.checked then Resumed(last.value)
    else
      var request := ListBlobsRequest(env.url, st.marker, env.maxResults);
      var response := env.server(request);
      if response.status != 200 then StatusStop(request, response.status)
      else if response.body.None? then Crash(request, MalformedXml)
      else
        var listing := response.body.value;
        match ProcessBlobs(listing.blobs, env.parseDate)
        case Failure(e) => Crash(request, e)
        case Success(records) =>
          match listing.nextMarker
          case None => LastPage(request, records)
          case Some(text) => NextPage(request, records, AzureCheckpoint(text, st.pageCount))
  }

  /** What a pass does: it resumes exactly when the progress check has not
      been done and the bucket has a checkpoint, taking the latest one;
      otherwise it requests the page at the current marker and stops on a
      status other than 200; a body that is not XML raises `MalformedXml` and
      a failing blob raises that blob's error; it completes a page exactly when the page has
      no NextMarker element, and otherwise checkpoints that marker with the
      page count before the increment. */
  lemma PassOfSpec(env: AzureEnv, st: AzureState, log: seq<AzureWrite>)
    ensures var p := PassOf(env, st, log);
      (p.Resumed? <==> !st.checked && Progress(log, env.db) != []) &&
      (p.Resumed? ==> p.checkpoint == Progress(log, env.db)[|Progress(log, env.db)| - 1]) &&
      (!p.Resumed? ==> p.request == ListBlobsRequest(env.url, st.marker, env.maxResults)) &&
      (p.StatusStop? <==> !p.Resumed? && env.server(p.request).status != 200) &&
      (p.Crash? ==>
        var response := env.server(p.request);
        response.status == 200 &&
        ((response.body.None? && p.error == MalformedXml) ||
         (response.body.Some? && ProcessBlobs(response.body.value.blobs, env.parseDate) == Failure(p.error)))) &&
      ((!p.Resumed? && env.server(p.request).status == 200 &&
        (env.server(p.request).body.None? ||
         ProcessBlobs(env.server(p.request).body.value.blobs, env.parseDate).Failure?)) ==> p.Crash?) &&
      (p.LastPage? || p.NextPage? ==>
        var response := env.server(p.request);
        response.status == 200 && response.body.Some? &&
        ProcessBlobs(response.body.value.blobs, env.parseDate) == Success(p.records)) &&
      (p.LastPage? <==>
        !p.Resumed? && !p.StatusStop? && !p.Crash? && env.server(p.request).body.value.nextMarker.None?) &&
      (p.NextPage? ==>
        p.checkpoint == AzureCheckpoint(env.server(p.request).body.value.nextMarker.value, st.pageCount))
  {
  }

  /** The loop variables after a pass. */
  function Next(st: AzureState, p: AzurePass): AzureState {
    match p
    case Resumed(c) => AzureState(c.pageCount, c.nextMarker, true)
    case NextPage(_, _, c) => AzureState(st.pageCount + 1, c.nextMarker, st.checked)
    case _ => st
  }

  /** The inserts a pass makes, in the order it makes them. */
  function PassWrites(db: string, p: AzurePass): seq<AzureWrite> {
    match p
    case LastPage(_, records) => [FileListInsert(db, records)]
    case NextPage(_, records, c) => [FileListInsert(db, records), ProgressInsert(db, c)]
    case _ => []
  }

  function OutcomeOf(p: AzurePass): Outcome
    requires p.Terminal()
  {
    match p
    case StatusStop(_, status) => HttpStatus(status)
    case Crash(_, e) => Crashed(e)
    case LastPage(_, _) => Completed
  }

  /** A crawl: the passes made, the inserts made, how it ended and the loop
      variables at the end. */
  datatype AzureTrace = AzureTrace(passes: seq<AzurePass>, writes: seq<AzureWrite>, outcome: Outcome, final: AzureState)

  function Prepend(passes: seq<AzurePass>, writes: seq<AzureWrite>, t: AzureTrace): AzureTrace {
    AzureTrace(passes + t.passes, writes + t.writes, t.outcome, t.final)
  }

  type PassFn = (AzureState, seq<AzureWrite>) -> AzurePass

  /** The loop with the pass made from a state and a store given by `pass`,
      inserting into database `db`. */
  function Crawl(fuel: nat, db: string, pass: PassFn, st: AzureState, log: seq<AzureWrite>): AzureTrace
    decreases fuel
  {
    if fuel == 0 then AzureTrace([], [], OutOfFuel, st)
    else
      var p := pass(st, log);
      if p.Terminal() then AzureTrace([p], PassWrites(db, p), OutcomeOf(p), st)
      else Prepend([p], PassWrites(db, p), Crawl(fuel - 1, db, pass, Next(st, p), log + PassWrites(db, p)))
  }

  function PassStep(env: AzureEnv): PassFn {
    (st: AzureState, log: seq<AzureWrite>) => PassOf(env, st, log)
  }

  /** At most `fuel` passes of the loop of `process_public_azure_bucket`. */
  function Run(fuel: nat, env: AzureEnv, st: AzureState, log: seq<AzureWrite>): AzureTrace {
    Crawl(fuel, env.db, PassStep(env), st, log)
  }

  /** `t` is what is left of the crawl `whole` after `written` was inserted. */
  predicate Continues(whole: AzureTrace, written: seq<AzureWrite>, t: AzureTrace) {
    whole.writes == written + t.writes && whole.outcome == t.outcome && whole.final == t.final
  }

  /** One pass of `Run`: a terminal pass ends the crawl, any other leaves
      the rest of the crawl to the following passes. */
  lemma RunStep(fuel: nat, env: AzureEnv, st: AzureState, log: seq<AzureWrite>,
                whole: AzureTrace, written: seq<AzureWrite>)
    requires fuel > 0 && Continues(whole, written, Run(fuel, env, st, log))
    ensures var p := PassOf(env, st, log);
      var w := PassWrites(env.db, p);
      (p.Terminal() ==> whole.outcome == OutcomeOf(p) && whole.final == st && whole.writes == written + w) &&
      (!p.Terminal() ==> Continues(whole, written + w, Run(fuel - 1, env, Next(st, p), log + w)))
  {
    var p := PassOf(env, st, log);
    var w := PassWrites(env.db, p);
    assert PassStep(env)(st, log) == p;
    if !p.Terminal() {
      var rest := Run(fuel - 1, env, Next(st, p), log + w);
      assert Run(fuel, env, st, log) == Prepend([p], w, rest);
      assert written + (w + rest.writes) == (written + w) + rest.writes;
    }
  }

  /** Before any insert, the rest of a crawl is the whole crawl. */
  lemma ContinuesFromStart(whole: AzureTrace)
    ensures Continues(whole, [], whole)
  {
    assert [] + whole.writes == whole.writes;
  }

  /** With no fuel left the crawl ends where it is, having written nothing more. */
  lemma RunNoFuel(env: AzureEnv, st: AzureState, log: seq<AzureWrite>, whole: AzureTrace, written: seq<AzureWrite>)
    requires Continues(whole, written, Run(0, env, st, log))
    ensures whole.outcome == OutOfFuel && whole.final == st && whole.writes == written
  {
    assert written + [] == written;
  }

  /** After a pass that does not end the crawl, the rest of the crawl runs
      from the state and the store the pass left behind. */
  lemma RunAdvance(fuel: nat, env: AzureEnv, st: AzureState, log: seq<AzureWrite>,
                   whole: AzureTrace, written: seq<AzureWrite>, st': AzureState, log': seq<AzureWrite>)
    requires fuel > 0 && Continues(whole, written, Run(fuel, env, st, log))
    requires !PassOf(env, st, log).Terminal()
    requires st' == Next(st, PassOf(env, st, log)) && log' == log + PassWrites(env.db, PassOf(env, st, log))
    ensures Continues(whole, written + PassWrites(env.db, PassOf(env, st, log)), Run(fuel - 1, env, st', log'))
  {
    RunStep(fuel, env, st, log, whole, written);
  }

  /** One pass of the `while True` body of `process_public_azure_bucket`:
      the resume check, or fetch, parse, insert and checkpoint. `stop` is
      set where the source leaves the loop (`break` or an exception). */
  method CrawlPass(store: DocumentStore<BlobRecord, AzureCheckpoint>, ghost env: AzureEnv,
                   url: string, db: string, maxResults: int, server: Request -> AzureResponse,
                   parseDate: DateParser, pageCount: int, marker: Option<string>, checked: bool)
    returns (pageCount': int, marker': Option<string>, checked': bool, stop: bool, outcome: Outcome)
    requires env == AzureEnv(url, db, maxResults, server, parseDate)
    modifies store
    ensures var st := AzureState(pageCount, marker, checked);
      var p := PassOf(env, st, old(store.log));
      store.log == old(store.log) + PassWrites(db, p) &&
      stop == p.Terminal() && (stop ==> outcome == OutcomeOf(p)) &&
      AzureState(pageCount', marker', checked') == Next(st, p)
  {
    ghost var st := AzureState(pageCount, marker, checked);
    ghost var p := PassOf(env, st, store.log);
    pageCount', marker', checked', stop, outcome := pageCount, marker, checked, false, OutOfFuel;
    var lastProgress := store.GetLastItem(db);
    if lastProgress.Some? && !checked {
      assert p == Resumed(lastProgress.value);
      marker' := lastProgress.value.nextMarker;
      pageCount' := lastProgress.value.pageCount;
      checked' := true;
      return;
    }
    var request := ListBlobsRequest(url, marker, maxResults);
    var response := server(request);
    if response.status != 200 {
      assert p == StatusStop(request, response.status);
      return pageCount, marker, checked, true, HttpStatus(response.status);
    }
    if response.body.None? {
      assert p == Crash(request, MalformedXml);
      return pageCount, marker, checked, true, Crashed(MalformedXml);
    }
    var listing := response.body.value;
    var blobs := CollectBlobs(listing.blobs, parseDate);
    if blobs.Failure? {
      assert p == Crash(request, blobs.error);
      return pageCount, marker, checked, true, Crashed(blobs.error);
    }
    store.InsertMany(db, blobs.value);
    if listing.nextMarker.None? {
      assert p == LastPage(request, blobs.value);
      return pageCount, marker, checked, true, Completed;
    }
    marker' := listing.nextMarker.value;
    store.InsertOne(db, AzureCheckpoint(marker', pageCount));
    assert p == NextPage(request, blobs.value, AzureCheckpoint(marker', pageCount));
    pageCount' := pageCount + 1;
  }

  /** `CrawlPass` seen from the crawl: it keeps the store equal to the
      writes of the passes made so far, and when it ends the loop it ends
      it as `Run` does. */
  method CrawlStep(store: DocumentStore<BlobRecord, AzureCheckpoint>, ghost env: AzureEnv,
                   url: string, db: string, maxResults: int, server: Request -> AzureResponse,
                   parseDate: DateParser, pageCount: int, marker: Option<string>, checked: bool,
                   ghost fuel: nat, ghost log0: seq<AzureWrite>, ghost whole: AzureTrace, ghost written: seq<AzureWrite>)
    returns (pageCount': int, marker': Option<string>, checked': bool, stop: bool, outcome: Outcome,
             ghost written': seq<AzureWrite>)
    requires env == AzureEnv(url, db, maxResults, server, parseDate)
    requires fuel > 0 && store.log == log0 + written
    requires Continues(whole, written, Run(fuel, env, AzureState(pageCount, marker, checked), store.log))
    modifies store
    ensures store.log == log0 + written'
    ensures stop ==> outcome == whole.outcome && pageCount' == whole.final.pageCount && written' == whole.writes
    ensures !stop ==> Continues(whole, written', Run(fuel - 1, env, AzureState(pageCount', marker', checked'), store.log))
  {
    ghost var st, log := AzureState(pageCount, marker, checked), store.log;
    RunStep(fuel, env, st, log, whole, written);
    pageCount', marker', checked', stop, outcome :=
      CrawlPass(store, env, url, db, maxResults, server, parseDate, pageCount, marker, checked);
    written' := written + PassWrites(db, PassOf(env, st, log));
    if !stop {
      RunAdvance(fuel, env, st, log, whole, written, AzureState(pageCount', marker', checked'), store.log);
    }
  }

  /** `process_public_azure_bucket`: the database name, then the loop,
      bounded by `fuel` passes. */
  method CrawlAzure(store: DocumentStore<BlobRecord, AzureCheckpoint>, url: string, startMarker: Option<string>,
                    bucketName: Option<string>, maxResults: int, server: Request -> AzureResponse,
                    parseDate: DateParser, fuel: nat)
    returns (outcome: Outcome, pageCount: int)
    modifies store
    ensures BucketNameFor(url, bucketName).Failure? ==>
      outcome == Crashed(BucketNameFor(url, bucketName).error) && pageCount == 0 && store.log == old(store.log)
    ensures BucketNameFor(url, bucketName).Success? ==>
      var t := Run(fuel, AzureEnv(url, BucketNameFor(url, bucketName).value, maxResults, server, parseDate),
                   AzureState(0, startMarker, false), old(store.log));
      outcome == t.outcome && pageCount == t.final.pageCount && store.log == old(store.log) + t.writes
  {
    var db: string;
    if Truthy(bucketName) {
      db := bucketName.value;
    } else {
      var derived := ExtractBucketName(url);
      if derived.Failure? {
        return Crashed(derived.error), 0;
      }
      db := derived.value;
    }
    outcome, pageCount := CrawlLoop(store, url, db, startMarker, maxResults, server, parseDate, fuel);
  }

  /** The `while True` loop of `process_public_azure_bucket` on database `db`,
      bounded by `fuel` passes. */
  method CrawlLoop(store: DocumentStore<BlobRecord, AzureCheckpoint>, url: string, db: string,
                   startMarker: Option<string>, maxResults: int, server: Request -> AzureResponse,
                   parseDate: DateParser, fuel: nat)
    returns (outcome: Outcome, pageCount: int)
    modifies store
    ensures var t := Run(fuel, AzureEnv(url, db, maxResults, server, parseDate),
                         AzureState(0, startMarker, false), old(store.log));
      outcome == t.outcome && pageCount == t.final.pageCount && store.log == old(store.log) + t.writes
  {
    pageCount := 0;
    var checked := false;
    var marker := startMarker;
    ghost var env := AzureEnv(url, db, maxResults, server, parseDate);
    ghost var log0 := store.log;
    ghost var written: seq<AzureWrite> := [];
    ghost var whole := Run(fuel, env, AzureState(0, startMarker, false), log0);
    ContinuesFromStart(whole);
    assert log0 + [] == log0;
    var fuelLeft := fuel;
    while fuelLeft > 0
      invariant store.log == log0 + written
      invariant Continues(whole, written, Run(fuelLeft, env, AzureState(pageCount, marker, checked), store.log))
      decreases fuelLeft
    {
      var stop;
      pageCount, marker, checked, stop, outcome, written :=
        CrawlStep(store, env, url, db, maxResults, server, parseDate, pageCount, marker, checked,
                  fuelLeft, log0, whole, written);
      if stop {
        return;
      }
      fuelLeft := fuelLeft - 1;
    }
    RunNoFuel(env, AzureState(pageCount, marker, checked), store.log, whole, written);
    outcome := OutOfFuel;
  }
}
