# Resumable bucket crawls, modelled in Dafny

bucket_explorer lists the objects of a public cloud bucket page by page. It stores one flat record per object in a MongoDB database named after the bucket, in its "fileList" collection. After every page that has a continuation marker, it also stores a checkpoint in the "progress" collection. A later call can then resume from the latest checkpoint. There are two crawlers:

- **Azure** (`process_public_azure_bucket`, process_azure_buckects.py).
  - It lists a blob container with `restype=container&comp=list`.
  - It maps each `Blob` element to a record (`process_blob`).
  - It names the database after the bucket: the name given by the caller, or else the host label of the container URL (`extract_bucket_name_from_url`).
  - It stops on a status other than 200, or at the page without a `NextMarker` element.
- **DigitalOcean Spaces / S3** (`list_public_objects`, process_digital_ocean_buckets.py).
  - It lists with an optional `marker` parameter.
  - It maps each `Contents` element to a record whose file type is the key's extension (`generate_extension_from_name`).
  - It names the database by the page's own `Name` element.
  - It looks for a checkpoint after fetching a page.
  - It stops at the page whose `IsTruncated` text is `false`.

The model has these files:

- `database.dfy` models the store (database_operation.py). It is the log of inserts, in insertion order, which is also `_id` order. The "fileList" and "progress" collections of a database, and `get_last_item`, are views of that log. `DocumentStore` is the class whose methods append to it.
- `common.dfy` holds the shared pieces:
  - optional values and results;
  - the exceptions a crawl call can end with;
  - parsed XML children (`Fields`: tag ↦ optional text);
  - GET requests;
  - the ways a call ends.
- `pytext.dfy` holds Python's `str.find` and `str.split`.
- `azure.dfy` and `digitalocean.dfy` each hold the following for their crawler:
  - the record mapping and the request;
  - a pure function `PassOf` for one pass of the `while True` loop, with lemma `PassOfSpec` stating what a pass does;
  - `Run`, at most `fuel` passes;
  - the imperative crawl. It is a method with a `while` loop over the loop variables `page_count`, `next_marker` and `checked_for_progress`. It calls the store's `InsertMany`, `InsertOne` and `GetLastItem`, and is proved to leave the store and return exactly what `Run` says.
- `azure_runs.dfy` and `digitalocean_runs.dfy` prove what a whole call does:
  - how often it resumes;
  - the order of its inserts;
  - exactly when it stops;
  - the page counts it records;
  - small buckets worked through pass by pass.

The listing endpoint is a parameter of each crawl. It is a function from the request to the parsed response. The Azure date parser (`datetime.strptime`) is also a parameter.

## Model

| member | source | states |
|---|---|---|
| Database.DocumentStore.InsertMany | database_operation.py:41-53 | `insert_many(db, "fileList", data)` appends one insert of those records, into that database, to the store and changes nothing else |
| Database.DocumentStore.InsertOne | database_operation.py:54-65 | `insert_one(db, "progress", data)` appends one checkpoint insert, into that database, and changes nothing else |
| Database.LastProgress | database_operation.py:66-79 | the latest checkpoint is None exactly when the database has no checkpoint (including when it does not exist), and otherwise is the last one inserted |
| Database.DocumentStore.GetLastItem | database_operation.py:66-79 | `get_last_item(db, "progress")` returns the latest checkpoint of that database and leaves the store unchanged |
| Database.FileListConcat | database_operation.py:41-53 | records inserted later come after earlier ones in a database's "fileList" collection |
| Database.ProgressConcat | database_operation.py:54-65 | checkpoints inserted later come after earlier ones in a database's "progress" collection |
| PyText.Find | process_azure_buckects.py:50 | the first occurrence of the separator, or none exactly when it does not occur |
| PyText.Split | process_digital_ocean_buckets.py:107 | `str.split(sep)`: the parts joined by `sep` give back the string; no part contains `sep`; there is more than one part exactly when the string contains `sep`; the first part ends at the first `sep` |
| PyText.JoinLast | process_digital_ocean_buckets.py:109 | the last part of a split is what follows the last separator |
| AzureCrawl.ProcessBlob | process_azure_buckects.py:13-42 | a blob succeeds exactly when `Name`, `Url`, `Properties` and its seven children are present and `Last-Modified` has text that parses. Name, Url, Etag, Content-Length, Content-Type, Content-MD5, BlobType and LeaseStatus are copied verbatim, with the parsed date. A missing `Name` or `Properties` gives that element's error |
| AzureCrawl.ProcessBlobsAll | process_azure_buckects.py:110-114 | a page yields records exactly when every blob succeeds; the records are then the blobs' records, pointwise and in order |
| AzureCrawl.ProcessBlobsFirstError | process_azure_buckects.py:110-114 | a failing page fails with the error of its first failing blob |
| AzureCrawl.CollectBlobs | process_azure_buckects.py:111-114 | the blob loop returns exactly the page's records or its first error |
| AzureCrawl.ExtractBucketName | process_azure_buckects.py:44-51 | a URL without "//" raises; otherwise the result is the text after the first "//", up to the first '.' or the next "//", so it holds no '.' |
| AzureCrawl.LabelPrefixUnique | process_azure_buckects.py:50 | the host label of a URL is unique |
| AzureCrawl.BucketNameOfHostUrl | process_azure_buckects.py:50 | for `scheme://label.rest`, with no '/' in the scheme and no '.' or '/' in the label, the name is the label |
| AzureCrawl.ExampleBucketName | process_azure_buckects.py:145-148 | https://littleimages.blob.core.windows.net/documents/ names the bucket "littleimages" |
| AzureCrawl.BucketNameFor | process_azure_buckects.py:70-71 | an explicit non-empty name is used unchanged; otherwise the name is derived from the URL, and that fails exactly when the URL has no "//" |
| AzureCrawl.ListBlobsRequest | process_azure_buckects.py:88-100 | the request goes to the URL with `restype=container` and `comp=list`. With a truthy marker it also has `marker` and `maxresults=max_results` (4 parameters). Without one, it has no marker and `maxresults=1000` (3 parameters) |
| AzureCrawl.PassOfSpec | process_azure_buckects.py:72-131 | a pass resumes, without a request, exactly when the check is not done and the bucket has a checkpoint, and it takes the latest. Otherwise it requests the page at the current marker, and it stops exactly on a status other than 200. A page it keeps holds exactly the processed blobs; it is the last page exactly when there is no NextMarker element. Otherwise it is checkpointed with the NextMarker text and the page count before the increment |
| AzureCrawl.CrawlPass | process_azure_buckects.py:75-138 | one loop body changes the store by exactly that pass's inserts, in order, and the loop variables as the pass says. It leaves the loop exactly on a terminal pass |
| AzureCrawl.CrawlLoop | process_azure_buckects.py:68-138 | the loop, from page 0 with the progress check not done, returns the outcome and final `page_count` of `Run` and appends exactly `Run`'s inserts to the store |
| AzureCrawl.CrawlAzure | process_azure_buckects.py:52-143 | a failing name derivation raises before any insert; otherwise the call is `Run` on the chosen database |
| AzureRuns.RunWrites | process_azure_buckects.py:117-129 | the inserts of a call are those of its passes, in pass order |
| AzureRuns.CrawlCheckpointsFollowRecords | process_azure_buckects.py:117-129 | every checkpoint is inserted right after a records insert into the same database |
| AzureRuns.ResumesAtMostOnce | process_azure_buckects.py:75-87 | a call resumes at most once, and never after the check is done |
| AzureRuns.ResumeFromLatest | process_azure_buckects.py:80-100 | on a bucket with checkpoints, the first pass takes the latest checkpoint without fetching. The second pass does not resume and requests the page at that checkpoint's marker, with the caller's marker discarded |
| AzureRuns.OnlyLastPassTerminal | process_azure_buckects.py:104-131 | no pass before the last is terminal |
| AzureRuns.RunOutcome | process_azure_buckects.py:72-131 | a call makes at most `fuel` passes. It ends other than by fuel exactly when its last pass is terminal, and its outcome is then that pass's (HTTP status, exception or completion) |
| AzureRuns.CompletedEndsWithLastPage | process_azure_buckects.py:117-131 | a call completes exactly when its last page had no NextMarker; that page's records are then the last insert, with no checkpoint after them |
| AzureRuns.PageCountCountsPages | process_azure_buckects.py:121-138 | once the check is done, `page_count` grows by one per page with a NextMarker and by nothing else |
| AzureRuns.FreshCrawlCounts | process_azure_buckects.py:68-138 | on a bucket without checkpoints, the checkpoints record page counts 0, 0, 1, 2, … A call that ends other than by fuel leaves `page_count` one less than the number of checkpoints (0 if none) |
| AzureRuns.TwoPageFirstPass | process_azure_buckects.py:117-129 | the first of two pages is inserted and checkpointed with its NextMarker and count 0 |
| AzureRuns.TwoPageCrawl | process_azure_buckects.py:68-143 | a fresh call on a two-page container inserts both pages and one checkpoint, resumes once in between and completes with `page_count` 0 |
| DigitalOceanCrawl.ExtensionOf | process_digital_ocean_buckets.py:99-110 | a name without '.' gives "Unknown". Otherwise the result holds no '.', is shorter than the name, and is exactly the text after the name's last '.', with case kept |
| DigitalOceanCrawl.ExtensionAfterLastDot | process_digital_ocean_buckets.py:107-109 | for any stem, `stem + "." + ext` with no '.' in `ext` gives `ext` |
| DigitalOceanCrawl.ExtensionOfArchive | process_digital_ocean_buckets.py:99-110 | "a/b/file.tar.gz" gives "gz" |
| DigitalOceanCrawl.ExtensionOfReadme | process_digital_ocean_buckets.py:99-110 | "README" gives "Unknown" |
| DigitalOceanCrawl.ExtensionOfTrailingDot | process_digital_ocean_buckets.py:99-110 | "file." gives "" |
| DigitalOceanCrawl.OwnerText | process_digital_ocean_buckets.py:70-71 | `Owner/<tag>` succeeds exactly when the element has an `Owner` with that child, and then gives that child's text |
| DigitalOceanCrawl.ProcessContent | process_digital_ocean_buckets.py:64-82 | an element succeeds exactly when its seven elements are present and the key has text. Key, LastModified, ETag, Size, StorageClass, Owner/ID and Owner/DisplayName are copied verbatim, and the file type is the key's extension. A missing `Key`, or a key without text, gives that error |
| DigitalOceanCrawl.ProcessContentsAll | process_digital_ocean_buckets.py:63-82 | a page yields records exactly when every element succeeds; the records are then the elements' records, pointwise and in order |
| DigitalOceanCrawl.ProcessContentsFirstError | process_digital_ocean_buckets.py:63-82 | a failing page fails with the error of its first failing element |
| DigitalOceanCrawl.CollectContents | process_digital_ocean_buckets.py:63-82 | the contents loop returns exactly the page's records or its first error |
| DigitalOceanCrawl.ListObjectsRequest | process_digital_ocean_buckets.py:29-34 | with a truthy marker, the only parameter is `marker`; without one, there are no parameters |
| DigitalOceanCrawl.PassOfSpec | process_digital_ocean_buckets.py:28-96 | every pass requests the page at the current marker. A non-XML page, or a missing Name, MaxKeys or IsTruncated, raises. A readable page is dropped for the latest checkpoint of the database it names, exactly when the check is not done and that database has one. Otherwise a failing element raises its error, and a missing name text raises. The page's records go to the database it names. The pass stops exactly when IsTruncated reads "false", raises when a truncated page has no NextMarker, and otherwise checkpoints the incremented count with the NextMarker text |
| DigitalOceanCrawl.CrawlPass | process_digital_ocean_buckets.py:29-96 | one loop body changes the store by exactly that pass's inserts, in order, and the loop variables as the pass says. It leaves the loop exactly on a terminal pass |
| DigitalOceanCrawl.ListPublicObjects | process_digital_ocean_buckets.py:16-96 | the loop, from page 0 with the check not done, returns the outcome and final `page_count` of `Run` and appends exactly `Run`'s inserts to the store |
| DigitalOceanRuns.RunWrites | process_digital_ocean_buckets.py:85-96 | the inserts of a call are those of its passes, in pass order |
| DigitalOceanRuns.CrawlCheckpointsFollowRecords | process_digital_ocean_buckets.py:85-96 | every checkpoint is inserted right after a records insert into the same database |
| DigitalOceanRuns.ResumesAtMostOnce | process_digital_ocean_buckets.py:49-59 | a call resumes at most once, and never after the check is done |
| DigitalOceanRuns.ResumeDropsPage | process_digital_ocean_buckets.py:30-59 | when the first page names a database with checkpoints, that page is dropped with nothing inserted and the latest checkpoint is taken. The next pass requests the page at its marker and does not resume |
| DigitalOceanRuns.OnlyLastPassTerminal | process_digital_ocean_buckets.py:85-91 | no pass before the last is terminal |
| DigitalOceanRuns.RunOutcome | process_digital_ocean_buckets.py:28-96 | a call makes at most `fuel` passes. It ends other than by fuel exactly when its last pass is terminal, with that pass's outcome |
| DigitalOceanRuns.StopsExactlyWhenNotTruncated | process_digital_ocean_buckets.py:87-88 | no page kept before the last reads IsTruncated "false"; a call completes exactly when its last pass kept a page that does |
| DigitalOceanRuns.CompletedEndsWithLastPage | process_digital_ocean_buckets.py:85-88 | a completed call's last insert is its last page's records, with no checkpoint after them |
| DigitalOceanRuns.PageCountCountsPages | process_digital_ocean_buckets.py:87-96 | once the check is done, `page_count` grows by one per checkpointed page; the last page adds nothing |
| DigitalOceanRuns.FreshCrawlCounts | process_digital_ocean_buckets.py:26-96 | on a bucket without checkpoints, when the server names that bucket on every page, checkpoint k records page count k + 1 and `page_count` always equals the number of checkpoints written |
| DigitalOceanRuns.OnePageCrawl | process_digital_ocean_buckets.py:28-88 | a fresh call on a bucket with one untruncated page inserts its records once and completes after one pass with `page_count` 0 |
| DigitalOceanRuns.TwoPageFirstPass | process_digital_ocean_buckets.py:85-96 | the first of two pages is inserted and checkpointed with count 1 and its NextMarker |
| DigitalOceanRuns.TwoPageCrawl | process_digital_ocean_buckets.py:26-96 | a fresh call on a two-page bucket fetches the second page twice, dropping it once for its own checkpoint. It inserts each page once and completes with `page_count` 1 |

## Left out

- HTTP transport (`requests.get`) is not modelled: the listing endpoint is a parameter.
  - Azure: it maps a request to a status and an optional parsed body.
  - S3: it maps a request to a parsed body, or to "not XML".
  - Network errors are not modelled.
- XML tokenising and namespaces (`ElementTree.fromstring`, `find`, `findall`) are left out.
  - An element is modelled as a map from child tag to optional text, with a separate field for `Properties`, resp. `Owner`.
  - `find` is modelled as "the first child with that tag". The descendant search of `.//Blob` is a list of `Blob` elements.
- `datetime.strptime` is a parameter (`DateParser`), because its format handling is library and locale behaviour.
- Timing, `print` output, the `__main__` blocks, and the unused store functions are left out. The unused store functions are `database_exists` and `create_*` as separate calls, `get_items`, `get_items_from_date`, `get_document_count`, `update_by_id` and the content-type analysis script.
- pymongo behaviour that the crawlers reach is left out:
  - `insert_many` raises on an empty list; the model inserts an empty page.
  - `get_last_item` returns a cursor that is truthy whenever the database exists, and indexing it with `[0]` raises when the "progress" collection is empty. The model reads it as "the latest checkpoint, or none".
  - Database-name validity rules (empty names, forbidden characters) are not modelled. The one exception is S3's `Name` without text (`None`), which `insert_many` rejects; the model raises `InvalidDatabaseName` there.
- The loop is not guaranteed to terminate: a server can cycle, and an empty marker restarts the listing. Every crawl therefore takes a `fuel` bound on its passes and ends `OutOfFuel` when the bound runs out. Nothing is claimed about calls longer than the bound.
- Python's dynamic typing is reduced to the cases the code reaches. Texts are `Option<string>`, a `None` key crashes in `split`, and `page_count` is an unbounded integer.
- Behaviour of the code worth noting:
  - The extension is not lower-cased.
  - The Azure checkpoint stores the page count before the increment, and the S3 checkpoint stores it after.
  - The last page is never counted. A fresh call on a two-page container ends with `page_count` 0 (`AzureRuns.TwoPageCrawl`).
  - The progress check runs on every pass until a resume happens, so a fresh call resumes once from its own first checkpoint.
  - Azure stops on any status other than 200; the S3 crawl does not look at the status at all.
  - Checkpoints are appended, not overwritten; the latest is the last inserted.
