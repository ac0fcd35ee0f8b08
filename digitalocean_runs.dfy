/** What a whole DigitalOcean crawl call does, stated over
    `DigitalOceanCrawl.Run`: how often it resumes and what a resume drops,
    the order of its inserts, when it stops, and the page counts it records.

    The inductive proofs are done for `Crawl`, the loop over any pass
    function, from the few facts about a pass they need (stated as
    predicates over the pass function); `Run` is `Crawl` over `PassOf`. */
module DigitalOceanRuns {
  import opened Common
  import opened Database
  import opened DigitalOceanCrawl

  /** The inserts of a sequence of passes, in order. */
  function AllWrites(passes: seq<S3Pass>): seq<S3Write> {
    if passes == [] then [] else PassWrites(passes[0]) + AllWrites(passes[1..])
  }

  function ResumeCount(passes: seq<S3Pass>): nat {
    if passes == [] then 0 else (if passes[0].Resumed? then 1 else 0) + ResumeCount(passes[1..])
  }

  /** The passes that inserted a truncated page with a NextMarker. */
  function NextPageCount(passes: seq<S3Pass>): nat {
    if passes == [] then 0 else (if passes[0].NextPage? then 1 else 0) + NextPageCount(passes[1..])
  }

  lemma PrependPass(p: S3Pass, passes: seq<S3Pass>)
    ensures ([p] + passes)[0] == p && ([p] + passes)[1..] == passes
  {
  }

  // ---------------------------------------------------------------------
  // Inserts

  lemma {:induction false} CrawlWrites(fuel: nat, pass: PassFn, st: S3State, log: seq<S3Write>)
    ensures Crawl(fuel, pass, st, log).writes == AllWrites(Crawl(fuel, pass, st, log).passes)
    decreases fuel
  {
    if fuel > 0 {
      var p := pass(st, log);
      var w := PassWrites(p);
      if p.Terminal() {
        assert AllWrites([p]) == w + AllWrites([]);
        assert w + [] == w;
      } else {
        var rest := Crawl(fuel - 1, pass, Next(st, p), log + w);
        CrawlWrites(fuel - 1, pass, Next(st, p), log + w);
        PrependPass(p, rest.passes);
      }
    }
  }

  /** The store receives exactly the inserts of the passes, in pass order. */
  lemma RunWrites(fuel: nat, env: S3Env, st: S3State, log: seq<S3Write>)
    ensures Run(fuel, env, st, log).writes == AllWrites(Run(fuel, env, st, log).passes)
  {
    CrawlWrites(fuel, PassStep(env), st, log);
  }

  lemma {:induction false} AllWritesCheckpointsFollowRecords(passes: seq<S3Pass>)
    ensures CheckpointsFollowRecords(AllWrites(passes))
    decreases |passes|
  {
    if passes != [] {
      AllWritesCheckpointsFollowRecords(passes[1..]);
      var w := PassWrites(passes[0]);
      assert CheckpointsFollowRecords(w) by {
        forall i | 0 <= i < |w| && w[i].ProgressInsert?
          ensures 0 < i && w[i - 1].FileListInsert? && w[i - 1].db == w[i].db
        {
        }
      }
      CheckpointsFollowRecordsConcat(w, AllWrites(passes[1..]));
    }
  }

  /** Every crawl inserts a page's records, into the database the page names,
      before the checkpoint past that page. */
  lemma CrawlCheckpointsFollowRecords(fuel: nat, env: S3Env, st: S3State, log: seq<S3Write>)
    ensures CheckpointsFollowRecords(Run(fuel, env, st, log).writes)
  {
    RunWrites(fuel, env, st, log);
    AllWritesCheckpointsFollowRecords(Run(fuel, env, st, log).passes);
  }

  // ---------------------------------------------------------------------
  // Resuming

  /** A pass from `st` resumes only while the progress check is not done. */
  predicate ResumeAt(pass: PassFn, st: S3State, log: seq<S3Write>) {
    pass(st, log).Resumed? ==> !st.checked
  }

  ghost predicate ResumesOnlyUnchecked(pass: PassFn) {
    forall st, log {:trigger ResumeAt(pass, st, log)} :: ResumeAt(pass, st, log)
  }

  lemma PassStepResumes(env: S3Env)
    ensures ResumesOnlyUnchecked(PassStep(env))
  {
    forall st, log ensures ResumeAt(PassStep(env), st, log) {
      PassOfSpec(env, st, log);
    }
  }

  lemma {:induction false} CrawlResumesAtMostOnce(fuel: nat, pass: PassFn, st: S3State, log: seq<S3Write>)
    requires ResumesOnlyUnchecked(pass)
    ensures ResumeCount(Crawl(fuel, pass, st, log).passes) <= if st.checked then 0 else 1
    decreases fuel
  {
    if fuel > 0 {
      var p := pass(st, log);
      var w := PassWrites(p);
      assert ResumeAt(pass, st, log);
      if p.Terminal() {
        assert ResumeCount([p]) == 0 + ResumeCount([]);
      } else {
        var rest := Crawl(fuel - 1, pass, Next(st, p), log + w);
        CrawlResumesAtMostOnce(fuel - 1, pass, Next(st, p), log + w);
        PrependPass(p, rest.passes);
      }
    }
  }

  /** A crawl call resumes from a checkpoint at most once, and never once the
      progress check is done. */
  lemma ResumesAtMostOnce(fuel: nat, env: S3Env, st: S3State, log: seq<S3Write>)
    ensures ResumeCount(Run(fuel, env, st, log).passes) <= if st.checked then 0 else 1
  {
    PassStepResumes(env);
    CrawlResumesAtMostOnce(fuel, PassStep(env), st, log);
  }

  /** When the first page names a database with checkpoints, the call drops
      that page without inserting anything, takes the latest checkpoint of
      that database, and its next pass requests the page at that
      checkpoint's marker and does not resume again. */
  lemma ResumeDropsPage(fuel: nat, env: S3Env, st: S3State, log: seq<S3Write>, db: string)
    requires fuel >= 2 && !st.checked
    requires Fetched(env.server(ListObjectsRequest(env.url, st.marker)))
    requires env.server(ListObjectsRequest(env.url, st.marker)).root["Name"] == Some(db)
    requires Progress(log, db) != []
    ensures var t := Run(fuel, env, st, log);
      var latest := Progress(log, db)[|Progress(log, db)| - 1];
      |t.passes| >= 2 &&
      t.passes[0] == Resumed(ListObjectsRequest(env.url, st.marker), db, latest) &&
      PassWrites(t.passes[0]) == [] &&
      !t.passes[1].Resumed? && t.passes[1].request == ListObjectsRequest(env.url, latest.nextMarker)
  {
    var p := PassOf(env, st, log);
    PassOfSpec(env, st, log);
    var st' := Next(st, p);
    var rest := Run(fuel - 1, env, st', log);
    assert PassWrites(p) == [] && log + [] == log;
    PassOfSpec(env, st', log);
    PrependPass(p, rest.passes);
  }

  // ---------------------------------------------------------------------
  // Stopping

  lemma {:induction false} CrawlOnlyLastPassTerminal(fuel: nat, pass: PassFn, st: S3State, log: seq<S3Write>)
    ensures forall i :: 0 <= i < |Crawl(fuel, pass, st, log).passes| - 1 ==>
      !Crawl(fuel, pass, st, log).passes[i].Terminal()
    decreases fuel
  {
    if fuel > 0 {
      var p := pass(st, log);
      var w := PassWrites(p);
      if !p.Terminal() {
        var rest := Crawl(fuel - 1, pass, Next(st, p), log + w);
        CrawlOnlyLastPassTerminal(fuel - 1, pass, Next(st, p), log + w);
        var all := [p] + rest.passes;
        forall i | 0 <= i < |all| - 1 ensures !all[i].Terminal() {
          if i == 0 {
            assert all[0] == p;
          } else {
            assert all[i] == rest.passes[i - 1];
          }
        }
      }
    }
  }

  /** The loop ends exactly at the first terminal pass (an exception, a page
      that is not truncated, or a truncated page without NextMarker): no
      earlier pass is terminal. */
  lemma OnlyLastPassTerminal(fuel: nat, env: S3Env, st: S3State, log: seq<S3Write>)
    ensures var t := Run(fuel, env, st, log);
      forall i :: 0 <= i < |t.passes| - 1 ==> !t.passes[i].Terminal()
  {
    CrawlOnlyLastPassTerminal(fuel, PassStep(env), st, log);
  }

  lemma {:induction false} CrawlOutcome(fuel: nat, pass: PassFn, st: S3State, log: seq<S3Write>)
    ensures var t := Crawl(fuel, pass, st, log);
      |t.passes| <= fuel &&
      (t.outcome != OutOfFuel <==> t.passes != [] && t.passes[|t.passes| - 1].Terminal()) &&
      (t.outcome != OutOfFuel ==> t.outcome == OutcomeOf(t.passes[|t.passes| - 1])) &&
      (t.outcome == OutOfFuel ==> |t.passes| == fuel)
    decreases fuel
  {
    if fuel > 0 {
      var p := pass(st, log);
      var w := PassWrites(p);
      if !p.Terminal() {
        var rest := Crawl(fuel - 1, pass, Next(st, p), log + w);
        CrawlOutcome(fuel - 1, pass, Next(st, p), log + w);
        var all := [p] + rest.passes;
        if rest.passes != [] {
          assert all[|all| - 1] == rest.passes[|rest.passes| - 1];
        }
      }
    }
  }

  /** The call's outcome is that of its terminal last pass; only the fuel
      bound ends it otherwise, after `fuel` passes. */
  lemma RunOutcome(fuel: nat, env: S3Env, st: S3State, log: seq<S3Write>)
    ensures var t := Run(fuel, env, st, log);
      |t.passes| <= fuel &&
      (t.outcome != OutOfFuel <==> t.passes != [] && t.passes[|t.passes| - 1].Terminal()) &&
      (t.outcome != OutOfFuel ==> t.outcome == OutcomeOf(t.passes[|t.passes| - 1])) &&
      (t.outcome == OutOfFuel ==> |t.passes| == fuel)
  {
    CrawlOutcome(fuel, PassStep(env), st, log);
  }

  /** A pass that read a page, did not drop it, and found `IsTruncated` to
      be "false". */
  predicate NotTruncatedPage(server: Request -> S3Response, p: S3Pass) {
    (p.LastPage? || p.MarkerMissing? || p.NextPage?) &&
    Fetched(server(p.request)) && server(p.request).root["IsTruncated"] == Some("false")
  }

  /** The pass reads `IsTruncated` to decide whether to stop. */
  predicate StopsAt(server: Request -> S3Response, p: S3Pass) {
    NotTruncatedPage(server, p) <==> p.LastPage?
  }

  predicate StopAt(server: Request -> S3Response, pass: PassFn, st: S3State, log: seq<S3Write>) {
    StopsAt(server, pass(st, log))
  }

  ghost predicate StopsEverywhere(server: Request -> S3Response, pass: PassFn) {
    forall st, log {:trigger StopAt(server, pass, st, log)} :: StopAt(server, pass, st, log)
  }

  lemma PassStepStops(env: S3Env)
    ensures StopsEverywhere(env.server, PassStep(env))
  {
    forall st, log ensures StopAt(env.server, PassStep(env), st, log) {
      PassOfSpec(env, st, log);
    }
  }

  lemma {:induction false} CrawlStopsAt(fuel: nat, server: Request -> S3Response, pass: PassFn,
                                        st: S3State, log: seq<S3Write>)
    requires StopsEverywhere(server, pass)
    ensures forall i :: 0 <= i < |Crawl(fuel, pass, st, log).passes| ==>
      StopsAt(server, Crawl(fuel, pass, st, log).passes[i])
    decreases fuel
  {
    if fuel > 0 {
      var p := pass(st, log);
      var w := PassWrites(p);
      assert StopAt(server, pass, st, log);
      if !p.Terminal() {
        var rest := Crawl(fuel - 1, pass, Next(st, p), log + w);
        CrawlStopsAt(fuel - 1, server, pass, Next(st, p), log + w);
        var all := [p] + rest.passes;
        forall i | 0 <= i < |all| ensures StopsAt(server, all[i]) {
          if i > 0 {
            assert all[i] == rest.passes[i - 1];
          }
        }
      }
    }
  }

  /** The loop stops exactly at the first page it keeps whose `IsTruncated`
      text is "false": no earlier kept page says so, and the call completes
      exactly when its last page does. */
  lemma StopsExactlyWhenNotTruncated(fuel: nat, env: S3Env, st: S3State, log: seq<S3Write>)
    ensures var t := Run(fuel, env, st, log);
      (forall i :: 0 <= i < |t.passes| - 1 ==> !NotTruncatedPage(env.server, t.passes[i])) &&
      (t.outcome == Completed <==> t.passes != [] && NotTruncatedPage(env.server, t.passes[|t.passes| - 1]))
  {
    var t := Run(fuel, env, st, log);
    PassStepStops(env);
    CrawlStopsAt(fuel, env.server, PassStep(env), st, log);
    OnlyLastPassTerminal(fuel, env, st, log);
    RunOutcome(fuel, env, st, log);
  }

  lemma {:induction false} AllWritesLast(passes: seq<S3Pass>)
    requires passes != [] && passes[|passes| - 1].LastPage?
    ensures AllWrites(passes) != []
    ensures AllWrites(passes)[|AllWrites(passes)| - 1] ==
      FileListInsert(passes[|passes| - 1].db, passes[|passes| - 1].records)
    decreases |passes|
  {
    if |passes| == 1 {
      assert AllWrites(passes) == PassWrites(passes[0]) + [];
    } else {
      assert passes[1..][|passes[1..]| - 1] == passes[|passes| - 1];
      AllWritesLast(passes[1..]);
    }
  }

  /** The last page of a completed call is inserted, and its insert is the
      call's last: the page gets no checkpoint. */
  lemma CompletedEndsWithLastPage(fuel: nat, env: S3Env, st: S3State, log: seq<S3Write>)
    ensures var t := Run(fuel, env, st, log);
      (t.outcome == Completed <==> t.passes != [] && t.passes[|t.passes| - 1].LastPage?) &&
      (t.outcome == Completed ==>
        var last := t.passes[|t.passes| - 1];
        t.writes != [] && t.writes[|t.writes| - 1] == FileListInsert(last.db, last.records))
  {
    var t := Run(fuel, env, st, log);
    RunOutcome(fuel, env, st, log);
    if t.outcome == Completed {
      RunWrites(fuel, env, st, log);
      AllWritesLast(t.passes);
    }
  }

  // ---------------------------------------------------------------------
  // Page counts

  lemma {:induction false} CrawlPageCount(fuel: nat, pass: PassFn, st: S3State, log: seq<S3Write>)
    requires ResumesOnlyUnchecked(pass) && st.checked
    ensures var t := Crawl(fuel, pass, st, log);
      t.final.pageCount == st.pageCount + NextPageCount(t.passes)
    decreases fuel
  {
    if fuel > 0 {
      var p := pass(st, log);
      var w := PassWrites(p);
      assert ResumeAt(pass, st, log);
      if p.Terminal() {
        assert NextPageCount([p]) == 0 + NextPageCount([]);
      } else {
        var rest := Crawl(fuel - 1, pass, Next(st, p), log + w);
        CrawlPageCount(fuel - 1, pass, Next(st, p), log + w);
        PrependPass(p, rest.passes);
      }
    }
  }

  /** Once the progress check is done, `page_count` counts the pages that
      were inserted and checkpointed; the last page adds nothing. */
  lemma PageCountCountsPages(fuel: nat, env: S3Env, st: S3State, log: seq<S3Write>)
    requires st.checked
    ensures var t := Run(fuel, env, st, log);
      t.final.pageCount == st.pageCount + NextPageCount(t.passes)
  {
    PassStepResumes(env);
    CrawlPageCount(fuel, PassStep(env), st, log);
  }

  /** The server names database `db` on every page that has a name. */
  predicate NamesAt(server: Request -> S3Response, db: string, r: Request) {
    var response := server(r);
    response.Listing? && "Name" in response.root && response.root["Name"].Some? ==>
      response.root["Name"].value == db
  }

  ghost predicate AlwaysNames(server: Request -> S3Response, db: string) {
    forall r {:trigger NamesAt(server, db, r)} :: NamesAt(server, db, r)
  }

  /** What the page-count bookkeeping needs to know of a pass made from `st`
      while database `db` has the checkpoints `cps`: every pass that is not
      an exception is about `db`; it resumes only while the check is not
      done, from the latest checkpoint; it keeps a page only when the check
      is done or there is no checkpoint; and it checkpoints the incremented
      page count. */
  predicate PassFits(db: string, st: S3State, cps: seq<S3Checkpoint>, p: S3Pass) {
    (!p.Crash? ==> p.db == db) &&
    (p.Resumed? ==> !st.checked && cps != [] && p.checkpoint == cps[|cps| - 1]) &&
    (p.LastPage? || p.MarkerMissing? || p.NextPage? ==> st.checked || cps == []) &&
    (p.NextPage? ==> p.checkpoint.pageCount == st.pageCount + 1)
  }

  predicate FitsAt(db: string, pass: PassFn, st: S3State, log: seq<S3Write>) {
    PassFits(db, st, Progress(log, db), pass(st, log))
  }

  ghost predicate FitsEverywhere(db: string, pass: PassFn) {
    forall st, log {:trigger FitsAt(db, pass, st, log)} :: FitsAt(db, pass, st, log)
  }

  lemma PassStepFits(env: S3Env, db: string)
    requires AlwaysNames(env.server, db)
    ensures FitsEverywhere(db, PassStep(env))
  {
    forall st, log ensures FitsAt(db, PassStep(env), st, log) {
      PassOfSpec(env, st, log);
      assert NamesAt(env.server, db, ListObjectsRequest(env.url, st.marker));
    }
  }

  /** The checkpoints of a crawl that started without any, and where it
      stands: checkpoint k records page count k + 1, the page count is the
      number of checkpoints, and until the check is done there is at most
      one checkpoint. */
  predicate FreshShape(st: S3State, cps: seq<S3Checkpoint>) {
    (forall k :: 0 <= k < |cps| ==> cps[k].pageCount == k + 1) &&
    st.pageCount == |cps| &&
    (!st.checked ==> |cps| <= 1)
  }

  /** One pass keeps the shape: a terminal pass adds no checkpoint, any
      other leaves the shape for the state after it. */
  lemma FreshShapeStep(db: string, st: S3State, log: seq<S3Write>, p: S3Pass)
    requires FreshShape(st, Progress(log, db)) && PassFits(db, st, Progress(log, db), p)
    ensures var cps := Progress(log + PassWrites(p), db);
      (p.Terminal() ==> cps == Progress(log, db)) &&
      (!p.Terminal() ==> FreshShape(Next(st, p), cps))
  {
    PassProgress(db, log, p);
    if p.NextPage? {
      NextPageShape(st, Progress(log, db), p.checkpoint);
    } else {
      assert Progress(log, db) + [] == Progress(log, db);
    }
  }

  /** A pass adds a checkpoint to `db` exactly when it keeps a page with a
      NextMarker there. */
  lemma PassProgress(db: string, log: seq<S3Write>, p: S3Pass)
    ensures Progress(log + PassWrites(p), db) ==
      Progress(log, db) + if p.NextPage? && p.db == db then [p.checkpoint] else []
  {
    var w := PassWrites(p);
    ProgressConcat(log, w, db);
    if p.NextPage? {
      assert w == [w[0]] + [w[1]];
      ProgressConcat([w[0]], [w[1]], db);
      ProgressSingle(w[0], db);
      ProgressSingle(w[1], db);
    } else if p.LastPage? || p.MarkerMissing? {
      ProgressSingle(w[0], db);
    }
  }

  /** A checkpoint of the incremented count extends the shape. */
  lemma NextPageShape(st: S3State, cps: seq<S3Checkpoint>, c: S3Checkpoint)
    requires FreshShape(st, cps) && (st.checked || cps == []) && c.pageCount == st.pageCount + 1
    ensures FreshShape(S3State(st.pageCount + 1, c.nextMarker, st.checked), cps + [c])
  {
  }

  lemma {:induction false} CrawlFreshShape(fuel: nat, db: string, pass: PassFn, st: S3State, log: seq<S3Write>)
    requires FitsEverywhere(db, pass) && FreshShape(st, Progress(log, db))
    ensures var t := Crawl(fuel, pass, st, log);
      FreshShape(t.final, Progress(log + t.writes, db))
    decreases fuel
  {
    var t := Crawl(fuel, pass, st, log);
    if fuel == 0 {
      assert log + [] == log;
    } else {
      var p := pass(st, log);
      var w := PassWrites(p);
      assert FitsAt(db, pass, st, log);
      FreshShapeStep(db, st, log, p);
      if p.Terminal() {
        assert t.writes == w && t.final == st;
      } else {
        var rest := Crawl(fuel - 1, pass, Next(st, p), log + w);
        CrawlFreshShape(fuel - 1, db, pass, Next(st, p), log + w);
        assert t.writes == w + rest.writes && t.final == rest.final;
        assert log + t.writes == (log + w) + rest.writes;
      }
    }
  }

  /** A crawl call on a bucket without checkpoints, from a server that
      names the bucket on every page, records page counts 1, 2, 3, ... in
      its checkpoints (the page it drops when it finds its own first
      checkpoint does not disturb them), and leaves `page_count` at the
      number of checkpoints it wrote: the last page is not counted. */
  lemma FreshCrawlCounts(fuel: nat, env: S3Env, db: string, marker: Option<string>, log: seq<S3Write>)
    requires AlwaysNames(env.server, db) && Progress(log, db) == []
    ensures var t := Run(fuel, env, S3State(0, marker, false), log);
      var cps := Progress(t.writes, db);
      (forall k :: 0 <= k < |cps| ==> cps[k].pageCount == k + 1) &&
      t.final.pageCount == |cps|
  {
    var st := S3State(0, marker, false);
    var t := Run(fuel, env, st, log);
    PassStepFits(env, db);
    CrawlFreshShape(fuel, db, PassStep(env), st, log);
    ProgressConcat(log, t.writes, db);
    assert Progress(log + t.writes, db) == Progress(t.writes, db);
  }

  // ---------------------------------------------------------------------
  // Small buckets

  /** A page that can be read, names `db`, yields `records` and reads
      `truncated` for `IsTruncated` and `next` for `NextMarker`. */
  predicate PageIs(r: S3Response, db: string, records: seq<ContentRecord>, truncated: Option<string>,
                   next: Option<Option<string>>) {
    Fetched(r) && r.root["Name"] == Some(db) && ProcessContents(r.contents) == Success(records) &&
    r.root["IsTruncated"] == truncated &&
    (if next.Some? then "NextMarker" in r.root && r.root["NextMarker"] == next.value else "NextMarker" !in r.root)
  }

  /** A fresh call on a bucket of one page that is not truncated inserts its
      records and completes after that one pass, with `page_count` 0 and no
      checkpoint. */
  lemma OnePageCrawl(fuel: nat, env: S3Env, db: string, log: seq<S3Write>, records: seq<ContentRecord>,
                     next: Option<Option<string>>)
    requires fuel >= 1 && Progress(log, db) == []
    requires PageIs(env.server(ListObjectsRequest(env.url, None)), db, records, Some("false"), next)
    ensures Run(fuel, env, S3State(0, None, false), log) ==
      S3Trace([LastPage(ListObjectsRequest(env.url, None), db, records)], [FileListInsert(db, records)],
              Completed, S3State(0, None, false))
  {
    var st := S3State(0, None, false);
    PassOfSpec(env, st, log);
    assert PassStep(env)(st, log) == PassOf(env, st, log);
  }

  /** The first page of two: inserted and checkpointed with count 1, which
      leaves the bucket with exactly that checkpoint. */
  lemma TwoPageFirstPass(env: S3Env, db: string, log: seq<S3Write>, m: string, first: seq<ContentRecord>,
                         truncated: Option<string>)
    requires Progress(log, db) == [] && m != "" && truncated != Some("false")
    requires PageIs(env.server(ListObjectsRequest(env.url, None)), db, first, truncated, Some(Some(m)))
    ensures var p := PassOf(env, S3State(0, None, false), log);
      p == NextPage(ListObjectsRequest(env.url, None), db, first, S3Checkpoint(1, Some(m))) &&
      Progress(log + PassWrites(p), db) == [S3Checkpoint(1, Some(m))]
  {
    var p := PassOf(env, S3State(0, None, false), log);
    PassOfSpec(env, S3State(0, None, false), log);
    var records: S3Write, checkpoint: S3Write :=
      FileListInsert(db, first), ProgressInsert(db, S3Checkpoint(1, Some(m)));
    assert PassWrites(p) == [records] + [checkpoint];
    ProgressConcat(log, PassWrites(p), db);
    ProgressConcat([records], [checkpoint], db);
    ProgressSingle(records, db);
    ProgressSingle(checkpoint, db);
  }

  /** A fresh call on a bucket of two pages, the first truncated with
      NextMarker `m`: the call fetches the second page twice, dropping it
      the first time for the checkpoint it has just written, inserts each
      page's records once, and completes with `page_count` 1. */
  lemma TwoPageCrawl(fuel: nat, env: S3Env, db: string, log: seq<S3Write>, m: string,
                     first: seq<ContentRecord>, truncated: Option<string>,
                     second: seq<ContentRecord>, next: Option<Option<string>>)
    requires fuel >= 3 && Progress(log, db) == [] && m != "" && truncated != Some("false")
    requires PageIs(env.server(ListObjectsRequest(env.url, None)), db, first, truncated, Some(Some(m)))
    requires PageIs(env.server(ListObjectsRequest(env.url, Some(m))), db, second, Some("false"), next)
    ensures var t := Run(fuel, env, S3State(0, None, false), log);
      var again := ListObjectsRequest(env.url, Some(m));
      t.passes == [NextPage(ListObjectsRequest(env.url, None), db, first, S3Checkpoint(1, Some(m))),
                   Resumed(again, db, S3Checkpoint(1, Some(m))),
                   LastPage(again, db, second)] &&
      t.writes == [FileListInsert(db, first), ProgressInsert(db, S3Checkpoint(1, Some(m))),
                   FileListInsert(db, second)] &&
      t.outcome == Completed && t.final.pageCount == 1
  {
    var st0 := S3State(0, None, false);
    var p0 := PassOf(env, st0, log);
    TwoPageFirstPass(env, db, log, m, first, truncated);
    var st1 := Next(st0, p0);
    var log1 := log + PassWrites(p0);
    var p1 := PassOf(env, st1, log1);
    PassOfSpec(env, st1, log1);
    assert p1 == Resumed(ListObjectsRequest(env.url, Some(m)), db, S3Checkpoint(1, Some(m)));
    var st2 := Next(st1, p1);
    assert log1 + PassWrites(p1) == log1;
    var p2 := PassOf(env, st2, log1);
    PassOfSpec(env, st2, log1);
    assert p2 == LastPage(ListObjectsRequest(env.url, Some(m)), db, second);
    assert PassStep(env)(st0, log) == p0 && PassStep(env)(st1, log1) == p1 && PassStep(env)(st2, log1) == p2;
    var t2 := Run(fuel - 2, env, st2, log1);
    assert t2 == S3Trace([p2], [FileListInsert(db, second)], Completed, st2);
    var t1 := Run(fuel - 1, env, st1, log1);
    assert t1 == Prepend([p1], [], t2);
  }
}
