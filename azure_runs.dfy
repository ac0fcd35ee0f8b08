/** What a whole Azure crawl call does, stated over `AzureCrawl.Run`: how
    often it resumes, the order of its inserts, when it stops, and the page
    counts it records.

    The inductive proofs are done once for `Crawl`, the same loop over any
    pass function, which needs to know only a few facts about the pass
    (`PassFits`); `Run` is `Crawl` with the pass `PassOf`. */
module AzureRuns {
  import opened Common
  import opened Database
  import opened AzureCrawl

  /** What the bookkeeping of `page_count` and `checked_for_progress` needs
      to know of a pass made from `st` while the bucket's checkpoints are
      `cps`: it resumes exactly when the check is not done and there is a
      checkpoint, from the latest one, and a page with a NextMarker is
      checkpointed with the current page count. */
  predicate PassFits(st: AzureState, cps: seq<AzureCheckpoint>, p: AzurePass) {
    (p.Resumed? <==> !st.checked && cps != []) &&
    (p.Resumed? ==> p.checkpoint == cps[|cps| - 1]) &&
    (p.NextPage? ==> p.checkpoint.pageCount == st.pageCount)
  }

  predicate FitsAt(db: string, pass: PassFn, st: AzureState, log: seq<AzureWrite>) {
    PassFits(st, Progress(log, db), pass(st, log))
  }

  /** `pass` fits from every state and store; a proof states the instance
      it uses. */
  ghost predicate FitsEverywhere(db: string, pass: PassFn) {
    forall st, log {:trigger FitsAt(db, pass, st, log)} :: FitsAt(db, pass, st, log)
  }

  lemma PassStepFits(env: AzureEnv)
    ensures FitsEverywhere(env.db, PassStep(env))
  {
    forall st, log ensures FitsAt(env.db, PassStep(env), st, log) {
      PassOfSpec(env, st, log);
    }
  }

  /** The inserts of a sequence of passes, in order. */
  function AllWrites(db: string, passes: seq<AzurePass>): seq<AzureWrite> {
    if passes == [] then [] else PassWrites(db, passes[0]) + AllWrites(db, passes[1..])
  }

  function ResumeCount(passes: seq<AzurePass>): nat {
    if passes == [] then 0 else (if passes[0].Resumed? then 1 else 0) + ResumeCount(passes[1..])
  }

  /** The passes that fetched a page with a NextMarker. */
  function NextPageCount(passes: seq<AzurePass>): nat {
    if passes == [] then 0 else (if passes[0].NextPage? then 1 else 0) + NextPageCount(passes[1..])
  }

  lemma PrependPass(p: AzurePass, passes: seq<AzurePass>)
    ensures ([p] + passes)[0] == p && ([p] + passes)[1..] == passes
  {
  }

  // ---------------------------------------------------------------------
  // Inserts

  lemma {:induction false} CrawlWrites(fuel: nat, db: string, pass: PassFn, st: AzureState, log: seq<AzureWrite>)
    ensures Crawl(fuel, db, pass, st, log).writes == AllWrites(db, Crawl(fuel, db, pass, st, log).passes)
    decreases fuel
  {
    if fuel > 0 {
      var p := pass(st, log);
      var w := PassWrites(db, p);
      if p.Terminal() {
        assert AllWrites(db, [p]) == w + AllWrites(db, []);
        assert w + [] == w;
      } else {
        var rest := Crawl(fuel - 1, db, pass, Next(st, p), log + w);
        CrawlWrites(fuel - 1, db, pass, Next(st, p), log + w);
        PrependPass(p, rest.passes);
      }
    }
  }

  /** The store receives exactly the inserts of the passes, in pass order. */
  lemma {:induction false} RunWrites(fuel: nat, env: AzureEnv, st: AzureState, log: seq<AzureWrite>)
    ensures Run(fuel, env, st, log).writes == AllWrites(env.db, Run(fuel, env, st, log).passes)
  {
    CrawlWrites(fuel, env.db, PassStep(env), st, log);
  }

  /** Within one pass, and so across any passes, a checkpoint is inserted
      only directly after the records of its page, into the same database. */
  lemma {:induction false} AllWritesCheckpointsFollowRecords(db: string, passes: seq<AzurePass>)
    ensures CheckpointsFollowRecords(AllWrites(db, passes))
    decreases |passes|
  {
    if passes != [] {
      AllWritesCheckpointsFollowRecords(db, passes[1..]);
      var w := PassWrites(db, passes[0]);
      assert CheckpointsFollowRecords(w) by {
        forall i | 0 <= i < |w| && w[i].ProgressInsert?
          ensures 0 < i && w[i - 1].FileListInsert? && w[i - 1].db == w[i].db
        {
        }
      }
      CheckpointsFollowRecordsConcat(w, AllWrites(db, passes[1..]));
    }
  }

  /** Every crawl inserts a page's records before the checkpoint that lets a
      later call skip the page. */
  lemma {:induction false} CrawlCheckpointsFollowRecords(fuel: nat, env: AzureEnv, st: AzureState, log: seq<AzureWrite>)
    ensures CheckpointsFollowRecords(Run(fuel, env, st, log).writes)
  {
    RunWrites(fuel, env, st, log);
    AllWritesCheckpointsFollowRecords(env.db, Run(fuel, env, st, log).passes);
  }

  // ---------------------------------------------------------------------
  // Resuming

  lemma {:induction false} CrawlResumesAtMostOnce(fuel: nat, db: string, pass: PassFn, st: AzureState, log: seq<AzureWrite>)
    requires FitsEverywhere(db, pass)
    ensures ResumeCount(Crawl(fuel, db, pass, st, log).passes) <= if st.checked then 0 else 1
    decreases fuel
  {
    if fuel > 0 {
      var p := pass(st, log);
      var w := PassWrites(db, p);
      assert FitsAt(db, pass, st, log);
      if p.Terminal() {
        assert ResumeCount([p]) == 0 + ResumeCount([]);
      } else {
        var rest := Crawl(fuel - 1, db, pass, Next(st, p), log + w);
        CrawlResumesAtMostOnce(fuel - 1, db, pass, Next(st, p), log + w);
        PrependPass(p, rest.passes);
      }
    }
  }

  /** A crawl call resumes from a checkpoint at most once, and never once the
      progress check is done. */
  lemma {:induction false} ResumesAtMostOnce(fuel: nat, env: AzureEnv, st: AzureState, log: seq<AzureWrite>)
    ensures ResumeCount(Run(fuel, env, st, log).passes) <= if st.checked then 0 else 1
  {
    PassStepFits(env);
    CrawlResumesAtMostOnce(fuel, env.db, PassStep(env), st, log);
  }

  /** A call on a bucket with checkpoints starts by taking the latest one,
      without fetching, and its next pass requests the page at that
      checkpoint's marker. */
  lemma ResumeFromLatest(fuel: nat, env: AzureEnv, st: AzureState, log: seq<AzureWrite>)
    requires fuel >= 2 && !st.checked && Progress(log, env.db) != []
    ensures var t := Run(fuel, env, st, log);
      var latest := Progress(log, env.db)[|Progress(log, env.db)| - 1];
      |t.passes| >= 2 && t.passes[0] == Resumed(latest) &&
      !t.passes[1].Resumed? && t.passes[1].request == ListBlobsRequest(env.url, latest.nextMarker, env.maxResults)
  {
    var p := PassOf(env, st, log);
    PassOfSpec(env, st, log);
    var st' := Next(st, p);
    var rest := Run(fuel - 1, env, st', log);
    assert PassWrites(env.db, p) == [] && log + [] == log;
    PassOfSpec(env, st', log);
    PrependPass(p, rest.passes);
  }

  // ---------------------------------------------------------------------
  // Stopping

  lemma {:induction false} CrawlOnlyLastPassTerminal(fuel: nat, db: string, pass: PassFn, st: AzureState, log: seq<AzureWrite>)
    ensures forall i :: 0 <= i < |Crawl(fuel, db, pass, st, log).passes| - 1 ==>
      !Crawl(fuel, db, pass, st, log).passes[i].Terminal()
    decreases fuel
  {
    if fuel > 0 {
      var p := pass(st, log);
      var w := PassWrites(db, p);
      if !p.Terminal() {
        var rest := Crawl(fuel - 1, db, pass, Next(st, p), log + w);
        CrawlOnlyLastPassTerminal(fuel - 1, db, pass, Next(st, p), log + w);
        var all := [p] + rest.passes;
        forall i | 0 <= i < |all| - 1 ensures !all[i].Terminal() {
          if i == 0 {
            assert all[0] == p;
          } else {
            assert all[i] == rest.passes[i - 1];
          }
        }
      }
    }
  }

  /** The loop ends exactly at the first terminal pass (a status other than
      200, an exception, or a page without NextMarker): no earlier pass is
      terminal. */
  lemma {:induction false} OnlyLastPassTerminal(fuel: nat, env: AzureEnv, st: AzureState, log: seq<AzureWrite>)
    ensures var t := Run(fuel, env, st, log);
      forall i :: 0 <= i < |t.passes| - 1 ==> !t.passes[i].Terminal()
  {
    CrawlOnlyLastPassTerminal(fuel, env.db, PassStep(env), st, log);
  }

  lemma {:induction false} CrawlOutcome(fuel: nat, db: string, pass: PassFn, st: AzureState, log: seq<AzureWrite>)
    ensures var t := Crawl(fuel, db, pass, st, log);
      |t.passes| <= fuel &&
      (t.outcome != OutOfFuel <==> t.passes != [] && t.passes[|t.passes| - 1].Terminal()) &&
      (t.outcome != OutOfFuel ==> t.outcome == OutcomeOf(t.passes[|t.passes| - 1])) &&
      (t.outcome == OutOfFuel ==> |t.passes| == fuel)
    decreases fuel
  {
    if fuel > 0 {
      var p := pass(st, log);
      var w := PassWrites(db, p);
      if !p.Terminal() {
        var rest := Crawl(fuel - 1, db, pass, Next(st, p), log + w);
        CrawlOutcome(fuel - 1, db, pass, Next(st, p), log + w);
        var all := [p] + rest.passes;
        if rest.passes != [] {
          assert all[|all| - 1] == rest.passes[|rest.passes| - 1];
        }
      }
    }
  }

  /** The call's outcome is that of its terminal last pass; only the fuel
      bound ends it otherwise, after `fuel` passes. */
  lemma {:induction false} RunOutcome(fuel: nat, env: AzureEnv, st: AzureState, log: seq<AzureWrite>)
    ensures var t := Run(fuel, env, st, log);
      |t.passes| <= fuel &&
      (t.outcome != OutOfFuel <==> t.passes != [] && t.passes[|t.passes| - 1].Terminal()) &&
      (t.outcome != OutOfFuel ==> t.outcome == OutcomeOf(t.passes[|t.passes| - 1])) &&
      (t.outcome == OutOfFuel ==> |t.passes| == fuel)
  {
    CrawlOutcome(fuel, env.db, PassStep(env), st, log);
  }

  lemma {:induction false} AllWritesLast(db: string, passes: seq<AzurePass>)
    requires passes != [] && passes[|passes| - 1].LastPage?
    ensures AllWrites(db, passes) != []
    ensures AllWrites(db, passes)[|AllWrites(db, passes)| - 1] == FileListInsert(db, passes[|passes| - 1].records)
    decreases |passes|
  {
    if |passes| == 1 {
      assert AllWrites(db, passes) == PassWrites(db, passes[0]) + [];
    } else {
      assert passes[1..][|passes[1..]| - 1] == passes[|passes| - 1];
      AllWritesLast(db, passes[1..]);
    }
  }

  /** A call completes exactly when its last pass fetched a page without a
      NextMarker, and the last insert is then that page's records. */
  lemma {:induction false} CompletedEndsWithLastPage(fuel: nat, env: AzureEnv, st: AzureState, log: seq<AzureWrite>)
    ensures var t := Run(fuel, env, st, log);
      (t.outcome == Completed <==> t.passes != [] && t.passes[|t.passes| - 1].LastPage?) &&
      (t.outcome == Completed ==>
        t.writes != [] && t.writes[|t.writes| - 1] == FileListInsert(env.db, t.passes[|t.passes| - 1].records))
  {
    var t := Run(fuel, env, st, log);
    RunOutcome(fuel, env, st, log);
    if t.outcome == Completed {
      RunWrites(fuel, env, st, log);
      AllWritesLast(env.db, t.passes);
    }
  }

  // ---------------------------------------------------------------------
  // Page counts

  lemma {:induction false} CrawlPageCount(fuel: nat, db: string, pass: PassFn, st: AzureState, log: seq<AzureWrite>)
    requires FitsEverywhere(db, pass) && st.checked
    ensures var t := Crawl(fuel, db, pass, st, log);
      t.final.pageCount == st.pageCount + NextPageCount(t.passes)
    decreases fuel
  {
    if fuel > 0 {
      var p := pass(st, log);
      var w := PassWrites(db, p);
      assert FitsAt(db, pass, st, log);
      if p.Terminal() {
        assert NextPageCount([p]) == 0 + NextPageCount([]);
      } else {
        var rest := Crawl(fuel - 1, db, pass, Next(st, p), log + w);
        CrawlPageCount(fuel - 1, db, pass, Next(st, p), log + w);
        PrependPass(p, rest.passes);
      }
    }
  }

  /** Once the progress check is done, `page_count` counts the fetched pages
      that had a NextMarker. */
  lemma {:induction false} PageCountCountsPages(fuel: nat, env: AzureEnv, st: AzureState, log: seq<AzureWrite>)
    requires st.checked
    ensures var t := Run(fuel, env, st, log);
      t.final.pageCount == st.pageCount + NextPageCount(t.passes)
  {
    PassStepFits(env);
    CrawlPageCount(fuel, env.db, PassStep(env), st, log);
  }

  /** The page counts a crawl that started without checkpoints records:
      0, 0, 1, 2, ... */
  predicate FreshShapeCounts(cps: seq<AzureCheckpoint>) {
    forall k :: 0 <= k < |cps| ==> cps[k].pageCount == if k == 0 then 0 else k - 1
  }

  /** The checkpoints of a crawl that started without any, and where it
      stands: before the first checkpoint, after it (unchecked, page 1),
      or past the resume it causes. */
  predicate FreshShape(st: AzureState, cps: seq<AzureCheckpoint>) {
    FreshShapeCounts(cps) &&
    ((!st.checked && cps == [] && st.pageCount == 0) ||
     (!st.checked && |cps| == 1 && st.pageCount == 1) ||
     (st.checked && |cps| >= 1 && st.pageCount == |cps| - 1))
  }

  /** One pass keeps the shape: a terminal pass adds no checkpoint, any
      other leaves the shape for the state after it. */
  lemma FreshShapeStep(db: string, st: AzureState, log: seq<AzureWrite>, p: AzurePass)
    requires FreshShape(st, Progress(log, db)) && PassFits(st, Progress(log, db), p)
    ensures var cps := Progress(log + PassWrites(db, p), db);
      (p.Terminal() ==> cps == Progress(log, db) && st.pageCount == if cps == [] then 0 else |cps| - 1) &&
      (!p.Terminal() ==> FreshShape(Next(st, p), cps))
  {
    var w := PassWrites(db, p);
    var cps := Progress(log, db);
    ProgressConcat(log, w, db);
    if p.NextPage? {
      assert w == [w[0]] + [w[1]];
      ProgressConcat([w[0]], [w[1]], db);
      ProgressSingle(w[0], db);
      ProgressSingle(w[1], db);
    } else if p.LastPage? {
      ProgressSingle(w[0], db);
      assert cps + [] == cps;
    } else {
      assert cps + [] == cps;
    }
  }

  lemma {:induction false} CrawlFreshCounts(fuel: nat, db: string, pass: PassFn, st: AzureState, log: seq<AzureWrite>)
    requires FitsEverywhere(db, pass) && FreshShape(st, Progress(log, db))
    ensures FreshShapeCounts(Progress(log + Crawl(fuel, db, pass, st, log).writes, db))
    decreases fuel
  {
    var t := Crawl(fuel, db, pass, st, log);
    if fuel == 0 {
      assert log + [] == log;
    } else {
      var p := pass(st, log);
      var w := PassWrites(db, p);
      assert FitsAt(db, pass, st, log);
      FreshShapeStep(db, st, log, p);
      if !p.Terminal() {
        var rest := Crawl(fuel - 1, db, pass, Next(st, p), log + w);
        CrawlFreshCounts(fuel - 1, db, pass, Next(st, p), log + w);
        assert log + t.writes == (log + w) + rest.writes;
      }
    }
  }

  lemma {:induction false} CrawlFreshFinal(fuel: nat, db: string, pass: PassFn, st: AzureState, log: seq<AzureWrite>)
    requires FitsEverywhere(db, pass) && FreshShape(st, Progress(log, db))
    ensures var t := Crawl(fuel, db, pass, st, log);
      var cps := Progress(log + t.writes, db);
      t.outcome != OutOfFuel ==> t.final.pageCount == if cps == [] then 0 else |cps| - 1
    decreases fuel
  {
    if fuel > 0 {
      var t := Crawl(fuel, db, pass, st, log);
      var p := pass(st, log);
      var w := PassWrites(db, p);
      assert FitsAt(db, pass, st, log);
      FreshShapeStep(db, st, log, p);
      if p.Terminal() {
        assert t.writes == w && t.final == st;
      } else {
        var rest := Crawl(fuel - 1, db, pass, Next(st, p), log + w);
        CrawlFreshFinal(fuel - 1, db, pass, Next(st, p), log + w);
        assert t.writes == w + rest.writes && t.final == rest.final && t.outcome == rest.outcome;
        assert log + t.writes == (log + w) + rest.writes;
      }
    }
  }

  /** A crawl call on a bucket without checkpoints records page count 0 in
      its first two checkpoints and k - 1 in checkpoint k after that: the
      second pass finds the checkpoint the first pass wrote, takes it as a
      resume point and sets `page_count` back to 0. When the call ends
      without running out of fuel, the page count it returns is one less
      than the number of checkpoints it wrote (0 when it wrote none). */
  lemma FreshCrawlCounts(fuel: nat, env: AzureEnv, marker: Option<string>, log: seq<AzureWrite>)
    requires Progress(log, env.db) == []
    ensures var t := Run(fuel, env, AzureState(0, marker, false), log);
      var cps := Progress(t.writes, env.db);
      (forall k :: 0 <= k < |cps| ==> cps[k].pageCount == if k == 0 then 0 else k - 1) &&
      (t.outcome != OutOfFuel ==> t.final.pageCount == if cps == [] then 0 else |cps| - 1)
  {
    var t := Run(fuel, env, AzureState(0, marker, false), log);
    PassStepFits(env);
    CrawlFreshCounts(fuel, env.db, PassStep(env), AzureState(0, marker, false), log);
    CrawlFreshFinal(fuel, env.db, PassStep(env), AzureState(0, marker, false), log);
    ProgressConcat(log, t.writes, env.db);
    assert Progress(log + t.writes, env.db) == Progress(t.writes, env.db);
  }

  // ---------------------------------------------------------------------
  // A two-page container

  /** The first page of the two: inserted and checkpointed with count 0,
      which leaves the bucket with exactly that checkpoint. */
  lemma TwoPageFirstPass(env: AzureEnv, log: seq<AzureWrite>, m: string, first: seq<BlobRecord>)
    requires Progress(log, env.db) == [] && m != ""
    requires var r := env.server(ListBlobsRequest(env.url, None, env.maxResults));
      r.status == 200 && r.body.Some? && r.body.value.nextMarker == Some(Some(m)) &&
      ProcessBlobs(r.body.value.blobs, env.parseDate) == Success(first)
    ensures var p := PassOf(env, AzureState(0, None, false), log);
      p == NextPage(ListBlobsRequest(env.url, None, env.maxResults), first, AzureCheckpoint(Some(m), 0)) &&
      Progress(log + PassWrites(env.db, p), env.db) == [AzureCheckpoint(Some(m), 0)]
  {
    var p := PassOf(env, AzureState(0, None, false), log);
    PassOfSpec(env, AzureState(0, None, false), log);
    var records: AzureWrite, checkpoint: AzureWrite :=
      FileListInsert(env.db, first), ProgressInsert(env.db, AzureCheckpoint(Some(m), 0));
    assert PassWrites(env.db, p) == [records] + [checkpoint];
    ProgressConcat(log, PassWrites(env.db, p), env.db);
    ProgressConcat([records], [checkpoint], env.db);
    ProgressSingle(records, env.db);
    ProgressSingle(checkpoint, env.db);
  }

  /** A fresh call on a container of two pages, the first ending in a
      NextMarker `m` and the second in none: the call inserts both pages'
      records, checkpoints `m` with page count 0, passes once through the
      resume step on finding that checkpoint, and completes with
      `page_count` 0 (it reports "Total Pages: 0", the last page not being
      counted and the resume setting the count back). */
  lemma TwoPageCrawl(fuel: nat, env: AzureEnv, log: seq<AzureWrite>, m: string,
                     first: seq<BlobRecord>, second: seq<BlobRecord>)
    requires fuel >= 3 && Progress(log, env.db) == [] && m != ""
    requires var r := env.server(ListBlobsRequest(env.url, None, env.maxResults));
      r.status == 200 && r.body.Some? && r.body.value.nextMarker == Some(Some(m)) &&
      ProcessBlobs(r.body.value.blobs, env.parseDate) == Success(first)
    requires var r := env.server(ListBlobsRequest(env.url, Some(m), env.maxResults));
      r.status == 200 && r.body.Some? && r.body.value.nextMarker.None? &&
      ProcessBlobs(r.body.value.blobs, env.parseDate) == Success(second)
    ensures var t := Run(fuel, env, AzureState(0, None, false), log);
      |t.passes| == 3 && t.passes[1] == Resumed(AzureCheckpoint(Some(m), 0)) &&
      t.writes == [FileListInsert(env.db, first), ProgressInsert(env.db, AzureCheckpoint(Some(m), 0)),
                   FileListInsert(env.db, second)] &&
      t.outcome == Completed && t.final.pageCount == 0
  {
    var st0 := AzureState(0, None, false);
    var p0 := PassOf(env, st0, log);
    TwoPageFirstPass(env, log, m, first);
    var st1 := Next(st0, p0);
    var log1 := log + PassWrites(env.db, p0);
    var p1 := PassOf(env, st1, log1);
    PassOfSpec(env, st1, log1);
    assert p1 == Resumed(AzureCheckpoint(Some(m), 0));
    var st2 := Next(st1, p1);
    assert log1 + PassWrites(env.db, p1) == log1;
    var p2 := PassOf(env, st2, log1);
    PassOfSpec(env, st2, log1);
    assert p2 == LastPage(ListBlobsRequest(env.url, Some(m), env.maxResults), second);
    var t2 := Run(fuel - 2, env, st2, log1);
    assert t2 == AzureTrace([p2], [FileListInsert(env.db, second)], Completed, st2);
    var t1 := Run(fuel - 1, env, st1, log1);
    assert t1 == Prepend([p1], [], t2);
  }
}
