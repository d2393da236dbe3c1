/**
 * Aggregation of a video's label detections into sightings: the detections are
 * bucketed by category, label name and parents; each bucket is cut into runs
 * wherever two detections lie more than a gap apart; a run survives when its mean
 * confidence and its length reach the thresholds; and empty containers are pruned.
 *
 * Times are milliseconds and confidences percentages, both as `real`: binary
 * floating-point rounding is not captured.
 */
module Labels {
  import opened Common

  /** One entry of the raw `Labels` list: a label seen at a time with a confidence. */
  datatype Detection = Detection(
    timestamp: real, confidence: real, name: string,
    categories: seq<string>, parents: seq<string>)

  /** The raw detection data: the frame rate and the detections, in order. */
  datatype Raw = Raw(framerate: real, detections: seq<Detection>)

  /** A bucket entry before filtering, `[Timestamp, Confidence]`. */
  datatype Sample = Sample(ts: real, con: real)

  /** A time as `ms2ts` renders it, `hh:mm:ss.sss`, kept as its three numbers. */
  datatype Clock = Clock(hours: int, mins: int, secs: real)

  /** A bucket entry after filtering: first and last time of a run and its mean confidence. */
  datatype Sighting = Sighting(start: Clock, last: Clock, confidence: real)

  /** `data['labels']`: category, then label name, then parents, then the bucket. */
  type Tree<T> = map<string, map<string, map<string, seq<T>>>>

  /** The aggregate output: the frame rate and the pruned sightings. */
  datatype Data = Data(framerate: real, labels: Tree<Sighting>)

  /** The command-line thresholds: confidence in percent, length and gap in seconds. */
  datatype Settings = Settings(confidence: real, length: real, gap: real)

  /** The thresholds as run detection uses them, with length and gap in milliseconds. */
  datatype Limits = Limits(confidence: real, length: real, gap: real)

  function ToLimits(s: Settings): (l: Limits)
    ensures l.confidence == s.confidence
    ensures l.length / 1000.0 == s.length && l.gap / 1000.0 == s.gap
  {
    Limits(s.confidence, s.length * 1000.0, s.gap * 1000.0)
  }

  // ---------------------------------------------------------------------------
  // ms2ts
  // ---------------------------------------------------------------------------

  /** `ms2ts`: whole hours and minutes by truncation, the rest as seconds. */
  function Ms2Ts(ms: real): (c: Clock)
    ensures c.hours as real * 3600.0 + c.mins as real * 60.0 + c.secs == ms / 1000.0
  {
    var s := ms / 1000.0;
    var hours := Trunc(s / 3600.0);
    var rest := s - hours as real * 3600.0;
    var mins := Trunc(rest / 60.0);
    Clock(hours, mins, rest - mins as real * 60.0)
  }

  /** For a time that is not negative the clock is in range: minutes and seconds below 60. */
  lemma Ms2TsRange(ms: real)
    requires ms >= 0.0
    ensures var c := Ms2Ts(ms); c.hours >= 0 && 0 <= c.mins < 60 && 0.0 <= c.secs < 60.0
  {
    var s := ms / 1000.0;
    var hours := Trunc(s / 3600.0);
    assert hours as real <= s / 3600.0 < hours as real + 1.0;
    var rest := s - hours as real * 3600.0;
    assert 0.0 <= rest < 3600.0;
    var mins := Trunc(rest / 60.0);
    assert mins as real <= rest / 60.0 < mins as real + 1.0;
    assert mins as real < 60.0;
  }

  // ---------------------------------------------------------------------------
  // Bucketing
  // ---------------------------------------------------------------------------

  /** The category key: the category names joined with `/`. */
  function CategoryOf(d: Detection): string {
    Join(d.categories, '/')
  }

  /** The parents key: the parent names joined with `/`. */
  function ParentsOf(d: Detection): string {
    Join(d.parents, '/')
  }

  function SampleOf(d: Detection): Sample {
    Sample(d.timestamp, d.confidence)
  }

  /** There is a bucket at `cat`, `nam`, `key`. */
  predicate Has<T>(t: Tree<T>, cat: string, nam: string, key: string) {
    cat in t && nam in t[cat] && key in t[cat][nam]
  }

  /** The bucket at `cat`, `nam`, `key`, or nothing. */
  function Bucket<T>(t: Tree<T>, cat: string, nam: string, key: string): seq<T> {
    if Has(t, cat, nam, key) then t[cat][nam][key] else []
  }

  /** Appending to a bucket, creating the containers on the way when they are missing. */
  function Add<T>(t: Tree<T>, cat: string, nam: string, key: string, x: T): Tree<T> {
    var names := if cat in t then t[cat] else map[];
    var keys := if nam in names then names[nam] else map[];
    var bucket := if key in keys then keys[key] else [];
    t[cat := names[nam := keys[key := bucket + [x]]]]
  }

  /** Appending touches one bucket, extends it by the entry, and creates no other. */
  lemma AddBucket<T>(t: Tree<T>, cat: string, nam: string, key: string, x: T, c: string, n: string, k: string)
    ensures Has(Add(t, cat, nam, key, x), c, n, k) <==> Has(t, c, n, k) || (c, n, k) == (cat, nam, key)
    ensures Bucket(Add(t, cat, nam, key, x), c, n, k)
      == if (c, n, k) == (cat, nam, key) then Bucket(t, c, n, k) + [x] else Bucket(t, c, n, k)
  {
  }

  /** One detection into its bucket, with the three `if ... not in` steps of the source. */
  method AddSample<T>(t: Tree<T>, cat: string, nam: string, key: string, x: T) returns (r: Tree<T>)
    ensures r == Add(t, cat, nam, key, x)
  {
    ghost var names := if cat in t then t[cat] else map[];
    ghost var keys := if nam in names then names[nam] else map[];
    ghost var bucket := if key in keys then keys[key] else [];
    r := t;
    if cat !in r {
      r := r[cat := map[]];
    }
    assert r[cat] == names;
    if nam !in r[cat] {
      r := r[cat := r[cat][nam := map[]]];
    }
    assert r[cat][nam] == keys;
    if key !in r[cat][nam] {
      r := r[cat := r[cat][nam := r[cat][nam][key := []]]];
    }
    assert r[cat][nam][key] == bucket;
    r := r[cat := r[cat][nam := r[cat][nam][key := r[cat][nam][key] + [x]]]];
    assert r[cat][nam] == keys[key := bucket + [x]];
    assert r[cat] == names[nam := keys[key := bucket + [x]]];
    assert forall c :: c in t && c != cat ==> c in r && r[c] == t[c];
  }

  /** The buckets after the first loop of `main`. */
  function Bucketed(ds: seq<Detection>): Tree<Sample> {
    if ds == [] then map[]
    else
      var d := ds[|ds| - 1];
      Add(Bucketed(ds[..|ds| - 1]), CategoryOf(d), d.name, ParentsOf(d), SampleOf(d))
  }

  /** The samples of the detections with the given keys, in input order. */
  function SamplesAt(ds: seq<Detection>, cat: string, nam: string, key: string): (r: seq<Sample>)
    ensures |r| <= |ds|
  {
    if ds == [] then []
    else
      var d := ds[|ds| - 1];
      var init := SamplesAt(ds[..|ds| - 1], cat, nam, key);
      if (CategoryOf(d), d.name, ParentsOf(d)) == (cat, nam, key) then init + [SampleOf(d)] else init
  }

  /**
   * Every bucket holds exactly the detections with its keys, in input order, and
   * a bucket exists exactly when some detection has its keys.
   */
  lemma {:induction false} BucketedSpec(ds: seq<Detection>, cat: string, nam: string, key: string)
    ensures Bucket(Bucketed(ds), cat, nam, key) == SamplesAt(ds, cat, nam, key)
    ensures Has(Bucketed(ds), cat, nam, key) <==> SamplesAt(ds, cat, nam, key) != []
  {
    if ds != [] {
      var d := ds[|ds| - 1];
      BucketedSpec(ds[..|ds| - 1], cat, nam, key);
      AddBucket(Bucketed(ds[..|ds| - 1]), CategoryOf(d), d.name, ParentsOf(d), SampleOf(d), cat, nam, key);
    }
  }

  /** The bucketing loop of `main`. */
  method BucketDetections(ds: seq<Detection>) returns (t: Tree<Sample>)
    ensures t == Bucketed(ds)
  {
    t := map[];
    for i := 0 to |ds|
      invariant t == Bucketed(ds[..i])
    {
      var d := ds[i];
      assert ds[..i + 1][..i] == ds[..i];
      var cat := Join(d.categories, '/');
      var key := Join(d.parents, '/');
      t := AddSample(t, cat, d.name, key, Sample(d.timestamp, d.confidence));
    }
    assert ds[..|ds|] == ds;
  }

  // ---------------------------------------------------------------------------
  // Run detection
  // ---------------------------------------------------------------------------

  /**
   * The loop accumulators `count`, `start`, `last` and `confidence` (a sum). All
   * four start at -1, and `start == -1` is read as "no run open yet".
   */
  datatype Run = Run(count: int, start: real, last: real, sum: real)

  const Fresh: Run := Run(-1, -1.0, -1.0, -1.0)

  /** The count is -1 only while no run is open, and never zero, so the mean is always defined. */
  predicate Counted(r: Run) {
    r.count >= 1 || (r.count == -1 && r.start == -1.0)
  }

  /** A run is committed when its mean confidence and its span reach the thresholds. */
  predicate Keeps(r: Run, lim: Limits)
    requires Counted(r)
  {
    r.sum / r.count as real >= lim.confidence && r.last - r.start >= lim.length
  }

  /** Committing a run: one sighting when it is kept, none otherwise. */
  function Commit(r: Run, lim: Limits): (out: seq<Sighting>)
    requires Counted(r)
    ensures |out| <= 1
    ensures out != [] <==> Keeps(r, lim)
    ensures out != [] ==> out[0].confidence >= lim.confidence
  {
    if Keeps(r, lim) then [Sighting(Ms2Ts(r.start), Ms2Ts(r.last), r.sum / r.count as real)] else []
  }

  /** The loop state: the open run and the sightings committed so far (`ndata`). */
  datatype Scan = Scan(run: Run, out: seq<Sighting>)

  /** One item of a bucket through the loop. */
  function Step(s: Scan, x: Sample, lim: Limits): (r: Scan)
    requires Counted(s.run)
    ensures Counted(r.run)
  {
    if s.run.start == -1.0 then Scan(Run(1, x.ts, x.ts, x.con), s.out)
    else if x.ts - s.run.last > lim.gap then Scan(Run(1, x.ts, x.ts, x.con), s.out + Commit(s.run, lim))
    else Scan(Run(s.run.count + 1, s.run.start, x.ts, s.run.sum + x.con), s.out)
  }

  /** The loop state after a prefix of the bucket. */
  function ScanAll(xs: seq<Sample>, lim: Limits): (r: Scan)
    ensures Counted(r.run)
  {
    if xs == [] then Scan(Fresh, []) else Step(ScanAll(xs[..|xs| - 1], lim), xs[|xs| - 1], lim)
  }

  /** What the filter loop leaves in a bucket: the committed runs, then the last run if kept. */
  function Sightings(xs: seq<Sample>, lim: Limits): seq<Sighting> {
    var s := ScanAll(xs, lim);
    s.out + Commit(s.run, lim)
  }

  /** The filter loop of `main` for one bucket. */
  method FilterBucket(items: seq<Sample>, lim: Limits) returns (ndata: seq<Sighting>)
    ensures ndata == Sightings(items, lim)
  {
    var count, start, last, confidence := -1, -1.0, -1.0, -1.0;
    ndata := [];
    for i := 0 to |items|
      invariant Scan(Run(count, start, last, confidence), ndata) == ScanAll(items[..i], lim)
    {
      assert items[..i + 1][..i] == items[..i];
      var item := items[i];
      var ts, con := item.ts, item.con;
      if start == -1.0 {
        start, last := ts, ts;
        count := 1;
        confidence := con;
      } else if ts - last > lim.gap {
        var rcon := confidence / count as real;
        var span := last - start;
        if rcon >= lim.confidence && span >= lim.length {
          ndata := ndata + [Sighting(Ms2Ts(start), Ms2Ts(last), confidence / count as real)];
        }
        start, last := ts, ts;
        count := 1;
        confidence := con;
      } else {
        last := ts;
        confidence := confidence + con;
        count := count + 1;
      }
    }
    assert items[..|items|] == items;
    assert Counted(Run(count, start, last, confidence));
    var rcon := confidence / count as real;
    var span := last - start;
    if rcon >= lim.confidence && span >= lim.length {
      ndata := ndata + [Sighting(Ms2Ts(start), Ms2Ts(last), confidence / count as real)];
    }
  }

  // ---------------------------------------------------------------------------
  // Runs, stated directly
  // ---------------------------------------------------------------------------

  /** Two consecutive detections are in one run when the second is at most `gap` after the first. */
  predicate Near(prev: Sample, next: Sample, gap: real) {
    next.ts - prev.ts <= gap
  }

  /** The runs of a bucket, built from the last item back. */
  function Runs(xs: seq<Sample>, gap: real): (g: seq<seq<Sample>>)
    ensures |xs| == 0 <==> |g| == 0
    ensures forall k :: 0 <= k < |g| ==> g[k] != []
    ensures g != [] ==> g[|g| - 1][|g[|g| - 1]| - 1] == xs[|xs| - 1]
  {
    if xs == [] then []
    else if |xs| == 1 then [xs]
    else
      var g := Runs(xs[..|xs| - 1], gap);
      var x := xs[|xs| - 1];
      if Near(xs[|xs| - 2], x, gap) then g[..|g| - 1] + [g[|g| - 1] + [x]]
      else g + [[x]]
  }

  /** The runs of one more item. */
  lemma RunsSnoc(xs: seq<Sample>, gap: real, i: nat)
    requires 0 < i < |xs|
    ensures var g, h := Runs(xs[..i], gap), Runs(xs[..i + 1], gap);
      if Near(xs[i - 1], xs[i], gap) then h == g[..|g| - 1] + [g[|g| - 1] + [xs[i]]]
      else h == g + [[xs[i]]]
  {
    assert xs[..i + 1][..i] == xs[..i];
  }

  /** The runs, put back together, are the bucket. */
  lemma {:induction false} RunsFlatten(xs: seq<Sample>, gap: real)
    ensures Flatten(Runs(xs, gap)) == xs
  {
    if |xs| == 1 {
      FlattenSnoc([], xs);
    } else if |xs| > 1 {
      var init := xs[..|xs| - 1];
      calc {
        Flatten(Runs(xs, gap));
        { RunsFlattenStep(xs, gap); }
        Flatten(Runs(init, gap)) + [xs[|xs| - 1]];
        { RunsFlatten(init, gap); }
        init + [xs[|xs| - 1]];
        xs;
      }
    }
  }

  /** The last item adds itself at the end of the flattened runs. */
  lemma RunsFlattenStep(xs: seq<Sample>, gap: real)
    requires |xs| > 1
    ensures Flatten(Runs(xs, gap)) == Flatten(Runs(xs[..|xs| - 1], gap)) + [xs[|xs| - 1]]
  {
    var init := xs[..|xs| - 1];
    var x := xs[|xs| - 1];
    var g := Runs(init, gap);
    if Near(xs[|xs| - 2], x, gap) {
      var rest, gl := g[..|g| - 1], g[|g| - 1];
      calc {
        Flatten(Runs(xs, gap));
        { RunsSnoc(xs, gap, |xs| - 1); assert xs[..|xs| - 1] == init; }
        Flatten(rest + [gl + [x]]);
        { FlattenSnoc(rest, gl + [x]); }
        Flatten(rest) + (gl + [x]);
        Flatten(rest) + gl + [x];
        { FlattenSnoc(rest, gl); assert g == rest + [gl]; }
        Flatten(g) + [x];
      }
    } else {
      calc {
        Flatten(Runs(xs, gap));
        { RunsSnoc(xs, gap, |xs| - 1); assert xs[..|xs| - 1] == init; }
        Flatten(g + [[x]]);
        { FlattenSnoc(g, [x]); }
        Flatten(g) + [x];
      }
    }
  }

  /** Inside a run every item is at most `gap` after the one before it. */
  lemma {:induction false} RunsInside(xs: seq<Sample>, gap: real, k: nat, j: nat)
    requires k < |Runs(xs, gap)| && 0 < j < |Runs(xs, gap)[k]|
    ensures Near(Runs(xs, gap)[k][j - 1], Runs(xs, gap)[k][j], gap)
  {
    var init := xs[..|xs| - 1];
    var g := Runs(init, gap);
    var x := xs[|xs| - 1];
    var h := Runs(xs, gap);
    assert |xs| > 1;
    if Near(xs[|xs| - 2], x, gap) {
      if k < |g| - 1 {
        assert h[k] == g[k];
        RunsInside(init, gap, k, j);
      } else if j < |g[|g| - 1]| {
        assert h[k][j - 1] == g[k][j - 1] && h[k][j] == g[k][j];
        RunsInside(init, gap, k, j);
      } else {
        assert h[k][j - 1] == g[|g| - 1][|g[|g| - 1]| - 1] == xs[|xs| - 2];
      }
    } else {
      assert h[k] == g[k];
      RunsInside(init, gap, k, j);
    }
  }

  /** One more item leaves the runs before the last one as they were, and every run's first item. */
  lemma RunsKeep(xs: seq<Sample>, gap: real, k: nat)
    requires |xs| > 1 && k < |Runs(xs[..|xs| - 1], gap)|
    ensures var g, h := Runs(xs[..|xs| - 1], gap), Runs(xs, gap);
      && k < |h| && h[k][0] == g[k][0]
      && (k < |g| - 1 ==> h[k] == g[k])
      && (!Near(xs[|xs| - 2], xs[|xs| - 1], gap) ==> h[k] == g[k])
  {
    RunsSnoc(xs, gap, |xs| - 1);
    assert xs[..|xs| - 1 + 1] == xs;
  }

  /** A new run opens exactly when the last item is more than `gap` after the one before it. */
  lemma RunsOpen(xs: seq<Sample>, gap: real)
    requires |xs| > 1
    ensures var g, h := Runs(xs[..|xs| - 1], gap), Runs(xs, gap);
      |h| == |g| + 1 ==> !Near(xs[|xs| - 2], xs[|xs| - 1], gap) && h[|g|] == [xs[|xs| - 1]]
  {
    RunsSnoc(xs, gap, |xs| - 1);
    assert xs[..|xs| - 1 + 1] == xs;
  }

  /** Every run after the first starts more than `gap` after the previous run ends. */
  lemma {:induction false} RunsBetween(xs: seq<Sample>, gap: real, k: nat)
    requires 0 < k < |Runs(xs, gap)|
    ensures var g := Runs(xs, gap);
      !Near(g[k - 1][|g[k - 1]| - 1], g[k][0], gap)
  {
    var init := xs[..|xs| - 1];
    var g := Runs(init, gap);
    assert |xs| > 1;
    RunsKeep(xs, gap, k - 1);
    if k < |g| {
      RunsKeep(xs, gap, k);
      RunsBetween(init, gap, k);
    } else {
      RunsOpen(xs, gap);
    }
  }

  /** The sum of the confidences of a run. */
  function SumCon(xs: seq<Sample>): real {
    if xs == [] then 0.0 else SumCon(xs[..|xs| - 1]) + xs[|xs| - 1].con
  }

  /** The accumulators of a complete run: its size, first and last time, and confidence sum. */
  function RunOf(xs: seq<Sample>): (r: Run)
    requires xs != []
    ensures Counted(r)
  {
    Run(|xs|, xs[0].ts, xs[|xs| - 1].ts, SumCon(xs))
  }

  /** The sightings of a list of runs: each run committed, in order. */
  function CommitAll(g: seq<seq<Sample>>, lim: Limits): seq<Sighting>
    requires forall k :: 0 <= k < |g| ==> g[k] != []
  {
    if g == [] then [] else CommitAll(g[..|g| - 1], lim) + Commit(RunOf(g[|g| - 1]), lim)
  }

  /** No timestamp equals the -1 sentinel. */
  predicate NoSentinel(xs: seq<Sample>) {
    forall i :: 0 <= i < |xs| ==> xs[i].ts != -1.0
  }

  /** An open run that continues takes the next item in. */
  lemma ScanJoin(open: seq<Sample>, x: Sample, lim: Limits, out: seq<Sighting>)
    requires open != [] && open[0].ts != -1.0 && x.ts - open[|open| - 1].ts <= lim.gap
    ensures Step(Scan(RunOf(open), out), x, lim) == Scan(RunOf(open + [x]), out)
  {
    var run := open + [x];
    assert run[..|run| - 1] == open;
  }

  /** An open run followed by a gap is committed, and the item opens a new run. */
  lemma ScanBreak(g: seq<seq<Sample>>, x: Sample, lim: Limits)
    requires g != [] && forall k :: 0 <= k < |g| ==> g[k] != []
    requires g[|g| - 1][0].ts != -1.0 && x.ts - g[|g| - 1][|g[|g| - 1]| - 1].ts > lim.gap
    ensures Step(Scan(RunOf(g[|g| - 1]), CommitAll(g[..|g| - 1], lim)), x, lim)
      == Scan(RunOf([x]), CommitAll(g, lim))
  {
    assert [x][..0] == [];
    assert SumCon([x]) == SumCon([]) + x.con;
  }

  /**
   * After a non-empty prefix the loop holds the last run open and has committed
   * every earlier run.
   */
  lemma {:induction false} ScanRuns(xs: seq<Sample>, lim: Limits)
    requires xs != [] && NoSentinel(xs)
    ensures var g := Runs(xs, lim.gap);
      ScanAll(xs, lim) == Scan(RunOf(g[|g| - 1]), CommitAll(g[..|g| - 1], lim))
  {
    var init := xs[..|xs| - 1];
    var x := xs[|xs| - 1];
    if |xs| == 1 {
      assert init == [];
      assert SumCon([x]) == SumCon([]) + x.con;
    } else {
      assert NoSentinel(init) by {
        forall i | 0 <= i < |init| ensures init[i].ts != -1.0 {
          assert init[i] == xs[i];
        }
      }
      var g := Runs(init, lim.gap);
      var h := Runs(xs, lim.gap);
      var open := g[|g| - 1];
      var before := Scan(RunOf(open), CommitAll(g[..|g| - 1], lim));
      assert ScanAll(init, lim) == before by {
        ScanRuns(init, lim);
      }
      assert open[0].ts != -1.0 by {
        RunFirstIn(init, lim.gap, |g| - 1);
      }
      assert ScanAll(xs, lim) == Step(before, x, lim) by {
        assert xs[..|xs| - 1] == init;
      }
      assert Step(before, x, lim) == Scan(RunOf(h[|h| - 1]), CommitAll(h[..|h| - 1], lim)) by {
        RunsSnoc(xs, lim.gap, |xs| - 1);
        assert xs[..|xs| - 1] == init;
        if Near(xs[|xs| - 2], x, lim.gap) {
          ScanJoin(open, x, lim, CommitAll(g[..|g| - 1], lim));
          assert h[..|h| - 1] == g[..|g| - 1];
        } else {
          ScanBreak(g, x, lim);
          assert h[..|h| - 1] == g;
        }
      }
    }
  }

  /** The first item of every run is an item of the bucket. */
  lemma {:induction false} RunFirstIn(xs: seq<Sample>, gap: real, k: nat)
    requires k < |Runs(xs, gap)|
    ensures Runs(xs, gap)[k][0] in xs
  {
    var init := xs[..|xs| - 1];
    var x := xs[|xs| - 1];
    if |xs| > 1 {
      var g := Runs(init, gap);
      var h := Runs(xs, gap);
      if Near(xs[|xs| - 2], x, gap) {
        if k < |g| - 1 {
          assert h[k] == g[k];
        } else {
          assert h[k][0] == g[k][0];
        }
        RunFirstIn(init, gap, k);
      } else if k < |g| {
        assert h[k] == g[k];
        RunFirstIn(init, gap, k);
      }
    }
  }

  /**
   * The filter leaves exactly the kept runs, in order: for a non-empty bucket with
   * no -1 timestamp, each run of items at most `gap` apart gives one sighting when
   * its mean confidence and its span reach the thresholds, and none otherwise.
   */
  lemma SightingsRuns(xs: seq<Sample>, lim: Limits)
    requires xs != [] && NoSentinel(xs)
    ensures Sightings(xs, lim) == CommitAll(Runs(xs, lim.gap), lim)
  {
    ScanRuns(xs, lim);
    var g := Runs(xs, lim.gap);
    assert g[..|g| - 1] + [g[|g| - 1]] == g;
  }

  /** Every sighting left in a bucket has at least the required mean confidence. */
  lemma {:induction false} CommitAllConfident(g: seq<seq<Sample>>, lim: Limits, i: nat)
    requires forall k :: 0 <= k < |g| ==> g[k] != []
    requires i < |CommitAll(g, lim)|
    ensures CommitAll(g, lim)[i].confidence >= lim.confidence
  {
    var init := g[..|g| - 1];
    var c := CommitAll(init, lim);
    if i < |c| {
      CommitAllConfident(init, lim, i);
    }
  }

  /** An empty bucket, which bucketing never makes, is left with one sighting of the sentinel when the thresholds allow. */
  lemma EmptyBucket(lim: Limits)
    ensures Sightings([], lim)
      == if 1.0 >= lim.confidence && 0.0 >= lim.length then [Sighting(Ms2Ts(-1.0), Ms2Ts(-1.0), 1.0)] else []
  {
  }

  // ---------------------------------------------------------------------------
  // Filtering the tree
  // ---------------------------------------------------------------------------

  /** Every bucket of the tree replaced by its sightings. */
  function FilterTree(t: Tree<Sample>, lim: Limits): (r: Tree<Sighting>)
    ensures forall c, n, k :: Has(r, c, n, k) <==> Has(t, c, n, k)
  {
    map c | c in t :: map n | n in t[c] :: map k | k in t[c][n] :: Sightings(t[c][n][k], lim)
  }

  method FilterKeys(m: map<string, seq<Sample>>, lim: Limits) returns (r: map<string, seq<Sighting>>)
    ensures r == map k | k in m :: Sightings(m[k], lim)
  {
    r := map[];
    var todo := m.Keys;
    while todo != {}
      invariant todo <= m.Keys && r.Keys == m.Keys - todo
      invariant forall k :: k in r ==> r[k] == Sightings(m[k], lim)
      decreases |todo|
    {
      var k :| k in todo;
      var ndata := FilterBucket(m[k], lim);
      r := r[k := ndata];
      todo := todo - {k};
    }
  }

  method FilterNames(m: map<string, map<string, seq<Sample>>>, lim: Limits)
    returns (r: map<string, map<string, seq<Sighting>>>)
    ensures r == map n | n in m :: map k | k in m[n] :: Sightings(m[n][k], lim)
  {
    r := map[];
    var todo := m.Keys;
    while todo != {}
      invariant todo <= m.Keys && r.Keys == m.Keys - todo
      invariant forall n :: n in r ==> r[n] == map k | k in m[n] :: Sightings(m[n][k], lim)
      decreases |todo|
    {
      var n :| n in todo;
      var keys := FilterKeys(m[n], lim);
      r := r[n := keys];
      todo := todo - {n};
    }
  }

  /** The filter loops of `main`. */
  method FilterAll(t: Tree<Sample>, lim: Limits) returns (r: Tree<Sighting>)
    ensures r == FilterTree(t, lim)
  {
    r := map[];
    var todo := t.Keys;
    while todo != {}
      invariant todo <= t.Keys && r.Keys == t.Keys - todo
      invariant forall c :: c in r ==> r[c] == FilterTree(t, lim)[c]
      decreases |todo|
    {
      var c :| c in todo;
      var names := FilterNames(t[c], lim);
      r := r[c := names];
      todo := todo - {c};
    }
  }

  // ---------------------------------------------------------------------------
  // Pruning
  // ---------------------------------------------------------------------------

  function PruneKeys<T>(m: map<string, seq<T>>): map<string, seq<T>> {
    map k | k in m && m[k] != [] :: m[k]
  }

  function PruneNames<T>(m: map<string, map<string, seq<T>>>): map<string, map<string, seq<T>>> {
    map n | n in m && PruneKeys(m[n]) != map[] :: PruneKeys(m[n])
  }

  /** The tree with empty buckets removed, then empty name maps, then empty categories. */
  function Prune<T>(t: Tree<T>): Tree<T> {
    map c | c in t && PruneNames(t[c]) != map[] :: PruneNames(t[c])
  }

  /**
   * Pruning keeps every bucket as it is, and keeps a bucket exactly when it is
   * not empty.
   */
  lemma PruneBuckets<T>(t: Tree<T>, c: string, n: string, k: string)
    ensures Bucket(Prune(t), c, n, k) == Bucket(t, c, n, k)
    ensures Has(Prune(t), c, n, k) <==> Bucket(t, c, n, k) != []
  {
    if Has(t, c, n, k) && t[c][n][k] != [] {
      assert k in PruneKeys(t[c][n]);
      assert n in PruneNames(t[c]);
    }
  }

  /** After pruning no category, name map or bucket is empty. */
  lemma PruneNoEmpty<T>(t: Tree<T>, c: string, n: string)
    ensures c in Prune(t) ==> Prune(t)[c] != map[]
    ensures c in Prune(t) && n in Prune(t)[c] ==> Prune(t)[c][n] != map[]
    ensures forall k :: Has(Prune(t), c, n, k) ==> Prune(t)[c][n][k] != []
  {
  }

  /** The innermost pruning loop: pop every empty bucket. */
  method PruneKeysLoop<T>(m0: map<string, seq<T>>) returns (m: map<string, seq<T>>)
    ensures m == PruneKeys(m0)
  {
    m := m0;
    var todo := m0.Keys;
    while todo != {}
      invariant todo <= m0.Keys
      invariant forall k :: k in m <==> k in m0 && (k in todo || m0[k] != [])
      invariant forall k :: k in m ==> m[k] == m0[k]
      decreases |todo|
    {
      var k :| k in todo;
      if |m[k]| == 0 {
        m := m - {k};
      }
      todo := todo - {k};
    }
  }

  /** The middle loop's state: the names in `todo` are untouched, the others pruned or popped. */
  ghost predicate NamesPrunedExcept<T>(m0: map<string, map<string, seq<T>>>, m: map<string, map<string, seq<T>>>, todo: set<string>) {
    && todo <= m0.Keys
    && (forall n :: n in m <==> n in m0 && (n in todo || PruneKeys(m0[n]) != map[]))
    && (forall n :: n in m ==> m[n] == if n in todo then m0[n] else PruneKeys(m0[n]))
  }

  lemma NamesPruneStep<T>(m0: map<string, map<string, seq<T>>>, m: map<string, map<string, seq<T>>>, todo: set<string>, n: string)
    requires NamesPrunedExcept(m0, m, todo) && n in todo
    ensures var keys := PruneKeys(m[n]);
      NamesPrunedExcept(m0, if |keys| == 0 then m - {n} else m[n := keys], todo - {n})
  {
  }

  lemma NamesPruneDone<T>(m0: map<string, map<string, seq<T>>>, m: map<string, map<string, seq<T>>>)
    requires NamesPrunedExcept(m0, m, {})
    ensures m == PruneNames(m0)
  {
  }

  /** The middle pruning loop: prune each name's buckets, then pop the name if none is left. */
  method PruneNamesLoop<T>(m0: map<string, map<string, seq<T>>>) returns (m: map<string, map<string, seq<T>>>)
    ensures m == PruneNames(m0)
  {
    m := m0;
    var todo := m0.Keys;
    while todo != {}
      invariant NamesPrunedExcept(m0, m, todo)
      decreases |todo|
    {
      var n :| n in todo;
      NamesPruneStep(m0, m, todo, n);
      var keys := PruneKeysLoop(m[n]);
      if |keys| == 0 {
        m := m - {n};
      } else {
        m := m[n := keys];
      }
      todo := todo - {n};
    }
    NamesPruneDone(m0, m);
  }

  /** The outer loop's state: the categories in `todo` are untouched, the others pruned or popped. */
  ghost predicate TreePrunedExcept<T>(t0: Tree<T>, t: Tree<T>, todo: set<string>) {
    && todo <= t0.Keys
    && (forall c :: c in t <==> c in t0 && (c in todo || PruneNames(t0[c]) != map[]))
    && (forall c :: c in t ==> t[c] == if c in todo then t0[c] else PruneNames(t0[c]))
  }

  lemma TreePruneStep<T>(t0: Tree<T>, t: Tree<T>, todo: set<string>, c: string)
    requires TreePrunedExcept(t0, t, todo) && c in todo
    ensures var names := PruneNames(t[c]);
      TreePrunedExcept(t0, if |names| == 0 then t - {c} else t[c := names], todo - {c})
  {
  }

  lemma TreePruneDone<T>(t0: Tree<T>, t: Tree<T>)
    requires TreePrunedExcept(t0, t, {})
    ensures t == Prune(t0)
  {
  }

  /** The pruning loops of `main`. */
  method PruneLoop<T>(t0: Tree<T>) returns (t: Tree<T>)
    ensures t == Prune(t0)
  {
    t := t0;
    var todo := t0.Keys;
    while todo != {}
      invariant TreePrunedExcept(t0, t, todo)
      decreases |todo|
    {
      var c :| c in todo;
      TreePruneStep(t0, t, todo, c);
      var names := PruneNamesLoop(t[c]);
      if |names| == 0 {
        t := t - {c};
      } else {
        t := t[c := names];
      }
      todo := todo - {c};
    }
    TreePruneDone(t0, t);
  }

  // ---------------------------------------------------------------------------
  // main
  // ---------------------------------------------------------------------------

  /** The aggregate data `main` writes. */
  function AggregateOf(raw: Raw, settings: Settings): Data {
    Data(raw.framerate, Prune(FilterTree(Bucketed(raw.detections), ToLimits(settings))))
  }

  /** `main`, from the raw detections to the aggregate data. */
  method Aggregate(raw: Raw, settings: Settings) returns (data: Data)
    ensures data == AggregateOf(raw, settings)
  {
    var lim := ToLimits(settings);
    var buckets := BucketDetections(raw.detections);
    var filtered := FilterAll(buckets, lim);
    var pruned := PruneLoop(filtered);
    data := Data(raw.framerate, pruned);
  }

  /**
   * The output has a bucket for a category, name and parents exactly when some
   * detection has those keys and its samples leave a sighting; the bucket holds
   * the sightings of those samples, in input order.
   */
  lemma AggregateSpec(raw: Raw, settings: Settings, cat: string, nam: string, key: string)
    ensures var out := AggregateOf(raw, settings).labels;
      var xs := SamplesAt(raw.detections, cat, nam, key);
      && (Has(out, cat, nam, key) <==> xs != [] && Sightings(xs, ToLimits(settings)) != [])
      && (Has(out, cat, nam, key) ==> out[cat][nam][key] == Sightings(xs, ToLimits(settings)))
  {
    var lim := ToLimits(settings);
    var t := Bucketed(raw.detections);
    BucketedSpec(raw.detections, cat, nam, key);
    PruneBuckets(FilterTree(t, lim), cat, nam, key);
    if Has(t, cat, nam, key) {
      assert Bucket(FilterTree(t, lim), cat, nam, key) == Sightings(t[cat][nam][key], lim);
    }
  }

  /**
   * With no -1 timestamp among a bucket's detections, its output is the kept runs of
   * those detections, each of at least the required mean confidence.
   */
  lemma AggregateRuns(raw: Raw, settings: Settings, cat: string, nam: string, key: string, i: nat)
    requires NoSentinel(SamplesAt(raw.detections, cat, nam, key))
    requires Has(AggregateOf(raw, settings).labels, cat, nam, key)
    ensures var xs := SamplesAt(raw.detections, cat, nam, key);
      var lim := ToLimits(settings);
      AggregateOf(raw, settings).labels[cat][nam][key] == CommitAll(Runs(xs, lim.gap), lim)
    ensures var out := AggregateOf(raw, settings).labels[cat][nam][key];
      i < |out| ==> out[i].confidence >= settings.confidence
  {
    var xs := SamplesAt(raw.detections, cat, nam, key);
    var lim := ToLimits(settings);
    AggregateSpec(raw, settings, cat, nam, key);
    SightingsRuns(xs, lim);
    if i < |CommitAll(Runs(xs, lim.gap), lim)| {
      CommitAllConfident(Runs(xs, lim.gap), lim, i);
    }
  }
}
