/**
  The per-category success report of get_success_rate_per_object.py: every
  result video in a directory listing is classified by its file name
  (`<name>_success.mp4` or `<name>_fail.mp4`, possibly with `_x264` before
  the marker), its category is the fifth `_`-separated field of the name,
  and a dictionary of counters per category is updated in place, one video
  at a time, in listing order.
*/
module SuccessRatePerObject {
  import opened Wrappers
  import opened Strings

  datatype Verdict = Succeeded | Failed

  /** What the file name says about a video. */
  datatype Classification =
    | NotVideo                                  // not an `.mp4` file: ignored silently
    | NoIndicator                               // an `.mp4` without `_success`/`_fail`: skipped with a message
    | Marked(verdict: Verdict, nameParts: string) // the name with extension and marker removed

  /** The marker each verdict is written with. */
  function Marker(v: Verdict): string {
    match v
    case Succeeded => "_success"
    case Failed => "_fail"
  }

  /** The extension is cut first; `_success` is tested before `_fail`. */
  function Classify(video: string): Classification {
    if !EndsWith(video, ".mp4") then NotVideo
    else
      var name := video[..|video| - 4];
      if EndsWith(name, "_success") then Marked(Succeeded, name[..|name| - 8])
      else if EndsWith(name, "_fail") then Marked(Failed, name[..|name| - 5])
      else NoIndicator
  }

  /** A marked video's file name is its name parts, its marker and `.mp4`, in that order. */
  lemma ClassifiedNameShape(video: string)
    requires Classify(video).Marked?
    ensures var c := Classify(video);
      video == c.nameParts + Marker(c.verdict) + ".mp4"
  {
    var name := video[..|video| - 4];
    assert video == name + ".mp4";
    if Classify(video).verdict == Succeeded {
      assert name == name[..|name| - 8] + "_success";
    } else {
      assert name == name[..|name| - 5] + "_fail";
    }
  }

  /** Any name followed by a marker and `.mp4` is classified by that marker, with the name given back. */
  lemma ClassifyMarkedName(nameParts: string, v: Verdict)
    ensures Classify(nameParts + Marker(v) + ".mp4") == Marked(v, nameParts)
  {
    var video := nameParts + Marker(v) + ".mp4";
    var name := nameParts + Marker(v);
    assert video[..|video| - 4] == name;
    match v
    case Succeeded =>
      assert name[|name| - 8..] == "_success";
      assert name[..|name| - 8] == nameParts;
    case Failed =>
      assert name[|name| - 1] == 'l';
      assert name[|name| - 5..] == "_fail";
      assert name[..|name| - 5] == nameParts;
  }

  /** A file not ending in `.mp4` is never counted. */
  lemma NonVideosIgnored(video: string)
    requires !EndsWith(video, ".mp4")
    ensures Classify(video) == NotVideo
  {
  }

  /**
    A trailing `_x264` is cut by dropping six characters, one more than it
    has; a name that is only `_x264` becomes empty.
  */
  function StripCodec(nameParts: string): string {
    if EndsWith(nameParts, "_x264") then
      nameParts[..if |nameParts| >= 6 then |nameParts| - 6 else 0]
    else nameParts
  }

  /** The cut takes the `_x264` and the character before it. */
  lemma StripCodecDropsSix(a: string)
    ensures StripCodec(a + "_x264") == if a == [] then [] else a[..|a| - 1]
    ensures !EndsWith(a, "_x264") ==> StripCodec(a) == a
  {
    EndsWithSpliced(a, "_x264");
  }

  /** The fifth `_`-separated field, or nothing when the name has fewer than five (an `IndexError`). */
  function Category(nameParts: string): (r: Option<string>)
    ensures r.Some? ==> '_' !in r.value
  {
    var fields := Split(StripCodec(nameParts), '_');
    if |fields| < 5 then None else Some(fields[4])
  }

  /** A name has a category exactly when it keeps at least four underscores after the codec cut. */
  lemma CategoryNeedsFourUnderscores(nameParts: string)
    ensures Category(nameParts).Some? <==> Count(StripCodec(nameParts), '_') >= 4
  {
    SplitSizes(StripCodec(nameParts), '_');
  }

  /** What one directory entry does to the tally. */
  datatype Effect = Skip | Tallied(category: string, verdict: Verdict) | Crash

  function EffectOf(video: string): Effect {
    match Classify(video)
    case NotVideo => Skip
    case NoIndicator => Skip
    case Marked(v, parts) =>
      match Category(parts)
      case None => Crash
      case Some(c) => Tallied(c, v)
  }

  // ---------------------------------------------------------------------------
  // The counters
  // ---------------------------------------------------------------------------

  /** The three counters of a category, starting at zero. */
  datatype Stats = Stats(success: nat, fail: nat, total: nat)

  /**
    `category_stats`: the categories in the order they were first seen
    (the dictionary's iteration order) and their counters.
  */
  datatype Table = Table(categories: seq<string>, stats: map<string, Stats>)

  const EmptyTable := Table([], map[])

  predicate Distinct(keys: seq<string>) {
    forall i, j :: 0 <= i < j < |keys| ==> keys[i] != keys[j]
  }

  /** Every category is listed once, has counters, and its total is its successes plus its failures. */
  ghost predicate WellFormed(t: Table) {
    && Distinct(t.categories)
    && (forall c :: c in t.stats <==> c in t.categories)
    && (forall c :: c in t.stats ==> t.stats[c].total == t.stats[c].success + t.stats[c].fail)
  }

  /** The counters of a category, zero for one not seen yet (the `defaultdict`). */
  function Lookup(stats: map<string, Stats>, c: string): Stats {
    if c in stats then stats[c] else Stats(0, 0, 0)
  }

  /** `total` goes up by one, and `success` or `fail` by one. */
  function Bump(t: Table, c: string, v: Verdict): Table {
    var s := Lookup(t.stats, c);
    var s' := if v == Succeeded then Stats(s.success + 1, s.fail, s.total + 1)
              else Stats(s.success, s.fail + 1, s.total + 1);
    Table(if c in t.stats then t.categories else t.categories + [c], t.stats[c := s'])
  }

  /**
    One directory entry. A marked video without a fifth field stops the run;
    the failure carries that entry (the source's `IndexError` does not name it).
  */
  function Record(t: Table, video: string): Result<Table, string> {
    match EffectOf(video)
    case Skip => Success(t)
    case Crash => Failure(video)
    case Tallied(c, v) => Success(Bump(t, c, v))
  }

  /** The loop over the listing, as a value: the table after all entries, or the entry it stopped at. */
  function TallyOf(videos: seq<string>): Result<Table, string>
    decreases |videos|
  {
    if videos == [] then Success(EmptyTable)
    else
      var prev := TallyOf(videos[..|videos| - 1]);
      if prev.Failure? then prev else Record(prev.value, videos[|videos| - 1])
  }

  /**
    The loop of `main`: the counters are changed in place, entry by entry;
    the first name without a category ends the run.
  */
  method Tally(videos: seq<string>) returns (r: Result<Table, string>)
    ensures r == TallyOf(videos)
  {
    var categoryStats := EmptyTable;
    for i := 0 to |videos|
      invariant TallyOf(videos[..i]) == Success(categoryStats)
    {
      var video := videos[i];
      assert videos[..i + 1][..i] == videos[..i];
      match Classify(video) {
        case NotVideo =>
        case NoIndicator =>
        case Marked(result, nameParts) =>
          var fields := Split(StripCodec(nameParts), '_');
          if |fields| < 5 {
            assert TallyOf(videos[..i + 1]) == Failure(video);
            TallyStopsAtFailure(videos, i + 1);
            return Failure(video);
          }
          var category := fields[4];
          var s := Lookup(categoryStats.stats, category);
          s := s.(total := s.total + 1);
          if result == Succeeded {
            s := s.(success := s.success + 1);
          } else {
            s := s.(fail := s.fail + 1);
          }
          var categories := categoryStats.categories;
          if category !in categoryStats.stats {
            categories := categories + [category];
          }
          categoryStats := Table(categories, categoryStats.stats[category := s]);
      }
    }
    assert videos[..|videos|] == videos;
    r := Success(categoryStats);
  }

  /** Once the loop has stopped, later entries do not restart it. */
  lemma {:induction false} TallyStopsAtFailure(videos: seq<string>, k: nat)
    requires k <= |videos| && TallyOf(videos[..k]).Failure?
    ensures TallyOf(videos) == TallyOf(videos[..k])
    decreases |videos| - k
  {
    if k < |videos| {
      assert videos[..k + 1][..k] == videos[..k];
      TallyStopsAtFailure(videos, k + 1);
    } else {
      assert videos[..k] == videos;
    }
  }

  /** Entries that are skipped leave the counters as they were. */
  lemma SkippedEntryChangesNothing(videos: seq<string>, video: string)
    requires EffectOf(video) == Skip
    ensures TallyOf(videos + [video]) == TallyOf(videos)
  {
    assert (videos + [video])[..|videos|] == videos;
  }

  /**
    The run stops exactly when some entry is a marked video without a
    category, and it stops at the first such entry, which the failure carries.
  */
  lemma {:induction false} TallyFailsAtFirstMalformed(videos: seq<string>)
    ensures TallyOf(videos).Failure? <==> exists i :: 0 <= i < |videos| && EffectOf(videos[i]) == Crash
    ensures TallyOf(videos).Failure? ==> exists i ::
      && 0 <= i < |videos| && EffectOf(videos[i]) == Crash && TallyOf(videos).error == videos[i]
      && forall j :: 0 <= j < i ==> EffectOf(videos[j]) != Crash
    decreases |videos|
  {
    if videos != [] {
      var init := videos[..|videos| - 1];
      TallyFailsAtFirstMalformed(init);
      forall i | 0 <= i < |init|
        ensures init[i] == videos[i]
      {
      }
    }
  }

  /** The table the loop builds is always well formed. */
  lemma {:induction false} TallyWellFormed(videos: seq<string>)
    requires TallyOf(videos).Success?
    ensures WellFormed(TallyOf(videos).value)
    decreases |videos|
  {
    if videos != [] {
      var init := videos[..|videos| - 1];
      TallyWellFormed(init);
      var t := TallyOf(init).value;
      var e := EffectOf(videos[|videos| - 1]);
      if e.Tallied? {
        BumpWellFormed(t, e.category, e.verdict);
      }
    }
  }

  lemma BumpWellFormed(t: Table, c: string, v: Verdict)
    requires WellFormed(t)
    ensures WellFormed(Bump(t, c, v))
  {
    var t' := Bump(t, c, v);
    if c !in t.stats {
      forall i, j | 0 <= i < j < |t'.categories|
        ensures t'.categories[i] != t'.categories[j]
      {
        if j == |t.categories| {
          assert t'.categories[i] == t.categories[i];
        }
      }
    }
  }

  // ---------------------------------------------------------------------------
  // What the counters count
  // ---------------------------------------------------------------------------

  /** The number of entries counted for category `c` with verdict `v`. */
  function CountOf(videos: seq<string>, c: string, v: Verdict): nat
    decreases |videos|
  {
    if videos == [] then 0
    else CountOf(videos[..|videos| - 1], c, v) + (if EffectOf(videos[|videos| - 1]) == Tallied(c, v) then 1 else 0)
  }

  /** The number of entries counted with verdict `v`, in any category. */
  function CountVerdict(videos: seq<string>, v: Verdict): nat
    decreases |videos|
  {
    if videos == [] then 0
    else
      var e := EffectOf(videos[|videos| - 1]);
      CountVerdict(videos[..|videos| - 1], v) + (if e.Tallied? && e.verdict == v then 1 else 0)
  }

  /**
    Each category's `success` is the number of its successful videos and its
    `fail` the number of its failed ones; categories never seen have no entry.
  */
  lemma {:induction false} TallyCounts(videos: seq<string>, c: string)
    requires TallyOf(videos).Success?
    ensures var t := TallyOf(videos).value;
      && Lookup(t.stats, c).success == CountOf(videos, c, Succeeded)
      && Lookup(t.stats, c).fail == CountOf(videos, c, Failed)
      && (c !in t.stats <==> CountOf(videos, c, Succeeded) + CountOf(videos, c, Failed) == 0)
    decreases |videos|
  {
    if videos != [] {
      var init := videos[..|videos| - 1];
      TallyCounts(init, c);
      TallyWellFormed(init);
    }
  }

  // ---------------------------------------------------------------------------
  // Sums over the categories
  // ---------------------------------------------------------------------------

  datatype Field = SuccessField | FailField | TotalField

  function Get(s: Stats, f: Field): nat {
    match f
    case SuccessField => s.success
    case FailField => s.fail
    case TotalField => s.total
  }

  /** `sum(stats[f] for stats in category_stats.values())`, in the dictionary's order. */
  function Sum(keys: seq<string>, m: map<string, Stats>, f: Field): nat
    decreases |keys|
  {
    if keys == [] then 0
    else Sum(keys[..|keys| - 1], m, f) + Get(Lookup(m, keys[|keys| - 1]), f)
  }

  /** Changing the counters of a category that is not summed changes no sum. */
  lemma {:induction false} SumOutside(keys: seq<string>, m: map<string, Stats>, c: string, s: Stats, f: Field)
    requires c !in keys
    ensures Sum(keys, m[c := s], f) == Sum(keys, m, f)
    decreases |keys|
  {
    if keys != [] {
      var init := keys[..|keys| - 1];
      assert forall k :: k in init ==> k in keys;
      SumOutside(init, m, c, s, f);
    }
  }

  /** Changing the counters of a summed category changes the sum by the difference. */
  lemma {:induction false} SumInside(keys: seq<string>, m: map<string, Stats>, c: string, s: Stats, f: Field)
    requires Distinct(keys) && c in keys
    ensures Sum(keys, m[c := s], f) == Sum(keys, m, f) - Get(Lookup(m, c), f) + Get(s, f)
    decreases |keys|
  {
    var init := keys[..|keys| - 1];
    var last := keys[|keys| - 1];
    assert forall k :: k in init ==> k in keys;
    if last == c {
      assert c !in init by {
        forall i | 0 <= i < |init|
          ensures init[i] != c
        {
          assert init[i] == keys[i];
        }
      }
      SumOutside(init, m, c, s, f);
    } else {
      assert c in init by {
        var i :| 0 <= i < |keys| && keys[i] == c;
        assert init[i] == c;
      }
      assert Distinct(init) by {
        forall i, j | 0 <= i < j < |init|
          ensures init[i] != init[j]
        {
          assert init[i] == keys[i] && init[j] == keys[j];
        }
      }
      SumInside(init, m, c, s, f);
    }
  }

  /** Every total is the sum of its successes and failures, so the overall total is too. */
  lemma {:induction false} SumConsistent(keys: seq<string>, m: map<string, Stats>)
    requires forall k :: k in keys ==> k in m && m[k].total == m[k].success + m[k].fail
    ensures Sum(keys, m, TotalField) == Sum(keys, m, SuccessField) + Sum(keys, m, FailField)
    decreases |keys|
  {
    if keys != [] {
      var init := keys[..|keys| - 1];
      assert forall k :: k in init ==> k in keys;
      SumConsistent(init, m);
    }
  }

  /** Counting one more video in category `c` changes a sum by the change of that category's counter. */
  lemma BumpSum(t: Table, c: string, v: Verdict, f: Field)
    requires Distinct(t.categories) && (c in t.stats <==> c in t.categories)
    ensures var t' := Bump(t, c, v);
      Sum(t'.categories, t'.stats, f) == Sum(t.categories, t.stats, f) - Get(Lookup(t.stats, c), f) + Get(t'.stats[c], f)
  {
    var t' := Bump(t, c, v);
    var s' := t'.stats[c];
    if c in t.stats {
      SumInside(t.categories, t.stats, c, s', f);
    } else {
      SumOutside(t.categories, t.stats, c, s', f);
      assert t'.categories[..|t.categories|] == t.categories;
    }
  }

  /**
    The overall figures: the summed totals are the number of counted videos
    and the summed successes the number of successful ones.
  */
  lemma {:induction false} TallySums(videos: seq<string>)
    requires TallyOf(videos).Success?
    ensures var t := TallyOf(videos).value;
      && Sum(t.categories, t.stats, TotalField) == CountVerdict(videos, Succeeded) + CountVerdict(videos, Failed)
      && Sum(t.categories, t.stats, SuccessField) == CountVerdict(videos, Succeeded)
    decreases |videos|
  {
    if videos != [] {
      var init := videos[..|videos| - 1];
      TallySums(init);
      TallyWellFormed(init);
      var e := EffectOf(videos[|videos| - 1]);
      if e.Tallied? {
        BumpSum(TallyOf(init).value, e.category, e.verdict, TotalField);
        BumpSum(TallyOf(init).value, e.category, e.verdict, SuccessField);
      }
    }
  }

  // ---------------------------------------------------------------------------
  // Rates and the overall line
  // ---------------------------------------------------------------------------

  /** `success / total * 100`, or 0 when nothing was counted. */
  function Rate(success: nat, total: nat): real {
    if total > 0 then (success as real / total as real) * 100.0 else 0.0
  }

  /** A rate is a percentage, 0 with no videos, and 100 exactly when every video succeeded. */
  lemma RateBounds(success: nat, total: nat)
    requires success <= total
    ensures 0.0 <= Rate(success, total) <= 100.0
    ensures total == 0 ==> Rate(success, total) == 0.0
    ensures Rate(success, total) == 100.0 <==> total > 0 && success == total
  {
    if total > 0 {
      var q := success as real / total as real;
      assert q * (total as real) == success as real;
      assert q <= 1.0;
      if q == 1.0 {
        assert success as real == total as real;
      }
    }
  }

  /** The `OVERALL` line: successes, failures, videos and the rate. */
  datatype Overall = Overall(success: nat, fail: int, total: nat, rate: real)

  function OverallOf(t: Table): Overall {
    var totalVideos := Sum(t.categories, t.stats, TotalField);
    var totalSuccess := Sum(t.categories, t.stats, SuccessField);
    Overall(totalSuccess, totalVideos - totalSuccess, totalVideos, Rate(totalSuccess, totalVideos))
  }

  /**
    The overall line of a finished run counts the successful and the failed
    videos of the listing, and its rate is a percentage.
  */
  lemma OverallCountsVideos(videos: seq<string>)
    requires TallyOf(videos).Success?
    ensures var t := TallyOf(videos).value;
      var o := OverallOf(t);
      && o.success == CountVerdict(videos, Succeeded)
      && o.fail == CountVerdict(videos, Failed)
      && o.total == o.success + o.fail
      && 0.0 <= o.rate <= 100.0
  {
    TallyWellFormed(videos);
    TallySums(videos);
    var t := TallyOf(videos).value;
    RateBounds(Sum(t.categories, t.stats, SuccessField), Sum(t.categories, t.stats, TotalField));
  }

  /** The row of a category: its rate is a percentage of its own videos. */
  lemma CategoryRateBounds(t: Table, c: string)
    requires WellFormed(t) && c in t.stats
    ensures 0.0 <= Rate(t.stats[c].success, t.stats[c].total) <= 100.0
  {
    RateBounds(t.stats[c].success, t.stats[c].total);
  }

  /** The overall failures are the summed `fail` counters of the categories. */
  lemma OverallFailIsSummedFails(t: Table)
    requires WellFormed(t)
    ensures OverallOf(t).fail == Sum(t.categories, t.stats, FailField)
  {
    SumConsistent(t.categories, t.stats);
  }
}
