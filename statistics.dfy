/**
  The suite summary of get_statistics.py: the videos of an experiment are
  pooled from `data/<name>/videos` and the parallel runs' `videos_0` to
  `videos_9`, and for each benchmark suite the videos whose names start with
  its prefix are counted, with those whose names mention `success` and
  `fail`.

  The file system is a parameter: `listDir(path)` is the listing of the
  directory at `path`, or `None` when it does not exist.
*/
module Statistics {
  import opened Wrappers
  import opened Strings

  /** The number of parallel video directories looked at. */
  const ParallelRuns := 10

  /** The suites, in the order they are reported. */
  const Prefixes: seq<string> := ["libero_10", "libero_goal", "libero_object"]

  /** `os.path.join('data', name, 'videos')`. */
  function VideoDir(name: string): string {
    "data/" + name + "/videos"
  }

  /** `os.path.join('data', name, f'videos_{i}')`. */
  function ParallelDir(name: string, i: nat): string {
    VideoDir(name) + "_" + NatToString(i)
  }

  /** The listing of a directory, nothing when it does not exist. */
  function Listed(listing: Option<seq<string>>): seq<string> {
    if listing.Some? then listing.value else []
  }

  /** The listings of the parallel directories `0 .. k - 1` that exist, one after the other. */
  function ParallelListings(listDir: string -> Option<seq<string>>, name: string, k: nat): seq<string>
    decreases k
  {
    if k == 0 then [] else ParallelListings(listDir, name, k - 1) + Listed(listDir(ParallelDir(name, k - 1)))
  }

  /** `all_videos`, or nothing when the main video directory does not exist. */
  function PoolOf(listDir: string -> Option<seq<string>>, name: string): Option<seq<string>> {
    var main := listDir(VideoDir(name));
    if main.None? then None else Some(main.value + ParallelListings(listDir, name, ParallelRuns))
  }

  /** The pool assembly of `main`: the main listing, then each existing parallel listing appended in turn. */
  method CollectVideos(listDir: string -> Option<seq<string>>, name: string) returns (pool: Option<seq<string>>)
    ensures pool == PoolOf(listDir, name)
  {
    var videoDir := VideoDir(name);
    var main := listDir(videoDir);
    if main.None? {
      return None;
    }
    var allVideos := main.value;
    for i := 0 to ParallelRuns
      invariant allVideos == main.value + ParallelListings(listDir, name, i)
    {
      var parallelVideoDir := ParallelDir(name, i);
      var listing := listDir(parallelVideoDir);
      if listing.Some? {
        allVideos := allVideos + listing.value;
      }
    }
    pool := Some(allVideos);
  }

  /** A video is pooled exactly when it is in the main listing or in the listing of an existing parallel directory. */
  lemma {:induction false} ParallelListingsMembership(listDir: string -> Option<seq<string>>, name: string, k: nat, v: string)
    ensures v in ParallelListings(listDir, name, k) <==>
      exists i :: 0 <= i < k && v in Listed(listDir(ParallelDir(name, i)))
    decreases k
  {
    if k > 0 {
      ParallelListingsMembership(listDir, name, k - 1, v);
    }
  }

  lemma PoolMembership(listDir: string -> Option<seq<string>>, name: string, v: string)
    requires listDir(VideoDir(name)).Some?
    ensures PoolOf(listDir, name).Some?
    ensures v in PoolOf(listDir, name).value <==>
      || v in listDir(VideoDir(name)).value
      || exists i :: 0 <= i < ParallelRuns && v in Listed(listDir(ParallelDir(name, i)))
  {
    ParallelListingsMembership(listDir, name, ParallelRuns, v);
  }

  /** Without parallel directories the pool is the main listing. */
  lemma {:induction false} NoParallelRuns(listDir: string -> Option<seq<string>>, name: string, k: nat)
    requires forall i :: 0 <= i < k ==> listDir(ParallelDir(name, i)).None?
    ensures ParallelListings(listDir, name, k) == []
    decreases k
  {
    if k > 0 {
      NoParallelRuns(listDir, name, k - 1);
    }
  }

  /** The pool is as long as all the listings that exist together. */
  lemma {:induction false} ParallelListingsLength(listDir: string -> Option<seq<string>>, name: string, k: nat)
    ensures |ParallelListings(listDir, name, k)| == SumOfSizes(listDir, name, k)
    decreases k
  {
    if k > 0 {
      ParallelListingsLength(listDir, name, k - 1);
    }
  }

  function SumOfSizes(listDir: string -> Option<seq<string>>, name: string, k: nat): nat
    decreases k
  {
    if k == 0 then 0 else SumOfSizes(listDir, name, k - 1) + |Listed(listDir(ParallelDir(name, k - 1)))|
  }

  // ---------------------------------------------------------------------------
  // Counting per suite
  // ---------------------------------------------------------------------------

  /** `[video for video in all_videos if video.startswith(prefix_name)]`. */
  function WithPrefix(videos: seq<string>, prefix: string): (r: seq<string>)
    ensures |r| <= |videos|
    ensures forall i :: 0 <= i < |r| ==> StartsWith(r[i], prefix)
    decreases |videos|
  {
    if videos == [] then []
    else (if StartsWith(videos[0], prefix) then [videos[0]] else []) + WithPrefix(videos[1..], prefix)
  }

  /** A video is counted toward a suite exactly when it is pooled and its name starts with the suite's prefix. */
  lemma {:induction false} WithPrefixMembership(videos: seq<string>, prefix: string, v: string)
    ensures v in WithPrefix(videos, prefix) <==> v in videos && StartsWith(v, prefix)
    decreases |videos|
  {
    if videos != [] {
      WithPrefixMembership(videos[1..], prefix, v);
      assert videos == [videos[0]] + videos[1..];
    }
  }

  /** The number of names that mention `word` (`'success' in video`). */
  function CountMentioning(videos: seq<string>, word: string): (r: nat)
    ensures r <= |videos|
    decreases |videos|
  {
    if videos == [] then 0
    else (if Contains(videos[0], word) then 1 else 0) + CountMentioning(videos[1..], word)
  }

  /** One reported line: `{prefix}: {success_num}/{num} = {success_rate}`, and the unreported `fail_num`. */
  datatype SuiteResult = SuiteResult(prefix: string, successNum: nat, failNum: nat, num: nat, rate: real)

  /** The line of one suite, nothing when none of its videos is pooled. */
  function SuiteLine(videos: seq<string>, prefix: string): (r: Option<SuiteResult>)
    ensures r.Some? <==> |WithPrefix(videos, prefix)| > 0
    ensures r.Some? ==>
      && r.value.prefix == prefix
      && r.value.num == |WithPrefix(videos, prefix)|
      && r.value.successNum == CountMentioning(WithPrefix(videos, prefix), "success") <= r.value.num
      && r.value.failNum == CountMentioning(WithPrefix(videos, prefix), "fail") <= r.value.num
      && 0.0 <= r.value.rate <= 1.0
  {
    var matching := WithPrefix(videos, prefix);
    var num := |matching|;
    if num == 0 then None
    else
      var successNum := CountMentioning(matching, "success");
      var failNum := CountMentioning(matching, "fail");
      var rate := successNum as real / num as real;
      FractionBounds(successNum, num);
      Some(SuiteResult(prefix, successNum, failNum, num, rate))
  }

  /** A part of a whole, as a fraction, is in [0, 1]. */
  lemma FractionBounds(part: nat, whole: nat)
    requires 0 < whole && part <= whole
    ensures 0.0 <= part as real / whole as real <= 1.0
  {
    var q := part as real / whole as real;
    assert q * (whole as real) == part as real;
  }

  /** The results of the suites in `prefixes`, in order, without the suites that have no video. */
  function Summary(videos: seq<string>, prefixes: seq<string>): seq<SuiteResult>
    decreases |prefixes|
  {
    if prefixes == [] then []
    else
      var line := SuiteLine(videos, prefixes[0]);
      (if line.Some? then [line.value] else []) + Summary(videos, prefixes[1..])
  }

  /** The prefixes of the suites that have at least one video, in the order given. */
  function PresentPrefixes(videos: seq<string>, prefixes: seq<string>): seq<string>
    decreases |prefixes|
  {
    if prefixes == [] then []
    else
      (if |WithPrefix(videos, prefixes[0])| > 0 then [prefixes[0]] else [])
      + PresentPrefixes(videos, prefixes[1..])
  }

  /**
    A suite is reported exactly when some pooled video starts with its
    prefix, in the order of the prefixes, with its own line.
  */
  lemma {:induction false} SummaryShape(videos: seq<string>, prefixes: seq<string>)
    ensures var s := Summary(videos, prefixes);
      && |s| == |PresentPrefixes(videos, prefixes)|
      && forall k :: 0 <= k < |s| ==> SuiteLine(videos, PresentPrefixes(videos, prefixes)[k]) == Some(s[k])
    decreases |prefixes|
  {
    if prefixes != [] {
      SummaryShape(videos, prefixes[1..]);
      var s := Summary(videos, prefixes);
      var rest := Summary(videos, prefixes[1..]);
      var present := PresentPrefixes(videos, prefixes);
      var presentRest := PresentPrefixes(videos, prefixes[1..]);
      if SuiteLine(videos, prefixes[0]).Some? {
        forall k | 1 <= k < |s|
          ensures s[k] == rest[k - 1] && present[k] == presentRest[k - 1]
        {
        }
      }
    }
  }

  /**
    Every reported line counts the videos of its suite; its success and
    failure counts are at most that number and its rate is in [0, 1].
  */
  lemma SummaryLines(videos: seq<string>, k: nat)
    requires k < |Summary(videos, Prefixes)|
    ensures var line := Summary(videos, Prefixes)[k];
      && line.prefix in Prefixes
      && line.num == |WithPrefix(videos, line.prefix)| > 0
      && line.successNum <= line.num && line.failNum <= line.num
      && 0.0 <= line.rate <= 1.0
  {
    SummaryShape(videos, Prefixes);
    PresentPrefixesIn(videos, Prefixes, PresentPrefixes(videos, Prefixes)[k]);
  }

  lemma {:induction false} PresentPrefixesIn(videos: seq<string>, prefixes: seq<string>, p: string)
    ensures p in PresentPrefixes(videos, prefixes) <==> p in prefixes && |WithPrefix(videos, p)| > 0
    decreases |prefixes|
  {
    if prefixes != [] {
      PresentPrefixesIn(videos, prefixes[1..], p);
      assert prefixes == [prefixes[0]] + prefixes[1..];
    }
  }

  /** A suite is present exactly when some pooled video starts with its prefix. */
  lemma {:induction false} PresentIffStartsWith(videos: seq<string>, prefix: string)
    ensures |WithPrefix(videos, prefix)| > 0 <==> exists i :: 0 <= i < |videos| && StartsWith(videos[i], prefix)
    decreases |videos|
  {
    if videos != [] {
      PresentIffStartsWith(videos[1..], prefix);
      if !StartsWith(videos[0], prefix) {
        forall i | 1 <= i < |videos|
          ensures videos[i] == videos[1..][i - 1]
        {
        }
      }
    }
  }

  /** No name starts with two of the suites' prefixes: they part at their eighth character. */
  lemma PrefixesExclusive(v: string, i: nat, j: nat)
    requires i < j < |Prefixes|
    ensures !(StartsWith(v, Prefixes[i]) && StartsWith(v, Prefixes[j]))
  {
    assert Prefixes[i][7] != Prefixes[j][7];
  }

  /** Each pooled video counts toward at most one suite, so the suites' counts add up to at most the pool. */
  lemma {:induction false} SuitesShareNoVideo(videos: seq<string>)
    ensures |WithPrefix(videos, Prefixes[0])| + |WithPrefix(videos, Prefixes[1])| + |WithPrefix(videos, Prefixes[2])| <= |videos|
    decreases |videos|
  {
    if videos != [] {
      SuitesShareNoVideo(videos[1..]);
      PrefixesExclusive(videos[0], 0, 1);
      PrefixesExclusive(videos[0], 0, 2);
      PrefixesExclusive(videos[0], 1, 2);
    }
  }

  /** The whole script: nothing when the main video directory is missing, otherwise the suite lines. */
  function RunStatistics(listDir: string -> Option<seq<string>>, name: string): (r: Option<seq<SuiteResult>>)
    ensures r.None? <==> listDir(VideoDir(name)).None?
    ensures r.Some? ==> |r.value| <= |Prefixes|
  {
    var pool := PoolOf(listDir, name);
    if pool.None? then None
    else
      SummaryShape(pool.value, Prefixes);
      PresentPrefixesLength(pool.value, Prefixes);
      Some(Summary(pool.value, Prefixes))
  }

  lemma {:induction false} PresentPrefixesLength(videos: seq<string>, prefixes: seq<string>)
    ensures |PresentPrefixes(videos, prefixes)| <= |prefixes|
    decreases |prefixes|
  {
    if prefixes != [] {
      PresentPrefixesLength(videos, prefixes[1..]);
    }
  }
}
