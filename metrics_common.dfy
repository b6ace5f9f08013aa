/** What the two `metrics.go` files of the restic packages (Stash's own and
    the apimachinery one) share: Prometheus label maps, gauges, the file
    counters of a host, and the push/write step.  Float gauge values
    (sizes, durations, timestamps) are `Measured`: the model records that a
    value was set, not which.
 */
module Metrics {
  import opened Wrappers
  import opened StashApi
  import GoStrings

  type Labels = map<string, string>

  const LabelDriver := "driver"
  const LabelKind := "kind"
  const LabelAppGroup := "group"
  const LabelName := "name"
  const LabelNamespace := "namespace"
  const LabelRepository := "repository"
  const LabelInvokerKind := "invoker_kind"
  const LabelInvokerName := "invoker_name"
  const LabelHostname := "hostname"

  /** Snapshotter names and the core API group, defined outside the model. */
  const ResticSnapshotter := "Restic"
  const VolumeSnapshotter := "VolumeSnapshotter"
  const KindPersistentVolumeClaim := "PersistentVolumeClaim"
  const CoreGroupName := ""

  /** The file the metrics are written to, inside `MetricFileDir`. */
  const MetricFileName := "metric.prom"

  /** The repository gauges, the same in both packages. */
  const RepoIntegrity := "stash_repository_integrity"
  const RepoSize := "stash_repository_size_bytes"
  const RepoSnapshotCount := "stash_repository_snapshot_count"
  const RepoSnapshotCleaned := "stash_repository_snapshot_cleaned"

  // ---- labels -----------------------------------------------------------------

  /** `upsertLabel`: a fresh map with the keys of both; `added` (Go's `new`) wins. */
  function UpsertLabel(original: Labels, added: Labels): (labels: Labels)
    ensures forall k :: k in labels <==> k in original || k in added
    ensures forall k :: k in added ==> labels[k] == added[k]
    ensures forall k :: k in original && k !in added ==> labels[k] == original[k]
  {
    original + added
  }

  /** Merging is associative: upserting in two steps or one gives the same map. */
  lemma UpsertLabelAssociative(a: Labels, b: Labels, c: Labels)
    ensures UpsertLabel(UpsertLabel(a, b), c) == UpsertLabel(a, UpsertLabel(b, c))
  {
  }

  /** A user label is taken when splitting it on `=` gives exactly two
      parts, that is when it holds exactly one `=` (`LabelPairSplit`). */
  predicate IsLabelPair(s: string)
  {
    GoStrings.Count(s, '=') == 1
  }

  /** Position of the first `=`. */
  function EqualsIndex(s: string): (i: nat)
    requires '=' in s
    ensures i < |s| && s[i] == '=' && '=' !in s[..i]
  {
    if s[0] == '=' then 0
    else
      assert '=' in s[1..] by {
        var j :| 0 <= j < |s| && s[j] == '=';
        assert s[1..][j - 1] == '=';
      }
      var i := 1 + EqualsIndex(s[1..]);
      assert s[..i] == [s[0]] + s[1..][..i - 1];
      i
  }

  function LabelKey(s: string): string
    requires IsLabelPair(s)
  {
    GoStrings.CountZero(s, '=');
    s[..EqualsIndex(s)]
  }

  function LabelValue(s: string): string
    requires IsLabelPair(s)
  {
    GoStrings.CountZero(s, '=');
    s[EqualsIndex(s) + 1..]
  }

  /** The pair predicate and its two halves are what `strings.Split(s, "=")`
      yields: two parts exactly for a pair, and then the key and the value. */
  lemma LabelPairSplit(s: string)
    ensures IsLabelPair(s) <==> |GoStrings.Split(s, '=')| == 2
    ensures IsLabelPair(s) ==> GoStrings.Split(s, '=') == [LabelKey(s), LabelValue(s)]
  {
    if IsLabelPair(s) {
      GoStrings.CountZero(s, '=');
      GoStrings.SplitAtSingle(s, '=', EqualsIndex(s));
    }
  }

  /** `userLabels[i]` is the last well-formed entry with key `k`. */
  predicate LastPairFor(userLabels: seq<string>, k: string, i: int)
  {
    0 <= i < |userLabels| && IsLabelPair(userLabels[i]) && LabelKey(userLabels[i]) == k &&
    forall j :: i < j < |userLabels| && IsLabelPair(userLabels[j]) ==> LabelKey(userLabels[j]) != k
  }

  /** `parseUserProvidedLabels`: the keys are those of the well-formed
      entries; each key maps to the value of its last entry; entries that do
      not split into two parts are dropped. */
  function ParseUserProvidedLabels(userLabels: seq<string>): (labels: Labels)
    ensures forall k :: k in labels <==>
      exists i :: 0 <= i < |userLabels| && IsLabelPair(userLabels[i]) && LabelKey(userLabels[i]) == k
    ensures forall k :: k in labels ==>
      exists i :: LastPairFor(userLabels, k, i) && labels[k] == LabelValue(userLabels[i])
  {
    if userLabels == [] then map[]
    else
      var n := |userLabels| - 1;
      var init := userLabels[..n];
      var prev := ParseUserProvidedLabels(init);
      var v := userLabels[n];
      var labels := if IsLabelPair(v) then prev[LabelKey(v) := LabelValue(v)] else prev;
      ParseStep(userLabels, prev, labels);
      labels
  }

  /** The inductive step of `ParseUserProvidedLabels`: the last entry added
      on top of the labels of the ones before it. */
  lemma ParseStep(userLabels: seq<string>, prev: Labels, labels: Labels)
    requires userLabels != []
    requires forall k :: k in prev <==>
      exists i :: 0 <= i < |userLabels| - 1 && IsLabelPair(userLabels[i]) && LabelKey(userLabels[i]) == k
    requires forall k :: k in prev ==>
      exists i :: LastPairFor(userLabels[..|userLabels| - 1], k, i) && prev[k] == LabelValue(userLabels[i])
    requires var v := userLabels[|userLabels| - 1];
      labels == if IsLabelPair(v) then prev[LabelKey(v) := LabelValue(v)] else prev
    ensures forall k :: k in labels <==>
      exists i :: 0 <= i < |userLabels| && IsLabelPair(userLabels[i]) && LabelKey(userLabels[i]) == k
    ensures forall k :: k in labels ==>
      exists i :: LastPairFor(userLabels, k, i) && labels[k] == LabelValue(userLabels[i])
  {
    var n := |userLabels| - 1;
    var v := userLabels[n];
    forall k ensures k in labels <==>
      exists i :: 0 <= i < |userLabels| && IsLabelPair(userLabels[i]) && LabelKey(userLabels[i]) == k
    {
      if k !in labels {
        forall i | 0 <= i < |userLabels| && IsLabelPair(userLabels[i])
          ensures LabelKey(userLabels[i]) != k
        {
          if i == n {
            assert LabelKey(v) != k;
          }
        }
      }
    }
    forall k | k in labels
      ensures exists i :: LastPairFor(userLabels, k, i) && labels[k] == LabelValue(userLabels[i])
    {
      if IsLabelPair(v) && k == LabelKey(v) {
        assert LastPairFor(userLabels, k, n);
      } else {
        var i :| LastPairFor(userLabels[..n], k, i) && prev[k] == LabelValue(userLabels[i]);
        assert userLabels[..n][i] == userLabels[i];
        assert LastPairFor(userLabels, k, i);
      }
    }
  }

  /** A single well-formed `k=v` entry (neither side holding `=`) parses
      back to exactly that label. */
  lemma ParseSinglePair(k: string, v: string)
    requires '=' !in k && '=' !in v
    ensures ParseUserProvidedLabels([k + "=" + v]) == map[k := v]
  {
    var s := k + "=" + v;
    GoStrings.CountZero(k, '=');
    GoStrings.CountZero(v, '=');
    GoStrings.CountAppend(k + "=", v, '=');
    GoStrings.CountAppend(k, "=", '=');
    assert GoStrings.Count("=", '=') == 1;
    assert s[|k|] == '=';
    GoStrings.SplitAtSingle(s, '=', |k|);
    assert s[..|k|] == k && s[|k| + 1..] == v;
    assert [k + "=" + v][..0] == [];
  }

  /** Parsing one more entry: a pair overwrites its key, anything else is
      dropped. */
  lemma ParseSnoc(init: seq<string>, v: string)
    ensures ParseUserProvidedLabels(init + [v]) ==
      if IsLabelPair(v) then ParseUserProvidedLabels(init)[LabelKey(v) := LabelValue(v)]
      else ParseUserProvidedLabels(init)
  {
    assert (init + [v])[..|init|] == init;
  }

  /** A malformed entry anywhere leaves the parsed labels as without it. */
  lemma {:induction false} ParseSkipsMalformed(pre: seq<string>, bad: string, post: seq<string>)
    requires !IsLabelPair(bad)
    ensures ParseUserProvidedLabels(pre + [bad] + post) == ParseUserProvidedLabels(pre + post)
    decreases |post|
  {
    if post == [] {
      assert pre + [bad] + post == pre + [bad];
      ParseSnoc(pre, bad);
      assert pre + post == pre;
    } else {
      var n := |post| - 1;
      ParseSkipsMalformed(pre, bad, post[..n]);
      assert pre + [bad] + post == (pre + [bad] + post[..n]) + [post[n]];
      assert pre + post == (pre + post[..n]) + [post[n]];
      ParseSnoc(pre + [bad] + post[..n], post[n]);
      ParseSnoc(pre + post[..n], post[n]);
    }
  }

  /** `volumeSnapshotterLabels`. */
  function VolumeSnapshotterLabels(): (labels: Labels)
    ensures labels.Keys == {LabelDriver, LabelKind, LabelAppGroup}
    ensures labels[LabelDriver] == VolumeSnapshotter && labels[LabelKind] == KindPersistentVolumeClaim
    ensures labels[LabelAppGroup] == CoreGroupName
  {
    map[LabelDriver := VolumeSnapshotter, LabelKind := KindPersistentVolumeClaim, LabelAppGroup := CoreGroupName]
  }

  // ---- target and repository labels -----------------------------------------

  const KindAppBinding := "AppBinding"
  const LabelBackend := "backend"
  const LabelBucket := "bucket"
  const LabelPrefix := "prefix"

  datatype GroupVersion = GroupVersion(group: string, version: string)

  /** `schema.ParseGroupVersion` of Kubernetes: "" and "/" are the empty
      group version, a text without `/` is a version of the core group, one
      `/` separates group from version, and more are an error. */
  function ParseGroupVersion(s: string): (r: Result<GroupVersion>)
    ensures r.Ok? <==> GoStrings.Count(s, '/') <= 1
    ensures r.Ok? && GoStrings.Count(s, '/') == 0 ==> r.value == GroupVersion("", s)
    ensures r.Ok? && GoStrings.Count(s, '/') == 1 ==>
      r.value.group + "/" + r.value.version == s && '/' !in r.value.group && '/' !in r.value.version
    ensures r.Err? ==> r.error == "unexpected GroupVersion string: " + s
  {
    if s == "" || s == "/" then Ok(GroupVersion("", ""))
    else if GoStrings.Count(s, '/') == 0 then Ok(GroupVersion("", s))
    else if GoStrings.Count(s, '/') == 1 then
      var parts := GoStrings.Split(s, '/');
      assert GoStrings.Join(parts, '/') == parts[0] + "/" + parts[1];
      Ok(GroupVersion(parts[0], parts[1]))
    else Err("unexpected GroupVersion string: " + s)
  }

  /** What reading the target's AppBinding gave (`getAppGroupKind`): its app
      group and kind, a not-found error, or another error. */
  datatype AppLookup = AppFound(group: string, kind: string) | AppNotFound(error: string) | AppLookupFailed(error: string)

  /** `targetLabels`: kind, app group and name of a backup or restore target.
      An AppBinding's group and kind come from the lookup, any other kind's
      group from its API version.  With `skipMissingApp` (the apimachinery
      variant) a missing AppBinding leaves only the name. */
  function TargetLabels(target: TargetRef, app: AppLookup, skipMissingApp: bool): (r: Result<Labels>)
    ensures !r.Panic?
    ensures r.Ok? ==> LabelName in r.value && r.value[LabelName] == target.name
    ensures r.Ok? ==> r.value.Keys <= {LabelKind, LabelAppGroup, LabelName}
    ensures r.Ok? ==> (LabelKind in r.value <==> LabelAppGroup in r.value)
    ensures target.kind != KindAppBinding ==>
      (r.Ok? <==> ParseGroupVersion(target.apiVersion).Ok?) &&
      (r.Ok? ==> LabelKind in r.value && r.value[LabelKind] == target.kind &&
                 r.value[LabelAppGroup] == ParseGroupVersion(target.apiVersion).value.group) &&
      (r.Err? ==> r.error == ParseGroupVersion(target.apiVersion).error)
    ensures target.kind == KindAppBinding && app.AppFound? ==>
      r.Ok? && LabelKind in r.value && r.value[LabelKind] == app.kind && r.value[LabelAppGroup] == app.group
    ensures target.kind == KindAppBinding && app.AppNotFound? ==>
      if skipMissingApp then r.Ok? && LabelKind !in r.value else r == Err(app.error)
    ensures target.kind == KindAppBinding && app.AppLookupFailed? ==> r == Err(app.error)
  {
    if target.kind == KindAppBinding then
      match app
      case AppFound(group, kind) => Ok(map[LabelKind := kind, LabelAppGroup := group, LabelName := target.name])
      case AppNotFound(e) => if skipMissingApp then Ok(map[LabelName := target.name]) else Err(e)
      case AppLookupFailed(e) => Err(e)
    else
      match ParseGroupVersion(target.apiVersion)
      case Ok(gv) => Ok(map[LabelKind := target.kind, LabelAppGroup := gv.group, LabelName := target.name])
      case Err(e) => Err(e)
      case Panic(p) => Panic(p)
  }

  /** The repository as read from the cluster: its name, namespace, and the
      provider, bucket and prefix of its backend. */
  datatype RepoBackend = RepoBackend(name: string, namespace: string, provider: string, bucket: string, prefix: string)

  /** The repository part of `repoMetricLabels`: name, namespace and backend
      set over the user's labels; bucket and prefix only when not empty. */
  function RepositoryLabels(user: Labels, repo: RepoBackend): (labels: Labels)
    ensures LabelName in labels && labels[LabelName] == repo.name
    ensures LabelNamespace in labels && labels[LabelNamespace] == repo.namespace
    ensures LabelBackend in labels && labels[LabelBackend] == repo.provider
    ensures LabelBucket in labels <==> repo.bucket != "" || LabelBucket in user
    ensures repo.bucket != "" ==> labels[LabelBucket] == repo.bucket
    ensures LabelPrefix in labels <==> repo.prefix != "" || LabelPrefix in user
    ensures repo.prefix != "" ==> labels[LabelPrefix] == repo.prefix
    ensures forall k :: k in labels ==> k in user || k in {LabelName, LabelNamespace, LabelBackend, LabelBucket, LabelPrefix}
    ensures forall k :: k in user && k !in {LabelName, LabelNamespace, LabelBackend, LabelBucket, LabelPrefix} ==>
      k in labels && labels[k] == user[k]
  {
    var labels := user[LabelName := repo.name][LabelNamespace := repo.namespace][LabelBackend := repo.provider];
    var labels := if repo.bucket != "" then labels[LabelBucket := repo.bucket] else labels;
    if repo.prefix != "" then labels[LabelPrefix := repo.prefix] else labels
  }

  // ---- gauges -----------------------------------------------------------------

  /** A gauge as registered: never set, set to an integer (counters, 0/1
      flags), or set to a float computed outside the model. */
  datatype GaugeValue = Unset | Count(n: int) | Measured

  datatype Gauge = Gauge(name: string, labels: Labels, value: GaugeValue)

  /** The error each float conversion reports for a text, or None when it
      parses (`convertSizeToBytes`, `convertTimeToSeconds`,
      `time.ParseDuration`). */
  datatype Converters = Converters(
    sizeToBytes: string -> Option<string>,
    timeToSeconds: string -> Option<string>,
    parseDuration: string -> Option<string>)

  // ---- file counters of a host (`setValues`) ------------------------------------

  datatype FileTotals = FileTotals(totalFiles: int, newFiles: int, modifiedFiles: int, unmodifiedFiles: int)

  const NoFiles := FileTotals(0, 0, 0, 0)

  predicate HasCounters(f: FileStats)
  {
    f.totalFiles.Some? && f.newFiles.Some? && f.modifiedFiles.Some? && f.unmodifiedFiles.Some?
  }

  /** The conversion error of a snapshot's size, upload and processing time,
      in that order. */
  function SnapshotConversionError(s: SnapshotStats, conv: Converters): Option<string>
  {
    if conv.sizeToBytes(s.size).Some? then conv.sizeToBytes(s.size)
    else if conv.sizeToBytes(s.uploaded).Some? then conv.sizeToBytes(s.uploaded)
    else conv.timeToSeconds(s.processingTime)
  }

  /** The loop of `setValues` from `acc` on: conversions first, then the four
      counters are dereferenced, a nil one panics. */
  function SumSnapshots(acc: FileTotals, snaps: seq<SnapshotStats>, conv: Converters): Result<FileTotals>
    decreases |snaps|
  {
    if snaps == [] then Ok(acc)
    else
      var s := snaps[0];
      var convErr := SnapshotConversionError(s, conv);
      if convErr.Some? then Err(convErr.value)
      else if !HasCounters(s.fileStats) then Panic(NilDereference)
      else
        var f := s.fileStats;
        SumSnapshots(FileTotals(acc.totalFiles + f.totalFiles.value, acc.newFiles + f.newFiles.value,
                                acc.modifiedFiles + f.modifiedFiles.value, acc.unmodifiedFiles + f.unmodifiedFiles.value),
                     snaps[1..], conv)
  }

  datatype Counter = Total | New | Modified | Unmodified

  function CounterOf(f: FileStats, c: Counter): int
    requires HasCounters(f)
  {
    match c
    case Total => f.totalFiles.value
    case New => f.newFiles.value
    case Modified => f.modifiedFiles.value
    case Unmodified => f.unmodifiedFiles.value
  }

  /** The sum of one counter over snapshots that all carry their counters. */
  function CounterSum(snaps: seq<SnapshotStats>, c: Counter): int
    requires forall i :: 0 <= i < |snaps| ==> HasCounters(snaps[i].fileStats)
  {
    if snaps == [] then 0 else CounterOf(snaps[0].fileStats, c) + CounterSum(snaps[1..], c)
  }

  /** When every snapshot converts and carries all four counters, the totals
      are the per-counter sums added to `acc`. */
  lemma {:induction false} SumSnapshotsTotals(acc: FileTotals, snaps: seq<SnapshotStats>, conv: Converters)
    requires forall i :: 0 <= i < |snaps| ==>
      SnapshotConversionError(snaps[i], conv).None? && HasCounters(snaps[i].fileStats)
    ensures SumSnapshots(acc, snaps, conv) == Ok(FileTotals(
      acc.totalFiles + CounterSum(snaps, Total),
      acc.newFiles + CounterSum(snaps, New),
      acc.modifiedFiles + CounterSum(snaps, Modified),
      acc.unmodifiedFiles + CounterSum(snaps, Unmodified)))
    decreases |snaps|
  {
    if snaps != [] {
      var f := snaps[0].fileStats;
      SumSnapshotsTotals(FileTotals(acc.totalFiles + f.totalFiles.value, acc.newFiles + f.newFiles.value,
                                    acc.modifiedFiles + f.modifiedFiles.value, acc.unmodifiedFiles + f.unmodifiedFiles.value),
                         snaps[1..], conv);
    }
  }

  /** A failed sum names its cause: an error comes from a conversion, a panic
      from a snapshot missing a counter. */
  lemma {:induction false} SumSnapshotsFailure(acc: FileTotals, snaps: seq<SnapshotStats>, conv: Converters)
    ensures SumSnapshots(acc, snaps, conv).Err? ==>
      exists i :: 0 <= i < |snaps| && SnapshotConversionError(snaps[i], conv).Some?
    ensures SumSnapshots(acc, snaps, conv).Panic? ==>
      exists i :: 0 <= i < |snaps| && !HasCounters(snaps[i].fileStats)
    decreases |snaps|
  {
    if snaps != [] && SnapshotConversionError(snaps[0], conv).None? && HasCounters(snaps[0].fileStats) {
      var f := snaps[0].fileStats;
      var next := FileTotals(acc.totalFiles + f.totalFiles.value, acc.newFiles + f.newFiles.value,
                             acc.modifiedFiles + f.modifiedFiles.value, acc.unmodifiedFiles + f.unmodifiedFiles.value);
      SumSnapshotsFailure(next, snaps[1..], conv);
      if SumSnapshots(acc, snaps, conv).Err? {
        var i :| 0 <= i < |snaps[1..]| && SnapshotConversionError(snaps[1..][i], conv).Some?;
        assert snaps[1..][i] == snaps[i + 1];
      }
      if SumSnapshots(acc, snaps, conv).Panic? {
        var i :| 0 <= i < |snaps[1..]| && !HasCounters(snaps[1..][i].fileStats);
        assert snaps[1..][i] == snaps[i + 1];
      }
    }
  }

  /** The first snapshot that cannot be summed decides the failure: its own
      conversion error, or a panic when it converts but lacks a counter. */
  lemma {:induction false} SumSnapshotsFirstFailure(acc: FileTotals, snaps: seq<SnapshotStats>, conv: Converters, k: nat)
    requires k < |snaps|
    requires SnapshotConversionError(snaps[k], conv).Some? || !HasCounters(snaps[k].fileStats)
    requires forall j :: 0 <= j < k ==>
      SnapshotConversionError(snaps[j], conv).None? && HasCounters(snaps[j].fileStats)
    ensures SnapshotConversionError(snaps[k], conv).Some? ==>
      SumSnapshots(acc, snaps, conv) == Err(SnapshotConversionError(snaps[k], conv).value)
    ensures SnapshotConversionError(snaps[k], conv).None? ==>
      SumSnapshots(acc, snaps, conv) == Panic(NilDereference)
    decreases k
  {
    if k > 0 {
      var f := snaps[0].fileStats;
      var next := FileTotals(acc.totalFiles + f.totalFiles.value, acc.newFiles + f.newFiles.value,
                             acc.modifiedFiles + f.modifiedFiles.value, acc.unmodifiedFiles + f.unmodifiedFiles.value);
      assert snaps[1..][k - 1] == snaps[k];
      SumSnapshotsFirstFailure(next, snaps[1..], conv, k - 1);
    }
  }

  /** What `setValues` yields for a host: the file totals of its snapshots,
      provided the host's duration then parses. */
  function SetValuesOutcome(h: HostBackupStats, conv: Converters): Result<FileTotals>
  {
    var sum := SumSnapshots(NoFiles, h.snapshots, conv);
    if !sum.Ok? then sum
    else if conv.parseDuration(h.duration).Some? then Err(conv.parseDuration(h.duration).value)
    else sum
  }

  /** `setValues` of a host (the same loop in both metrics files). */
  method HostValues(h: HostBackupStats, conv: Converters) returns (r: Result<FileTotals>)
    ensures r == SetValuesOutcome(h, conv)
  {
    var acc := NoFiles;
    var i := 0;
    while i < |h.snapshots|
      invariant 0 <= i <= |h.snapshots|
      invariant SumSnapshots(acc, h.snapshots[i..], conv) == SumSnapshots(NoFiles, h.snapshots, conv)
    {
      var v := h.snapshots[i];
      assert h.snapshots[i..][0] == v && h.snapshots[i..][1..] == h.snapshots[i + 1..];
      var sizeErr := conv.sizeToBytes(v.size);
      if sizeErr.Some? {
        return Err(sizeErr.value);
      }
      var uploadErr := conv.sizeToBytes(v.uploaded);
      if uploadErr.Some? {
        return Err(uploadErr.value);
      }
      var timeErr := conv.timeToSeconds(v.processingTime);
      if timeErr.Some? {
        return Err(timeErr.value);
      }
      if !HasCounters(v.fileStats) {
        return Panic(NilDereference);
      }
      acc := FileTotals(acc.totalFiles + v.fileStats.totalFiles.value, acc.newFiles + v.fileStats.newFiles.value,
                        acc.modifiedFiles + v.fileStats.modifiedFiles.value,
                        acc.unmodifiedFiles + v.fileStats.unmodifiedFiles.value);
      i := i + 1;
    }
    assert h.snapshots[i..] == [];
    var durationErr := conv.parseDuration(h.duration);
    if durationErr.Some? {
      return Err(durationErr.value);
    }
    return Ok(acc);
  }

  // ---- per-host gauges --------------------------------------------------------

  /** The gauges of the hosts from `acc` on, each host adding its own, until
      the first host whose gauges cannot be computed. */
  function GaugesFrom<H>(acc: seq<Gauge>, hosts: seq<H>, per: H -> Result<seq<Gauge>>): Result<seq<Gauge>>
    decreases |hosts|
  {
    if hosts == [] then Ok(acc)
    else
      var r := per(hosts[0]);
      if !r.Ok? then r
      else GaugesFrom(acc + r.value, hosts[1..], per)
  }

  /** The host loop of `HandleMetrics`: each host's gauges registered in
      turn, the first host whose gauges cannot be computed ending it. */
  method CollectGauges<H>(hosts: seq<H>, per: H -> Result<seq<Gauge>>) returns (gauges: Result<seq<Gauge>>)
    ensures gauges == GaugesFrom([], hosts, per)
  {
    var registry: seq<Gauge> := [];
    var i := 0;
    while i < |hosts|
      invariant 0 <= i <= |hosts|
      invariant GaugesFrom(registry, hosts[i..], per) == GaugesFrom([], hosts, per)
    {
      assert hosts[i..][0] == hosts[i] && hosts[i..][1..] == hosts[i + 1..];
      var host := per(hosts[i]);
      if !host.Ok? {
        return host;
      }
      registry := registry + host.value;
      i := i + 1;
    }
    assert hosts[i..] == [];
    gauges := Ok(registry);
  }

  /** The gauges of all hosts, when each can be computed. */
  function AllGauges<H>(hosts: seq<H>, per: H -> Result<seq<Gauge>>): seq<Gauge>
    requires forall i :: 0 <= i < |hosts| ==> per(hosts[i]).Ok?
  {
    if hosts == [] then [] else per(hosts[0]).value + AllGauges(hosts[1..], per)
  }

  /** The fold succeeds exactly when every host's gauges can be computed,
      and then yields them in host order; otherwise it yields the failure of
      the first host that fails. */
  lemma {:induction false} GaugesFromAll<H>(acc: seq<Gauge>, hosts: seq<H>, per: H -> Result<seq<Gauge>>)
    ensures GaugesFrom(acc, hosts, per).Ok? <==> forall i :: 0 <= i < |hosts| ==> per(hosts[i]).Ok?
    ensures GaugesFrom(acc, hosts, per).Ok? ==> GaugesFrom(acc, hosts, per).value == acc + AllGauges(hosts, per)
    ensures !GaugesFrom(acc, hosts, per).Ok? ==>
      exists i :: 0 <= i < |hosts| && GaugesFrom(acc, hosts, per) == per(hosts[i]) &&
        forall j :: 0 <= j < i ==> per(hosts[j]).Ok?
    decreases |hosts|
  {
    if hosts != [] {
      var r := per(hosts[0]);
      if r.Ok? {
        GaugesFromAll(acc + r.value, hosts[1..], per);
        assert forall i :: 1 <= i < |hosts| ==> hosts[i] == hosts[1..][i - 1];
        if GaugesFrom(acc, hosts, per).Ok? {
          assert acc + r.value + AllGauges(hosts[1..], per) == acc + (r.value + AllGauges(hosts[1..], per));
        } else {
          var i :| 0 <= i < |hosts[1..]| && GaugesFrom(acc, hosts, per) == per(hosts[1..][i]) &&
            forall j :: 0 <= j < i ==> per(hosts[1..][j]).Ok?;
          assert GaugesFrom(acc, hosts, per) == per(hosts[i + 1]);
        }
      } else {
        assert GaugesFrom(acc, hosts, per) == per(hosts[0]);
      }
    }
  }

  /** When every host yields `n` gauges, all hosts together yield `n` per host. */
  lemma {:induction false} AllGaugesUniform<H>(hosts: seq<H>, per: H -> Result<seq<Gauge>>, n: nat)
    requires forall i :: 0 <= i < |hosts| ==> per(hosts[i]).Ok? && |per(hosts[i]).value| == n
    ensures |AllGauges(hosts, per)| == n * |hosts|
  {
    if hosts != [] {
      assert forall i :: 1 <= i < |hosts| ==> hosts[i] == hosts[1..][i - 1];
      AllGaugesUniform(hosts[1..], per, n);
    }
  }

  /** With `n` gauges per host, host `i`'s gauges sit at positions `n * i`
      to `n * i + n - 1`. */
  lemma {:induction false} AllGaugesAt<H>(hosts: seq<H>, per: H -> Result<seq<Gauge>>, n: nat, i: nat)
    requires forall j :: 0 <= j < |hosts| ==> per(hosts[j]).Ok? && |per(hosts[j]).value| == n
    requires i < |hosts|
    ensures |AllGauges(hosts, per)| == n * |hosts|
    ensures 0 <= n * i && n * i + n <= |AllGauges(hosts, per)|
    ensures AllGauges(hosts, per)[n * i..n * i + n] == per(hosts[i]).value
    decreases i
  {
    AllGaugesUniform(hosts, per, n);
    var first, rest := per(hosts[0]).value, AllGauges(hosts[1..], per);
    assert AllGauges(hosts, per) == first + rest;
    if i == 0 {
      assert (first + rest)[..n] == first;
    } else {
      assert hosts[1..][i - 1] == hosts[i];
      assert forall j :: 0 <= j < |hosts[1..]| ==> hosts[1..][j] == hosts[j + 1];
      AllGaugesAt(hosts[1..], per, n, i - 1);
      var a := n * (i - 1);
      assert n * i == n + a;
      SliceAfter(first, rest, a, a + n);
    }
  }

  /** A slice past the first part of a concatenation is a slice of the second. */
  lemma SliceAfter<T>(first: seq<T>, rest: seq<T>, a: nat, b: nat)
    requires a <= b <= |rest|
    ensures (first + rest)[|first| + a..|first| + b] == rest[a..b]
  {
  }

  /** A 0/1 gauge. */
  function Flag(name: string, labels: Labels, b: bool): Gauge
  {
    Gauge(name, labels, Count(if b then 1 else 0))
  }

  /** The labels of one host's gauges: the shared labels plus `hostname`. */
  function HostLabels(labels: Labels, hostname: string): (hostLabels: Labels)
    ensures LabelHostname in hostLabels && hostLabels[LabelHostname] == hostname
    ensures forall k :: k != LabelHostname ==> (k in hostLabels <==> k in labels)
    ensures forall k :: k in labels && k != LabelHostname ==> hostLabels[k] == labels[k]
  {
    UpsertLabel(labels, map[LabelHostname := hostname])
  }

  function Names(gauges: seq<Gauge>): seq<string>
  {
    seq(|gauges|, i requires 0 <= i < |gauges| => gauges[i].name)
  }

  // ---- sending ----------------------------------------------------------------

  /** The errors of the Pushgateway push and of writing `metric.prom`. */
  datatype PushIO = PushIO(pushErr: Option<string>, writeErr: Option<string>)

  /** `sendMetrics`: push when a Pushgateway URL is set, then write the text
      file when a directory is set; the first failure is returned. */
  function SendMetrics(opt: MetricsOptions, io: PushIO): (err: Option<string>)
    ensures err.Some? ==> (opt.pushgatewayURL != "" && err == io.pushErr) ||
                          (opt.metricFileDir != "" && err == io.writeErr)
    ensures opt.pushgatewayURL == "" && opt.metricFileDir == "" ==> err.None?
    ensures opt.pushgatewayURL != "" && io.pushErr.Some? ==> err == io.pushErr
    ensures (opt.pushgatewayURL == "" || io.pushErr.None?) && opt.metricFileDir != "" && io.writeErr.Some? ==>
      err == io.writeErr
  {
    if opt.pushgatewayURL != "" && io.pushErr.Some? then io.pushErr
    else if opt.metricFileDir != "" && io.writeErr.Some? then io.writeErr
    else None
  }

  /** What a `Send*Metrics`/`HandleMetrics` call did: handed `gauges` to
      `sendMetrics` (whose error it returns), returned an error before
      sending, panicked, or returned nil without sending anything. */
  datatype Report = Sent(gauges: seq<Gauge>, sendErr: Option<string>) | Aborted(error: string) | Crashed(reason: string) | Skipped

  /** Send the gauges computed, or report why they could not be. */
  function ReportOf(r: Result<seq<Gauge>>, opt: MetricsOptions, io: PushIO): (report: Report)
    ensures r.Ok? <==> report.Sent?
    ensures r.Ok? ==> report.gauges == r.value && report.sendErr == SendMetrics(opt, io)
    ensures r.Err? <==> report.Aborted?
    ensures r.Panic? <==> report.Crashed?
  {
    match r
    case Ok(g) => Sent(g, SendMetrics(opt, io))
    case Err(e) => Aborted(e)
    case Panic(p) => Crashed(p)
  }
}
