/** The speech models on disk, as the supervisor sees them (src/helpers/funasrManager.js):
    where the model cache is, whether each of the three model files is complete, how far a
    download has come, and the short-lived cache in front of the completeness probe.

    The filesystem is a tree of named entries; a path is the sequence of names from the
    root.  Sizes are whole bytes; the expected sizes are kept in tenths of a byte so that
    the 1.6 MiB of the voice-activity model is exact.
 */
module Assets {
  import opened Wrappers
  import opened Text

  // ---------------------------------------------------------------------------
  // Filesystem

  datatype Node = File(size: nat) | Dir(entries: seq<Entry>)

  datatype Entry = Entry(name: string, node: Node)

  type Path = seq<string>

  /** The first entry called `name`. */
  function Child(es: seq<Entry>, name: string): (r: Option<Node>)
    ensures r.None? <==> forall i :: 0 <= i < |es| ==> es[i].name != name
    ensures r.Some? ==> exists i :: 0 <= i < |es| && es[i].name == name && es[i].node == r.value
  {
    if es == [] then None
    else if es[0].name == name then Some(es[0].node)
    else Child(es[1..], name)
  }

  /** The node a path leads to from `n`, if any. */
  function At(n: Node, p: Path): Option<Node>
    decreases |p|
  {
    if p == [] then Some(n)
    else match n
      case File(_) => None
      case Dir(es) =>
        match Child(es, p[0])
        case None => None
        case Some(c) => At(c, p[1..])
  }

  predicate Exists(fs: Node, p: Path) {
    At(fs, p).Some?
  }

  predicate IsDir(fs: Node, p: Path) {
    At(fs, p).Some? && At(fs, p).value.Dir?
  }

  /** The names in a directory, as `readdir` lists them. */
  function Names(es: seq<Entry>): (r: seq<string>)
    ensures |r| == |es| && forall i :: 0 <= i < |es| ==> r[i] == es[i].name
  {
    if es == [] then [] else [es[0].name] + Names(es[1..])
  }

  // ---------------------------------------------------------------------------
  // The three models

  datatype Asset = Asr | Vad | Punc

  const AllAssets: seq<Asset> := [Asr, Vad, Punc]

  function AssetName(a: Asset): string {
    match a
    case Asr => "asr"
    case Vad => "vad"
    case Punc => "punc"
  }

  /** The short names of a list of models, in order. */
  function AssetNames(as_: seq<Asset>): (ns: seq<string>)
    ensures |ns| == |as_| && forall i :: 0 <= i < |as_| ==> ns[i] == AssetName(as_[i])
  {
    if as_ == [] then [] else [AssetName(as_[0])] + AssetNames(as_[1..])
  }

  /** The model's directory under the cache root. */
  function RepoName(a: Asset): string {
    match a
    case Asr => "speech_paraformer-large_asr_nat-zh-cn-16k-common-vocab8404-pytorch"
    case Vad => "speech_fsmn_vad_zh-cn-16k-common-pytorch"
    case Punc => "punc_ct-transformer_zh-cn-common-vocab272727-pytorch"
  }

  /** 840 MiB, 1.6 MiB and 278 MiB, in tenths of a byte. */
  function ExpectedTenths(a: Asset): nat {
    match a
    case Asr => 840 * 1024 * 1024 * 10
    case Vad => 16 * 1024 * 1024
    case Punc => 278 * 1024 * 1024 * 10
  }

  const TotalExpectedTenths: nat := ExpectedTenths(Asr) + ExpectedTenths(Vad) + ExpectedTenths(Punc)

  /** The least whole size the double-precision test `size >= expected * 0.95` accepts. */
  function MinCompleteSize(a: Asset): nat {
    match a
    case Asr => 836763648
    case Vad => 1593836
    case Punc => 276928922
  }

  /** The completeness threshold is exactly 95% of the expected size. */
  lemma MinCompleteIsNinetyFivePercent(a: Asset, size: nat)
    ensures size >= MinCompleteSize(a) <==> 1000 * size >= 95 * ExpectedTenths(a)
  {
  }

  function ModelFile(root: Path, a: Asset): Path {
    root + [RepoName(a), "model.pt"]
  }

  /** The size `stat` reports for an existing entry; a directory counts as empty. */
  function SizeAt(fs: Node, p: Path): nat {
    match At(fs, p)
    case Some(File(s)) => s
    case _ => 0
  }

  predicate Complete(fs: Node, root: Path, a: Asset) {
    Exists(fs, ModelFile(root, a)) && SizeAt(fs, ModelFile(root, a)) >= MinCompleteSize(a)
  }

  datatype Detail = Detail(asset: Asset, exists_: bool, path: Path, size: nat, complete: bool)

  function DetailOf(fs: Node, root: Path, a: Asset): (d: Detail)
    ensures d.asset == a && d.path == ModelFile(root, a)
    ensures d.complete <==> Complete(fs, root, a)
    ensures !d.exists_ ==> d.size == 0 && !d.complete
  {
    var f := ModelFile(root, a);
    if Exists(fs, f) then Detail(a, true, f, SizeAt(fs, f), SizeAt(fs, f) >= MinCompleteSize(a))
    else Detail(a, false, f, 0, false)
  }

  /** The assets among `as_` that are not complete, in the order given. */
  function Incomplete(fs: Node, root: Path, as_: seq<Asset>): (r: seq<Asset>)
    ensures forall a :: a in r <==> a in as_ && !Complete(fs, root, a)
    ensures |r| <= |as_|
  {
    if as_ == [] then []
    else (if Complete(fs, root, as_[0]) then [] else [as_[0]]) + Incomplete(fs, root, as_[1..])
  }

  /** What `checkModelFiles` reports. */
  datatype Probe = Probe(
    success: bool,
    error: Option<string>,
    downloaded: bool,
    missing: seq<Asset>,
    details: seq<Detail>)

  /** The probe without its cache, given how the cache root was resolved. */
  function ProbeFiles(fs: Node, root: Result<Path>): (p: Probe)
    ensures p.success <==> root.Success?
    ensures p.downloaded <==> p.missing == []
    ensures root.Failure? ==> p.error == Some(root.error) && p.missing == AllAssets
    ensures root.Success? && !Exists(fs, root.value) ==> p.missing == AllAssets
    ensures root.Success? && Exists(fs, root.value) ==>
      && p.missing == Incomplete(fs, root.value, AllAssets)
      && |p.details| == 3
      && forall i :: 0 <= i < 3 ==> p.details[i] == DetailOf(fs, root.value, AllAssets[i])
  {
    match root
    case Failure(e) => Probe(false, Some(e), false, AllAssets, [])
    case Success(r) =>
      if !Exists(fs, r) then Probe(true, None, false, AllAssets, [])
      else
        var missing := Incomplete(fs, r, AllAssets);
        Probe(true, None, missing == [], missing,
              [DetailOf(fs, r, Asr), DetailOf(fs, r, Vad), DetailOf(fs, r, Punc)])
  }

  /** An asset is missing exactly when its model file is absent or below 95% of its
      expected size; the models count as downloaded exactly when none is missing. */
  lemma MissingIffIncomplete(fs: Node, root: Path, a: Asset)
    requires Exists(fs, root)
    ensures a in ProbeFiles(fs, Success(root)).missing <==>
      (!Exists(fs, ModelFile(root, a))
       || 1000 * SizeAt(fs, ModelFile(root, a)) < 95 * ExpectedTenths(a))
    ensures ProbeFiles(fs, Success(root)).downloaded <==>
      forall b :: Complete(fs, root, b)
  {
    MinCompleteIsNinetyFivePercent(a, SizeAt(fs, ModelFile(root, a)));
    var missing := ProbeFiles(fs, Success(root)).missing;
    if !ProbeFiles(fs, Success(root)).downloaded {
      assert missing[0] in missing;
      assert missing[0] in AllAssets;
    } else {
      forall b ensures Complete(fs, root, b) {
        assert b in AllAssets by { assert b == Asr || b == Vad || b == Punc; }
      }
    }
  }

  /** The missing list keeps the asr, vad, punc order. */
  lemma MissingInOrder(fs: Node, root: Path)
    ensures InAssetOrder(ProbeFiles(fs, Success(root)).missing)
  {
    assert Rank(AllAssets[0]) < Rank(AllAssets[1]) < Rank(AllAssets[2]);
    if Exists(fs, root) {
      IncompleteOrdered(fs, root, AllAssets);
      assert ProbeFiles(fs, Success(root)).missing == Incomplete(fs, root, AllAssets);
    }
  }

  predicate InAssetOrder(m: seq<Asset>) {
    forall i, j :: 0 <= i < j < |m| ==> Rank(m[i]) < Rank(m[j])
  }

  function Rank(a: Asset): nat {
    match a
    case Asr => 0
    case Vad => 1
    case Punc => 2
  }

  lemma {:induction false} IncompleteOrdered(fs: Node, root: Path, as_: seq<Asset>)
    requires InAssetOrder(as_)
    ensures InAssetOrder(Incomplete(fs, root, as_))
  {
    if as_ != [] {
      IncompleteOrdered(fs, root, as_[1..]);
      var rest := Incomplete(fs, root, as_[1..]);
      HeadRanksFirst(as_, rest);
      if !Complete(fs, root, as_[0]) {
        ConsOrdered(as_[0], rest);
      } else {
        assert Incomplete(fs, root, as_) == rest;
      }
    }
  }

  /** In an ordered list the head ranks below every later element. */
  lemma HeadRanksFirst(as_: seq<Asset>, rest: seq<Asset>)
    requires as_ != [] && InAssetOrder(as_)
    requires forall a :: a in rest ==> a in as_[1..]
    ensures forall k :: 0 <= k < |rest| ==> Rank(as_[0]) < Rank(rest[k])
  {
    forall k | 0 <= k < |rest| ensures Rank(as_[0]) < Rank(rest[k]) {
      assert rest[k] in as_[1..];
      var j :| 0 <= j < |as_[1..]| && as_[1..][j] == rest[k];
      assert as_[j + 1] == rest[k];
    }
  }

  lemma ConsOrdered(x: Asset, rest: seq<Asset>)
    requires InAssetOrder(rest)
    requires forall k :: 0 <= k < |rest| ==> Rank(x) < Rank(rest[k])
    ensures InAssetOrder([x] + rest)
  {
    var m := [x] + rest;
    forall i, j | 0 <= i < j < |m| ensures Rank(m[i]) < Rank(m[j]) {
      assert m[j] == rest[j - 1];
      if i > 0 {
        assert m[i] == rest[i - 1];
      }
    }
  }

  // ---------------------------------------------------------------------------
  // The probe cache

  const CacheWindowMs: int := 2000

  /** The module-level cached probe and the time it was stored. */
  datatype ProbeCache = ProbeCache(entry: Option<Probe>, time: int)

  const EmptyCache: ProbeCache := ProbeCache(None, 0)

  /** Only successful probes are ever stored. */
  predicate CacheValid(c: ProbeCache) {
    c.entry.Some? ==> c.entry.value.success
  }

  predicate CacheHit(c: ProbeCache, now: int, serverReady: bool) {
    c.entry.Some? && now - c.time < CacheWindowMs && !serverReady
  }

  /** `checkModelFiles`: the cached probe while it is younger than the window and the
      server is not ready; otherwise `probed`, which is stored unless it failed. */
  function CheckModelFiles(c: ProbeCache, now: int, serverReady: bool, probed: Probe)
    : (r: (Probe, ProbeCache))
    ensures CacheHit(c, now, serverReady) ==> r == (c.entry.value, c)
    ensures !CacheHit(c, now, serverReady) ==> r.0 == probed
    ensures !CacheHit(c, now, serverReady) && probed.success ==> r.1 == ProbeCache(Some(probed), now)
    ensures !probed.success ==> r.1 == c
    ensures CacheValid(c) ==> CacheValid(r.1)
  {
    if CacheHit(c, now, serverReady) then (c.entry.value, c)
    else if probed.success then (probed, ProbeCache(Some(probed), now))
    else (probed, c)
  }

  /** Two probes within the window, with the server not ready, report the same thing:
      the second is answered from the cache. */
  lemma ProbeTwiceWithinWindow(c: ProbeCache, t1: int, t2: int, f1: Probe, f2: Probe)
    requires f1.success && !CacheHit(c, t1, false)
    requires t1 <= t2 < t1 + CacheWindowMs
    ensures var (p1, c1) := CheckModelFiles(c, t1, false, f1);
      CheckModelFiles(c1, t2, false, f2).0 == p1
  {
  }

  /** Once the server is ready, every probe is probed. */
  lemma ReadyBypassesCache(c: ProbeCache, now: int, probed: Probe)
    ensures CheckModelFiles(c, now, true, probed).0 == probed
  {
  }

  // ---------------------------------------------------------------------------
  // Download progress, in tenths of a percent

  /** `Math.round(n / d)` for non-negative operands: halves round up. */
  function RoundDiv(n: nat, d: nat): (q: nat)
    requires d > 0
    ensures 2 * n < (2 * q + 1) * d && (2 * q - 1) * d <= 2 * n
  {
    (2 * n + d) / (2 * d)
  }

  /** `min(100, size / expected * 100)` rounded to one decimal, in tenths. */
  function ProgressTenths(size: nat, expectedTenths: nat): (t: nat)
    requires expectedTenths > 0
    ensures t <= 1000
  {
    var q := RoundDiv(size * 10000, expectedTenths);
    if q > 1000 then 1000 else q
  }

  /** A file at least as large as expected shows 100%; a complete one at least 95%. */
  lemma ProgressBounds(a: Asset, size: nat)
    ensures 10 * size >= ExpectedTenths(a) ==> ProgressTenths(size, ExpectedTenths(a)) == 1000
    ensures size >= MinCompleteSize(a) ==> ProgressTenths(size, ExpectedTenths(a)) >= 950
    ensures size == 0 ==> ProgressTenths(size, ExpectedTenths(a)) == 0
  {
    var e := ExpectedTenths(a);
    MinCompleteIsNinetyFivePercent(a, size);
    var q := RoundDiv(size * 10000, e);
    if 10 * size >= e {
      assert size * 10000 >= 1000 * e;
      assert 2 * size * 10000 < (2 * q + 1) * e;
      assert q >= 1000;
    }
    if size >= MinCompleteSize(a) {
      assert size * 10000 >= 950 * e;
      assert 2 * size * 10000 < (2 * q + 1) * e;
      assert q >= 950;
    }
  }

  /** More bytes never show less progress. */
  lemma ProgressMonotone(s1: nat, s2: nat, e: nat)
    requires e > 0 && s1 <= s2
    ensures ProgressTenths(s1, e) <= ProgressTenths(s2, e)
  {
    assert 2 * s1 * 10000 + e <= 2 * s2 * 10000 + e;
    DivMonotone(2 * s1 * 10000 + e, 2 * s2 * 10000 + e, 2 * e);
  }

  lemma DivMonotone(a: nat, b: nat, d: nat)
    requires d > 0 && a <= b
    ensures a / d <= b / d
  {
    var qa, qb := a / d, b / d;
    assert a == d * qa + a % d && b == d * qb + b % d;
    if qa > qb {
      MulStep(d, qa, qb);
      assert false;
    }
  }

  lemma MulStep(d: nat, x: nat, y: nat)
    requires x >= y + 1
    ensures d * x >= d * y + d
  {
    assert d * x == d * (y + 1) + d * (x - y - 1);
  }

  datatype ModelProgress = ModelProgress(asset: Asset, tenths: nat, downloaded: nat, totalTenths: nat)

  datatype Progress = Progress(success: bool, error: Option<string>, overallTenths: nat,
                               models: seq<ModelProgress>)

  function ModelProgressOf(fs: Node, root: Path, a: Asset): ModelProgress {
    var size := if Exists(fs, ModelFile(root, a)) then SizeAt(fs, ModelFile(root, a)) else 0;
    ModelProgress(a, ProgressTenths(size, ExpectedTenths(a)), size, ExpectedTenths(a))
  }

  /** `getDownloadProgress`. */
  function DownloadProgress(fs: Node, root: Result<Path>): (p: Progress)
    ensures p.success <==> root.Success?
    ensures p.overallTenths <= 1000
    ensures root.Success? ==>
      (|p.models| == 3
       && forall i :: 0 <= i < 3 ==> p.models[i].asset == AllAssets[i] && p.models[i].tenths <= 1000)
  {
    match root
    case Failure(e) => Progress(false, Some(e), 0, [])
    case Success(r) =>
      if !Exists(fs, r) then
        Progress(true, None, 0, [ModelProgress(Asr, 0, 0, ExpectedTenths(Asr)),
                                 ModelProgress(Vad, 0, 0, ExpectedTenths(Vad)),
                                 ModelProgress(Punc, 0, 0, ExpectedTenths(Punc))])
      else
        var ms := [ModelProgressOf(fs, r, Asr), ModelProgressOf(fs, r, Vad), ModelProgressOf(fs, r, Punc)];
        var total := ms[0].downloaded + ms[1].downloaded + ms[2].downloaded;
        Progress(true, None, ProgressTenths(total, TotalExpectedTenths), ms)
  }

  /** When every model file is complete the overall estimate is at least 95%. */
  lemma OverallProgressWhenComplete(fs: Node, root: Path)
    requires Exists(fs, root)
    requires forall a :: Complete(fs, root, a)
    ensures DownloadProgress(fs, Success(root)).overallTenths >= 950
  {
    var ms := DownloadProgress(fs, Success(root)).models;
    assert Complete(fs, root, Asr) && Complete(fs, root, Vad) && Complete(fs, root, Punc);
    var total := ms[0].downloaded + ms[1].downloaded + ms[2].downloaded;
    assert total >= MinCompleteSize(Asr) + MinCompleteSize(Vad) + MinCompleteSize(Punc);
    var q := RoundDiv(total * 10000, TotalExpectedTenths);
    assert total * 10000 >= 950 * TotalExpectedTenths;
    assert 2 * total * 10000 < (2 * q + 1) * TotalExpectedTenths;
  }

  // ---------------------------------------------------------------------------
  // Finding the cache root

  /** `MODELSCOPE_CACHE` when set and non-empty, else `~/.cache/modelscope`. */
  function BaseCache(modelscopeCache: Option<Path>, home: Path): Path {
    modelscopeCache.GetOr(home + [".cache", "modelscope"])
  }

  function Candidates(base: Path): seq<Path> {
    [base + ["damo"], base + ["hub", "damo"], base + ["hub", "models", "damo"], base + ["models", "damo"]]
  }

  /** The first path in `ps` that exists. */
  function FirstExisting(fs: Node, ps: seq<Path>): (r: Option<Path>)
    ensures r.None? <==> forall i :: 0 <= i < |ps| ==> !Exists(fs, ps[i])
    ensures r.Some? ==> exists i :: 0 <= i < |ps| && ps[i] == r.value && Exists(fs, ps[i])
                                   && forall j :: 0 <= j < i ==> !Exists(fs, ps[j])
  {
    if ps == [] then None
    else if Exists(fs, ps[0]) then Some(ps[0])
    else
      var r := FirstExisting(fs, ps[1..]);
      if r.Some? then
        var i :| 0 <= i < |ps[1..]| && ps[1..][i] == r.value && Exists(fs, ps[1..][i])
                 && forall j :: 0 <= j < i ==> !Exists(fs, ps[1..][j]);
        assert ps[i + 1] == r.value && forall j :: 0 <= j < i + 1 ==> !Exists(fs, ps[j]);
        r
      else r
  }

  const MaxDepth: nat := 5

  const ModelPrefixes: seq<string> := ["speech_paraformer-", "speech_fsmn_vad-", "punc_ct-transformer-"]

  /** Some entry's name starts with one of the model prefixes. */
  predicate HasModelChild(es: seq<Entry>) {
    exists i :: 0 <= i < |es| && HasModelPrefix(es[i].name)
  }

  predicate HasModelPrefix(name: string) {
    StartsWith(name, "speech_paraformer-") || StartsWith(name, "speech_fsmn_vad-")
    || StartsWith(name, "punc_ct-transformer-")
  }

  /** `findDamoRoot` below a node standing at `depth` levels under the start. */
  function Search(n: Node, p: Path, depth: nat): Option<Path>
    decreases n, 1
  {
    if depth > MaxDepth then None
    else match n
      case File(_) => None
      case Dir(es) => SearchEntries(es, p, depth)
  }

  /** The entries of a directory in listing order: a `damo` directory holding a model is
      the answer; otherwise every sub-directory is searched before the next entry. */
  function SearchEntries(es: seq<Entry>, p: Path, depth: nat): Option<Path>
    decreases es, 0
  {
    if es == [] then None
    else
      var e := es[0];
      if !e.node.Dir? then SearchEntries(es[1..], p, depth)
      else if e.name == "damo" && HasModelChild(e.node.entries) then Some(p + ["damo"])
      else match Search(e.node, p + [e.name], depth + 1)
        case Some(q) => Some(q)
        case None => SearchEntries(es[1..], p, depth)
  }

  /** `findDamoRoot`: the search from an existing start; what it finds is a qualifying
      `damo` directory one to six levels below the start. */
  function FindDamoRoot(fs: Node, start: Path): (r: Option<Path>)
    ensures r.Some? ==>
      && At(fs, start).Some?
      && exists rel :: r.value == start + rel && 1 <= |rel| <= 6 && Qualified(At(fs, start).value, rel)
  {
    match At(fs, start)
    case None => None
    case Some(n) => SearchSound(n, start, 0); Search(n, start, 0)
  }

  const NoRootMessage: string := "未找到有效的 damo 模型目录，请检查 MODELSCOPE_CACHE 或模型安装路径"

  /** `getModelCachePath`: the first existing fixed candidate, else the search result. */
  function ResolveCacheRoot(fs: Node, modelscopeCache: Option<Path>, home: Path): (r: Result<Path>)
    ensures var base := BaseCache(modelscopeCache, home);
      && (FirstExisting(fs, Candidates(base)).Some? ==>
            r == Success(FirstExisting(fs, Candidates(base)).value))
      && (FirstExisting(fs, Candidates(base)).None? ==>
            (r.Success? <==> FindDamoRoot(fs, base).Some?))
      && (r.Failure? ==> r.error == NoRootMessage)
  {
    var base := BaseCache(modelscopeCache, home);
    match FirstExisting(fs, Candidates(base))
    case Some(c) => Success(c)
    case None =>
      match FindDamoRoot(fs, base)
      case Some(f) => Success(f)
      case None => Failure(NoRootMessage)
  }

  // The search is sound and complete for the directories it is meant to find.

  /** Following `rel` from `n` through directories, by way of some entry with each name,
      reaches a `damo` directory that holds a model. */
  predicate Qualified(n: Node, rel: Path)
    decreases |rel|, 2
  {
    n.Dir? && QualifiedIn(n.entries, rel)
  }

  predicate QualifiedIn(es: seq<Entry>, rel: Path)
    decreases |rel|, 1
  {
    exists i :: 0 <= i < |es| && EntryQualified(es[i], rel)
  }

  predicate EntryQualified(e: Entry, rel: Path)
    decreases |rel|, 0
  {
    |rel| >= 1 && e.name == rel[0] && e.node.Dir?
    && if |rel| == 1 then rel[0] == "damo" && HasModelChild(e.node.entries)
       else Qualified(e.node, rel[1..])
  }

  /** What the search returns is a qualifying directory at most six levels down. */
  lemma {:induction false} SearchSound(n: Node, p: Path, depth: nat)
    ensures var r := Search(n, p, depth);
      r.Some? ==> exists rel :: r.value == p + rel && 1 <= |rel| <= 6 - depth && Qualified(n, rel)
    decreases n, 1
  {
    if depth <= MaxDepth && n.Dir? {
      SearchEntriesSound(n.entries, p, depth);
    }
  }

  lemma {:induction false} SearchEntriesSound(es: seq<Entry>, p: Path, depth: nat)
    requires depth <= MaxDepth
    ensures var r := SearchEntries(es, p, depth);
      r.Some? ==> exists rel :: r.value == p + rel && 1 <= |rel| <= 6 - depth && QualifiedIn(es, rel)
    decreases es, 0
  {
    if es != [] {
      var e := es[0];
      if !e.node.Dir? {
        SearchEntriesSound(es[1..], p, depth);
        ShiftQualifiedIn(es);
      } else if e.name == "damo" && HasModelChild(e.node.entries) {
        var rel := ["damo"];
        assert EntryQualified(es[0], rel);
      } else {
        var sub := Search(e.node, p + [e.name], depth + 1);
        SearchSound(e.node, p + [e.name], depth + 1);
        if sub.Some? {
          var rel' :| sub.value == p + [e.name] + rel' && 1 <= |rel'| <= 6 - (depth + 1)
                      && Qualified(e.node, rel');
          QualifiedBelow(es, rel');
          assert sub.value == p + ([e.name] + rel');
        } else {
          SearchEntriesSound(es[1..], p, depth);
          ShiftQualifiedIn(es);
        }
      }
    }
  }

  /** A qualifying path below the first entry's directory qualifies from the entries. */
  lemma QualifiedBelow(es: seq<Entry>, rel': Path)
    requires es != [] && es[0].node.Dir? && Qualified(es[0].node, rel') && |rel'| >= 1
    ensures QualifiedIn(es, [es[0].name] + rel')
  {
    var rel := [es[0].name] + rel';
    assert rel[1..] == rel';
    assert EntryQualified(es[0], rel);
  }

  lemma ShiftQualifiedIn(es: seq<Entry>)
    requires es != []
    ensures forall rel :: QualifiedIn(es[1..], rel) ==> QualifiedIn(es, rel)
  {
    forall rel | QualifiedIn(es[1..], rel) ensures QualifiedIn(es, rel) {
      var i :| 0 <= i < |es[1..]| && EntryQualified(es[1..][i], rel);
      assert es[i + 1] == es[1..][i];
    }
  }

  /** Every qualifying directory within six levels is found (perhaps another is found
      first). */
  lemma {:induction false} SearchComplete(n: Node, p: Path, depth: nat, rel: Path)
    requires Qualified(n, rel) && 1 <= |rel| <= 6 - depth
    ensures Search(n, p, depth).Some?
    decreases n, 1
  {
    SearchEntriesComplete(n.entries, p, depth, rel);
  }

  lemma {:induction false} SearchEntriesComplete(es: seq<Entry>, p: Path, depth: nat, rel: Path)
    requires QualifiedIn(es, rel) && 1 <= |rel| <= 6 - depth
    ensures SearchEntries(es, p, depth).Some?
    decreases es, 0
  {
    var i :| 0 <= i < |es| && EntryQualified(es[i], rel);
    var e := es[0];
    if i == 0 {
      assert e.node.Dir?;
      if !(e.name == "damo" && HasModelChild(e.node.entries)) {
        assert |rel| > 1;
        SearchComplete(e.node, p + [e.name], depth + 1, rel[1..]);
      }
    } else {
      assert EntryQualified(es[1..][i - 1], rel);
      if e.node.Dir? && !(e.name == "damo" && HasModelChild(e.node.entries)) {
        if Search(e.node, p + [e.name], depth + 1).None? {
          SearchEntriesComplete(es[1..], p, depth, rel);
        }
      } else if !e.node.Dir? {
        SearchEntriesComplete(es[1..], p, depth, rel);
      }
    }
  }

  /** The search from an existing start finds something exactly when some qualifying
      directory lies at most six levels below the start. */
  lemma FindDamoRootIff(fs: Node, start: Path)
    requires Exists(fs, start)
    ensures FindDamoRoot(fs, start).Some? <==>
      exists rel :: 1 <= |rel| <= 6 && Qualified(At(fs, start).value, rel)
  {
    var n := At(fs, start).value;
    SearchSound(n, start, 0);
    if exists rel :: 1 <= |rel| <= 6 && Qualified(n, rel) {
      var rel :| 1 <= |rel| <= 6 && Qualified(n, rel);
      SearchComplete(n, start, 0, rel);
    }
  }
}
