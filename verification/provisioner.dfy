/**
 * The model asset provisioner of app/utils/fileUtils.ts: `ensureModelsDir`,
 * which installs the bundled model unless its artifact set is complete, and
 * `downloadModelFromSupabase`, which fetches a model's three files from the
 * `models` storage bucket.
 *
 * The device's storage is a set of existing paths plus a log of the
 * operations issued against storage, in order. What the I/O calls answer
 * (whether the meta file is visible yet, what each download returns) is
 * given as input.
 */
module Provisioner {
  import opened Options

  /** The three files every model directory holds. */
  datatype Artifact = Weights | Labels | Meta

  /** The artifact's file name inside a model directory (and inside the bucket). */
  function FileName(a: Artifact): string
  {
    match a
    case Weights => "model.tflite"
    case Labels => "labels.txt"
    case Meta => "meta.json"
  }

  /** The files of a model, in the order they are downloaded. */
  const Files: seq<Artifact> := [Weights, Labels, Meta]
  /** The storage bucket models are downloaded from. */
  const Bucket: string := "models"
  /** The one model shipped with the app (`initial_models`). */
  const BundledModel: string := "MobileNetV2-TSM-Bukva"
  /** How many times the meta file's visibility is checked after it is written. */
  const MetaPollLimit: nat := 5

  /** `models/`, `models/<name>/` and `models/<name>/<file>` under the documents directory. */
  datatype Path = ModelsDir | ModelDir(model: string) | ModelFile(model: string, artifact: Artifact)

  /** An operation issued against storage. */
  datatype Op =
    | MakeDirectory(path: Path)                 // makeDirectoryAsync(..., { intermediates: true })
    | FetchAsset(asset: Artifact)               // downloadAsync of the bundled model's asset
    | CopyAsset(asset: Artifact, to: Path)      // copyAsync from that asset's local copy
    | WriteMeta(to: Path)                       // writeAsStringAsync of the bundled meta.json's JSON text
    | Download(bucket: string, key: string)     // download of object `key` from storage bucket `bucket`
    | WriteBase64(to: Path, data: seq<bv8>)     // writeAsStringAsync with base64 encoding

  /** The object key a download request names in the bucket: `<model>/<file>`. */
  function ObjectKey(model: string, a: Artifact): string
  {
    model + "/" + FileName(a)
  }

  /** Different files of a model have different object keys, so each request names one file. */
  lemma ObjectKeyInjective(model: string, a: Artifact, b: Artifact)
    ensures ObjectKey(model, a) == ObjectKey(model, b) ==> a == b
  {
    if ObjectKey(model, a) == ObjectKey(model, b) {
      assert |FileName(a)| == |FileName(b)|;
    }
  }

  /** The paths an operation makes exist. */
  function Creates(op: Op): set<Path>
  {
    match op
    case MakeDirectory(ModelDir(m)) => {ModelsDir, ModelDir(m)}
    case MakeDirectory(p) => {p}
    case FetchAsset(_) => {}
    case CopyAsset(_, to) => {to}
    case WriteMeta(to) => {to}
    case Download(_, _) => {}
    case WriteBase64(to, _) => {to}
  }

  /** The paths the operations create. */
  function Created(ops: seq<Op>): set<Path>
  {
    set i, p | 0 <= i < |ops| && p in Creates(ops[i]) :: p
  }

  /** The paths that exist after the operations. */
  function Apply(existing: set<Path>, ops: seq<Op>): set<Path>
  {
    existing + Created(ops)
  }

  /** A single operation creates what it creates. */
  lemma CreatedSingle(op: Op)
    ensures Created([op]) == Creates(op)
  {
    assert forall p :: p in Creates(op) ==> p in Creates([op][0]);
  }

  /** Every path an operation creates exists afterwards. */
  lemma CreatedBy(ops: seq<Op>, i: nat)
    requires i < |ops|
    ensures Creates(ops[i]) <= Created(ops)
  {
  }

  /** What two runs of operations create together. */
  lemma CreatedAppend(ops: seq<Op>, more: seq<Op>)
    ensures Created(ops + more) == Created(ops) + Created(more)
  {
    var all := ops + more;
    forall p | p in Created(all) ensures p in Created(ops) + Created(more) {
      var i :| 0 <= i < |all| && p in Creates(all[i]);
      if i < |ops| {
        assert all[i] == ops[i];
      } else {
        assert all[i] == more[i - |ops|];
      }
    }
    forall p | p in Created(more) ensures p in Created(all) {
      var i :| 0 <= i < |more| && p in Creates(more[i]);
      assert all[|ops| + i] == more[i];
    }
    forall p | p in Created(ops) ensures p in Created(all) {
      var i :| 0 <= i < |ops| && p in Creates(ops[i]);
      assert all[i] == ops[i];
    }
  }

  /** Applying two runs of operations one after the other. */
  lemma ApplyAppend(existing: set<Path>, ops: seq<Op>, more: seq<Op>)
    ensures Apply(existing, ops + more) == Apply(Apply(existing, ops), more)
  {
    CreatedAppend(ops, more);
  }

  lemma SeqAssoc<T>(a: seq<T>, b: seq<T>, c: seq<T>)
    ensures (a + b) + c == a + (b + c)
  {
  }

  // ---------------------------------------------------------------------------
  // ensureModelsDir
  // ---------------------------------------------------------------------------

  /** The `isComplete` test: the model's directory and all three files exist. */
  predicate IsComplete(existing: set<Path>, model: string)
  {
    && ModelDir(model) in existing
    && ModelFile(model, Weights) in existing
    && ModelFile(model, Labels) in existing
    && ModelFile(model, Meta) in existing
  }

  /** Copying the bundled model's weights and labels out of the app's assets, then writing its metadata. */
  function InstallSteps(): seq<Op>
  {
    [ FetchAsset(Weights), CopyAsset(Weights, ModelFile(BundledModel, Weights)),
      FetchAsset(Labels), CopyAsset(Labels, ModelFile(BundledModel, Labels)),
      WriteMeta(ModelFile(BundledModel, Meta)) ]
  }

  /** The installation of the bundled model when its artifact set is incomplete. */
  function InstallOps(existing: set<Path>): seq<Op>
  {
    (if ModelDir(BundledModel) in existing then [] else [MakeDirectory(ModelDir(BundledModel))])
    + InstallSteps()
  }

  /** The operations ensureModelsDir issues against storage in state `existing`. */
  function EnsurePlan(existing: set<Path>): seq<Op>
  {
    (if ModelsDir in existing then [] else [MakeDirectory(ModelsDir)])
    + (if IsComplete(existing, BundledModel) then [] else InstallOps(existing))
  }

  /** An operation that copies or writes a model artifact. */
  predicate Installs(op: Op)
  {
    op.FetchAsset? || op.CopyAsset? || op.WriteMeta?
  }

  /**
   * The bundled model is copied and its metadata written exactly when its
   * artifact set is incomplete; once everything is in place the call issues
   * no operation at all.
   */
  lemma EnsurePlanInstallsIffIncomplete(existing: set<Path>)
    ensures (exists i :: 0 <= i < |EnsurePlan(existing)| && Installs(EnsurePlan(existing)[i]))
            <==> !IsComplete(existing, BundledModel)
    ensures ModelsDir in existing && IsComplete(existing, BundledModel) ==> EnsurePlan(existing) == []
  {
    var plan := EnsurePlan(existing);
    if !IsComplete(existing, BundledModel) {
      var head := if ModelsDir in existing then [] else [MakeDirectory(ModelsDir)];
      var install := InstallOps(existing);
      assert plan == head + install;
      assert Installs(install[|install| - 1]);
      assert plan[|head| + |install| - 1] == install[|install| - 1];
    }
  }

  /** A second call, on the storage the first call left, issues no operation. */
  lemma EnsurePlanIdempotent(existing: set<Path>)
    ensures EnsurePlan(Apply(existing, EnsurePlan(existing))) == []
  {
    var plan := EnsurePlan(existing);
    var after := Apply(existing, plan);
    var head := if ModelsDir in existing then [] else [MakeDirectory(ModelsDir)];
    if ModelsDir !in existing {
      CreatedBy(plan, 0);
    }
    if !IsComplete(existing, BundledModel) {
      var install := InstallOps(existing);
      var n := |head| + |install|;
      assert plan == head + install;
      assert plan[n - 1] == install[|install| - 1];
      assert plan[n - 2] == install[|install| - 2];
      assert plan[n - 4] == install[|install| - 4];
      CreatedBy(plan, n - 1);
      CreatedBy(plan, n - 2);
      CreatedBy(plan, n - 4);
      if ModelDir(BundledModel) !in existing {
        assert plan[|head|] == install[0];
        CreatedBy(plan, |head|);
      }
    }
  }

  /** The `retry` loop's answer: whether the k-th check sees the meta file. */
  predicate Sees(probes: seq<bool>, k: nat)
  {
    k < |probes| && probes[k]
  }

  /**
   * The bounded poll for the meta file: `while (retry-- > 0)` with `retry`
   * starting at 5, one existence check per round, a 100 ms wait after every
   * check that does not see the file. `probes[k]` is what check k answers.
   * It stops at the first check that sees the file and gives up silently
   * after five checks.
   */
  method PollMetaVisible(probes: seq<bool>) returns (checks: nat, seen: bool, waits: nat)
    ensures checks <= MetaPollLimit
    ensures seen <==> exists k :: 0 <= k < MetaPollLimit && Sees(probes, k)
    ensures seen ==> 0 < checks && Sees(probes, checks - 1) && waits == checks - 1
    ensures forall k :: 0 <= k < checks - 1 ==> !Sees(probes, k)
    ensures !seen ==> checks == MetaPollLimit && waits == MetaPollLimit
  {
    var retry: int := MetaPollLimit;
    checks, seen, waits := 0, false, 0;
    while true
      invariant 0 <= checks <= MetaPollLimit && retry == MetaPollLimit - checks
      invariant !seen && waits == checks
      invariant forall k :: 0 <= k < checks ==> !Sees(probes, k)
      decreases retry
    {
      var more := retry > 0;
      retry := retry - 1;
      if !more {
        break;
      }
      var visible := Sees(probes, checks);
      checks := checks + 1;
      if visible {
        seen := true;
        break;
      }
      waits := waits + 1;
    }
  }

  // ---------------------------------------------------------------------------
  // downloadModelFromSupabase
  // ---------------------------------------------------------------------------

  /** What the storage download of one file returns. */
  datatype Fetched =
    | Fetched(data: seq<bv8>)
    | FetchFailed(message: Option<string>)   // an error (its message, if any), or no data

  /** The error thrown for the first file that fails: it names that file. */
  datatype DownloadError = DownloadError(file: string, message: Option<string>)

  /** Index of the first failed download at or after `k`, or 3 when none fails. */
  function FirstFailure(outcomes: seq<Fetched>, k: nat): (f: nat)
    requires |outcomes| == |Files| && k <= |Files|
    ensures k <= f <= |Files|
    ensures f < |Files| ==> outcomes[f].FetchFailed?
    ensures forall j :: k <= j < f ==> outcomes[j].Fetched?
    decreases |Files| - k
  {
    if k == |Files| || outcomes[k].FetchFailed? then k else FirstFailure(outcomes, k + 1)
  }

  /** The thrown error, if any: the first failed file, with the storage error's message. */
  function DownloadResult(outcomes: seq<Fetched>): (r: Option<DownloadError>)
    requires |outcomes| == |Files|
    ensures r.None? <==> forall j :: 0 <= j < |Files| ==> outcomes[j].Fetched?
    ensures r.Some? ==> exists f :: 0 <= f < |Files| && outcomes[f].FetchFailed?
                                    && r.value == DownloadError(FileName(Files[f]), outcomes[f].message)
                                    && forall j :: 0 <= j < f ==> outcomes[j].Fetched?
  {
    var f := FirstFailure(outcomes, 0);
    if f < |Files| then Some(DownloadError(FileName(Files[f]), outcomes[f].message)) else None
  }

  /** One round of the loop: request the file, then write its data when the request returned non-empty data. */
  function FileStep(model: string, file: Artifact, outcome: Fetched): seq<Op>
  {
    [Download(Bucket, ObjectKey(model, file))]
    + (if outcome.Fetched? && |outcome.data| > 0 then [WriteBase64(ModelFile(model, file), outcome.data)] else [])
  }

  /** The loop over the files from file `k` on, stopping after the first failure. */
  function FileOps(model: string, outcomes: seq<Fetched>, k: nat): seq<Op>
    requires |outcomes| == |Files| && k <= |Files|
    decreases |Files| - k
  {
    if k == |Files| then []
    else if outcomes[k].FetchFailed? then FileStep(model, Files[k], outcomes[k])
    else FileStep(model, Files[k], outcomes[k]) + FileOps(model, outcomes, k + 1)
  }

  /** The operations downloadModelFromSupabase issues against storage in state `existing`. */
  function DownloadPlan(existing: set<Path>, model: string, outcomes: seq<Fetched>): seq<Op>
    requires |outcomes| == |Files|
  {
    (if ModelDir(model) in existing then [] else [MakeDirectory(ModelDir(model))])
    + FileOps(model, outcomes, 0)
  }

  /** The download requests among the operations, in order. */
  function Fetches(ops: seq<Op>): seq<Op>
  {
    if ops == [] then []
    else (if ops[0].Download? then [ops[0]] else []) + Fetches(ops[1..])
  }

  lemma {:induction false} FetchesAppend(a: seq<Op>, b: seq<Op>)
    ensures Fetches(a + b) == Fetches(a) + Fetches(b)
    decreases |a|
  {
    if a != [] {
      FetchesAppend(a[1..], b);
      assert (a + b)[0] == a[0];
      assert (a + b)[1..] == a[1..] + b;
    } else {
      assert a + b == b;
    }
  }

  /** What one round requests and creates. */
  lemma FileStepEffects(model: string, file: Artifact, outcome: Fetched)
    ensures Fetches(FileStep(model, file, outcome)) == [Download(Bucket, ObjectKey(model, file))]
    ensures Created(FileStep(model, file, outcome))
            == if outcome.Fetched? && |outcome.data| > 0 then {ModelFile(model, file)} else {}
  {
    var fetch := Download(Bucket, ObjectKey(model, file));
    var w := if outcome.Fetched? && |outcome.data| > 0 then [WriteBase64(ModelFile(model, file), outcome.data)] else [];
    FetchesAppend([fetch], w);
    CreatedAppend([fetch], w);
    CreatedSingle(fetch);
    assert Fetches([fetch]) == [fetch] + Fetches([]);
    if w != [] {
      assert Fetches(w) == [] + Fetches([]);
      CreatedSingle(w[0]);
    }
  }

  /** The download requests for files `k` up to `e` of a model, in order. */
  function Requests(model: string, k: nat, e: nat): (r: seq<Op>)
    requires k <= e <= |Files|
    ensures |r| == e - k
    ensures forall j :: 0 <= j < e - k ==> r[j] == Download(Bucket, ObjectKey(model, Files[k + j]))
    decreases e - k
  {
    if k == e then [] else [Download(Bucket, ObjectKey(model, Files[k]))] + Requests(model, k + 1, e)
  }

  /** Where the loop from file `k` on stops: just after the first failure, or after the last file. */
  function AttemptEnd(outcomes: seq<Fetched>, k: nat): (e: nat)
    requires |outcomes| == |Files| && k <= |Files|
    ensures k <= e <= |Files|
  {
    var f := FirstFailure(outcomes, k);
    if f < |Files| then f + 1 else |Files|
  }

  /**
   * From file `k` on, the loop requests the files in the order of `Files`,
   * up to and including the first one that fails, and no file after it.
   */
  lemma {:induction false} FileOpsFetches(model: string, outcomes: seq<Fetched>, k: nat)
    requires |outcomes| == |Files| && k <= |Files|
    ensures Fetches(FileOps(model, outcomes, k)) == Requests(model, k, AttemptEnd(outcomes, k))
    decreases |Files| - k
  {
    if k < |Files| {
      var step := FileStep(model, Files[k], outcomes[k]);
      FileStepEffects(model, Files[k], outcomes[k]);
      if outcomes[k].FetchFailed? {
        assert Requests(model, k + 1, k + 1) == [];
      } else {
        var rest := FileOps(model, outcomes, k + 1);
        FileOpsFetches(model, outcomes, k + 1);
        FetchesAppend(step, rest);
      }
    }
  }

  /** The files written from file `k` on: those before the first failure whose data is non-empty. */
  function Stored(model: string, outcomes: seq<Fetched>, k: nat): set<Path>
    requires |outcomes| == |Files| && k <= |Files|
  {
    set j | k <= j < FirstFailure(outcomes, k) && |outcomes[j].data| > 0 :: ModelFile(model, Files[j])
  }

  /** Peeling file `k` off the files written from `k` on. */
  lemma StoredStep(model: string, outcomes: seq<Fetched>, k: nat)
    requires |outcomes| == |Files| && k < |Files|
    ensures outcomes[k].FetchFailed? ==> Stored(model, outcomes, k) == {}
    ensures outcomes[k].Fetched? ==>
              Stored(model, outcomes, k)
              == (if |outcomes[k].data| > 0 then {ModelFile(model, Files[k])} else {}) + Stored(model, outcomes, k + 1)
  {
    if outcomes[k].Fetched? {
      var here := if |outcomes[k].data| > 0 then {ModelFile(model, Files[k])} else {};
      assert FirstFailure(outcomes, k) == FirstFailure(outcomes, k + 1);
      assert Stored(model, outcomes, k) == here + Stored(model, outcomes, k + 1);
    }
  }

  /**
   * From file `k` on, the loop creates exactly the files that downloaded,
   * with non-empty data, before the first failure, and nothing else.
   */
  lemma {:induction false} FileOpsCreates(model: string, outcomes: seq<Fetched>, k: nat)
    requires |outcomes| == |Files| && k <= |Files|
    ensures Created(FileOps(model, outcomes, k)) == Stored(model, outcomes, k)
    decreases |Files| - k
  {
    if k == |Files| {
      assert Stored(model, outcomes, k) == {};
    } else {
      var step := FileStep(model, Files[k], outcomes[k]);
      FileStepEffects(model, Files[k], outcomes[k]);
      if outcomes[k].FetchFailed? {
        StoredStep(model, outcomes, k);
      } else {
        var rest := FileOps(model, outcomes, k + 1);
        FileOpsCreates(model, outcomes, k + 1);
        CreatedAppend(step, rest);
        StoredStep(model, outcomes, k);
      }
    }
  }

  /**
   * What a download leaves behind: what existed before, the model's
   * directory, and exactly the files downloaded with data before the first
   * failure. A failure part-way through does not remove the files already
   * written.
   */
  lemma DownloadLeavesPartialModel(existing: set<Path>, model: string, outcomes: seq<Fetched>)
    requires |outcomes| == |Files|
    ensures Apply(existing, DownloadPlan(existing, model, outcomes))
            == existing + (if ModelDir(model) in existing then {} else {ModelsDir, ModelDir(model)})
               + Stored(model, outcomes, 0)
  {
    var head := if ModelDir(model) in existing then [] else [MakeDirectory(ModelDir(model))];
    var ops := FileOps(model, outcomes, 0);
    CreatedAppend(head, ops);
    FileOpsCreates(model, outcomes, 0);
    if head != [] {
      CreatedSingle(head[0]);
    }
  }

  /**
   * One round of the download loop, in terms of the log: after round `k`
   * the rest of the plan is the loop from file `k + 1` on, or nothing when
   * round `k` failed.
   */
  lemma RoundDone(model: string, outcomes: seq<Fetched>, k: nat, before: seq<Op>, after: seq<Op>, total: seq<Op>)
    requires |outcomes| == |Files| && k < |Files|
    requires before + FileOps(model, outcomes, k) == total
    requires after == before + FileStep(model, Files[k], outcomes[k])
    ensures outcomes[k].FetchFailed? ==> after == total
    ensures outcomes[k].Fetched? ==> after + FileOps(model, outcomes, k + 1) == total
  {
    if outcomes[k].Fetched? {
      SeqAssoc(before, FileStep(model, Files[k], outcomes[k]), FileOps(model, outcomes, k + 1));
    }
  }

  /**
   * The device's file storage, and the operations issued against it so far.
   * The paths that exist are always those that existed at the start plus
   * those the issued operations created.
   */
  class Storage {
    var existing: set<Path>
    var log: seq<Op>
    ghost var initial: set<Path>

    ghost predicate Valid()
      reads this
    {
      existing == Apply(initial, log)
    }

    constructor(existing: set<Path>)
      ensures Valid() && this.existing == existing && log == []
    {
      this.existing := existing;
      log := [];
      initial := existing;
    }

    /** Issues one operation. */
    method Issue(op: Op)
      requires Valid()
      modifies this
      ensures Valid() && initial == old(initial)
      ensures log == old(log) + [op]
      ensures existing == old(existing) + Creates(op)
    {
      ApplyAppend(initial, log, [op]);
      CreatedSingle(op);
      log := log + [op];
      existing := existing + Creates(op);
    }

    /**
     * `ensureModelsDir`: creates `models/` when missing, then installs the
     * bundled model from the app's assets unless its directory and its three
     * files all exist, and finally polls for the meta file. `probes` answers
     * the poll's existence checks; the poll's outcome changes nothing.
     */
    method EnsureModelsDir(probes: seq<bool>)
      requires Valid()
      modifies this
      ensures Valid() && initial == old(initial)
      ensures log == old(log) + EnsurePlan(old(existing))
      ensures existing == Apply(old(existing), EnsurePlan(old(existing)))
    {
      ghost var start := existing;
      ghost var head: seq<Op> := if ModelsDir in start then [] else [MakeDirectory(ModelsDir)];
      if ModelsDir !in existing {
        Issue(MakeDirectory(ModelsDir));
      }
      assert log == old(log) + head;
      var model := BundledModel;
      var dirExists := ModelDir(model) in existing;
      var isComplete := dirExists && ModelFile(model, Weights) in existing
                        && ModelFile(model, Labels) in existing && ModelFile(model, Meta) in existing;
      assert isComplete == IsComplete(start, BundledModel);
      if !isComplete {
        InstallBundled(dirExists);
        var checks, seen, waits := PollMetaVisible(probes);
        assert InstallOps(start) == (if dirExists then [] else [MakeDirectory(ModelDir(BundledModel))]) + InstallSteps();
      }
      ApplyAppend(initial, old(log), EnsurePlan(start));
    }

    /** The `!isComplete` branch of ensureModelsDir, up to the poll. */
    method InstallBundled(dirExists: bool)
      requires Valid()
      modifies this
      ensures Valid() && initial == old(initial)
      ensures log == old(log) + (if dirExists then [] else [MakeDirectory(ModelDir(BundledModel))]) + InstallSteps()
    {
      var model := BundledModel;
      if !dirExists {
        Issue(MakeDirectory(ModelDir(model)));
      }
      ghost var mid := log;
      CopyBundledAsset(Weights);
      CopyBundledAsset(Labels);
      Issue(WriteMeta(ModelFile(model, Meta)));
      assert log == mid + InstallSteps();
    }

    /** Fetching one of the bundled model's assets, then copying it into the model's directory. */
    method CopyBundledAsset(asset: Artifact)
      requires Valid()
      modifies this
      ensures Valid() && initial == old(initial)
      ensures log == old(log) + [FetchAsset(asset), CopyAsset(asset, ModelFile(BundledModel, asset))]
    {
      Issue(FetchAsset(asset));
      Issue(CopyAsset(asset, ModelFile(BundledModel, asset)));
    }

    /** The body of downloadModelFromSupabase's loop, up to its early exit. */
    method FetchFile(modelName: string, file: Artifact, outcome: Fetched)
      requires Valid()
      modifies this
      ensures Valid() && initial == old(initial)
      ensures log == old(log) + FileStep(modelName, file, outcome)
    {
      Issue(Download(Bucket, ObjectKey(modelName, file)));
      if outcome.Fetched? && |outcome.data| > 0 {
        Issue(WriteBase64(ModelFile(modelName, file), outcome.data));
      }
    }

    /**
     * `downloadModelFromSupabase`: creates the model's directory when
     * missing, then requests `model.tflite`, `labels.txt` and `meta.json` in
     * that order, writing each one's data when it is non-empty. The first
     * failure ends the call with an error naming that file; the files
     * written before it stay. `outcomes[k]` is what the request for file k
     * answers.
     */
    method DownloadModelFromSupabase(modelName: string, outcomes: seq<Fetched>)
      returns (failure: Option<DownloadError>)
      requires Valid()
      requires |outcomes| == |Files|
      modifies this
      ensures Valid() && initial == old(initial)
      ensures log == old(log) + DownloadPlan(old(existing), modelName, outcomes)
      ensures existing == Apply(old(existing), DownloadPlan(old(existing), modelName, outcomes))
      ensures failure == DownloadResult(outcomes)
    {
      ghost var plan := DownloadPlan(existing, modelName, outcomes);
      ApplyAppend(initial, log, plan);
      ghost var head: seq<Op> := if ModelDir(modelName) in existing then [] else [MakeDirectory(ModelDir(modelName))];
      if ModelDir(modelName) !in existing {
        Issue(MakeDirectory(ModelDir(modelName)));
      }
      failure := DownloadFiles(modelName, outcomes);
      SeqAssoc(old(log), head, FileOps(modelName, outcomes, 0));
    }

    /** The loop of downloadModelFromSupabase over the three files. */
    method DownloadFiles(modelName: string, outcomes: seq<Fetched>) returns (failure: Option<DownloadError>)
      requires Valid()
      requires |outcomes| == |Files|
      modifies this
      ensures Valid() && initial == old(initial)
      ensures log == old(log) + FileOps(modelName, outcomes, 0)
      ensures failure == DownloadResult(outcomes)
    {
      var k := 0;
      while k < |Files|
        invariant 0 <= k <= |Files|
        invariant initial == old(initial) && Valid()
        invariant FirstFailure(outcomes, 0) == FirstFailure(outcomes, k)
        invariant log + FileOps(modelName, outcomes, k) == old(log) + FileOps(modelName, outcomes, 0)
      {
        ghost var before := log;
        var file := Files[k];
        var outcome := outcomes[k];
        FetchFile(modelName, file, outcome);
        RoundDone(modelName, outcomes, k, before, log, old(log) + FileOps(modelName, outcomes, 0));
        if outcome.FetchFailed? {
          return Some(DownloadError(FileName(file), outcome.message));
        }
        k := k + 1;
      }
      return None;
    }
  }
}
