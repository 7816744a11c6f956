/** The values a pipeline upload is made of, with the fields that decide step
    keys, dependencies and concurrency queues. */
module Pipelines {

  const MAX_CONCURRENCY_GROUP_LENGTH := 200

  datatype Result<+T> = Ok(value: T) | Err(reason: string)

  datatype Option<+T> = None | Some(value: T)

  datatype ConcurrencyGate = ConcurrencyGate(id: string, group: string, queue: string, cancelInProgress: bool)

  datatype ApprovalGate = ApprovalGate(key: string, environment: string)

  datatype Job = Job(
    key: string,
    dependencies: seq<string>,
    planDigest: string,
    failure: bool,
    skipReason: string,
    stage: bool,
    queue: string,
    approvalGate: string,
    concurrency: int,
    concurrencyGroup: string,
    cancelInProgress: bool,
    gates: seq<ConcurrencyGate>)
  {
    /** A preparation result is emitted instead of a runnable step. */
    predicate PreparationResult() { failure || skipReason != "" }

    predicate Planned() { !failure && skipReason == "" && !stage }
  }

  predicate IdentifierChar(c: char) {
    'A' <= c <= 'Z' || 'a' <= c <= 'z' || '0' <= c <= '9' || c == '_' || c == '-'
  }

  predicate ValidIdentifier(key: string) {
    1 <= |key| <= 255 && forall i :: 0 <= i < |key| ==> IdentifierChar(key[i])
  }

  predicate HexDigit(c: char) {
    '0' <= c <= '9' || 'a' <= c <= 'f' || 'A' <= c <= 'F'
  }

  predicate UuidShape(key: string) {
    |key| == 36 && forall i :: 0 <= i < 36 ==>
      if i == 8 || i == 13 || i == 18 || i == 23 then key[i] == '-' else HexDigit(key[i])
  }

  predicate ValidStepKey(key: string) {
    ValidIdentifier(key) && !UuidShape(key)
  }

  predicate ValidDigest(digest: string) {
    |digest| == 71 && digest[..7] == "sha256:" &&
    forall i :: 7 <= i < 71 ==> '0' <= digest[i] <= '9' || 'a' <= digest[i] <= 'f'
  }

  /** The checks of validateJob on these fields. */
  predicate ValidJob(compilerStep: string, job: Job) {
    && ValidStepKey(job.key) && job.key != compilerStep
    && !(job.failure && job.skipReason != "")
    && (job.queue == "" || ValidIdentifier(job.queue))
    && (if job.stage then
          !job.PreparationResult() && job.planDigest == "" && job.approvalGate == "" &&
          job.concurrency == 0 && job.concurrencyGroup == "" && job.gates == [] && job.dependencies != []
        else if !job.PreparationResult() then
          ValidDigest(job.planDigest)
        else
          job.planDigest == "" && job.queue == "" && job.approvalGate == "" &&
          job.concurrency == 0 && job.concurrencyGroup == "" && job.gates == [])
    && job.concurrency >= 0
    && (job.cancelInProgress ==> job.concurrency != 0)
    && (job.concurrency > 0 <==> job.concurrencyGroup != "")
    && |job.concurrencyGroup| <= MAX_CONCURRENCY_GROUP_LENGTH
    && (forall d :: d in job.dependencies ==> ValidStepKey(d) && d != compilerStep && d != job.key)
    && (job.approvalGate != "" ==>
          ValidStepKey(job.approvalGate) && job.approvalGate != compilerStep && job.approvalGate != job.key)
  }

  ghost predicate Distinct<T(!new)>(s: seq<T>) {
    forall i, j :: 0 <= i < j < |s| ==> s[i] != s[j]
  }

  ghost predicate DistinctKeys(jobs: seq<Job>) {
    forall i, j :: 0 <= i < j < |jobs| ==> jobs[i].key != jobs[j].key
  }

  ghost function KeySet(jobs: seq<Job>): set<string> {
    set j | j in jobs :: j.key
  }

  function KeysOf(jobs: seq<Job>): (keys: seq<string>)
    ensures |keys| == |jobs| && forall i :: 0 <= i < |jobs| ==> keys[i] == jobs[i].key
  {
    seq(|jobs|, i requires 0 <= i < |jobs| => jobs[i].key)
  }
}
