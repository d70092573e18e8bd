/** The batch side of the encoder (`encode_media_files`): how many workers
    share the CPU, the share each file gets, the collection of the per-file
    results into index-addressed slots in whatever order the files finish,
    and the savings summary printed at the end. */
module Batch {
  import opened Common
  import opened Text
  import opened Pipeline

  const MiB: nat := 1024 * 1024
  const GiB: nat := 1024 * 1024 * 1024

  // ---------------------------------------------------------------------
  // Worker plan
  // ---------------------------------------------------------------------

  /** Lines 350-356: no more workers than the pool allows or than there are
      files, and at most 2 for "h265" and 4 for "h264" (the literal names
      only: "hevc" is not clamped). */
  function WorkerCount(maxWorkers: nat, fileCount: nat, outputCodec: string): (n: nat)
    ensures n <= maxWorkers && n <= fileCount
    ensures outputCodec == "h265" ==> n <= 2
    ensures outputCodec == "h264" ==> n <= 4
    ensures n == 0 <==> maxWorkers == 0 || fileCount == 0
  {
    var n := if maxWorkers <= fileCount then maxWorkers else fileCount;
    if outputCodec == "h265" && n > 2 then 2
    else if outputCodec == "h264" && n > 4 then 4
    else n
  }

  /** The worker count is the largest one meeting all the bounds. */
  lemma WorkerCountIsLargest(maxWorkers: nat, fileCount: nat, outputCodec: string, m: nat)
    requires m <= maxWorkers && m <= fileCount
    requires outputCodec == "h265" ==> m <= 2
    requires outputCodec == "h264" ==> m <= 4
    ensures m <= WorkerCount(maxWorkers, fileCount, outputCodec)
  {
  }

  /** Why the batch raised. */
  datatype BatchFailure =
    | NoWorkers                            // line 358: division by a worker count of 0
    | FileFailed(index: nat, reason: Failure)  // line 393: a file's run raised

  /** Line 358: the CPU percentage each file's encoder may use. */
  function PerFileCpu(maxCpu: real, workers: nat): (r: Result<real, BatchFailure>)
    ensures r.Err? <==> workers == 0
    ensures r.Err? ==> r.error == NoWorkers
    ensures r.Ok? ==> r.value * (workers as real) == maxCpu
  {
    if workers == 0 then Err(NoWorkers) else Ok(maxCpu / (workers as real))
  }

  // ---------------------------------------------------------------------
  // Result slots
  // ---------------------------------------------------------------------

  /** An order in which the `n` submitted files can finish: every index
      below `n` comes up, and nothing else. */
  predicate IsCompletionOrder(order: seq<nat>, n: nat) {
    && |order| == n
    && (forall j :: 0 <= j < n ==> order[j] < n)
    && (forall i :: 0 <= i < n ==> i in order)
  }

  /** The name slot of each file once its result is in. */
  function SlotNames(outcomes: seq<Result<Encoded, Failure>>): (slots: seq<Option<string>>)
    ensures |slots| == |outcomes|
    ensures forall i :: 0 <= i < |outcomes| ==> (slots[i].Some? <==> outcomes[i].Ok?)
  {
    if outcomes == [] then []
    else [if outcomes[0].Ok? then Some(outcomes[0].value.name) else None] + SlotNames(outcomes[1..])
  }

  /** The size slot of each file once its result is in. */
  function SlotInfos(outcomes: seq<Result<Encoded, Failure>>): (slots: seq<Option<Encoded>>)
    ensures |slots| == |outcomes|
    ensures forall i :: 0 <= i < |outcomes| ==> (slots[i].Some? <==> outcomes[i].Ok?)
  {
    if outcomes == [] then []
    else [if outcomes[0].Ok? then Some(outcomes[0].value) else None] + SlotInfos(outcomes[1..])
  }

  lemma {:induction false} SlotsAt(outcomes: seq<Result<Encoded, Failure>>, i: nat)
    requires i < |outcomes| && outcomes[i].Ok?
    ensures SlotNames(outcomes)[i] == Some(outcomes[i].value.name)
    ensures SlotInfos(outcomes)[i] == Some(outcomes[i].value)
  {
    if i > 0 {
      SlotsAt(outcomes[1..], i - 1);
    }
  }

  /** Lines 328-329 and 379-393: results are taken in completion order and
      stored at their file's index; the first failed file taken raises.
      When nothing failed, the slots hold every file's own result, whatever
      the completion order was. */
  method CollectResults(outcomes: seq<Result<Encoded, Failure>>, order: seq<nat>)
    returns (names: array<Option<string>>, infos: array<Option<Encoded>>, failure: Option<BatchFailure>)
    requires IsCompletionOrder(order, |outcomes|)
    ensures fresh(names) && fresh(infos)
    ensures failure.None? <==> forall i :: 0 <= i < |outcomes| ==> outcomes[i].Ok?
    ensures failure.Some? ==>
      var j := FirstFailed(outcomes, order, 0);
      j.Some? && failure.value == FileFailed(order[j.value], outcomes[order[j.value]].error)
    ensures failure.None? ==> names[..] == SlotNames(outcomes) && infos[..] == SlotInfos(outcomes)
  {
    var n := |outcomes|;
    names := new Option<string>[n](_ => None);
    infos := new Option<Encoded>[n](_ => None);
    var j := 0;
    while j < n
      invariant 0 <= j <= n
      invariant forall k :: 0 <= k < j ==> outcomes[order[k]].Ok?
      invariant forall i :: 0 <= i < n && i in order[..j] ==>
        outcomes[i].Ok? && names[i] == Some(outcomes[i].value.name) && infos[i] == Some(outcomes[i].value)
    {
      var index := order[j];
      if outcomes[index].Err? {
        FirstFailedAt(outcomes, order, j);
        return names, infos, Some(FileFailed(index, outcomes[index].error));
      }
      names[index] := Some(outcomes[index].value.name);
      infos[index] := Some(outcomes[index].value);
      assert order[..j + 1] == order[..j] + [index];
      j := j + 1;
    }
    assert order[..n] == order;
    forall i | 0 <= i < n
      ensures names[i] == SlotNames(outcomes)[i] && infos[i] == SlotInfos(outcomes)[i]
    {
      SlotsAt(outcomes, i);
    }
    failure := None;
  }

  // ---------------------------------------------------------------------
  // Savings summary
  // ---------------------------------------------------------------------

  /** Lines 401-402: the sum of one size over the filled slots. */
  function TotalSize(infos: seq<Option<Encoded>>, initial: bool): nat {
    if infos == [] then 0
    else
      var here := if infos[0].None? then 0
                  else if initial then infos[0].value.initialSize
                  else infos[0].value.resultingSize;
      here + TotalSize(infos[1..], initial)
  }

  /** Totals add up over consecutive groups of slots. */
  lemma {:induction false} TotalSizeAppend(a: seq<Option<Encoded>>, b: seq<Option<Encoded>>, initial: bool)
    ensures TotalSize(a + b, initial) == TotalSize(a, initial) + TotalSize(b, initial)
  {
    if a != [] {
      assert (a + b)[1..] == a[1..] + b;
      TotalSizeAppend(a[1..], b, initial);
    } else {
      assert a + b == b;
    }
  }

  /** Lines 404-407: the share of the original bytes saved, in percent,
      truncated toward zero, and 0 when there were no bytes. */
  function SavingsPercent(initial: nat, resulting: nat): (p: int)
    ensures initial == 0 ==> p == 0
    ensures p <= 100
    ensures initial > 0 && resulting <= initial ==>
      0 <= p && p * initial <= (initial - resulting) * 100 < (p + 1) * initial
    ensures initial > 0 && resulting > initial ==>
      p <= 0 && -p * initial <= (resulting - initial) * 100 < (-p + 1) * initial
  {
    if initial == 0 then 0
    else if resulting <= initial then ((initial - resulting) * 100) / initial
    else -(((resulting - initial) * 100) / initial)
  }

  /** The summary is printed exactly when at least one percent of the
      original bytes was saved. */
  lemma SavingsShown(initial: nat, resulting: nat)
    ensures SavingsPercent(initial, resulting) > 0 <==> initial > 0 && (initial - resulting) * 100 >= initial
  {
    var p := SavingsPercent(initial, resulting);
    if initial > 0 && resulting <= initial {
      var saved := (initial - resulting) * 100;
      if p > 0 {
        MultiplyAtLeastOnce(p, initial);
      } else {
        assert (p + 1) * initial == initial;
      }
    }
  }

  lemma MultiplyAtLeastOnce(p: int, x: nat)
    requires p >= 1
    ensures p * x >= x
  {
  }

  /** Lines 410-416: whole gibibytes when there is at least one, otherwise
      whole mebibytes. */
  function FormatSize(bytes: nat): string {
    var gb := bytes / GiB;
    if gb >= 1 then NatToString(gb) + "GB" else NatToString(bytes / MiB) + "MB"
  }

  /** The printed size reads back as the whole number of units it names,
      and the unit is GB exactly when there is at least one gibibyte. */
  lemma FormatSizeReadsBack(bytes: nat)
    ensures var s := FormatSize(bytes);
      var unit := if bytes >= GiB then GiB else MiB;
      && |s| >= 3
      && s[|s| - 2..] == (if bytes >= GiB then "GB" else "MB")
      && exists q: nat :: ParseInt(s[..|s| - 2]) == Some(q) && q * unit <= bytes < (q + 1) * unit
  {
    var unit := if bytes >= GiB then GiB else MiB;
    var name := if bytes >= GiB then "GB" else "MB";
    FormatSizeUnit(bytes);
    WholeUnits(bytes, unit, name);
  }

  /** The unit FormatSize picks. */
  lemma FormatSizeUnit(bytes: nat)
    ensures FormatSize(bytes) == if bytes >= GiB then NatToString(bytes / GiB) + "GB"
                                 else NatToString(bytes / MiB) + "MB"
  {
    if bytes >= GiB {
      DivAtLeastOne(bytes, GiB);
    }
  }

  lemma DivAtLeastOne(b: nat, u: nat)
    requires u > 0 && b >= u
    ensures b / u >= 1
  {
  }

  /** A whole number of units followed by a two-letter unit name. */
  lemma WholeUnits(bytes: nat, unit: nat, name: string)
    requires unit > 0 && |name| == 2
    ensures var s := NatToString(bytes / unit) + name;
      && |s| >= 3 && s[|s| - 2..] == name
      && exists q: nat :: ParseInt(s[..|s| - 2]) == Some(q) && q * unit <= bytes < (q + 1) * unit
  {
    var q := bytes / unit;
    var s := NatToString(q) + name;
    assert s[..|s| - 2] == NatToString(q);
    assert s[|s| - 2..] == name;
    ParseNaturalString(q);
    assert IntToString(q) == NatToString(q);
  }

  /** The figures of the closing line (line 421), when it is printed. */
  function SavingsSummary(initial: nat, resulting: nat): (r: Option<(int, string, string)>)
    ensures r.Some? <==> SavingsPercent(initial, resulting) > 0
  {
    var p := SavingsPercent(initial, resulting);
    if p > 0 then Some((p, FormatSize(initial), FormatSize(resulting))) else None
  }

  // ---------------------------------------------------------------------
  // The batch
  // ---------------------------------------------------------------------

  /** The position in `order` of the first failed file from `from` on, if any. */
  function FirstFailed(outcomes: seq<Result<Encoded, Failure>>, order: seq<nat>, from: nat): (j: Option<nat>)
    requires IsCompletionOrder(order, |outcomes|) && from <= |order|
    ensures j.None? ==> forall k :: from <= k < |order| ==> outcomes[order[k]].Ok?
    ensures j.Some? ==> from <= j.value < |order| && outcomes[order[j.value]].Err?
    ensures j.Some? ==> forall k :: from <= k < j.value ==> outcomes[order[k]].Ok?
    decreases |order| - from
  {
    if from == |order| then None
    else if outcomes[order[from]].Err? then Some(from)
    else FirstFailed(outcomes, order, from + 1)
  }

  /** Every file finishes, so some file fails exactly when one of them
      fails in the completion order. */
  lemma FirstFailedIffSomeFails(outcomes: seq<Result<Encoded, Failure>>, order: seq<nat>)
    requires IsCompletionOrder(order, |outcomes|)
    ensures FirstFailed(outcomes, order, 0).None? <==> forall i :: 0 <= i < |outcomes| ==> outcomes[i].Ok?
  {
    if FirstFailed(outcomes, order, 0).None? {
      forall i | 0 <= i < |outcomes| ensures outcomes[i].Ok? {
        assert i in order;
        var k :| 0 <= k < |order| && order[k] == i;
      }
    }
  }

  /** A failure at position `j` with none before it is the first one. */
  lemma FirstFailedAt(outcomes: seq<Result<Encoded, Failure>>, order: seq<nat>, j: nat)
    requires IsCompletionOrder(order, |outcomes|)
    requires j < |order| && outcomes[order[j]].Err?
    requires forall k :: 0 <= k < j ==> outcomes[order[k]].Ok?
    ensures FirstFailed(outcomes, order, 0) == Some(j)
  {
    var f := FirstFailed(outcomes, order, 0);
    assert f.Some? && !(f.value < j) && !(j < f.value);
  }

  /** What the batch returns for the given per-file outcomes: the name
      slots when every file succeeded, else the first failure taken. */
  function BatchNames(outcomes: seq<Result<Encoded, Failure>>, order: seq<nat>): (r: Result<seq<Option<string>>, BatchFailure>)
    requires IsCompletionOrder(order, |outcomes|)
  {
    match FirstFailed(outcomes, order, 0)
    case None => Ok(SlotNames(outcomes))
    case Some(j) => Err(FileFailed(order[j], outcomes[order[j]].error))
  }

  /** Storing each result at its file's index makes the completion order
      irrelevant when every file succeeds: any two orders give the same
      list, the name slots in input order. Whether the batch fails does not
      depend on the order either; only which failure it reports does. */
  lemma CompletionOrderIrrelevant(outcomes: seq<Result<Encoded, Failure>>, o1: seq<nat>, o2: seq<nat>)
    requires IsCompletionOrder(o1, |outcomes|) && IsCompletionOrder(o2, |outcomes|)
    ensures BatchNames(outcomes, o1).Err? <==> BatchNames(outcomes, o2).Err?
    ensures BatchNames(outcomes, o1).Ok? ==>
      BatchNames(outcomes, o1) == BatchNames(outcomes, o2) == Ok(SlotNames(outcomes))
  {
    FirstFailedIffSomeFails(outcomes, o1);
    FirstFailedIffSomeFails(outcomes, o2);
  }

  /** The outcome of each file's run. */
  function FileOutcomes(cfg: Config, inputFiles: seq<string>, dirpath: string, pct: real,
                        worlds: seq<World>): (r: seq<Result<Encoded, Failure>>)
    requires |worlds| == |inputFiles|
    ensures |r| == |inputFiles|
  {
    seq(|inputFiles|, i requires 0 <= i < |inputFiles| =>
      EncodeFileRun(cfg, inputFiles[i], dirpath, pct, worlds[i]).outcome)
  }

  /** Lines 378-382: every file is submitted once, with the same share. */
  method RunFiles(cfg: Config, inputFiles: seq<string>, dirpath: string, pct: real, worlds: seq<World>)
    returns (outcomes: seq<Result<Encoded, Failure>>)
    requires |worlds| == |inputFiles|
    ensures outcomes == FileOutcomes(cfg, inputFiles, dirpath, pct, worlds)
  {
    outcomes := [];
    for i := 0 to |inputFiles|
      invariant outcomes == FileOutcomes(cfg, inputFiles[..i], dirpath, pct, worlds[..i])
    {
      var trace, outcome := EncodeSingleVideoFile(cfg, inputFiles[i], dirpath, pct, worlds[i]);
      outcomes := outcomes + [outcome];
    }
    assert inputFiles[..|inputFiles|] == inputFiles && worlds[..|worlds|] == worlds;
  }

  /** `encode_media_files`: plan the workers, run every file with its CPU
      share, collect the results in completion order and compute the
      savings summary. */
  method EncodeMediaFiles(cfg: Config, inputFiles: seq<string>, dirpath: string, maxWorkers: nat,
                          maxCpu: real, worlds: seq<World>, order: seq<nat>)
    returns (result: Result<seq<Option<string>>, BatchFailure>, summary: Option<(int, string, string)>)
    requires |worlds| == |inputFiles| && IsCompletionOrder(order, |inputFiles|)
    ensures WorkerCount(maxWorkers, |inputFiles|, cfg.outputCodec) == 0 ==> result == Err(NoWorkers)
    ensures WorkerCount(maxWorkers, |inputFiles|, cfg.outputCodec) > 0 ==>
      var pct := maxCpu / (WorkerCount(maxWorkers, |inputFiles|, cfg.outputCodec) as real);
      var outcomes := FileOutcomes(cfg, inputFiles, dirpath, pct, worlds);
      && result == BatchNames(outcomes, order)
      && (result.Ok? ==>
            summary == SavingsSummary(TotalSize(SlotInfos(outcomes), true), TotalSize(SlotInfos(outcomes), false)))
    ensures result.Err? ==> summary.None?
  {
    var workers := WorkerCount(maxWorkers, |inputFiles|, cfg.outputCodec);
    var share := PerFileCpu(maxCpu, workers);
    if share.Err? {
      return Err(NoWorkers), None;
    }
    var outcomes := RunFiles(cfg, inputFiles, dirpath, share.value, worlds);
    var names, infos, failure := CollectResults(outcomes, order);
    if failure.Some? {
      return Err(failure.value), None;
    }
    FirstFailedIffSomeFails(outcomes, order);
    result := Ok(names[..]);
    summary := SavingsSummary(TotalSize(infos[..], true), TotalSize(infos[..], false));
  }
}
