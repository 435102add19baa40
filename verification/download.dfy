/**
 * One download job of Multi-DL (multi_dl/download/download.py): its status
 * machine, the engine configuration it builds, the progress hook that turns
 * the engine's raw byte counts into percentages, and its display name.
 *
 * The Qt signal `info_updated_signal` is modelled as an append-only log of
 * the `(key, value)` tuples the job emits; the retrieval engine and the
 * directory creation are modelled by an `EngineRun` value that says what the
 * outside world did during one `_download` call.
 */
module DownloadJob {
  import opened Wrappers

  /** Default directories (the source expands `~`; here they are plain strings). */
  const DefaultHomeDirectory: string := "~/Downloads/Multi-DL/"
  const DefaultTempDirectory: string := "~/Downloads/Multi-DL/.temp"

  /** The engine's default output template, and the suffix every template ends with. */
  const DefaultOuttmpl: string := "%(title)s.%(ext)s"
  const ExtSuffix: string := ".%(ext)s"

  /** The `Status` enum. `Paused` exists but no operation ever sets it. */
  datatype Status = Idle | Downloading | Paused | Completed | Failed
  {
    /** The enum member's `name`, the text carried by a status event. */
    function Name(): string
    {
      match this
      case Idle => "IDLE"
      case Downloading => "DOWNLOADING"
      case Paused => "PAUSED"
      case Completed => "COMPLETED"
      case Failed => "FAILED"
    }

    predicate IsTerminal()
    {
      this == Completed || this == Failed
    }
  }

  /** Distinct statuses carry distinct names, so a status event identifies its status. */
  lemma NameInjective(a: Status, b: Status)
    ensures a.Name() == b.Name() ==> a == b
  {
  }

  /**
   * One emission of `info_updated_signal`: `('Status', status.name)` or
   * `('Progress', n)`. A status event records the status itself; by
   * `NameInjective` that is the same information as its name.
   */
  datatype Info = StatusInfo(status: Status) | ProgressInfo(progress: int)

  /** The status of the last status event of a log, if there is one. */
  function LastStatus(log: seq<Info>): Option<Status>
  {
    if log == [] then None
    else
      match log[|log| - 1]
      case StatusInfo(s) => Some(s)
      case ProgressInfo(_) => LastStatus(log[..|log| - 1])
  }

  /**
   * `LastStatus` finds nothing exactly when the log holds only progress
   * events; otherwise it names a status event followed only by progress events.
   */
  lemma {:induction false} LastStatusFindsLast(log: seq<Info>)
    ensures LastStatus(log).None? <==> forall i :: 0 <= i < |log| ==> log[i].ProgressInfo?
    ensures LastStatus(log).Some? ==>
              exists i :: 0 <= i < |log| && log[i] == StatusInfo(LastStatus(log).value) &&
                          forall j :: i < j < |log| ==> log[j].ProgressInfo?
  {
    if log != [] {
      var earlier := log[..|log| - 1];
      assert forall i :: 0 <= i < |earlier| ==> earlier[i] == log[i];
      if log[|log| - 1].ProgressInfo? {
        LastStatusFindsLast(earlier);
      }
    }
  }

  /** Appending progress events never changes which status was reported last. */
  lemma {:induction false} LastStatusSkipsProgress(log: seq<Info>, extra: seq<Info>)
    requires forall i :: 0 <= i < |extra| ==> extra[i].ProgressInfo?
    ensures LastStatus(log + extra) == LastStatus(log)
  {
    if extra != [] {
      var shorter := extra[..|extra| - 1];
      assert (log + extra)[|log + extra| - 1] == extra[|extra| - 1];
      assert (log + extra)[..|log + extra| - 1] == log + shorter;
      assert extra[|extra| - 1].ProgressInfo?;
      assert LastStatus(log + extra) == LastStatus(log + shorter);
      LastStatusSkipsProgress(log, shorter);
    } else {
      assert log + extra == log;
    }
  }

  // ---------------------------------------------------------------- options

  /** Python truthiness of the optional title: present and non-empty. */
  predicate IsTruthy(title: Option<string>)
  {
    title.Some? && title.value != ""
  }

  /** The `outtmpl` option: the title followed by the extension placeholder, or the engine default. */
  function OutputTemplate(title: Option<string>): (t: string)
    ensures |t| > |ExtSuffix| && t[|t| - |ExtSuffix|..] == ExtSuffix
    ensures IsTruthy(title) ==> t[..|t| - |ExtSuffix|] == title.value
    ensures !IsTruthy(title) ==> t == DefaultOuttmpl
  {
    if IsTruthy(title) then title.value + ExtSuffix else DefaultOuttmpl
  }

  /** Distinct truthy titles never share an output template. */
  lemma {:induction false} OutputTemplateInjective(a: Option<string>, b: Option<string>)
    requires IsTruthy(a) && IsTruthy(b) && a != b
    ensures OutputTemplate(a) != OutputTemplate(b)
  {
  }

  datatype Paths = Paths(home: string, temp: string)

  /** A progress hook handed to the engine: the bound `_progress_hook` of a job. */
  datatype Hook = ProgressHookOf(job: Download)

  /** The engine configuration dictionary. */
  datatype Options = Options(paths: Paths, outtmpl: string, progressHooks: seq<Hook>,
                             quiet: bool, noprogress: bool)

  // --------------------------------------------------------------- progress

  function Abs(x: int): nat
  {
    if x < 0 then -x else x
  }

  lemma DivBounds(a: nat, b: nat)
    requires b > 0
    ensures 0 <= a / b && (a / b) * b <= a < (a / b + 1) * b
  {
    assert a == (a / b) * b + a % b;
  }

  /** Python's `int(...)` of a quotient: division truncated toward zero. */
  function TruncDiv(n: int, d: int): (q: int)
    requires d != 0
    ensures Abs(q) * Abs(d) <= Abs(n) < (Abs(q) + 1) * Abs(d)
    ensures q > 0 ==> (n < 0 <==> d < 0)
    ensures q < 0 ==> (n < 0 <==> d > 0)
  {
    var m := Abs(n) / Abs(d);
    var q := if (n < 0) == (d < 0) then m else -m;
    TruncDivBounds(n, d, m, q);
    q
  }

  lemma TruncDivBounds(n: int, d: int, m: int, q: int)
    requires d != 0 && m == Abs(n) / Abs(d)
    requires q == m || q == -m
    ensures Abs(q) * Abs(d) <= Abs(n) < (Abs(q) + 1) * Abs(d)
  {
    DivBounds(Abs(n), Abs(d));
    assert Abs(q) == m;
  }

  /** The percentage `int(downloaded / total * 100)`, in exact integer arithmetic. */
  function Percent(downloaded: int, total: int): (p: int)
    requires total != 0
    ensures 0 <= downloaded && 0 < total ==>
              p * total <= downloaded * 100 < (p + 1) * total
  {
    TruncDiv(downloaded * 100, total)
  }

  lemma MulCancel(a: int, b: int, t: int)
    requires t > 0 && a * t < (b + 1) * t
    ensures a <= b
  {
  }

  /** For a download in progress (0 <= downloaded <= total, total > 0) the percentage is in [0, 100]. */
  lemma PercentInRange(downloaded: int, total: int)
    requires 0 <= downloaded <= total && 0 < total
    ensures 0 <= Percent(downloaded, total) <= 100
  {
    var p := Percent(downloaded, total);
    MulCancel(-1, p, total);
    assert p * total <= 100 * total;
    MulCancel(p, 100, total);
  }

  /** For a fixed total, more bytes downloaded never means a smaller percentage. */
  lemma PercentMonotone(a: int, b: int, total: int)
    requires 0 <= a <= b && 0 < total
    ensures Percent(a, total) <= Percent(b, total)
  {
    var pa, pb := Percent(a, total), Percent(b, total);
    assert pa * total <= a * 100 <= b * 100 < (pb + 1) * total;
    MulCancel(pa, pb, total);
  }

  /** The percentage reaches 100 exactly when every byte has been downloaded. */
  lemma PercentFullIff(downloaded: int, total: int)
    requires 0 <= downloaded <= total && 0 < total
    ensures Percent(downloaded, total) == 100 <==> downloaded == total
  {
    var p := Percent(downloaded, total);
    if p == 100 {
      assert 100 * total <= downloaded * 100;
    }
    if downloaded == total {
      PercentInRange(downloaded, total);
      assert (p + 1) * total > 100 * total;
      MulCancel(99, p, total);
    }
  }

  /** 512000 of 1000000 bytes is reported as 51 percent. */
  lemma PercentExample()
    ensures Percent(512000, 1000000) == 51
  {
  }

  /** The fields of the dictionary the engine passes to a progress hook. */
  datatype ProgressReport = ProgressReport(totalBytes: Option<int>, downloadedBytes: Option<int>)

  /** What one call of the progress hook does: nothing, emit a percentage, or raise `ZeroDivisionError`. */
  datatype HookResult = NoEvent | Emit(progress: int) | DivisionByZero

  function HookResultOf(d: ProgressReport): (r: HookResult)
    ensures r == NoEvent <==> d.totalBytes == None || d.downloadedBytes == None
    ensures r == DivisionByZero <==> d.totalBytes == Some(0) && d.downloadedBytes != None
    ensures r.Emit? ==> d.totalBytes.value != 0 &&
                        r.progress == Percent(d.downloadedBytes.value, d.totalBytes.value)
  {
    match (d.totalBytes, d.downloadedBytes)
    case (Some(total), Some(downloaded)) =>
      if total == 0 then DivisionByZero else Emit(Percent(downloaded, total))
    case _ => NoEvent
  }

  /** The events one hook call appends to the log. */
  function Emitted(r: HookResult): (e: seq<Info>)
    ensures |e| <= 1
    ensures |e| == 1 <==> r.Emit?
    ensures forall i :: 0 <= i < |e| ==> e[i].ProgressInfo? && r.Emit? && e[i].progress == r.progress
  {
    if r.Emit? then [ProgressInfo(r.progress)] else []
  }

  /** True when one of the reports makes the hook raise. */
  predicate HookRaises(reports: seq<ProgressReport>)
  {
    exists i :: 0 <= i < |reports| && HookResultOf(reports[i]) == DivisionByZero
  }

  /**
   * The events the hook emits while the engine delivers `reports` in order;
   * the first report that makes the hook raise ends the engine call.
   */
  function HookTrace(reports: seq<ProgressReport>): seq<Info>
  {
    if reports == [] then []
    else
      var r := HookResultOf(reports[0]);
      if r == DivisionByZero then [] else Emitted(r) + HookTrace(reports[1..])
  }

  /** After a run of non-raising reports, one more report makes the run raise exactly when it raises itself. */
  lemma HookRaisesSnoc(reports: seq<ProgressReport>, d: ProgressReport)
    requires !HookRaises(reports)
    ensures HookRaises(reports + [d]) <==> HookResultOf(d) == DivisionByZero
  {
    assert (reports + [d])[|reports|] == d;
    if HookRaises(reports + [d]) {
      var k :| 0 <= k < |reports + [d]| && HookResultOf((reports + [d])[k]) == DivisionByZero;
      assert k == |reports|;
    }
  }

  /** A run of reports none of which raises stays so without its first report. */
  lemma NoRaiseTail(reports: seq<ProgressReport>)
    requires reports != [] && !HookRaises(reports)
    ensures !HookRaises(reports[1..])
  {
    forall i | 0 <= i < |reports[1..]|
      ensures HookResultOf(reports[1..][i]) != DivisionByZero
    {
      assert reports[1..][i] == reports[i + 1];
    }
  }

  /** One more report after a run of non-raising reports adds exactly what its hook call emits. */
  lemma {:induction false} HookTraceSnoc(reports: seq<ProgressReport>, d: ProgressReport)
    requires !HookRaises(reports)
    ensures HookTrace(reports + [d]) == HookTrace(reports) + Emitted(HookResultOf(d))
  {
    if reports != [] {
      var longer := reports + [d];
      assert longer[0] == reports[0];
      assert longer[1..] == reports[1..] + [d];
      NoRaiseTail(reports);
      HookTraceSnoc(reports[1..], d);
    }
  }

  /** Once the hook has raised, later reports are never delivered. */
  lemma {:induction false} HookTraceAfterRaise(reports: seq<ProgressReport>, more: seq<ProgressReport>)
    requires HookRaises(reports)
    ensures HookRaises(reports + more)
    ensures HookTrace(reports + more) == HookTrace(reports)
  {
    var k :| 0 <= k < |reports| && HookResultOf(reports[k]) == DivisionByZero;
    assert (reports + more)[k] == reports[k];
    assert (reports + more)[0] == reports[0];
    if HookResultOf(reports[0]) != DivisionByZero {
      assert k > 0;
      assert reports[1..][k - 1] == reports[k];
      assert (reports + more)[1..] == reports[1..] + more;
      HookTraceAfterRaise(reports[1..], more);
    }
  }

  /** The report that makes the hook raise is the last one delivered. */
  lemma HookTraceStopsAt(reports: seq<ProgressReport>, i: nat)
    requires i < |reports| && !HookRaises(reports[..i])
    requires HookResultOf(reports[i]) == DivisionByZero
    ensures HookRaises(reports)
    ensures HookTrace(reports) == HookTrace(reports[..i])
  {
    var before, upto, rest := reports[..i], reports[..i + 1], reports[i + 1..];
    assert upto == before + [reports[i]];
    HookTraceSnoc(before, reports[i]);
    HookRaisesSnoc(before, reports[i]);
    assert HookRaises(upto) && HookTrace(upto) == HookTrace(before);
    assert reports == upto + rest;
    HookTraceAfterRaise(upto, rest);
  }

  /** The hook only ever emits progress events. */
  lemma {:induction false} HookTraceOnlyProgress(reports: seq<ProgressReport>)
    ensures forall i :: 0 <= i < |HookTrace(reports)| ==> HookTrace(reports)[i].ProgressInfo?
  {
    if reports != [] && HookResultOf(reports[0]) != DivisionByZero {
      HookTraceOnlyProgress(reports[1..]);
    }
  }

  /** A report of a download in progress. */
  predicate InProgress(d: ProgressReport)
  {
    d.totalBytes.Some? && d.downloadedBytes.Some? &&
    0 <= d.downloadedBytes.value <= d.totalBytes.value && 0 < d.totalBytes.value
  }

  /** A report that either lacks a byte count (the hook skips it) or describes a download in progress. */
  predicate Plausible(d: ProgressReport)
  {
    d.totalBytes.None? || d.downloadedBytes.None? || InProgress(d)
  }

  /**
   * When every report either lacks a byte count or describes a download in
   * progress, every emitted percentage is in [0, 100].
   */
  lemma {:induction false} HookTraceInRange(reports: seq<ProgressReport>)
    requires forall i :: 0 <= i < |reports| ==> Plausible(reports[i])
    ensures forall i :: 0 <= i < |HookTrace(reports)| ==>
              HookTrace(reports)[i].ProgressInfo? && 0 <= HookTrace(reports)[i].progress <= 100
  {
    if reports != [] {
      var d := reports[0];
      if InProgress(d) {
        PercentInRange(d.downloadedBytes.value, d.totalBytes.value);
      }
      HookTraceInRange(reports[1..]);
    }
  }

  // ------------------------------------------------------------ one attempt

  /**
   * What the outside world does during one `_download` call: whether each
   * `os.makedirs` succeeds, the progress dictionaries the engine passes to
   * the hook (in order), and whether the engine call itself returns normally
   * once those have been delivered.
   */
  datatype EngineRun = EngineRun(homeCreated: bool, tempCreated: bool,
                                 reports: seq<ProgressReport>, engineSucceeds: bool)

  /** True when an exception escapes `_download`. */
  predicate StepRaises(run: EngineRun)
  {
    !run.homeCreated || !run.tempCreated || HookRaises(run.reports) || !run.engineSucceeds
  }

  /** The events emitted during `_download`: the hook's, if the engine was reached. */
  function StepEvents(run: EngineRun): seq<Info>
  {
    if run.homeCreated && run.tempCreated then HookTrace(run.reports) else []
  }

  /** The status `download()` ends in. */
  function FinalStatus(run: EngineRun): (s: Status)
    ensures s.IsTerminal()
    ensures s == Completed <==> !StepRaises(run)
  {
    if StepRaises(run) then Failed else Completed
  }

  /** Everything one call of `download()` emits. */
  function RunTrace(run: EngineRun): seq<Info>
  {
    [StatusInfo(Downloading)] + StepEvents(run) + [StatusInfo(FinalStatus(run))]
  }

  /**
   * The shape promised for one attempt: `DOWNLOADING` first, exactly one
   * terminal status last, and only progress events in between.
   */
  predicate IsAttemptTrace(t: seq<Info>)
  {
    |t| >= 2 &&
    t[0] == StatusInfo(Downloading) &&
    (t[|t| - 1] == StatusInfo(Completed) || t[|t| - 1] == StatusInfo(Failed)) &&
    forall i :: 0 < i < |t| - 1 ==> t[i].ProgressInfo?
  }

  lemma RunTraceIsAttemptTrace(run: EngineRun)
    ensures IsAttemptTrace(RunTrace(run))
  {
    var t := RunTrace(run);
    HookTraceOnlyProgress(run.reports);
    forall i | 0 < i < |t| - 1
      ensures t[i].ProgressInfo?
    {
      assert t[i] == StepEvents(run)[i - 1];
    }
  }

  /**
   * If every report either lacks a byte count or describes a download in
   * progress, every progress event of the attempt is in [0, 100].
   */
  lemma RunTraceProgressInRange(run: EngineRun)
    requires forall i :: 0 <= i < |run.reports| ==> Plausible(run.reports[i])
    ensures forall i :: 0 <= i < |RunTrace(run)| && RunTrace(run)[i].ProgressInfo? ==>
              0 <= RunTrace(run)[i].progress <= 100
  {
    var t := RunTrace(run);
    HookTraceInRange(run.reports);
    forall i | 0 < i < |t| - 1
      ensures t[i] == StepEvents(run)[i - 1]
    {
    }
  }

  // -------------------------------------------------------------- the job

  class Download {
    const url: string
    const title: Option<string>
    const homeDirectory: string
    const tempDirectory: string

    var status: Status
    /** Every tuple emitted on `info_updated_signal`, oldest first. */
    var events: seq<Info>

    /** The status field always agrees with the last status event emitted. */
    ghost predicate Valid()
      reads this
    {
      match LastStatus(events)
      case None => status == Idle
      case Some(s) => s == status
    }

    constructor (url: string, title: Option<string>)
      ensures this.url == url && this.title == title
      ensures homeDirectory == DefaultHomeDirectory && tempDirectory == DefaultTempDirectory
      ensures status == Idle && events == []
      ensures Valid()
    {
      this.url := url;
      this.title := title;
      homeDirectory := DefaultHomeDirectory;
      tempDirectory := DefaultTempDirectory;
      status := Idle;
      events := [];
    }

    /** `_set_status`: record the new status, then announce its name. */
    method SetStatus(s: Status)
      modifies this`status, this`events
      ensures status == s
      ensures events == old(events) + [StatusInfo(s)]
      ensures Valid()
    {
      status := s;
      events := events + [StatusInfo(s)];
    }

    /** `_progress_hook`: emit the percentage, emit nothing, or raise (reported as `raised`). */
    method ProgressHook(d: ProgressReport) returns (raised: bool)
      requires Valid()
      modifies this`events
      ensures Valid()
      ensures raised <==> d.totalBytes == Some(0) && d.downloadedBytes != None
      ensures events == old(events) + Emitted(HookResultOf(d))
    {
      var r := HookResultOf(d);
      if r == DivisionByZero {
        return true;
      }
      LastStatusSkipsProgress(events, Emitted(r));
      events := events + Emitted(r);
      raised := false;
    }

    /**
     * `_download`: create both directories, then run the engine configured
     * with `YtDlpOptions()`; the engine calls the progress hook once per
     * report, in order. `raised` says whether an exception escapes.
     */
    method RunStep(run: EngineRun) returns (raised: bool)
      requires Valid()
      modifies this`events
      ensures Valid()
      ensures raised == StepRaises(run)
      ensures events == old(events) + StepEvents(run)
    {
      if !run.homeCreated || !run.tempCreated {
        return true;
      }
      var reports := run.reports;
      var i := 0;
      while i < |reports|
        invariant 0 <= i <= |reports|
        invariant Valid()
        invariant !HookRaises(reports[..i])
        invariant events == old(events) + HookTrace(reports[..i])
      {
        var d := reports[i];
        assert reports[..i + 1] == reports[..i] + [d];
        HookTraceSnoc(reports[..i], d);
        HookRaisesSnoc(reports[..i], d);
        var hookRaised := ProgressHook(d);
        if hookRaised {
          HookTraceStopsAt(reports, i);
          return true;
        }
        i := i + 1;
      }
      assert reports[..i] == reports;
      raised := !run.engineSucceeds;
    }

    /**
     * `download()`: announce `DOWNLOADING`, attempt the download once, and
     * end in `COMPLETED` or, when any exception escaped, `FAILED`. The
     * exception is swallowed: nothing is propagated to the caller.
     */
    method Download(run: EngineRun)
      requires Valid()
      modifies this`status, this`events
      ensures Valid()
      ensures status == FinalStatus(run)
      ensures events == old(events) + RunTrace(run)
    {
      SetStatus(Downloading);
      ghost var started := events;
      var raised := RunStep(run);
      ghost var attempted := events;
      if raised {
        SetStatus(Failed);
      } else {
        SetStatus(Completed);
      }
      assert events == attempted + [StatusInfo(FinalStatus(run))];
    }

    /** `_yt_dlp_options`: the engine configuration built from this job's fields. */
    function YtDlpOptions(): (o: Options)
      ensures o.paths.home == homeDirectory && o.paths.temp == tempDirectory
      ensures o.quiet && o.noprogress
      ensures o.progressHooks == [ProgressHookOf(this)]
      ensures IsTruthy(title) ==> o.outtmpl == title.value + ExtSuffix
      ensures !IsTruthy(title) ==> o.outtmpl == DefaultOuttmpl
    {
      Options(Paths(homeDirectory, tempDirectory), OutputTemplate(title),
              [ProgressHookOf(this)], true, true)
    }

    /** `__str__`: the title when it is truthy, otherwise the URL. */
    function Str(): (s: string)
      ensures s == url || title == Some(s)
      ensures IsTruthy(title) ==> s == title.value
      ensures s == "" <==> !IsTruthy(title) && url == ""
    {
      if IsTruthy(title) then title.value else url
    }

    /** A job with a truthy title saves to a file named after the text it displays. */
    lemma TemplateNamesDisplay()
      ensures IsTruthy(title) ==> YtDlpOptions().outtmpl == Str() + ExtSuffix
      ensures !IsTruthy(title) ==> Str() == url && YtDlpOptions().outtmpl == DefaultOuttmpl
    {
    }
  }
}
