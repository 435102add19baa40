/**
 * The download manager of Multi-DL (multi_dl/download/manager.py): it
 * creates jobs, hands each job's `download` method to a thread pool, and
 * keeps the jobs and the pool's futures in two parallel lists.
 *
 * The thread pool is modelled by the FIFO list of work it has been handed;
 * the Qt signal `download_added_signal` by an append-only log of the jobs it
 * carried.
 */
module Manager {
  import opened Wrappers
  import DownloadJob

  const DefaultHomeDirectory: string := "~/Downloads/Multi-DL/"
  const DefaultTempDirectory: string := "~/Downloads/Multi-DL/.temp"

  /** The pool's `max_workers`. */
  const MaxWorkers: nat := 5

  /** What `executor.submit(job.download)` returns: a handle on that job's `download` call. */
  datatype Future = Future(job: DownloadJob.Download)

  /** The thread pool, seen as the FIFO list of the jobs whose `download` it was handed. */
  class Executor {
    const maxWorkers: nat
    var submitted: seq<DownloadJob.Download>

    constructor (maxWorkers: nat)
      ensures this.maxWorkers == maxWorkers && submitted == []
    {
      this.maxWorkers := maxWorkers;
      submitted := [];
    }

    method Submit(job: DownloadJob.Download) returns (f: Future)
      modifies this
      ensures submitted == old(submitted) + [job]
      ensures f.job == job
    {
      submitted := submitted + [job];
      f := Future(job);
    }
  }

  /** One `{url, title}` record of a batch file. */
  datatype Record = Record(url: string, title: Option<string>)

  class DownloadManager {
    var downloads: seq<DownloadJob.Download>
    var futures: seq<Future>
    const executor: Executor
    var homeDirectory: string
    var tempDirectory: string
    /** Every job emitted on `download_added_signal`, oldest first. */
    var added: seq<DownloadJob.Download>

    /**
     * The two lists run in parallel: the i-th future is the submission of the
     * i-th job; the pool was handed the jobs in the order the list records,
     * each job was announced once, and no job appears twice.
     */
    ghost predicate Valid()
      reads this, executor
    {
      |futures| == |downloads| &&
      (forall i :: 0 <= i < |downloads| ==> futures[i] == Future(downloads[i])) &&
      executor.submitted == downloads &&
      added == downloads &&
      forall i, j :: 0 <= i < j < |downloads| ==> downloads[i] != downloads[j]
    }

    constructor ()
      ensures Valid() && fresh(executor)
      ensures downloads == [] && futures == [] && added == []
      ensures executor.maxWorkers == MaxWorkers
      ensures homeDirectory == DefaultHomeDirectory && tempDirectory == DefaultTempDirectory
    {
      downloads := [];
      futures := [];
      executor := new Executor(MaxWorkers);
      homeDirectory := DefaultHomeDirectory;
      tempDirectory := DefaultTempDirectory;
      added := [];
    }

    /**
     * `add_download`: create a job, submit its `download` to the pool, record
     * the job and its future, and announce the job. The manager's directories
     * are not handed to the job, which keeps its own defaults.
     */
    method AddDownload(url: string, title: Option<string>)
      requires Valid()
      modifies this, executor
      ensures Valid()
      ensures |downloads| == |old(downloads)| + 1
      ensures downloads[..|old(downloads)|] == old(downloads)
      ensures var job := downloads[|downloads| - 1];
        fresh(job) && job.url == url && job.title == title &&
        job.homeDirectory == DownloadJob.DefaultHomeDirectory &&
        job.tempDirectory == DownloadJob.DefaultTempDirectory &&
        job.status == DownloadJob.Idle && job.events == [] && job.Valid()
      ensures added == old(added) + [downloads[|downloads| - 1]]
      ensures homeDirectory == old(homeDirectory) && tempDirectory == old(tempDirectory)
    {
      var download := new DownloadJob.Download(url, title);
      var future := executor.Submit(download);
      downloads := downloads + [download];
      futures := futures + [future];
      added := added + [download];
    }

    /**
     * The batch loop of the CSV and JSON menu actions: one `add_download`
     * per record, in file order.
     */
    method AddDownloads(records: seq<Record>)
      requires Valid()
      modifies this, executor
      ensures Valid()
      ensures |downloads| == |old(downloads)| + |records|
      ensures downloads[..|old(downloads)|] == old(downloads)
      ensures forall k :: 0 <= k < |records| ==>
                var job := downloads[|old(downloads)| + k];
                fresh(job) && job.url == records[k].url && job.title == records[k].title
      ensures homeDirectory == old(homeDirectory) && tempDirectory == old(tempDirectory)
    {
      var i := 0;
      while i < |records|
        invariant 0 <= i <= |records|
        invariant Valid()
        invariant |downloads| == |old(downloads)| + i
        invariant downloads[..|old(downloads)|] == old(downloads)
        invariant forall k :: 0 <= k < i ==>
                    var job := downloads[|old(downloads)| + k];
                    fresh(job) && job.url == records[k].url && job.title == records[k].title
        invariant homeDirectory == old(homeDirectory) && tempDirectory == old(tempDirectory)
      {
        ghost var before := downloads;
        AddDownload(records[i].url, records[i].title);
        assert downloads[..|before|] == before;
        assert forall k :: 0 <= k < |before| ==> downloads[k] == before[k];
        i := i + 1;
      }
    }
  }
}
