/** DownloadManager and DownloadThread as objects. What Prepare sets up is a starting state of
    the step machine, and everything a thread does to the shared state is a run of it. */
module DownloadManagers {
  import opened Bytes
  import opened Options
  import opened Sums
  import opened Parts
  import opened Download
  import opened DownloadTheorems
  import opened RecordFile

  /** totalProgress after the resume loop, in uint64_t arithmetic. */
  function Progress(ps: seq<Part>): (n: nat)
    ensures n < TWO64
  {
    if ps == [] then 0
    else
      var p := ps[|ps| - 1];
      (Progress(ps[..|ps| - 1]) + p.size - p.rest) % TWO64
  }

  lemma {:induction false} SumAppend(xs: seq<nat>, x: nat)
    ensures Sum(xs + [x]) == Sum(xs) + x
  {
    if xs == [] {
      assert xs + [x] == [x] && [x][1..] == [];
    } else {
      SumAppend(xs[1..], x);
      assert (xs + [x])[1..] == xs[1..] + [x];
    }
  }

  lemma {:induction false} ProgressIsDownloaded(ps: seq<Part>)
    requires forall i :: 0 <= i < |ps| ==> ps[i].rest <= ps[i].size
    requires Downloaded(ps) < TWO64
    ensures Progress(ps) == Downloaded(ps)
  {
    if ps != [] {
      var init, p := ps[..|ps| - 1], ps[|ps| - 1];
      assert GotList(ps) == GotList(init) + [p.Got() as nat];
      SumAppend(GotList(init), p.Got());
      ProgressIsDownloaded(init);
    }
  }

  /** The i-th part that the splitting loop makes: ids are uint32_t. */
  function WholePart(i: nat): Part { Part(i % TWO32, i * PART_SIZE, PART_SIZE, PART_SIZE) }

  lemma SplitResult(whole: seq<Part>, size: nat, rest: nat)
    requires forall i :: 0 <= i < |whole| ==> whole[i] == WholePart(i)
    requires |whole| * PART_SIZE + rest == size && rest < PART_SIZE
    ensures PartCount(size) == |whole| + if rest > 0 then 1 else 0
    ensures PartCount(size) <= TWO32 ==>
              Partition(size) == whole + if rest > 0 then [Part(|whole|, |whole| * PART_SIZE, rest, rest)] else []
  {
  }

  class DownloadManager {
    const job: Job
    var parts: seq<Part>
    var usingOffsets: seq<bool>
    var startParts: seq<nat>
    var totalProgress: int
    var partFile: seq<byte>
    var destFile: seq<byte>

    constructor (job: Job, dest: seq<byte>)
      ensures this.job == job && destFile == dest
    {
      this.job := job;
      destFile := dest;
      parts, usingOffsets, startParts, totalProgress, partFile := [], [], [], 0, [];
    }

    /** The shared fields are those of machine state s. */
    ghost predicate Shows(s: State)
      reads this
    {
      && s.job == job && s.parts == parts && s.using == usingOffsets
      && s.progress == totalProgress && s.dest == destFile && Save(s.records) == partFile
    }

    /** The splitting loop. */
    method Split(size: nat) returns (nPart: nat)
      modifies this`parts
      ensures |parts| == PartCount(size) && nPart == PartCount(size) % TWO32
      ensures PartCount(size) <= TWO32 ==> parts == Partition(size)
    {
      hide PartCount, Partition;
      parts := [];
      var curPos := 0;
      var rest := size;
      nPart := 0;
      while rest >= PART_SIZE
        invariant rest >= 0 && curPos + rest == size && curPos == |parts| * PART_SIZE && nPart == |parts| % TWO32
        invariant forall i :: 0 <= i < |parts| ==> parts[i] == WholePart(i)
      {
        assert WholePart(|parts|) == Part(nPart, curPos, PART_SIZE, PART_SIZE);
        parts := parts + [Part(nPart, curPos, PART_SIZE, PART_SIZE)];
        nPart := (nPart + 1) % TWO32;
        curPos := curPos + PART_SIZE;
        rest := rest - PART_SIZE;
      }
      SplitResult(parts, size, rest);
      if rest > 0 {
        parts := parts + [Part(nPart, curPos, rest, rest)];
        nPart := (nPart + 1) % TWO32;
      }
    }

    /** The resume loop: one record at a time. Its index is an int. */
    method LoadParts(nPart: nat)
      requires nPart < TWO31 && nPart * RECORD_SIZE <= |partFile|
      modifies this`parts, this`totalProgress
      ensures parts == Load(partFile)[..nPart] && totalProgress == Progress(parts)
    {
      parts := [];
      totalProgress := 0;
      for i := 0 to nPart
        invariant parts == Load(partFile)[..i] && totalProgress == Progress(parts)
      {
        var at := i * RECORD_SIZE;
        var p := DecodePart(partFile[at..at + RECORD_SIZE]);
        assert (parts + [p])[..i] == parts;
        parts := parts + [p];
        totalProgress := (totalProgress + p.size - p.rest) % TWO64;
      }
    }

    /** downloadWait up to starting the threads; `record` is what an existing .dlinfo holds. */
    method Prepare(record: Option<seq<byte>>, threads: nat)
      requires job.Ok()
      modifies this
      ensures record.None? ==> Shows(Fresh(job, old(destFile), threads))
      ensures forall ps: seq<Part> :: record == Some(Save(ps)) && Layout(ps, |job.src|) && |ps| < TWO31 ==>
                Shows(Resume(job, ps, old(destFile), threads))
      ensures record.Some? && |record.value| / RECORD_SIZE < TWO31 ==>
                && parts == Load(record.value) && totalProgress == Progress(parts)
                && partFile == record.value && destFile == old(destFile) && usingOffsets == seq(|parts|, _ => false)
      ensures |startParts| == threads &&
              forall t :: 0 <= t < threads ==> startParts[t] == StartPart(t, |usingOffsets|, threads)
    {
      hide Save, Load, Progress, Downloaded, Layout, PartCount, Partition, Allocate, StartPart, Shows, Resume, Fresh;
      totalProgress := 0;
      parts := [];
      ghost var dest := destFile;
      var nPart: nat;
      if record.Some? {
        partFile := record.value;
        nPart := |partFile| / RECORD_SIZE % TWO32;
        WholeRecords(|partFile|);
        if nPart < TWO31 {
          LoadParts(nPart);
          AllRecords(partFile);
        } else {
          // the loop's int index overflows: nothing can be said
          var unknown: seq<Part> := *;
          parts := unknown;
        }
      } else {
        destFile := Allocate(destFile, |job.src|);
        nPart := Split(|job.src|);
        partFile := Save(parts)[..nPart * RECORD_SIZE];
      }
      usingOffsets := seq(nPart, _ => false);
      var starts: seq<nat> := [];
      for i := 0 to threads
        invariant |starts| == i && forall t :: 0 <= t < i ==> starts[t] == StartPart(t, nPart, threads)
      {
        starts := starts + [StartPart(i, nPart, threads)];
      }
      startParts := starts;
      if record.Some? {
        forall ps: seq<Part> | record == Some(Save(ps)) && Layout(ps, |job.src|) && |ps| < TWO31
          ensures Shows(Resume(job, ps, dest, threads))
        {
          Reloaded(job, ps);
          ShowsResume(ps, dest, threads);
        }
      } else {
        SavedWhole(job);
        ShowsFresh(dest, threads);
      }
    }

    lemma ShowsResume(ps: seq<Part>, dest: seq<byte>, threads: nat)
      requires parts == ps && usingOffsets == seq(|ps|, _ => false) && partFile == Save(ps)
      requires totalProgress == Downloaded(ps) && destFile == dest
      ensures Shows(Resume(job, ps, dest, threads))
    {
      hide Save, Downloaded;
    }

    lemma ShowsFresh(dest: seq<byte>, threads: nat)
      requires parts == Partition(|job.src|) && usingOffsets == seq(|parts|, _ => false) && partFile == Save(parts)
      requires totalProgress == 0 && destFile == Allocate(dest, |job.src|)
      ensures Shows(Fresh(job, dest, threads))
    {
      hide Save, Partition, Allocate;
    }
  }

  lemma WholeRecords(bytes: nat)
    ensures bytes / RECORD_SIZE % TWO32 * RECORD_SIZE <= bytes
  {
  }

  lemma AllRecords(f: seq<byte>)
    ensures |f| / RECORD_SIZE < TWO32 ==>
              |f| / RECORD_SIZE % TWO32 == |f| / RECORD_SIZE && Load(f)[..|f| / RECORD_SIZE] == Load(f)
  {
  }

  lemma SavedWhole(job: Job)
    requires job.Ok()
    ensures PartCount(|job.src|) % TWO32 == PartCount(|job.src|) == |Partition(|job.src|)|
    ensures Save(Partition(|job.src|))[..PartCount(|job.src|) * RECORD_SIZE] == Save(Partition(|job.src|))
  {
    CountFitsIff(|job.src|);
  }

  lemma LayoutProgress(ps: seq<Part>, total: nat)
    requires total <= MAX_SIZE && Layout(ps, total)
    ensures Progress(ps) == Downloaded(ps)
  {
    hide Progress, Downloaded, PartCount;
    GotPlusRest(ps, total);
    ProgressIsDownloaded(ps);
  }

  /** What a .dlinfo file gives back, count and progress included. */
  lemma Reloaded(job: Job, ps: seq<Part>)
    requires job.Ok() && Layout(ps, |job.src|)
    ensures |Save(ps)| / RECORD_SIZE % TWO32 == |ps|
    ensures |Load(Save(ps))| == |ps| && Load(Save(ps))[..|ps|] == ps
    ensures Progress(ps) == Downloaded(ps)
  {
    hide Save, Load, Progress, Downloaded, Layout, PartCount, Storable;
    LayoutProgress(ps, |job.src|);
    LayoutStorable(ps, |job.src|);
    SaveLoadWhole(ps);
    CountSmall(ps, |job.src|);
    WholeSlices(Save(ps), ps);
  }

  lemma CountSmall(ps: seq<Part>, total: nat)
    requires total <= MAX_SIZE && Layout(ps, total)
    ensures RECORD_SIZE * |ps| / RECORD_SIZE % TWO32 == |ps|
  {
    CountFitsIff(total);
    CountBack(|ps|);
  }
}
