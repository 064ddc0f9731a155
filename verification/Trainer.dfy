/** The training loop with timed checkpoints, and what crashes and resumptions do to it. One batch is
    an uninterpreted deterministic step on the model and optimizer state; saving a file is atomic;
    clock readings are inputs. */
module Training {
  import opened ClusterTypes

  /** The contents of a checkpoint file. Files are named by their epoch label. */
  datatype Checkpoint<S> = Checkpoint(epoch: int, state: S)

  /** What stays the same during one session. */
  datatype Job = Job(epochs: int, batches: nat, interval: real, main: bool)

  /** Model and optimizer, checkpoint directory, time of the last save. */
  datatype Progress<S> = Progress(state: S, files: map<int, Checkpoint<S>>, last: real)

  /** Two readings of the clock at the end of an epoch: before the interval test, and after a save. */
  datatype Reading = Reading(check: real, saved: real)

  // ---------- The uninterrupted run ----------

  function Batches<S>(step: (int, nat, S) -> S, e: int, b: nat, s: S): S {
    if b == 0 then s else step(e, b - 1, Batches(step, e, b - 1, s))
  }

  /** The state after epochs `0 .. n - 1` without any interruption. */
  function Fold<S>(step: (int, nat, S) -> S, len: nat, n: nat, s: S): S {
    if n == 0 then s else Batches(step, n - 1, len, Fold(step, len, n - 1, s))
  }

  // ---------- The loop ----------

  function Save<S>(job: Job, p: Progress<S>, e: int, now: real): Progress<S> {
    if job.main then Progress(p.state, p.files[e := Checkpoint(e, p.state)], now) else p
  }

  function AfterEpoch<S>(job: Job, step: (int, nat, S) -> S, p: Progress<S>, e: int, r: Reading): Progress<S> {
    var p' := p.(state := Batches(step, e, job.batches, p.state));
    if r.check - p'.last >= job.interval then Save(job, p', e, r.saved) else p'
  }

  /** Epochs `begin .. end - 1`; the reading of epoch `e` is number `e - begin`. */
  function AfterEpochs<S>(
      job: Job, step: (int, nat, S) -> S, p: Progress<S>, begin: int, end: int, clock: seq<Reading>): Progress<S>
    requires begin <= end && end - begin <= |clock|
    decreases end - begin
  {
    if begin == end then p
    else AfterEpoch(job, step, AfterEpochs(job, step, p, begin, end - 1, clock), end - 1, clock[end - 1 - begin])
  }

  /** Where the loop stops when it starts at `begin`. */
  function Stop(job: Job, begin: int): int { if begin < job.epochs then job.epochs else begin }

  function Trained<S>(job: Job, step: (int, nat, S) -> S, p: Progress<S>, begin: int, clock: seq<Reading>): Progress<S>
    requires Stop(job, begin) - begin < |clock|
  {
    var end := Stop(job, begin);
    Save(job, AfterEpochs(job, step, p, begin, end, clock), job.epochs - 1, clock[end - begin].saved)
  }

  /** The global steps logged by batches `0 .. b - 1` of an epoch that begins after step `base`:
      every tenth batch logs, and steps count from 1. */
  function LogPoints(base: int, b: nat): seq<int> {
    if b == 0 then [] else LogPoints(base, b - 1) + (if (b - 1) % 10 == 0 then [base + b] else [])
  }

  function LogAll(begin: int, end: int, len: nat): seq<int>
    requires begin <= end
    decreases end - begin
  {
    if begin == end then [] else LogAll(begin, end - 1, len) + LogPoints((end - 1) * len, len)
  }

  class DDPTrainer<S> {
    const job: Job
    const step: (int, nat, S) -> S
    var state: S
    var files: map<int, Checkpoint<S>>
    var lastCheckpointTime: real
    var currentEpoch: int
    var logged: seq<int>

    constructor (job: Job, step: (int, nat, S) -> S, state: S, files: map<int, Checkpoint<S>>, now: real)
      ensures this.job == job && this.step == step && View() == Progress(state, files, now)
          && currentEpoch == 0 && logged == []
    {
      this.job, this.step, this.state, this.files := job, step, state, files;
      lastCheckpointTime, currentEpoch, logged := now, 0, [];
    }

    ghost function View(): Progress<S>
      reads this
    {
      Progress(state, files, lastCheckpointTime)
    }

    /** Loads what there is at the given path, in the checkpoint directory or elsewhere. A missing file
        leaves everything as it is. */
    method LoadCheckpoint(file: Option<Checkpoint<S>>)
      modifies this`state, this`currentEpoch
      ensures file.Some? ==> state == file.value.state && currentEpoch == file.value.epoch + 1
      ensures file.None? ==> state == old(state) && currentEpoch == old(currentEpoch)
    {
      if file.None? {
        return;
      }
      state := file.value.state;
      currentEpoch := file.value.epoch + 1;
    }

    method SaveCheckpoint(e: int, now: real)
      modifies this`files, this`lastCheckpointTime
      ensures View() == Save(job, old(View()), e, now)
    {
      if !job.main {
        return;
      }
      files := files[e := Checkpoint(e, state)];
      lastCheckpointTime := now;
    }

    /** The batches of one epoch. */
    method TrainEpoch(epoch: int)
      modifies this`state, this`logged
      ensures state == Batches(step, epoch, job.batches, old(state))
      ensures logged == old(logged) + LoggedIn(epoch)
    {
      var globalStep := epoch * job.batches;
      ghost var base := globalStep;
      for batch := 0 to job.batches
        invariant globalStep == base + batch
        invariant state == Batches(step, epoch, batch, old(state))
        invariant logged == old(logged) + (if job.main then LogPoints(base, batch) else [])
      {
        state := step(epoch, batch, state);
        globalStep := globalStep + 1;
        if job.main && batch % 10 == 0 {
          logged := logged + [globalStep];
        }
      }
    }

    /** Runs the remaining epochs and saves the final checkpoint. An empty loader raises at the end of
        the first epoch, where the average loss is computed, before anything is saved. */
    method Train(clock: seq<Reading>) returns (ok: bool)
      requires Stop(job, currentEpoch) - currentEpoch < |clock|
      modifies this`state, this`files, this`lastCheckpointTime, this`logged
      ensures ok <==> job.batches > 0 || currentEpoch >= job.epochs
      ensures ok ==> View() == Trained(job, step, old(View()), currentEpoch, clock)
      ensures ok ==> logged == old(logged) + Logged(currentEpoch, Stop(job, currentEpoch))
      ensures !ok ==> View() == old(View()) && logged == old(logged)
    {
      ghost var p0, log0 := View(), logged;
      var begin := currentEpoch;
      var epoch := begin;
      while epoch < job.epochs
        invariant begin <= epoch <= Stop(job, begin)
        invariant epoch > begin ==> job.batches > 0
        invariant View() == AfterEpochs(job, step, p0, begin, epoch, clock)
        invariant logged == log0 + Logged(begin, epoch)
      {
        ghost var p := View();
        TrainEpoch(epoch);
        if job.batches == 0 {
          return false;
        }
        assert logged == log0 + (Logged(begin, epoch) + LoggedIn(epoch));
        var r := clock[epoch - begin];
        if r.check - lastCheckpointTime >= job.interval {
          SaveCheckpoint(epoch, r.saved);
        }
        assert View() == AfterEpoch(job, step, p, epoch, r);
        epoch := epoch + 1;
      }
      SaveCheckpoint(job.epochs - 1, clock[epoch - begin].saved);
      return true;
    }

    /** What the main process logs; the others log nothing. */
    function Logged(begin: int, end: int): seq<int>
      requires begin <= end
    {
      if job.main then LogAll(begin, end, job.batches) else []
    }

    function LoggedIn(epoch: int): seq<int> {
      if job.main then LogPoints(epoch * job.batches, job.batches) else []
    }
  }

  // ---------- Crashes and resumptions ----------

  /** One life of the training process: it may resume from a file, gets as far as epoch `until`, and
      either dies there or saves its final checkpoint. Sessions may ask for different epoch totals. */
  datatype Session = Session(resume: Option<int>, epochs: int, main: bool, start: real, until: int,
                             clock: seq<Reading>, finished: bool)

  function JobOf(job: Job, x: Session): Job { job.(epochs := x.epochs, main := x.main) }

  /** The epoch a session starts at. */
  function From<S>(files: map<int, Checkpoint<S>>, x: Session): int {
    if x.resume.Some? && x.resume.value in files then files[x.resume.value].epoch + 1 else 0
  }

  function StartState<S>(files: map<int, Checkpoint<S>>, x: Session, initial: S): S {
    if x.resume.Some? && x.resume.value in files then files[x.resume.value].state else initial
  }

  ghost predicate Proper<S>(job: Job, files: map<int, Checkpoint<S>>, x: Session) {
    var begin := From(files, x);
    && begin <= x.until <= Stop(JobOf(job, x), begin)
    && x.until - begin < |x.clock|
    && (x.finished ==> x.until == Stop(JobOf(job, x), begin))
  }

  /** What the session leaves in its memory and in the checkpoint directory. */
  function Live<S>(
      job: Job, step: (int, nat, S) -> S, files: map<int, Checkpoint<S>>, x: Session, initial: S): Progress<S>
    requires Proper(job, files, x)
  {
    var begin := From(files, x);
    var p := Progress(StartState(files, x, initial), files, x.start);
    if x.finished then Trained(JobOf(job, x), step, p, begin, x.clock)
    else AfterEpochs(JobOf(job, x), step, p, begin, x.until, x.clock)
  }

  /** Every file holds what the uninterrupted run has after the epoch the file is labelled with. */
  ghost predicate TrueLabels<S>(step: (int, nat, S) -> S, len: nat, files: map<int, Checkpoint<S>>, initial: S) {
    forall l :: l in files ==> l >= -1 && files[l] == Checkpoint(l, Fold(step, len, l + 1, initial))
  }

  lemma {:induction false} EpochsFold<S>(
      job: Job, step: (int, nat, S) -> S, x: Session, p: Progress<S>, begin: int, end: int,
      clock: seq<Reading>, initial: S)
    requires 0 <= begin <= end && end - begin <= |clock|
    requires p.state == Fold(step, job.batches, begin, initial) && TrueLabels(step, job.batches, p.files, initial)
    ensures var q := AfterEpochs(JobOf(job, x), step, p, begin, end, clock);
            (q.state == Fold(step, job.batches, end, initial) && TrueLabels(step, job.batches, q.files, initial))
    decreases end - begin
  {
    if begin < end {
      EpochsFold(job, step, x, p, begin, end - 1, clock, initial);
    }
  }

  /** One session over truthful files: it ends in the state of the uninterrupted run, and its final
      file, labelled with the last epoch asked for, holds the state after all epochs it is based on. */
  lemma SessionFold<S>(job: Job, step: (int, nat, S) -> S, files: map<int, Checkpoint<S>>, x: Session, initial: S)
    requires TrueLabels(step, job.batches, files, initial) && Proper(job, files, x)
    ensures From(files, x) >= 0
    ensures Live(job, step, files, x, initial).state == Fold(step, job.batches, x.until, initial)
    ensures x.finished && x.main ==>
      x.epochs - 1 in Live(job, step, files, x, initial).files
      && Live(job, step, files, x, initial).files[x.epochs - 1]
        == Checkpoint(x.epochs - 1, Fold(step, job.batches, x.until, initial))
    ensures !x.finished || From(files, x) <= x.epochs ==>
          TrueLabels(step, job.batches, Live(job, step, files, x, initial).files, initial)
  {
    var begin := From(files, x);
    var p := Progress(StartState(files, x, initial), files, x.start);
    if x.resume.Some? && x.resume.value in files {
      assert files[x.resume.value] == Checkpoint(x.resume.value, Fold(step, job.batches, x.resume.value + 1, initial));
    }
    EpochsFold(job, step, x, p, begin, x.until, x.clock, initial);
  }

  /** A session resumes from no further than it is asked to go, or does not live to its final save. */
  ghost predicate Modest<S>(files: map<int, Checkpoint<S>>, x: Session) {
    x.finished ==> From(files, x) <= x.epochs
  }

  ghost predicate AllModest<S>(
      job: Job, step: (int, nat, S) -> S, files: map<int, Checkpoint<S>>, xs: seq<Session>, initial: S)
    decreases |xs|
  {
    xs == [] ||
    (Proper(job, files, xs[0]) && Modest(files, xs[0]) &&
     AllModest(job, step, Live(job, step, files, xs[0], initial).files, xs[1..], initial))
  }

  /** Crash and resume as often as one likes, from whichever earlier files: all files stay truthful, and
      a session that finishes ends with exactly the state of one uninterrupted run. */
  lemma {:induction false} CrashResume<S>(
      job: Job, step: (int, nat, S) -> S, files: map<int, Checkpoint<S>>, xs: seq<Session>, initial: S)
    requires TrueLabels(step, job.batches, files, initial) && AllModest(job, step, files, xs, initial)
    ensures TrueLabels(step, job.batches, FilesAfter(job, step, files, xs, initial), initial)
    ensures xs != [] && xs[|xs| - 1].finished ==>
      var before := FilesAfter(job, step, files, xs[..|xs| - 1], initial);
      && Proper(job, before, xs[|xs| - 1])
      && xs[|xs| - 1].epochs >= 0
      && Live(job, step, before, xs[|xs| - 1], initial).state == Fold(step, job.batches, xs[|xs| - 1].epochs, initial)
    decreases |xs|
  {
    if xs != [] {
      SessionFold(job, step, files, xs[0], initial);
      var next := Live(job, step, files, xs[0], initial).files;
      CrashResume(job, step, next, xs[1..], initial);
      if |xs| > 1 {
        assert xs[1..][|xs| - 2] == xs[|xs| - 1];
        assert xs[..|xs| - 1][1..] == xs[1..][..|xs| - 2];
        assert FilesAfter(job, step, files, xs[..|xs| - 1], initial)
            == FilesAfter(job, step, next, xs[1..][..|xs| - 2], initial);
      } else {
        assert xs[..0] == [];
      }
    }
  }

  /** The directory after a sequence of sessions. */
  ghost function FilesAfter<S>(
      job: Job, step: (int, nat, S) -> S, files: map<int, Checkpoint<S>>, xs: seq<Session>,
      initial: S): map<int, Checkpoint<S>>
    decreases |xs|
  {
    if xs == [] || !Proper(job, files, xs[0]) then files
    else FilesAfter(job, step, Live(job, step, files, xs[0], initial).files, xs[1..], initial)
  }

  // ---------- Exactly when the final file is truthful ----------

  /** A training step that only counts. */
  const COUNT: (int, nat, nat) -> nat := (e: int, b: nat, s: nat) => s + 1

  lemma {:induction false} CountedBatches(e: int, b: nat, s: nat)
    ensures Batches(COUNT, e, b, s) == s + b
  {
    if b > 0 { CountedBatches(e, b - 1, s); }
  }

  lemma {:induction false} Counted(len: nat, n: nat)
    ensures Fold(COUNT, len, n, 0) == n * len
  {
    if n > 0 {
      Counted(len, n - 1);
      CountedBatches(n - 1, len, Fold(COUNT, len, n - 1, 0));
      assert n * len == (n - 1) * len + len;
    }
  }

  /** A finished session keeps the labels truthful for every training step when it did not resume from
      beyond the epochs it was asked for ... */
  lemma FinalLabelTrue<S>(job: Job, step: (int, nat, S) -> S, files: map<int, Checkpoint<S>>, x: Session, initial: S)
    requires TrueLabels(step, job.batches, files, initial) && Proper(job, files, x)
    requires From(files, x) <= x.epochs
    ensures TrueLabels(step, job.batches, Live(job, step, files, x, initial).files, initial)
  {
    SessionFold(job, step, files, x, initial);
  }

  /** ... and only then: with a step that counts batches, the labels stay truthful exactly under that
      condition. Resuming a ten-epoch checkpoint with `epochs = 5` files ten epochs of training under
      the name of the fifth. */
  lemma FinalLabelIff(job: Job, files: map<int, Checkpoint<nat>>, x: Session)
    requires job.batches > 0 && x.finished && x.main
    requires TrueLabels(COUNT, job.batches, files, 0) && Proper(job, files, x)
    ensures TrueLabels(COUNT, job.batches, Live(job, COUNT, files, x, 0).files, 0) <==> From(files, x) <= x.epochs
  {
    SessionFold(job, COUNT, files, x, 0);
    if From(files, x) > x.epochs && x.epochs >= 0 {
      Counted(job.batches, x.until);
      Counted(job.batches, x.epochs);
      MoreEpochs(x.until, x.epochs, job.batches);
    }
  }

  lemma MoreEpochs(a: nat, b: nat, len: nat)
    requires a > b && len > 0
    ensures a * len > b * len
  {
  }

  // ---------- Who writes what ----------

  /** Processes other than the main one train the same states and write nothing. */
  lemma {:induction false} OthersWriteNothing<S>(
      main: Job, other: Job, step: (int, nat, S) -> S, p: Progress<S>, q: Progress<S>, begin: int, end: int,
      clock: seq<Reading>)
    requires main.batches == other.batches && !other.main && p.state == q.state
    requires begin <= end && end - begin <= |clock|
    ensures AfterEpochs(other, step, q, begin, end, clock).files == q.files
    ensures AfterEpochs(other, step, q, begin, end, clock).last == q.last
    ensures AfterEpochs(other, step, q, begin, end, clock).state == AfterEpochs(main, step, p, begin, end, clock).state
    decreases end - begin
  {
    if begin < end { OthersWriteNothing(main, other, step, p, q, begin, end - 1, clock); }
  }

  /** The main process files an epoch exactly when the interval has passed by its end, under its own number,
      with the state after it; it never removes a file. */
  lemma {:induction false} FiledIff<S>(
      job: Job, step: (int, nat, S) -> S, p: Progress<S>, begin: int, end: int, clock: seq<Reading>, e: int)
    requires job.main && begin <= end && end - begin <= |clock|
    ensures var files := AfterEpochs(job, step, p, begin, end, clock).files;
            if begin <= e < end
               && clock[e - begin].check - AfterEpochs(job, step, p, begin, e, clock).last >= job.interval
            then e in files && files[e] == Checkpoint(e, AfterEpochs(job, step, p, begin, e + 1, clock).state)
            else (e in files <==> e in p.files) && (e in files ==> files[e] == p.files[e])
    decreases end - begin
  {
    if begin < end { FiledIff(job, step, p, begin, end - 1, clock, e); }
  }

  // ---------- In which order the batches are applied ----------

  /** A training step that only writes down which batch of which epoch it was. */
  const RECORD: (int, nat, seq<(int, nat)>) -> seq<(int, nat)> := (e: int, b: nat, s: seq<(int, nat)>) => s + [(e, b)]

  lemma {:induction false} BatchesInOrder(e: int, b: nat, s: seq<(int, nat)>)
    ensures var t := Batches(RECORD, e, b, s);
            |t| == |s| + b && t[..|s|] == s && forall k :: 0 <= k < b ==> t[|s| + k] == (e, k)
  {
    if b > 0 { BatchesInOrder(e, b - 1, s); }
  }

  /** The uninterrupted run visits every batch of every epoch once: batch `b` of epoch `e` is number
      `e * len + b`, counted from 0. */
  lemma {:induction false} VisitedInOrder(len: nat, n: nat, e: nat, b: nat)
    ensures |Fold(RECORD, len, n, [])| == n * len
    ensures e < n && b < len ==> e * len + b < n * len && Fold(RECORD, len, n, [])[e * len + b] == (e, b)
  {
    if n > 0 {
      var before := Fold(RECORD, len, n - 1, []);
      VisitedInOrder(len, n - 1, e, b);
      BatchesInOrder(n - 1, len, before);
      assert n * len == (n - 1) * len + len;
      if e < n - 1 && b < len {
        assert Fold(RECORD, len, n, [])[e * len + b] == Fold(RECORD, len, n, [])[..|before|][e * len + b];
      }
    }
  }

  // ---------- How old the last checkpoint can be ----------

  ghost predicate Forward(clock: seq<Reading>) {
    && (forall i :: 0 <= i < |clock| ==> clock[i].check <= clock[i].saved)
    && (forall i :: 0 < i < |clock| ==> clock[i - 1].saved <= clock[i].check)
  }

  /** A save, and when the epoch that it closes began. The final save closes the (empty) epoch behind the last. */
  datatype Saving = Saving(began: real, at: real)

  /** Whether the epoch with this reading ends with a save, the last one being `last`. */
  predicate Due(job: Job, last: real, r: Reading) { r.check - last >= job.interval }

  /** The saves at the ends of `epochs` epochs, when the first of them begins at `began` and the last save
      before them was at `last`. */
  function Savings(job: Job, last: real, began: real, epochs: nat, clock: seq<Reading>): seq<Saving>
    requires epochs <= |clock|
    decreases epochs
  {
    if epochs == 0 then []
    else if Due(job, last, clock[0])
    then [Saving(began, clock[0].saved)] + Savings(job, clock[0].saved, clock[0].saved, epochs - 1, clock[1..])
    else Savings(job, last, clock[0].check, epochs - 1, clock[1..])
  }

  /** When the epoch after those begins, and when the last save before it was. */
  function Behind(job: Job, last: real, began: real, epochs: nat, clock: seq<Reading>): (r: (real, real))
    requires epochs <= |clock|
    decreases epochs
  {
    if epochs == 0 then (began, last)
    else if Due(job, last, clock[0]) then Behind(job, clock[0].saved, clock[0].saved, epochs - 1, clock[1..])
    else Behind(job, last, clock[0].check, epochs - 1, clock[1..])
  }

  lemma {:induction false} BehindSplit(job: Job, last: real, began: real, epochs: nat, clock: seq<Reading>)
    requires epochs < |clock|
    ensures var (b, l) := Behind(job, last, began, epochs, clock);
            Behind(job, last, began, epochs + 1, clock) ==
            if Due(job, l, clock[epochs]) then (clock[epochs].saved, clock[epochs].saved) else (clock[epochs].check, l)
    ensures var (b, l) := Behind(job, last, began, epochs, clock);
            Savings(job, last, began, epochs + 1, clock) ==
            Savings(job, last, began, epochs, clock) +
              (if Due(job, l, clock[epochs]) then [Saving(b, clock[epochs].saved)] else [])
    decreases epochs
  {
    if epochs > 0 {
      if Due(job, last, clock[0]) {
        BehindSplit(job, clock[0].saved, clock[0].saved, epochs - 1, clock[1..]);
      } else {
        BehindSplit(job, last, clock[0].check, epochs - 1, clock[1..]);
      }
    }
  }

  /** These are the saves of the training loop: the time it remembers is that of the last of them. */
  lemma {:induction false} LoopSaves<S>(job: Job, step: (int, nat, S) -> S, p: Progress<S>, begin: int, end: int,
                                        clock: seq<Reading>, began: real)
    requires job.main && begin <= end && end - begin <= |clock|
    ensures AfterEpochs(job, step, p, begin, end, clock).last == Behind(job, p.last, began, end - begin, clock).1
    ensures var saves := Savings(job, p.last, began, end - begin, clock);
            AfterEpochs(job, step, p, begin, end, clock).last == if saves == [] then p.last else saves[|saves| - 1].at
    decreases end - begin
  {
    if begin < end {
      LoopSaves(job, step, p, begin, end - 1, clock, began);
      BehindSplit(job, p.last, began, end - 1 - begin, clock);
    }
  }

  /** All saves of a finished session: those at the ends of its epochs, and the final one. */
  function SessionSavings(job: Job, start: real, began: real, epochs: nat, clock: seq<Reading>): seq<Saving>
    requires epochs < |clock|
  {
    Savings(job, start, began, epochs, clock)
        + [Saving(Behind(job, start, began, epochs, clock).0, clock[epochs].saved)]
  }

  /** A save that comes less than an interval plus its epoch's duration after the one before it, or no later
      than its epoch's duration. (The two differ only for an interval that is not positive.) */
  predicate Timely(job: Job, before: real, s: Saving) {
    s.at - before < job.interval + (s.at - s.began) || s.at - before <= s.at - s.began
  }

  /** When the last save before the `k`-th was; the first one has the start before it. */
  function Before(start: real, saves: seq<Saving>, k: nat): real
    requires k < |saves|
  {
    if k == 0 then start else saves[k - 1].at
  }

  ghost predicate AllTimely(job: Job, start: real, saves: seq<Saving>) {
    forall k :: 0 <= k < |saves| ==> Timely(job, Before(start, saves, k), saves[k])
  }

  lemma AllTimelySplit(job: Job, start: real, first: Saving, rest: seq<Saving>)
    ensures AllTimely(job, start, [first] + rest) <==> Timely(job, start, first) && AllTimely(job, first.at, rest)
  {
    var all := [first] + rest;
    assert Before(start, all, 0) == start;
    forall k | 0 <= k < |rest|
      ensures all[k + 1] == rest[k] && Before(start, all, k + 1) == Before(first.at, rest, k) { }
    if AllTimely(job, start, all) {
      forall k | 0 <= k < |rest| ensures Timely(job, Before(first.at, rest, k), rest[k]) {
        assert Timely(job, Before(start, all, k + 1), all[k + 1]);
      }
    }
    if Timely(job, start, first) && AllTimely(job, first.at, rest) {
      forall k | 0 <= k < |all| ensures Timely(job, Before(start, all, k), all[k]) {
        if k > 0 { assert Timely(job, Before(first.at, rest, k - 1), rest[k - 1]); }
      }
    }
  }

  /** Over a whole session on the main process, first epoch and final save included: no save comes an
      interval plus one epoch's duration after the one before it, if and only if the loop began within one
      interval of the trainer's construction, which is where the interval is counted from. */
  lemma {:induction false} CheckpointGaps(job: Job, start: real, began: real, epochs: nat, clock: seq<Reading>)
    requires Forward(clock) && epochs < |clock| && start <= began <= clock[0].check
    ensures AllTimely(job, start, SessionSavings(job, start, began, epochs, clock)) <==>
              began == start || began - start < job.interval
    decreases epochs
  {
    var saves := SessionSavings(job, start, began, epochs, clock);
    if epochs == 0 {
      assert saves == [Saving(began, clock[0].saved)];
      AllTimelySplit(job, start, saves[0], []);
      assert saves == [saves[0]] + [];
    } else {
      assert clock[1..][epochs - 1] == clock[epochs];
      if Due(job, start, clock[0]) {
        var at := clock[0].saved;
        CheckpointGaps(job, at, at, epochs - 1, clock[1..]);
        var rest := SessionSavings(job, at, at, epochs - 1, clock[1..]);
        assert saves == [Saving(began, at)] + rest;
        AllTimelySplit(job, start, Saving(began, at), rest);
      } else {
        CheckpointGaps(job, start, clock[0].check, epochs - 1, clock[1..]);
        assert saves == SessionSavings(job, start, clock[0].check, epochs - 1, clock[1..]);
      }
    }
  }

  /** And at any moment within an epoch, the first included, the last save (or the start) is less than an
      interval plus the time spent in the epoch ago, under the same condition. */
  lemma {:induction false} CheckpointAge(
      job: Job, start: real, began: real, epochs: nat, clock: seq<Reading>, now: real)
    requires Forward(clock) && epochs <= |clock| && start <= began && (epochs > 0 ==> began <= clock[0].check)
    requires began == start || began - start < job.interval
    ensures var (b, last) := Behind(job, start, began, epochs, clock);
            now - last < job.interval + (now - b) || now - last <= now - b
    decreases epochs
  {
    if epochs > 0 {
      if Due(job, start, clock[0]) {
        CheckpointAge(job, clock[0].saved, clock[0].saved, epochs - 1, clock[1..], now);
      } else {
        CheckpointAge(job, start, clock[0].check, epochs - 1, clock[1..], now);
      }
    }
  }

  // ---------- Step numbers ----------

  /** Logging one stretch of epochs after another, as across a resumption, logs the same steps as the
      whole stretch. */
  lemma {:induction false} LogSplit(a: int, b: int, c: int, len: nat)
    requires a <= b <= c
    ensures LogAll(a, c, len) == LogAll(a, b, len) + LogAll(b, c, len)
    decreases c - b
  {
    if b < c { LogSplit(a, b, c - 1, len); }
  }

  lemma {:induction false} LogPointsRange(base: int, b: nat, i: nat)
    requires i < |LogPoints(base, b)|
    ensures base < LogPoints(base, b)[i] <= base + b
    ensures forall k :: 0 <= k < i ==> LogPoints(base, b)[k] < LogPoints(base, b)[i]
    decreases b
  {
    if i < |LogPoints(base, b - 1)| {
      LogPointsRange(base, b - 1, i);
    } else {
      forall k | 0 <= k < i ensures LogPoints(base, b)[k] < LogPoints(base, b)[i] { LogPointsRange(base, b - 1, k); }
    }
  }

  /** Logged step numbers increase strictly, from one epoch to the next as well. */
  lemma {:induction false} LogIncreasing(begin: int, end: int, len: nat, i: nat)
    requires begin <= end && i < |LogAll(begin, end, len)|
    ensures begin * len < LogAll(begin, end, len)[i] <= end * len
    ensures forall k :: 0 <= k < i ==> LogAll(begin, end, len)[k] < LogAll(begin, end, len)[i]
    decreases end - begin
  {
    var head := LogAll(begin, end - 1, len);
    assert end * len == (end - 1) * len + len;
    if i < |head| {
      LogIncreasing(begin, end - 1, len, i);
    } else {
      LogPointsRange((end - 1) * len, len, i - |head|);
      forall k | 0 <= k < |head| ensures head[k] <= (end - 1) * len { LogIncreasing(begin, end - 1, len, k); }
      EpochsOrdered(begin, end - 1, len);
    }
  }

  lemma EpochsOrdered(a: int, b: int, len: nat)
    requires a <= b
    ensures a * len <= b * len
  {
  }

  /** Exactly these steps are logged: number `e * len + b + 1` for every tenth batch `b` of each epoch `e`. */
  lemma {:induction false} LoggedIff(begin: int, end: int, len: nat, x: int)
    requires begin <= end
    ensures x in LogAll(begin, end, len) <==>
              exists e, b: nat :: begin <= e < end && b < len && b % 10 == 0 && x == StepNumber(e, b, len)
    decreases end - begin
  {
    if begin < end {
      LoggedIff(begin, end - 1, len, x);
      LoggedInEpoch((end - 1) * len, len, x);
      if x in LogPoints((end - 1) * len, len) {
        var b: nat :| b < len && b % 10 == 0 && x == (end - 1) * len + b + 1;
        assert x == StepNumber(end - 1, b, len);
      }
      forall e, b: nat | begin <= e < end && b < len && b % 10 == 0 && x == StepNumber(e, b, len)
        ensures x in LogAll(begin, end, len)
      {
        if e == end - 1 { assert x == (end - 1) * len + b + 1; }
      }
    }
  }

  function StepNumber(e: int, b: nat, len: nat): int { e * len + b + 1 }

  lemma {:induction false} LoggedInEpoch(base: int, len: nat, x: int)
    ensures x in LogPoints(base, len) <==> exists b: nat :: b < len && b % 10 == 0 && x == base + b + 1
  {
    if len > 0 { LoggedInEpoch(base, len - 1, x); }
  }
}
