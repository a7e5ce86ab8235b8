/** Concurrent batch processing (batch.go, ProcessBatch): the feeding loop, a fixed pool of workers, the locked
    accounting, cancellation and progress callbacks, in every interleaving. */
module Batch {
  import opened Counting
  import opened Options

  datatype Tokens = Tokens(prompt: int, completion: int, total: int, cacheRead: int, cacheCreation: int, reasoning: int)

  const ZERO := Tokens(0, 0, 0, 0, 0, 0)

  function Plus(a: Tokens, b: Tokens): Tokens {
    Tokens(a.prompt + b.prompt, a.completion + b.completion, a.total + b.total,
           a.cacheRead + b.cacheRead, a.cacheCreation + b.cacheCreation, a.reasoning + b.reasoning)
  }

  datatype Usage = Usage(tokens: Tokens, cost: Option<real>)

  /** How GenerateContent ended for a request. */
  datatype Outcome = Response(usage: Usage) | NilResponse | ProviderError | Panic

  datatype BatchResult = Succeeded(id: string, usage: Usage) | FailedWith(id: string, why: Outcome)

  function ResultFor(id: string, o: Outcome): BatchResult {
    if o.Response? then Succeeded(id, o.usage) else FailedWith(id, o)
  }

  /** What has become of a request. */
  datatype Fate = Waiting | Taken | Started | Skipped | Ended(o: Outcome)

  /** A worker: idle; holding a request before its context check; in the call; with an outcome to record; recorded
      and about to cancel if it must; about to count; in the progress callback; gone. */
  datatype Worker =
    | Idle | Got(r: nat) | Calling(r: nat) | Outcomed(r: nat, o: Outcome)
    | Recorded(o: Outcome) | Uncounted | Reporting(v: nat) | Exited

  datatype Feed = Feeding(next: nat) | Closed(next: nat) | Finished(next: nat)

  datatype State = State(
    ids: seq<string>, continueOnError: bool,
    feed: Feed, workers: seq<Worker>, fates: seq<Fate>,
    parentDone: bool, cancelled: bool,
    results: map<string, BatchResult>, successCount: nat, failureCount: nat,
    tokens: Tokens, cost: real, allCosts: bool,
    completed: nat, reports: seq<nat>)

  datatype Action =
    | FeedTo(k: nat) | FeedStops | FeedEnds
    | WorkerGo(k: nat) | CallEnds(k: nat, o: Outcome)
    | ParentEnds | AllDone

  predicate BatchDone(s: State) { s.parentDone || s.cancelled }

  /** What every step of worker k leaves alone. */
  ghost predicate Frame(s: State, k: nat, t: State) {
    && t.ids == s.ids && t.feed == s.feed && t.continueOnError == s.continueOnError && t.parentDone == s.parentDone
    && k < |s.workers| == |t.workers| && t.workers == s.workers[k := t.workers[k]] && |t.fates| == |s.fates|
  }

  /** recordSuccess and recordFailure, under the lock. */
  function Record(s: State, k: nat, r: nat, o: Outcome): (t: State)
    requires k < |s.workers| && r < |s.ids| == |s.fates|
    ensures Frame(s, k, t)
  {
    var t := s.(workers := s.workers[k := Recorded(o)], fates := s.fates[r := Ended(o)],
                results := s.results[s.ids[r] := ResultFor(s.ids[r], o)]);
    if o.Response? then
      t.(successCount := s.successCount + 1, tokens := Plus(s.tokens, o.usage.tokens),
         cost := if o.usage.cost.Some? then s.cost + o.usage.cost.value else s.cost,
         allCosts := s.allCosts && o.usage.cost.Some?)
    else t.(failureCount := s.failureCount + 1)
  }

  /** A request whose batch context is done is not started. */
  function CheckContext(s: State, k: nat, r: nat): (t: State)
    requires k < |s.workers| && r < |s.ids| == |s.fates|
    ensures Frame(s, k, t)
  {
    if BatchDone(s) then s.(workers := s.workers[k := Idle], fates := s.fates[r := Skipped])
    else s.(workers := s.workers[k := Calling(r)], fates := s.fates[r := Started])
  }

  function StepWorker(s: State, k: nat): (t: Option<State>)
    requires k < |s.workers| && |s.ids| == |s.fates|
    ensures t.Some? ==> Frame(s, k, t.value)
  {
    match s.workers[k]
    case Idle => if s.feed.Closed? then Some(s.(workers := s.workers[k := Exited])) else None
    case Got(r) => if r >= |s.ids| then None else Some(CheckContext(s, k, r))
    case Calling(_) => None
    case Outcomed(r, o) => if r >= |s.ids| then None else Some(Record(s, k, r, o))
    case Recorded(o) =>
      Some(s.(workers := s.workers[k := Uncounted], cancelled := s.cancelled || (!o.Response? && !s.continueOnError)))
    case Uncounted =>
      Some(s.(workers := s.workers[k := Reporting(s.completed + 1)], completed := s.completed + 1))
    case Reporting(v) => Some(s.(workers := s.workers[k := Idle], reports := s.reports + [v]))
    case Exited => None
  }

  function Next(s: State, a: Action): Option<State>
    requires |s.ids| == |s.fates|
  {
    match a
    case FeedTo(k) =>
      if s.feed.Feeding? && s.feed.next < |s.ids| && k < |s.workers| && s.workers[k].Idle?
      then Some(s.(feed := Feeding(s.feed.next + 1), workers := s.workers[k := Got(s.feed.next)],
                   fates := s.fates[s.feed.next := Taken]))
      else None
    case FeedStops => if s.feed.Feeding? && BatchDone(s) then Some(s.(feed := Closed(s.feed.next))) else None
    case FeedEnds => if s.feed.Feeding? && s.feed.next == |s.ids| then Some(s.(feed := Closed(s.feed.next))) else None
    case WorkerGo(k) => if k < |s.workers| then StepWorker(s, k) else None
    case CallEnds(k, o) =>
      if k < |s.workers| && s.workers[k].Calling?
      then Some(s.(workers := s.workers[k := Outcomed(s.workers[k].r, o)]))
      else None
    case ParentEnds => Some(s.(parentDone := true))
    case AllDone =>
      if s.feed.Closed? && Count(s.workers, IsExited) == |s.workers|
      then Some(s.(feed := Finished(s.feed.next)))
      else None
  }

  predicate IsExited(w: Worker) { w.Exited? }
  predicate HasJob(w: Worker) { w.Got? || w.Calling? || w.Outcomed? }
  predicate ToCount(w: Worker) { w.Recorded? || w.Uncounted? }
  predicate InHand(f: Fate) { f.Taken? || f.Started? }
  predicate IsEnded(f: Fate) { f.Ended? }
  predicate IsSuccess(f: Fate) { f.Ended? && f.o.Response? }
  predicate IsFailure(f: Fate) { f.Ended? && !f.o.Response? }
  predicate IsUnpriced(f: Fate) { IsSuccess(f) && f.o.usage.cost.None? }

  function ReportsValue(v: nat): Worker -> bool { (w: Worker) => w == Reporting(v) }

  /** The usage of the successes, in request order. */
  function SumTokens(fates: seq<Fate>): Tokens {
    if fates == [] then ZERO
    else
      var f := fates[|fates| - 1];
      Plus(SumTokens(fates[..|fates| - 1]), if IsSuccess(f) then f.o.usage.tokens else ZERO)
  }

  function SumCost(fates: seq<Fate>): real {
    if fates == [] then 0.0
    else
      var f := fates[|fates| - 1];
      SumCost(fates[..|fates| - 1]) + if IsSuccess(f) && f.o.usage.cost.Some? then f.o.usage.cost.value else 0.0
  }

  lemma {:induction false} SumsUpdate(fates: seq<Fate>, r: nat, f: Fate)
    requires r < |fates| && !IsSuccess(fates[r])
    ensures SumTokens(fates[r := f]) == Plus(SumTokens(fates), if IsSuccess(f) then f.o.usage.tokens else ZERO)
    ensures SumCost(fates[r := f])
      == SumCost(fates) + if IsSuccess(f) && f.o.usage.cost.Some? then f.o.usage.cost.value else 0.0
  {
    var last := |fates| - 1;
    if r < last {
      assert fates[r := f][..last] == fates[..last][r := f];
      SumsUpdate(fates[..last], r, f);
    } else {
      assert fates[r := f][..last] == fates[..last];
    }
  }

  // ---- The invariant ----

  ghost predicate Shaped(s: State) {
    && |s.ids| == |s.fates| && s.feed.next <= |s.ids|
    && (forall q, r | 0 <= q < r < |s.ids| :: s.ids[q] != s.ids[r])
  }

  ghost predicate Inv(s: State) {
    Shaped(s) && CountsInv(s) && SumsInv(s) && ResultsInv(s) && FatesInv(s) && JobsInv(s) && ReportsInv(s)
  }

  ghost predicate CountsInv(s: State) {
    && s.successCount == Count(s.fates, IsSuccess) && s.failureCount == Count(s.fates, IsFailure)
    && s.successCount + s.failureCount == Count(s.fates, IsEnded)
    && s.completed + Count(s.workers, ToCount) == Count(s.fates, IsEnded)
    && Count(s.fates, InHand) == Count(s.workers, HasJob)
    && (s.feed.Finished? ==> Count(s.workers, IsExited) == |s.workers|)
    && (s.cancelled ==> !s.continueOnError && s.failureCount > 0)
  }

  ghost predicate SumsInv(s: State) {
    s.tokens == SumTokens(s.fates) && s.cost == SumCost(s.fates) && (s.allCosts <==> Count(s.fates, IsUnpriced) == 0)
  }

  ghost predicate ResultsInv(s: State)
    requires Shaped(s)
  {
    && |s.results| == Count(s.fates, IsEnded)
    && (forall id | id in s.results :: id in s.ids)
    && forall r | 0 <= r < |s.ids| ::
      if s.fates[r].Ended? then s.ids[r] in s.results && s.results[s.ids[r]] == ResultFor(s.ids[r], s.fates[r].o)
                                                            else s.ids[r] !in s.results
  }

  ghost predicate FatesInv(s: State)
    requires Shaped(s)
  {
    && (forall r | 0 <= r < |s.fates| :: s.fates[r].Waiting? <==> r >= s.feed.next)
    && ((exists r :: 0 <= r < |s.fates| && s.fates[r].Skipped?) ==> BatchDone(s))
    && (!s.feed.Feeding? && s.feed.next < |s.ids| ==> BatchDone(s))
  }

  ghost predicate JobInv(s: State, w: Worker)
    requires Shaped(s)
  {
    && (HasJob(w) ==> w.r < |s.fates| && s.fates[w.r] == if w.Got? then Taken else Started)
    && (w.Recorded? && !w.o.Response? ==> s.failureCount > 0)
    && (w.Exited? ==> !s.feed.Feeding?)
  }

  ghost predicate JobsInv(s: State)
    requires Shaped(s)
  {
    && (forall k | 0 <= k < |s.workers| :: JobInv(s, s.workers[k]))
    && (forall j, k | 0 <= j < k < |s.workers| && HasJob(s.workers[j]) && HasJob(s.workers[k]) ::
      s.workers[j].r != s.workers[k].r)
  }

  /** Each value counted so far is reported once, or about to be. */
  ghost predicate ReportsInv(s: State) {
    forall v: nat :: Times(s, v) == if 1 <= v <= s.completed then 1 else 0
  }

  ghost function Times(s: State, v: nat): nat {
    multiset(s.reports)[v] + Count(s.workers, ReportsValue(v))
  }

  function Start(ids: seq<string>, continueOnError: bool, concurrency: nat): State {
    State(ids, continueOnError, Feeding(0), seq(concurrency, _ => Idle), seq(|ids|, _ => Waiting), false, false,
          map[], 0, 0, ZERO, 0.0, true, 0, [])
  }

  lemma {:induction false} NoSuccessTokens(fates: seq<Fate>)
    requires forall r | 0 <= r < |fates| :: !IsSuccess(fates[r])
    ensures SumTokens(fates) == ZERO
  {
    if fates != [] {
      assert !IsSuccess(fates[|fates| - 1]);
      NoSuccessTokens(fates[..|fates| - 1]);
    }
  }

  lemma {:induction false} NoSuccessCost(fates: seq<Fate>)
    requires forall r | 0 <= r < |fates| :: !IsSuccess(fates[r])
    ensures SumCost(fates) == 0.0
  {
    if fates != [] {
      assert !IsSuccess(fates[|fates| - 1]);
      NoSuccessCost(fates[..|fates| - 1]);
    }
  }

  lemma StartInv(ids: seq<string>, continueOnError: bool, concurrency: nat)
    requires forall q, r | 0 <= q < r < |ids| :: ids[q] != ids[r]
    ensures Inv(Start(ids, continueOnError, concurrency))
  {
    hide Count, SumTokens, SumCost;
    var s := Start(ids, continueOnError, concurrency);
    StartCounts(s.fates, s.workers);
    NoSuccessTokens(s.fates);
    NoSuccessCost(s.fates);
    forall v: nat ensures Times(s, v) == 0 { CountNone(s.workers, ReportsValue(v)); }
    assert JobsInv(s) && ResultsInv(s) && FatesInv(s) && ReportsInv(s);
  }

  lemma StartCounts(fates: seq<Fate>, workers: seq<Worker>)
    requires (forall r | 0 <= r < |fates| :: fates[r].Waiting?) && (forall k | 0 <= k < |workers| :: workers[k].Idle?)
    ensures Count(fates, IsSuccess) == Count(fates, IsFailure) == Count(fates, IsEnded) == Count(fates, IsUnpriced)
      == Count(fates, InHand) == 0
    ensures Count(workers, ToCount) == Count(workers, HasJob) == 0
  {
    CountNone(fates, IsSuccess);
    CountNone(fates, IsFailure);
    CountNone(fates, IsEnded);
    CountNone(fates, InHand);
    CountNone(fates, IsUnpriced);
    CountNone(workers, ToCount);
    CountNone(workers, HasJob);
  }

  // ---- Steps ----

  lemma WorkerCounts(s: State, k: nat, w: Worker)
    requires k < |s.workers|
    ensures Count(s.workers[k := w], ToCount)
      == Count(s.workers, ToCount) - (if ToCount(s.workers[k]) then 1 else 0) + (if ToCount(w) then 1 else 0)
    ensures Count(s.workers[k := w], HasJob)
      == Count(s.workers, HasJob) - (if HasJob(s.workers[k]) then 1 else 0) + (if HasJob(w) then 1 else 0)
    ensures Count(s.workers[k := w], IsExited)
      == Count(s.workers, IsExited) - (if IsExited(s.workers[k]) then 1 else 0) + (if IsExited(w) then 1 else 0)
  {
    CountUpdate(s.workers, k, w, ToCount);
    CountUpdate(s.workers, k, w, HasJob);
    CountUpdate(s.workers, k, w, IsExited);
  }

  lemma FateCounts(s: State, r: nat, f: Fate)
    requires r < |s.fates| && !s.fates[r].Ended?
    ensures Count(s.fates[r := f], IsSuccess) == Count(s.fates, IsSuccess) + (if IsSuccess(f) then 1 else 0)
    ensures Count(s.fates[r := f], IsFailure) == Count(s.fates, IsFailure) + (if IsFailure(f) then 1 else 0)
    ensures Count(s.fates[r := f], IsEnded) == Count(s.fates, IsEnded) + (if IsEnded(f) then 1 else 0)
    ensures Count(s.fates[r := f], IsUnpriced) == Count(s.fates, IsUnpriced) + (if IsUnpriced(f) then 1 else 0)
    ensures Count(s.fates[r := f], InHand)
      == Count(s.fates, InHand) - (if InHand(s.fates[r]) then 1 else 0) + (if InHand(f) then 1 else 0)
  {
    CountUpdate(s.fates, r, f, IsSuccess);
    CountUpdate(s.fates, r, f, IsFailure);
    CountUpdate(s.fates, r, f, IsEnded);
    CountUpdate(s.fates, r, f, IsUnpriced);
    CountUpdate(s.fates, r, f, InHand);
  }

  /** A worker changes, nothing being counted or reported by it before or after. */
  lemma ReportsUnmoved(s: State, k: nat, t: State)
    requires ReportsInv(s) && k < |s.workers| && |t.workers| == |s.workers| && t.workers == s.workers[k := t.workers[k]]
    requires !s.workers[k].Reporting? && !t.workers[k].Reporting? && t.completed == s.completed
    requires t.reports == s.reports
    ensures ReportsInv(t)
  {
    forall v: nat ensures Times(t, v) == Times(s, v) { CountUpdate(s.workers, k, t.workers[k], ReportsValue(v)); }
  }

  lemma JobsMove(s: State, k: nat, t: State)
    requires Shaped(s) && JobsInv(s) && Shaped(t) && k < |s.workers| && t.ids == s.ids && |t.workers| == |s.workers|
    requires t.feed == s.feed
    requires t.workers == s.workers[k := t.workers[k]] && JobInv(t, t.workers[k]) && t.failureCount >= s.failureCount
    requires HasJob(t.workers[k]) ==> HasJob(s.workers[k]) && t.workers[k].r == s.workers[k].r
    requires forall r | 0 <= r < |s.fates| :: t.fates[r] == s.fates[r] || (HasJob(s.workers[k]) && r == s.workers[k].r)
    ensures JobsInv(t)
  {
    forall j | 0 <= j < |t.workers| ensures JobInv(t, t.workers[j]) { assert JobInv(s, s.workers[j]); }
  }

  lemma FeedKeepsJobs(s: State, k: nat)
    requires Inv(s) && Next(s, FeedTo(k)).Some?
    ensures Shaped(Next(s, FeedTo(k)).value) && JobsInv(Next(s, FeedTo(k)).value)
  {
    hide CountsInv, SumsInv, ResultsInv, ReportsInv;
    var t := Next(s, FeedTo(k)).value;
    forall j | 0 <= j < |t.workers| ensures JobInv(t, t.workers[j]) { assert JobInv(s, s.workers[j]); }
    forall i, j | 0 <= i < j < |t.workers| && HasJob(t.workers[i]) && HasJob(t.workers[j])
      ensures t.workers[i].r != t.workers[j].r {
      assert JobInv(s, s.workers[i]) && JobInv(s, s.workers[j]);
    }
  }

  lemma FeedKeepsInv(s: State, k: nat)
    requires Inv(s) && Next(s, FeedTo(k)).Some?
    ensures Inv(Next(s, FeedTo(k)).value)
  {
    hide JobsInv, Count, ReportsInv, SumTokens, SumCost;
    var r := s.feed.next;
    var t := Next(s, FeedTo(k)).value;
    WorkerCounts(s, k, Got(r));
    FateCounts(s, r, Taken);
    SumsUpdate(s.fates, r, Taken);
    ReportsUnmoved(s, k, t);
    FeedKeepsJobs(s, k);
  }

  /** What a worker step may do to the request it holds, if any. */
  lemma WorkerEffect(s: State, k: nat)
    requires Shaped(s) && k < |s.workers| && JobInv(s, s.workers[k]) && StepWorker(s, k).Some?
    ensures var t, w := StepWorker(s, k).value, s.workers[k];
      && Shaped(t) && t.ids == s.ids && t.feed == s.feed && t.continueOnError == s.continueOnError
      && t.parentDone == s.parentDone
      && |t.workers| == |s.workers| && t.workers == s.workers[k := t.workers[k]]
      && t.fates == (if w.Got? || w.Outcomed? then s.fates[w.r := t.fates[w.r]] else s.fates)
      && (w.Got? ==> t.fates[w.r] == if BatchDone(s) then Skipped else Started)
      && (w.Outcomed? ==> t.fates[w.r] == Ended(w.o) && !s.fates[w.r].Ended? && InHand(s.fates[w.r]) && w.r < |s.ids|)
      && (w.Got? ==> s.fates[w.r] == Taken)
  {
    assert Frame(s, k, StepWorker(s, k).value);
    assert Shaped(StepWorker(s, k).value);
  }

  lemma StillRunning(s: State, k: nat)
    requires Inv(s) && k < |s.workers| && StepWorker(s, k).Some?
    ensures !s.feed.Finished? && JobInv(s, s.workers[k])
  {
    hide SumsInv, ResultsInv, FatesInv, ReportsInv, Count;
    if s.feed.Finished? { CountWitness(s.workers, IsExited); }
  }

  /** The worker that has a request starts it, skips it or records its outcome. */
  lemma FateKeepsCounts(s: State, k: nat)
    requires Inv(s) && k < |s.workers| && StepWorker(s, k).Some?
    requires s.workers[k].Got? || s.workers[k].Outcomed?
    ensures CountsInv(StepWorker(s, k).value)
  {
    hide SumsInv, ResultsInv, FatesInv, JobsInv, ReportsInv, Count;
    var t, w := StepWorker(s, k).value, s.workers[k];
    StillRunning(s, k);
    WorkerEffect(s, k);
    WorkerCounts(s, k, t.workers[k]);
    FateCounts(s, w.r, t.fates[w.r]);
  }

  lemma OtherKeepsCounts(s: State, k: nat)
    requires Inv(s) && k < |s.workers| && StepWorker(s, k).Some?
    requires !s.workers[k].Outcomed? && !s.workers[k].Got?
    ensures CountsInv(StepWorker(s, k).value)
  {
    hide SumsInv, ResultsInv, FatesInv, JobsInv, ReportsInv, Count;
    StillRunning(s, k);
    WorkerCounts(s, k, StepWorker(s, k).value.workers[k]);
  }

  lemma WorkerKeepsCounts(s: State, k: nat)
    requires Inv(s) && k < |s.workers| && StepWorker(s, k).Some?
    ensures CountsInv(StepWorker(s, k).value)
  {
    hide Inv, CountsInv, StepWorker;
    if s.workers[k].Got? || s.workers[k].Outcomed? {
      FateKeepsCounts(s, k);
    } else {
      OtherKeepsCounts(s, k);
    }
  }

  lemma WorkerKeepsSums(s: State, k: nat)
    requires Inv(s) && k < |s.workers| && StepWorker(s, k).Some?
    ensures SumsInv(StepWorker(s, k).value)
  {
    hide CountsInv, ResultsInv, FatesInv, ReportsInv, Count, SumTokens, SumCost;
    var t, w := StepWorker(s, k).value, s.workers[k];
    assert JobInv(s, w);
    WorkerEffect(s, k);
    if w.Got? || w.Outcomed? {
      FateCounts(s, w.r, t.fates[w.r]);
      SumsUpdate(s.fates, w.r, t.fates[w.r]);
    }
  }

  lemma RecordKeepsResults(s: State, r: nat, o: Outcome, t: State)
    requires Shaped(s) && ResultsInv(s) && r < |s.ids| && !s.fates[r].Ended?
    requires t.ids == s.ids && t.feed == s.feed && t.fates == s.fates[r := Ended(o)]
    requires t.results == s.results[s.ids[r] := ResultFor(s.ids[r], o)]
    ensures Shaped(t) && ResultsInv(t)
  {
    FateCounts(s, r, Ended(o));
    assert s.ids[r] !in s.results;
    assert |t.results| == |s.results| + 1;
    forall q | 0 <= q < |t.ids|
      ensures if t.fates[q].Ended? then t.ids[q] in t.results
        && t.results[t.ids[q]] == ResultFor(t.ids[q], t.fates[q].o)
              else t.ids[q] !in t.results
    {
      assert q != r ==> s.ids[q] != s.ids[r];
    }
  }

  lemma OthersKeepResults(s: State, r: nat, f: Fate, t: State)
    requires Shaped(s) && ResultsInv(s) && r < |s.fates| && !s.fates[r].Ended? && !f.Ended?
    requires t.ids == s.ids && t.feed == s.feed && t.fates == s.fates[r := f] && t.results == s.results
    ensures Shaped(t) && ResultsInv(t)
  {
    FateCounts(s, r, f);
  }

  lemma SameResults(s: State, t: State)
    requires Shaped(s) && ResultsInv(s) && t.ids == s.ids && t.feed == s.feed && t.fates == s.fates
    requires t.results == s.results
    ensures Shaped(t) && ResultsInv(t)
  {
  }

  lemma WorkerKeepsResults(s: State, k: nat)
    requires Inv(s) && k < |s.workers| && StepWorker(s, k).Some?
    ensures Shaped(StepWorker(s, k).value) && ResultsInv(StepWorker(s, k).value)
  {
    hide CountsInv, SumsInv, FatesInv, ReportsInv, ResultsInv, Count;
    var t, w := StepWorker(s, k).value, s.workers[k];
    assert JobInv(s, w);
    WorkerEffect(s, k);
    if w.Outcomed? {
      RecordKeepsResults(s, w.r, w.o, t);
    } else if w.Got? {
      OthersKeepResults(s, w.r, t.fates[w.r], t);
    } else {
      SameResults(s, t);
    }
  }

  lemma WorkerKeepsFates(s: State, k: nat)
    requires Inv(s) && k < |s.workers| && StepWorker(s, k).Some?
    ensures Shaped(StepWorker(s, k).value) && FatesInv(StepWorker(s, k).value)
  {
    hide CountsInv, SumsInv, ResultsInv, ReportsInv;
    assert JobInv(s, s.workers[k]);
    WorkerEffect(s, k);
  }

  lemma WorkerKeepsJobs(s: State, k: nat)
    requires Inv(s) && k < |s.workers| && StepWorker(s, k).Some?
    ensures Shaped(StepWorker(s, k).value) && JobsInv(StepWorker(s, k).value)
  {
    hide SumsInv, ResultsInv, FatesInv, ReportsInv;
    var t := StepWorker(s, k).value;
    assert JobInv(s, s.workers[k]);
    WorkerEffect(s, k);
    JobsMove(s, k, t);
  }

  lemma CountKeepsReports(s: State, k: nat)
    requires ReportsInv(s) && k < |s.workers| && s.workers[k].Uncounted? && |s.ids| == |s.fates|
    ensures ReportsInv(StepWorker(s, k).value)
  {
    var t := StepWorker(s, k).value;
    forall v: nat ensures Times(t, v) == if 1 <= v <= t.completed then 1 else 0 {
      CountUpdate(s.workers, k, t.workers[k], ReportsValue(v));
      assert Times(s, v) == if 1 <= v <= s.completed then 1 else 0;
    }
  }

  lemma ReportKeepsReports(s: State, k: nat)
    requires ReportsInv(s) && k < |s.workers| && s.workers[k].Reporting? && |s.ids| == |s.fates|
    ensures ReportsInv(StepWorker(s, k).value)
  {
    var t := StepWorker(s, k).value;
    forall v: nat ensures Times(t, v) == Times(s, v) {
      CountUpdate(s.workers, k, Idle, ReportsValue(v));
    }
  }

  lemma WorkerKeepsReports(s: State, k: nat)
    requires Inv(s) && k < |s.workers| && StepWorker(s, k).Some?
    ensures ReportsInv(StepWorker(s, k).value)
  {
    hide CountsInv, SumsInv, ResultsInv, FatesInv, ReportsInv, Count;
    assert JobInv(s, s.workers[k]);
    WorkerEffect(s, k);
    if s.workers[k].Uncounted? { CountKeepsReports(s, k); }
    else if s.workers[k].Reporting? { ReportKeepsReports(s, k); }
    else { ReportsUnmoved(s, k, StepWorker(s, k).value); }
  }

  lemma WorkerKeepsInv(s: State, k: nat)
    requires Inv(s) && k < |s.workers| && StepWorker(s, k).Some?
    ensures Inv(StepWorker(s, k).value)
  {
    hide CountsInv, SumsInv, ResultsInv, FatesInv, JobsInv, ReportsInv, StepWorker;
    WorkerKeepsCounts(s, k);
    WorkerKeepsSums(s, k);
    WorkerKeepsResults(s, k);
    WorkerKeepsFates(s, k);
    WorkerKeepsJobs(s, k);
    WorkerKeepsReports(s, k);
  }

  lemma CallKeepsInv(s: State, k: nat, o: Outcome)
    requires Inv(s) && Next(s, CallEnds(k, o)).Some?
    ensures Inv(Next(s, CallEnds(k, o)).value)
  {
    var t := Next(s, CallEnds(k, o)).value;
    assert JobInv(s, s.workers[k]);
    WorkerCounts(s, k, t.workers[k]);
    ReportsUnmoved(s, k, t);
    JobsMove(s, k, t);
  }

  /** The feeder's place in its life and the parent's end change, and nothing else. */
  lemma FlagKeepsInv(s: State, t: State)
    requires Inv(s) && t == s.(feed := t.feed, parentDone := t.parentDone) && t.feed.next == s.feed.next
    requires (s.parentDone ==> t.parentDone) && (t.feed.Feeding? ==> s.feed.Feeding?)
    requires t.feed.Finished? ==> Count(s.workers, IsExited) == |s.workers|
    requires !t.feed.Feeding? && t.feed.next < |t.ids| ==> BatchDone(t)
    ensures Inv(t)
  {
    hide SumTokens, SumCost, Count;
    assert FatesInv(t);
    forall k | 0 <= k < |s.workers| ensures JobInv(t, t.workers[k]) { assert JobInv(s, s.workers[k]); }
    assert forall v: nat :: Times(t, v) == Times(s, v);
  }

  lemma FeederKeepsInv(s: State, a: Action)
    requires Inv(s) && Next(s, a).Some? && (a.FeedStops? || a.FeedEnds?)
    ensures Inv(Next(s, a).value)
  {
    hide CountsInv, SumsInv, ResultsInv, JobsInv, ReportsInv;
    FlagKeepsInv(s, Next(s, a).value);
  }

  lemma ParentEndKeepsInv(s: State)
    requires Inv(s)
    ensures Inv(Next(s, ParentEnds).value)
  {
    hide SumsInv, ResultsInv, JobsInv, ReportsInv;
    FlagKeepsInv(s, Next(s, ParentEnds).value);
  }

  lemma AllDoneKeepsInv(s: State)
    requires Inv(s) && Next(s, AllDone).Some?
    ensures Inv(Next(s, AllDone).value)
  {
    hide CountsInv, SumsInv, ResultsInv, JobsInv, ReportsInv;
    FlagKeepsInv(s, Next(s, AllDone).value);
  }

  lemma PoolKept(s: State, a: Action)
    requires |s.ids| == |s.fates| && Next(s, a).Some?
    ensures |Next(s, a).value.workers| == |s.workers|
  {
  }

  /** Every step of every goroutine keeps the accounting exact. */
  lemma NextKeepsInv(s: State, a: Action)
    requires Inv(s) && Next(s, a).Some?
    ensures Inv(Next(s, a).value) && |Next(s, a).value.workers| == |s.workers|
  {
    PoolKept(s, a);
    hide CountsInv, SumsInv, ResultsInv, FatesInv, JobsInv, ReportsInv;
    match a
    case FeedTo(k) => FeedKeepsInv(s, k);
    case WorkerGo(k) => WorkerKeepsInv(s, k);
    case CallEnds(k, o) => CallKeepsInv(s, k, o);
    case FeedStops => FeederKeepsInv(s, a);
    case FeedEnds => FeederKeepsInv(s, a);
    case ParentEnds => ParentEndKeepsInv(s);
    case AllDone => AllDoneKeepsInv(s);
  }

  function Execute(s: State, actions: seq<Action>): (t: Option<State>)
    requires |s.ids| == |s.fates|
    ensures t.Some? ==> |t.value.ids| == |t.value.fates|
    decreases |actions|
  {
    if actions == [] then Some(s)
    else match Next(s, actions[0])
      case None => None
      case Some(t) => if |t.ids| == |t.fates| then Execute(t, actions[1..]) else None
  }

  lemma {:induction false} ExecuteKeepsInv(s: State, actions: seq<Action>)
    requires Inv(s) && Execute(s, actions).Some?
    ensures Inv(Execute(s, actions).value) && |Execute(s, actions).value.workers| == |s.workers|
    decreases |actions|
  {
    hide CountsInv, SumsInv, ResultsInv, FatesInv, JobsInv, ReportsInv, Next;
    if actions != [] {
      NextKeepsInv(s, actions[0]);
      ExecuteKeepsInv(Next(s, actions[0]).value, actions[1..]);
    }
  }

  // ---- What ProcessBatch returns ----

  /** One count of the usage of all successes. */
  function SumOf(fates: seq<Fate>, count: Tokens -> int): int {
    if fates == [] then 0
    else
      var f := fates[|fates| - 1];
      SumOf(fates[..|fates| - 1], count) + if IsSuccess(f) then count(f.o.usage.tokens) else 0
  }

  lemma {:induction false} SumsByCount(fates: seq<Fate>)
    ensures UsageIs(SumTokens(fates), fates)
  {
    if fates != [] { SumsByCount(fates[..|fates| - 1]); }
  }

  /** Each count of `t` is the sum of that count over the successes. */
  ghost predicate UsageIs(t: Tokens, fates: seq<Fate>) {
    && t.prompt == SumOf(fates, (u: Tokens) => u.prompt)
    && t.completion == SumOf(fates, (u: Tokens) => u.completion)
    && t.total == SumOf(fates, (u: Tokens) => u.total)
    && t.cacheRead == SumOf(fates, (u: Tokens) => u.cacheRead)
    && t.cacheCreation == SumOf(fates, (u: Tokens) => u.cacheCreation)
    && t.reasoning == SumOf(fates, (u: Tokens) => u.reasoning)
  }

  /** `result` tells how a request ended: its response, or what went wrong. */
  predicate Tells(result: BatchResult, id: string, o: Outcome) {
    match o
    case Response(usage) => result == Succeeded(id, usage)
    case _ => result == FailedWith(id, o)
  }

  /** In the run, a worker's call for request `r` ends with `o`. */
  ghost predicate CallEnded(s: State, actions: seq<Action>, r: nat, o: Outcome)
    requires |s.ids| == |s.fates|
    decreases |actions|
  {
    && actions != []
    && ((actions[0].CallEnds? && actions[0].o == o && CallsFor(s, actions[0].k, r))
        || (Next(s, actions[0]).Some? && |Next(s, actions[0]).value.ids| == |Next(s, actions[0]).value.fates|
            && CallEnded(Next(s, actions[0]).value, actions[1..], r, o)))
  }

  predicate CallsFor(s: State, k: nat, r: nat) {
    k < |s.workers| && s.workers[k] == Calling(r)
  }

  /** Request `r` has ended with `o`, or a worker is about to record that it has. */
  ghost predicate HasOutcome(s: State, r: nat, o: Outcome) {
    (r < |s.fates| && s.fates[r] == Ended(o)) || exists k :: 0 <= k < |s.workers| && s.workers[k] == Outcomed(r, o)
  }

  lemma {:induction false} OutcomesHappened(s: State, actions: seq<Action>, r: nat, o: Outcome)
    requires |s.ids| == |s.fates| && Execute(s, actions).Some? && HasOutcome(Execute(s, actions).value, r, o)
    ensures HasOutcome(s, r, o) || CallEnded(s, actions, r, o)
    decreases |actions|
  {
    hide Next, HasOutcome;
    if actions != [] {
      OutcomesHappened(Next(s, actions[0]).value, actions[1..], r, o);
      if HasOutcome(Next(s, actions[0]).value, r, o) { OneStepOutcome(s, actions[0], r, o); }
    }
  }

  /** Worker k moves on to `w`, and fate `q` becomes `f`; no outcome comes about. */
  lemma NoOutcomeMade(s: State, t: State, k: nat, r: nat, o: Outcome)
    requires HasOutcome(t, r, o) && k < |s.workers| && |t.workers| == |s.workers| && |t.fates| == |s.fates|
    requires t.workers == s.workers[k := t.workers[k]] && t.workers[k] != Outcomed(r, o)
    requires r < |s.fates| && t.fates[r] == Ended(o) ==> s.fates[r] == Ended(o) || s.workers[k] == Outcomed(r, o)
    ensures HasOutcome(s, r, o)
  {
    if !(r < |t.fates| && t.fates[r] == Ended(o)) {
      var j :| 0 <= j < |t.workers| && t.workers[j] == Outcomed(r, o);
      assert s.workers[j] == Outcomed(r, o);
    }
  }

  lemma JobOutcome(s: State, k: nat, q: nat, p: Outcome, r: nat, o: Outcome)
    requires |s.ids| == |s.fates| && k < |s.workers| && q < |s.ids|
    ensures s.workers[k] == Outcomed(q, p) && HasOutcome(Record(s, k, q, p), r, o) ==> HasOutcome(s, r, o)
    ensures HasOutcome(CheckContext(s, k, q), r, o) ==> HasOutcome(s, r, o)
  {
    hide HasOutcome, Plus, ResultFor;
    var t, u := Record(s, k, q, p), CheckContext(s, k, q);
    if s.workers[k] == Outcomed(q, p) && HasOutcome(t, r, o) { NoOutcomeMade(s, t, k, r, o); }
    if HasOutcome(u, r, o) { NoOutcomeMade(s, u, k, r, o); }
  }

  lemma WorkerStepOutcome(s: State, k: nat, r: nat, o: Outcome)
    requires |s.ids| == |s.fates| && k < |s.workers| && StepWorker(s, k).Some?
    requires HasOutcome(StepWorker(s, k).value, r, o)
    ensures HasOutcome(s, r, o)
  {
    hide HasOutcome, Record, CheckContext;
    var w := s.workers[k];
    if w.Outcomed? {
      JobOutcome(s, k, w.r, w.o, r, o);
    } else if w.Got? {
      JobOutcome(s, k, w.r, Panic, r, o);
    } else {
      NoOutcomeMade(s, StepWorker(s, k).value, k, r, o);
    }
  }

  lemma OneStepOutcome(s: State, a: Action, r: nat, o: Outcome)
    requires |s.ids| == |s.fates| && Next(s, a).Some? && HasOutcome(Next(s, a).value, r, o)
    ensures HasOutcome(s, r, o) || (a.CallEnds? && a.o == o && CallsFor(s, a.k, r))
  {
    hide Count, StepWorker;
    match a
    case WorkerGo(k) => WorkerStepOutcome(s, k, r, o);
    case FeedTo(k) => NoOutcomeMade(s, Next(s, a).value, k, r, o);
    case CallEnds(k, p) =>
      if !(p == o && CallsFor(s, k, r)) { NoOutcomeMade(s, Next(s, a).value, k, r, o); }
    case _ =>
  }

  // ---- Stopping at a failure ----

  /** About to cancel the batch, if it must not go on. */
  predicate ToCancel(w: Worker) {
    w.Recorded? && !w.o.Response?
  }

  /** Without ContinueOnError a failure has cancelled the batch, or is about to. */
  ghost predicate StopInv(s: State) {
    !s.continueOnError && s.failureCount > 0 ==>
      s.cancelled || exists k :: 0 <= k < |s.workers| && ToCancel(s.workers[k])
  }

  lemma WorkerKeepsStop(s: State, k: nat)
    requires StopInv(s) && |s.ids| == |s.fates| && k < |s.workers| && StepWorker(s, k).Some?
    ensures StopInv(StepWorker(s, k).value)
  {
    hide Plus, ResultFor;
    var t := StepWorker(s, k).value;
    if !s.continueOnError && t.failureCount > 0 && !t.cancelled {
      if ToCancel(t.workers[k]) {
      } else {
        var j :| 0 <= j < |s.workers| && ToCancel(s.workers[j]);
        assert ToCancel(t.workers[j]);
      }
    }
  }

  lemma NextKeepsStop(s: State, a: Action)
    requires StopInv(s) && |s.ids| == |s.fates| && Next(s, a).Some?
    ensures StopInv(Next(s, a).value)
  {
    hide StepWorker, Count;
    var t := Next(s, a).value;
    if a.WorkerGo? {
      WorkerKeepsStop(s, a.k);
    } else if j :| 0 <= j < |s.workers| && ToCancel(s.workers[j]) {
      assert ToCancel(t.workers[j]);
    }
  }

  lemma {:induction false} ExecuteKeepsStop(s: State, actions: seq<Action>)
    requires StopInv(s) && |s.ids| == |s.fates| && Execute(s, actions).Some?
    ensures StopInv(Execute(s, actions).value)
    decreases |actions|
  {
    hide Next, StopInv;
    if actions != [] {
      NextKeepsStop(s, actions[0]);
      ExecuteKeepsStop(Next(s, actions[0]).value, actions[1..]);
    }
  }

  /** A call starts only while the parent is live and no failure has cancelled the batch, and both stay so for good. */
  lemma StartsOnlyLive(s: State, a: Action, k: nat)
    requires |s.ids| == |s.fates| && Next(s, a).Some? && k < |s.workers| == |Next(s, a).value.workers|
    ensures var t := Next(s, a).value;
      && (t.workers[k].Calling? && !s.workers[k].Calling? ==> !s.parentDone && !s.cancelled)
      && (s.parentDone ==> t.parentDone) && (s.cancelled ==> t.cancelled)
  {
    hide Plus, ResultFor, Count;
  }

  predicate NeverRan(f: Fate) { f.Skipped? || f.Waiting? }

  /** An error is returned exactly when the parent context has ended and some request never ran. */
  lemma ErrorExactly(s: State)
    requires Inv(s) && s.feed.Finished?
    ensures ReturnsError(s) <==> s.parentDone && exists r :: 0 <= r < |s.fates| && NeverRan(s.fates[r])
  {
    FinishedConserved(s);
    CountWitness(s.fates, IsEnded);
    if r :| 0 <= r < |s.fates| && NeverRan(s.fates[r]) { assert !IsEnded(s.fates[r]); }
  }

  /** TotalUsage.Cost and the returned error. */
  function TotalCost(s: State): Option<real> { if s.allCosts && s.successCount > 0 then Some(s.cost) else None }

  predicate ReturnsError(s: State) { s.parentDone && |s.results| < |s.ids| }

  /** While it runs: every recorded request is recorded under its own ID with its own outcome and counted once, and the
      progress values reported are distinct and in range. */
  lemma AlwaysConserved(s: State)
    requires Inv(s)
    ensures s.successCount + s.failureCount == |s.results| <= |s.ids|
    ensures forall r | 0 <= r < |s.ids| :: s.ids[r] in s.results <==> s.fates[r].Ended?
    ensures forall r | 0 <= r < |s.ids| && s.fates[r].Ended? :: Tells(s.results[s.ids[r]], s.ids[r], s.fates[r].o)
    ensures UsageIs(s.tokens, s.fates)
    ensures forall v: nat :: multiset(s.reports)[v] <= if 1 <= v <= |s.results| then 1 else 0
  {
    SumsByCount(s.fates);
    forall v: nat ensures multiset(s.reports)[v] <= if 1 <= v <= |s.results| then 1 else 0 {
      assert Times(s, v) == if 1 <= v <= s.completed then 1 else 0;
    }
  }

  /** Once all workers are gone, nothing is in hand or to be counted. */
  lemma FinishedIdle(s: State)
    requires Inv(s) && s.feed.Finished?
    ensures Count(s.fates, InHand) == 0 && Count(s.workers, ToCount) == 0
    ensures forall v: nat :: Count(s.workers, ReportsValue(v)) == 0
  {
    CountWitness(s.workers, IsExited);
    CountNone(s.workers, HasJob);
    CountNone(s.workers, ToCount);
    forall v: nat ensures Count(s.workers, ReportsValue(v)) == 0 { CountNone(s.workers, ReportsValue(v)); }
  }

  lemma CostSetExactly(s: State)
    requires Inv(s)
    ensures TotalCost(s).Some? <==> (exists r :: 0 <= r < |s.fates| && IsSuccess(s.fates[r]))
                                    && forall r | 0 <= r < |s.fates| && IsSuccess(s.fates[r]) ::
                                      s.fates[r].o.usage.cost.Some?
    ensures TotalCost(s).Some? ==> TotalCost(s).value == SumCost(s.fates)
  {
    CountWitness(s.fates, IsSuccess);
    CountWitness(s.fates, IsUnpriced);
  }

  /** When it returns: every request that started has its result, progress has reported 1 to |Results| once each,
      usage is the sum over the successes, and a cost is set exactly when there is a success and every success
      reported one. */
  lemma FinishedConserved(s: State)
    requires Inv(s) && s.feed.Finished?
    ensures forall r | 0 <= r < |s.ids| :: s.fates[r].Ended? || s.fates[r].Skipped? || s.fates[r].Waiting?
    ensures s.successCount + s.failureCount == |s.results| && UsageIs(s.tokens, s.fates)
    ensures forall v: nat :: multiset(s.reports)[v] == if 1 <= v <= |s.results| then 1 else 0
    ensures TotalCost(s).Some? <==> (exists r :: 0 <= r < |s.fates| && IsSuccess(s.fates[r]))
                                    && forall r | 0 <= r < |s.fates| && IsSuccess(s.fates[r]) ::
                                      s.fates[r].o.usage.cost.Some?
    ensures TotalCost(s).Some? ==> TotalCost(s).value == SumCost(s.fates)
  {
    hide Count, FatesInv, JobsInv, IsSuccess;
    FinishedIdle(s);
    CostSetExactly(s);
    SumsByCount(s.fates);
    CountWitness(s.fates, InHand);
    forall r | 0 <= r < |s.ids| ensures !InHand(s.fates[r]) {}
    forall v: nat ensures multiset(s.reports)[v] == if 1 <= v <= |s.results| then 1 else 0 {
      assert Times(s, v) == if 1 <= v <= s.completed then 1 else 0;
    }
  }

  /** With ContinueOnError and a live parent context, every request has a result and no error is returned; and a short
      result map always has a cause the caller can see: the parent's end, or a failure without ContinueOnError. */
  lemma FinishedComplete(s: State)
    requires Inv(s) && s.feed.Finished?
    ensures s.continueOnError && !s.parentDone ==> |s.results| == |s.ids| && !ReturnsError(s)
    ensures |s.results| < |s.ids| ==> s.parentDone || (!s.continueOnError && s.failureCount > 0)
  {
    FinishedConserved(s);
    CountWitness(s.fates, IsEnded);
    if |s.results| < |s.ids| {
      var r :| 0 <= r < |s.fates| && !IsEnded(s.fates[r]);
      assert s.fates[r].Skipped? || (s.fates[r].Waiting? && s.feed.next < |s.ids|);
    }
  }

  /** No reachable state is stuck: until ProcessBatch returns, the feeder or some worker can go on, given that calls in
      flight end, even if the parent context never does. */
  lemma NeverStuck(s: State)
    requires Inv(s) && !s.feed.Finished? && |s.workers| > 0
    ensures exists a: Action :: a != ParentEnds && Next(s, a).Some?
  {
    if k: nat :| k < |s.workers| && !s.workers[k].Idle? && !s.workers[k].Exited? {
      WorkerCanStep(s, k);
    } else if s.feed.Feeding? {
      assert JobInv(s, s.workers[0]);
      if s.feed.next < |s.ids| { assert Next(s, FeedTo(0)).Some?; } else { assert Next(s, FeedEnds).Some?; }
    } else if k: nat :| k < |s.workers| && s.workers[k].Idle? {
      assert Next(s, WorkerGo(k)).Some?;
    } else {
      CountWitness(s.workers, IsExited);
      assert Next(s, AllDone).Some?;
    }
  }

  lemma WorkerCanStep(s: State, k: nat)
    requires Inv(s) && k < |s.workers| && !s.workers[k].Idle? && !s.workers[k].Exited?
    ensures exists a: Action :: a != ParentEnds && Next(s, a).Some?
  {
    assert JobInv(s, s.workers[k]);
    if s.workers[k].Calling? {
      assert Next(s, CallEnds(k, Panic)).Some?;
    } else {
      assert Next(s, WorkerGo(k)).Some?;
    }
  }

  /** Over every interleaving from the start: the run can go on until ProcessBatch returns; what is recorded adds up at
      all times, each result telling how a call for its request ended; and once it returns nothing is missing without a
      cause, and an error tells of requests that the parent's end kept from running. */
  lemma EveryRun(ids: seq<string>, continueOnError: bool, concurrency: nat, actions: seq<Action>)
    requires forall q, r | 0 <= q < r < |ids| :: ids[q] != ids[r]
    requires Execute(Start(ids, continueOnError, concurrency), actions).Some?
    ensures var t := Execute(Start(ids, continueOnError, concurrency), actions).value;
      && t.ids == ids && |t.fates| == |ids| && t.successCount + t.failureCount == |t.results|
      && UsageIs(t.tokens, t.fates)
      && (forall r | 0 <= r < |ids| && ids[r] in t.results ::
            t.fates[r].Ended? && Tells(t.results[ids[r]], ids[r], t.fates[r].o)
            && CallEnded(Start(ids, continueOnError, concurrency), actions, r, t.fates[r].o))
      && (t.feed.Finished? ==>
            && (!continueOnError && t.failureCount > 0 ==> t.cancelled)
            && (ReturnsError(t) <==> t.parentDone && exists r :: 0 <= r < |t.fates| && NeverRan(t.fates[r]))
            && (forall v: nat :: multiset(t.reports)[v] == if 1 <= v <= |t.results| then 1 else 0)
            && (t.continueOnError && !t.parentDone ==> |t.results| == |t.ids|))
      && (!t.feed.Finished? && concurrency > 0 ==> exists a: Action :: a != ParentEnds && Next(t, a).Some?)
  {
    hide Inv, Next, Execute, SumTokens, UsageIs, Tells, CallEnded, HasOutcome, Count;
    StartInv(ids, continueOnError, concurrency);
    ExecuteKeepsInv(Start(ids, continueOnError, concurrency), actions);
    var t := Execute(Start(ids, continueOnError, concurrency), actions).value;
    AlwaysConserved(t);
    IdsKept(Start(ids, continueOnError, concurrency), actions);
    forall r | 0 <= r < |ids| && ids[r] in t.results
      ensures CallEnded(Start(ids, continueOnError, concurrency), actions, r, t.fates[r].o)
    {
      EndedCall(ids, continueOnError, concurrency, actions, r);
    }
    if !t.feed.Finished? && concurrency > 0 { NeverStuck(t); }
    if t.feed.Finished? {
      FinishedConserved(t);
      FinishedComplete(t);
      ErrorExactly(t);
      FailureCancelled(ids, continueOnError, concurrency, actions);
    }
  }

  lemma FailureCancelled(ids: seq<string>, continueOnError: bool, concurrency: nat, actions: seq<Action>)
    requires Execute(Start(ids, continueOnError, concurrency), actions).Some?
    requires Inv(Execute(Start(ids, continueOnError, concurrency), actions).value)
    ensures var t := Execute(Start(ids, continueOnError, concurrency), actions).value;
      t.feed.Finished? && !continueOnError && t.failureCount > 0 ==> t.cancelled
  {
    hide Next, Execute, CountsInv, SumsInv, ResultsInv, FatesInv, JobsInv, ReportsInv;
    var s := Start(ids, continueOnError, concurrency);
    var t := Execute(s, actions).value;
    ExecuteKeepsStop(s, actions);
    IdsKept(s, actions);
    if t.feed.Finished? {
      FinishedIdle(t);
      CountWitness(t.workers, ToCount);
    }
  }

  lemma OneStepIds(s: State, a: Action)
    requires |s.ids| == |s.fates| && Next(s, a).Some?
    ensures Next(s, a).value.ids == s.ids && Next(s, a).value.continueOnError == s.continueOnError
  {
    hide StepWorker, Count;
  }

  lemma {:induction false} IdsKept(s: State, actions: seq<Action>)
    requires |s.ids| == |s.fates| && Execute(s, actions).Some?
    ensures Execute(s, actions).value.ids == s.ids
    ensures Execute(s, actions).value.continueOnError == s.continueOnError
    decreases |actions|
  {
    hide Next;
    if actions != [] {
      OneStepIds(s, actions[0]);
      IdsKept(Next(s, actions[0]).value, actions[1..]);
    }
  }

  lemma {:induction false} EndedCall(ids: seq<string>, continueOnError: bool, concurrency: nat, actions: seq<Action>,
                                     r: nat)
    requires Execute(Start(ids, continueOnError, concurrency), actions).Some?
    requires var t := Execute(Start(ids, continueOnError, concurrency), actions).value;
      r < |t.fates| && t.fates[r].Ended?
    ensures var t := Execute(Start(ids, continueOnError, concurrency), actions).value;
      CallEnded(Start(ids, continueOnError, concurrency), actions, r, t.fates[r].o)
  {
    hide Next, Execute;
    var s := Start(ids, continueOnError, concurrency);
    OutcomesHappened(s, actions, r, Execute(s, actions).value.fates[r].o);
  }

  /** validateBatchRequestIDs. */
  method ValidateBatchRequestIDs(ids: seq<string>) returns (ok: bool)
    ensures ok <==> forall q, r | 0 <= q < r < |ids| :: ids[q] != ids[r]
  {
    var seen: set<string> := {};
    for i := 0 to |ids|
      invariant seen == set j | 0 <= j < i :: ids[j]
      invariant forall q, r | 0 <= q < r < i :: ids[q] != ids[r]
    {
      if ids[i] in seen {
        var q :| 0 <= q < i && ids[q] == ids[i];
        return false;
      }
      seen := seen + {ids[i]};
    }
    return true;
  }
}
