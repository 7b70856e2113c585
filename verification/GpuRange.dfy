/** The range search on a graphics card: threads that run their kernel and race for the least winner
    of a window, and the windows one after the other. */
module GpuRange {
  import opened Base
  import opened Decimals
  import opened Sha256Blocks
  import opened ProofOfWork
  import opened GpuSearch
  import opened SingleBlock

  // ---- The race for the least winner ------------------------------------------------------

  // A launch over so many candidates, so many of them for each thread.
  datatype Launch = Launch(total: nat, perThread: nat, wins: nat -> bool)

  // A thread reads the shared best index once, when it starts, and lowers it once, when it has found
  // a winner; in between it works on its own memory only.
  datatype Thread = Waiting | Scanning | Finished

  datatype Race = Race(best: nat, threads: seq<Thread>)

  function First(l: Launch, t: nat): nat {
    if t == 0 then 0 else First(l, t - 1) + l.perThread
  }

  function Limit(l: Launch, t: nat): nat {
    if First(l, t) + l.perThread > l.total then l.total else First(l, t) + l.perThread
  }

  function Start(l: Launch, threads: nat): Race {
    Race(l.total, seq(threads, _ => Waiting))
  }

  // The first winning candidate from an index on.
  function FirstWinner(l: Launch, from: nat, to: nat): Option<nat>
    decreases if from < to then to - from else 0
  {
    if from >= to then None else if l.wins(from) then Some(from) else FirstWinner(l, from + 1, to)
  }

  ghost predicate IsFirst(l: Launch, from: nat, to: nat, winner: Option<nat>) {
    && (winner.Some? ==> from <= winner.value < to && l.wins(winner.value))
    && forall i: nat :: from <= i < (if winner.Some? then winner.value else to) ==> !l.wins(i)
  }

  lemma {:induction false} FirstWinnerIsLeast(l: Launch, from: nat, to: nat)
    ensures IsFirst(l, from, to, FirstWinner(l, from, to))
    decreases if from < to then to - from else 0
  {
    if from < to && !l.wins(from) {
      FirstWinnerIsLeast(l, from + 1, to);
    }
  }

  // What a thread does next. When it starts it may see any value the shared index held before; the
  // update of the index is atomic.
  function Moved(l: Launch, s: Race, t: nat, seen: nat): Race
    requires t < |s.threads|
  {
    match s.threads[t]
    case Waiting =>
      s.(threads := s.threads[t := if First(l, t) >= l.total || First(l, t) >= seen then Finished else Scanning])
    case Scanning =>
      Race(Lowered(s.best, FirstWinner(l, First(l, t), Limit(l, t))), s.threads[t := Finished])
    case Finished => s
  }

  function Lowered(best: nat, winner: Option<nat>): nat {
    if winner.Some? && winner.value < best then winner.value else best
  }

  ghost predicate Next(l: Launch, s: Race, s': Race) {
    exists t: nat, seen: nat :: t < |s.threads| && seen >= s.best && !s.threads[t].Finished? && s' == Moved(l, s, t, seen)
  }

  // What a thread has found out so far.
  ghost predicate Settled(l: Launch, s: Race, t: nat)
    requires t < |s.threads|
  {
    match s.threads[t]
    case Waiting => true
    case Scanning => First(l, t) < l.total
    case Finished => forall i :: First(l, t) <= i < Limit(l, t) && l.wins(i) ==> s.best <= i
  }

  ghost predicate Fair(l: Launch, s: Race) {
    && s.best <= l.total && (s.best < l.total ==> l.wins(s.best))
    && forall t :: 0 <= t < |s.threads| ==> Settled(l, s, t)
  }

  lemma MoveKeepsFair(l: Launch, s: Race, t: nat, seen: nat)
    requires l.perThread >= 1 && Fair(l, s) && t < |s.threads| && seen >= s.best
    ensures Fair(l, Moved(l, s, t, seen))
  {
    hide First;
    var s' := Moved(l, s, t, seen);
    FirstWinnerIsLeast(l, First(l, t), Limit(l, t));
    assert Settled(l, s, t);
    forall u | 0 <= u < |s'.threads|
      ensures Settled(l, s', u)
    {
      assert Settled(l, s, u);
    }
  }

  ghost predicate AllFinished(s: Race) {
    forall t :: 0 <= t < |s.threads| ==> s.threads[t].Finished?
  }

  // The least winning index, or the number of candidates when there is none.
  ghost predicate IsLeastWinner(l: Launch, best: nat) {
    best <= l.total && (best < l.total ==> l.wins(best)) && forall i: nat :: i < best ==> !l.wins(i)
  }

  // Every candidate is some thread's.
  lemma {:induction false} CandidateHasThread(l: Launch, threads: nat, i: nat) returns (t: nat)
    requires l.perThread >= 1 && i < First(l, threads)
    ensures t < threads && First(l, t) <= i < First(l, t) + l.perThread
  {
    if i >= First(l, threads - 1) {
      t := threads - 1;
    } else {
      t := CandidateHasThread(l, threads - 1, i);
    }
  }

  lemma FinishedRaceIsWon(l: Launch, s: Race)
    requires l.perThread >= 1 && Fair(l, s) && AllFinished(s) && First(l, |s.threads|) >= l.total
    ensures IsLeastWinner(l, s.best)
  {
    hide First;
    forall i: nat | i < s.best
      ensures !l.wins(i)
    {
      var t := CandidateHasThread(l, |s.threads|, i);
      assert Settled(l, s, t);
    }
  }

  ghost predicate IsRun(l: Launch, threads: nat, run: seq<Race>) {
    run != [] && run[0] == Start(l, threads) && forall i :: 0 <= i < |run| - 1 ==> Next(l, run[i], run[i + 1])
  }

  lemma {:induction false} RunsStayFair(l: Launch, threads: nat, run: seq<Race>)
    requires l.perThread >= 1 && IsRun(l, threads, run)
    ensures Fair(l, run[|run| - 1]) && |run[|run| - 1].threads| == threads
    decreases |run|
  {
    if |run| > 1 {
      var front, s := run[..|run| - 1], run[|run| - 2];
      RunsStayFair(l, threads, front);
      assert Next(l, run[|run| - 2], run[|run| - 2 + 1]);
      var t: nat, seen: nat :| t < |s.threads| && seen >= s.best && !s.threads[t].Finished? && run[|run| - 1] == Moved(l, s, t, seen);
      MoveKeepsFair(l, s, t, seen);
    }
  }

  // However the threads are interleaved and however stale the values they read, once all have
  // finished the shared index is the least winner.
  lemma EveryInterleavingFindsTheLeast(l: Launch, threads: nat, run: seq<Race>)
    requires l.perThread >= 1 && First(l, threads) >= l.total && IsRun(l, threads, run) && AllFinished(run[|run| - 1])
    ensures IsLeastWinner(l, run[|run| - 1].best)
  {
    RunsStayFair(l, threads, run);
    FinishedRaceIsWon(l, run[|run| - 1]);
  }

  // How many moves a thread has left, at most, and all threads together.
  function Remaining(th: Thread): nat {
    match th
    case Waiting => 2
    case Scanning => 1
    case Finished => 0
  }

  function TotalRemaining(threads: seq<Thread>): nat {
    if threads == [] then 0 else TotalRemaining(threads[..|threads| - 1]) + Remaining(threads[|threads| - 1])
  }

  lemma {:induction false} OneThreadMoves(threads: seq<Thread>, t: nat, th: Thread)
    requires t < |threads|
    ensures TotalRemaining(threads[t := th]) == TotalRemaining(threads) - Remaining(threads[t]) + Remaining(th)
  {
    var front := threads[..|threads| - 1];
    if t == |threads| - 1 {
      assert threads[t := th][..t] == front;
    } else {
      OneThreadMoves(front, t, th);
      assert threads[t := th][..|threads| - 1] == front[t := th];
    }
  }

  // Every move brings the launch closer to its end.
  lemma MovesRunOut(l: Launch, s: Race, t: nat, seen: nat)
    requires t < |s.threads| && !s.threads[t].Finished?
    ensures TotalRemaining(Moved(l, s, t, seen).threads) < TotalRemaining(s.threads)
  {
    hide First, FirstWinner;
    OneThreadMoves(s.threads, t, Moved(l, s, t, seen).threads[t]);
  }

  lemma StartIsFair(l: Launch, threads: nat)
    ensures Fair(l, Start(l, threads))
  {
  }

  // ---- Launches ---------------------------------------------------------------------------

  lemma {:induction false} NonceAtTwice(start: nat, step: nat, a: nat, b: nat)
    ensures NonceAt(NonceAt(start, step, a), step, b) == NonceAt(start, step, a + b)
  {
    if b > 0 {
      NonceAtTwice(start, step, a, b - 1);
    }
  }

  lemma {:induction false} FirstIsProduct(l: Launch, t: nat)
    ensures First(l, t) == t * l.perThread
  {
    if t > 0 {
      FirstIsProduct(l, t - 1);
      assert t * l.perThread == (t - 1) * l.perThread + l.perThread;
    }
  }

  // Enough threads to cover a window.
  function ThreadCount(attempts: nat, perThread: nat, groupSize: nat): nat
    requires perThread >= 1 && groupSize >= 1
  {
    var threads := (attempts + perThread - 1) / perThread;
    var groups := (threads + groupSize - 1) / groupSize;
    (if groups >= 1 then groups else 1) * groupSize
  }

  lemma RoundedUp(n: nat, d: nat)
    requires d >= 1
    ensures (n + d - 1) / d * d >= n
  {
    var m := n + d - 1;
    assert m == d * (m / d) + m % d;
  }

  lemma ThreadsCover(l: Launch, groupSize: nat)
    requires l.perThread >= 1 && groupSize >= 1
    ensures First(l, ThreadCount(l.total, l.perThread, groupSize)) >= l.total
  {
    var threads := (l.total + l.perThread - 1) / l.perThread;
    var launched := ThreadCount(l.total, l.perThread, groupSize);
    RoundedUp(l.total, l.perThread);
    RoundedUp(threads, groupSize);
    FirstIsProduct(l, launched);
    assert launched >= threads;
    MoreTimes(threads, launched, l.perThread);
  }

  lemma {:induction false} MoreTimes(a: nat, b: nat, d: nat)
    requires a <= b
    ensures a * d <= b * d
    decreases b
  {
    if a < b {
      MoreTimes(a, b - 1, d);
      assert b * d == (b - 1) * d + d;
    }
  }

  // The nonce a thread forms for a candidate, in 64 bits.
  function CandidateNonce(current: nat, step: nat, i: nat): nat {
    NonceAt(current, step, i) % U64
  }

  ghost function LaunchOf(h: Hash, message: seq<int>, difficulty: nat, current: nat, step: nat, window: nat, perThread: nat): Launch {
    Launch(window, perThread, (i: nat) => Wins(h, message, difficulty, CandidateNonce(current, step, i)))
  }

  // What a window's kernel is given: for windows of one digit count the count, and the words of the
  // one block that is left when there is room for it.
  datatype Kernel = Generic | FixedDigits(digits: nat) | OneBlock(digits: nat, base: seq<int>)

  ghost predicate Suits(k: Kernel, prefix: Context, message: seq<int>, current: nat, step: nat, window: nat)
    reads prefix, prefix.data
  {
    && (!k.Generic? ==>
          && step == 1 && current + window <= U64 && 1 <= k.digits <= MAX_FIXED_DIGIT_LENGTH && prefix.Valid()
          && forall n: nat :: current <= n < current + window ==> |Decimal(n)| == k.digits)
    && (k.OneBlock? ==>
          && prefix.dataLength + k.digits < 56 && |k.base| == 16 && AreWords(k.base)
          && BytesOf(k.base) == prefix.data[..prefix.dataLength] + Zeros(k.digits) + Padding(|message| + k.digits))
  }

  // Which kernel serves a window.
  method ChooseKernel(h: Hash, prefix: Context, digits: Option<nat>, ghost message: seq<int>, ghost current: nat, ghost step: nat, ghost window: nat)
    returns (k: Kernel)
    requires prefix.Holds(h, message) && AreBytes(message)
    requires digits.Some? ==>
               && step == 1 && current + window <= U64 && 1 <= digits.value <= MAX_FIXED_DIGIT_LENGTH
               && forall n: nat :: current <= n < current + window ==> |Decimal(n)| == digits.value
    ensures Suits(k, prefix, message, current, step, window)
    ensures k.Generic? <==> digits.None?
    ensures k.OneBlock? <==> digits.Some? && prefix.dataLength + digits.value < 56
  {
    hide Decimal, BytesOf, AreWords, Padding, Zeros;
    if digits.None? {
      return Generic;
    }
    var words := PrepareSingleBlockWords(prefix, digits.value, h, message);
    if words.Some? {
      return OneBlock(digits.value, words.value);
    }
    return FixedDigits(digits.value);
  }

  // The first winner among the candidates of one thread, hashed one by one in the plain way.
  method ScanGeneric(h: Hash, prefix: Context, difficulty: nat, current: nat, step: nat, first: nat, limit: nat, ghost message: seq<int>, ghost l: Launch)
    returns (winner: Option<nat>)
    requires Sane(h) && prefix.Holds(h, message) && difficulty <= 256
    requires forall i: nat :: l.wins(i) == Wins(h, message, difficulty, CandidateNonce(current, step, i))
    ensures winner == FirstWinner(l, first, limit)
  {
    hide Decimal, Fold, Digest, HasLeadingZeroBits, NumberOf, NonceAt;
    var candidate := first;
    while candidate < limit
      invariant first <= candidate && FirstWinner(l, first, limit) == FirstWinner(l, candidate, limit)
    {
      NoncesAreEvenlySpaced(current, step, candidate);
      var digest := HashPrefixWithNonce(h, prefix, (current + candidate * step) % U64, message);
      var wins := WordsHaveLeadingZeroBits(digest, difficulty);
      if wins {
        return Some(candidate);
      }
      candidate := candidate + 1;
    }
    winner := None;
  }

  lemma OnlyOneFirstWinner(l: Launch, from: nat, to: nat, winner: Option<nat>)
    requires IsFirst(l, from, to, winner)
    ensures winner == FirstWinner(l, from, to)
  {
    FirstWinnerIsLeast(l, from, to);
  }

  // In a window of step one whose nonces fit 64 bits, candidates are the numbers after the first.
  lemma CandidatesInARow(h: Hash, message: seq<int>, difficulty: nat, current: nat, first: nat, limit: nat, l: Launch)
    requires current + limit <= U64
    requires forall i: nat :: l.wins(i) == Wins(h, message, difficulty, CandidateNonce(current, 1, i))
    ensures forall i: nat :: first <= i < limit ==> l.wins(i) == Wins(h, message, difficulty, current + i)
  {
    hide Wins, NonceAt;
    forall i: nat | first <= i < limit
      ensures l.wins(i) == Wins(h, message, difficulty, current + i)
    {
      NoncesAreEvenlySpaced(current, 1, i);
    }
  }

  // One thread of whichever kernel.
  method ScanThread(h: Hash, prefix: Context, k: Kernel, difficulty: nat, current: nat, step: nat, first: nat, limit: nat,
                    ghost message: seq<int>, ghost l: Launch) returns (winner: Option<nat>)
    requires Sane(h) && prefix.Holds(h, message) && difficulty <= 256 && first < limit <= l.total
    requires Suits(k, prefix, message, current, step, l.total)
    requires forall i: nat :: l.wins(i) == Wins(h, message, difficulty, CandidateNonce(current, step, i))
    ensures winner == FirstWinner(l, first, limit)
  {
    hide Decimal, Fold, Digest, Wins, NonceAt, FirstWinner, BytesOf, AreWords, Padding, Zeros;
    match k {
      case Generic =>
        winner := ScanGeneric(h, prefix, difficulty, current, step, first, limit, message, l);
      case FixedDigits(digits) =>
        winner := ScanFixedDigits(h, prefix, difficulty, current, first, limit, digits, message);
        CandidatesInARow(h, message, difficulty, current, first, limit, l);
        Agrees(h, message, difficulty, current, first, limit, l, winner);
      case OneBlock(digits, base) =>
        winner := ScanSingleBlock(h, prefix, difficulty, base, current, first, limit, digits, message);
        CandidatesInARow(h, message, difficulty, current, first, limit, l);
        Agrees(h, message, difficulty, current, first, limit, l, winner);
    }
  }

  lemma Agrees(h: Hash, message: seq<int>, difficulty: nat, current: nat, first: nat, limit: nat, l: Launch, winner: Option<nat>)
    requires forall i: nat :: first <= i < limit ==> l.wins(i) == Wins(h, message, difficulty, current + i)
    requires match winner
             case None => NoneWins(h, message, difficulty, current, first, limit)
             case Some(i) => first <= i < limit && Wins(h, message, difficulty, current + i) && NoneWins(h, message, difficulty, current, first, i)
    ensures winner == FirstWinner(l, first, limit)
  {
    hide Wins, FirstWinner;
    forall i: nat | first <= i < (if winner.Some? then winner.value else limit)
      ensures !l.wins(i)
    {
      assert !Wins(h, message, difficulty, current + i);
    }
    OnlyOneFirstWinner(l, first, limit, winner);
  }

  // A launch whose threads run their kernel and are scheduled in an arbitrary way.
  method RunKernel(h: Hash, prefix: Context, k: Kernel, difficulty: nat, current: nat, step: nat, window: nat, perThread: nat, threads: nat,
                   ghost message: seq<int>) returns (best: nat)
    requires Sane(h) && prefix.Holds(h, message) && difficulty <= 256 && perThread >= 1
    requires Suits(k, prefix, message, current, step, window)
    requires First(LaunchOf(h, message, difficulty, current, step, window, perThread), threads) >= window
    ensures IsLeastWinner(LaunchOf(h, message, difficulty, current, step, window, perThread), best)
  {
    hide First, Fair, IsLeastWinner, TotalRemaining, FirstWinner, Wins, Suits, CandidateNonce, Sane;
    ghost var l := LaunchOf(h, message, difficulty, current, step, window, perThread);
    ghost var s := Start(l, threads);
    StartIsFair(l, threads);
    best := window;
    var states: seq<Thread> := seq(threads, _ => Waiting);
    var unfinished: set<nat> := set t: nat | t < threads && states[t].Waiting?;
    while unfinished != {}
      invariant Fair(l, s) && |states| == threads && s == Race(best, states)
      invariant forall t :: t in unfinished ==> 0 <= t < threads && !states[t].Finished?
      invariant forall t :: 0 <= t < threads && t !in unfinished ==> states[t].Finished?
      decreases TotalRemaining(states)
    {
      var t :| t in unfinished;
      var delay: nat :| true;
      var seen := best + delay;
      MovesRunOut(l, s, t, seen);
      MoveKeepsFair(l, s, t, seen);
      FirstIsProduct(l, t);
      ghost var moved := Moved(l, s, t, seen);
      var first := t * perThread;
      if states[t].Scanning? {
        FairThread(l, s, t);
        var limit := if first + perThread > window then window else first + perThread;
        var winner := ScanThread(h, prefix, k, difficulty, current, step, first, limit, message, l);
        best := Lowered(best, winner);
        states := states[t := Finished];
      } else {
        states := states[t := if first >= window || first >= seen then Finished else Scanning];
      }
      s := moved;
      if states[t].Finished? {
        unfinished := unfinished - {t};
      }
    }
    FinishedRaceIsWon(l, s);
  }

  lemma FairThread(l: Launch, s: Race, t: nat)
    requires Fair(l, s) && t < |s.threads| && s.threads[t].Scanning?
    ensures First(l, t) < l.total
  {
    assert Settled(l, s, t);
  }

  // ---- The range search -------------------------------------------------------------------

  // What the search reports; stuck when no candidate is left below 2^64 and the loop goes round
  // without moving on until it is cancelled.
  datatype RangeResult = RangeResult(nonce: nat, digest: seq<int>, found: bool, cancelled: bool, stuck: bool, attempts: nat)

  // As far as the nonces tried fit 64 bits, none of the first k candidates wins.
  ghost predicate Cleared(h: Hash, message: seq<int>, difficulty: nat, start: nat, step: nat, k: nat) {
    (k >= 1 ==> NonceAt(start, step, k - 1) < U64) ==> NoWinnerBefore(h, message, difficulty, start, step, k)
  }

  // The windows tile the range in order, so the search returns its least winning nonce, or has
  // tried every candidate, or was cancelled, or is stuck right after the last 64-bit nonce. What is
  // said about a candidate supposes only that the candidates up to it fit 64 bits.
  method SearchGpuRange(h: Hash, prefix: Context, difficulty: nat, start: nat, limit: nat, batch: nat, step: nat,
                        perThread: nat, groupSize: nat, cancelRequested: nat -> bool, ghost message: seq<int>) returns (r: RangeResult)
    requires Sane(h) && prefix.Holds(h, message) && AreBytes(message) && difficulty <= 256
    requires start < U64 && limit >= 1 && batch >= 1 && step >= 1 && perThread >= 1 && groupSize >= 1
    ensures r.attempts <= limit && (r.cancelled ==> !r.found && cancelRequested(r.attempts))
    ensures r.found ==>
              && r.attempts >= 1 && r.nonce == NonceAt(start, step, r.attempts - 1) && r.digest == NonceHash(h, message, r.nonce)
              && (r.nonce < U64 ==> Wins(h, message, difficulty, r.nonce)) && Cleared(h, message, difficulty, start, step, r.attempts - 1)
    ensures !r.found ==> Cleared(h, message, difficulty, start, step, r.attempts)
    ensures r.stuck ==> !r.found && step == 1 && NonceAt(start, step, r.attempts) == U64
    ensures !r.found && !r.cancelled && !r.stuck ==> r.attempts == limit
  {
    hide Wins, Decimal, DispatchWindow, Cleared, NonceAt, Digest, Sane;
    NothingTriedYet(h, message, difficulty, start, step);
    var attempts, current, last := 0, start, start;
    while attempts < limit
      invariant attempts <= limit && current == NonceAt(start, step, attempts) && last >= 0
      invariant Cleared(h, message, difficulty, start, step, attempts)
      invariant step == 1 ==> current <= U64
    {
      if cancelRequested(attempts) {
        return RangeResult(last, [], false, true, false, attempts);
      }
      WindowFacts(current, limit - attempts, batch, step);
      var (window, digits) := DispatchWindow(current, limit - attempts, batch, step);
      if window < 1 {
        return RangeResult(last, [], false, false, true, attempts);
      }
      var best := SearchWindow(h, prefix, difficulty, current, window, step, digits, perThread, groupSize, message, start, attempts);
      NonceAtTwice(start, step, attempts, best);
      if best < window {
        var nonce := NonceAt(current, step, best);
        var digest := HashPrefixWithNonce(h, prefix, nonce, message);
        return RangeResult(nonce, digest, true, false, false, attempts + best + 1);
      }
      NoncesAreEvenlySpaced(current, step, window);
      LastNonce(start, step, attempts + window);
      attempts := attempts + window;
      current := NonceAt(current, step, window);
      last := current - step;
    }
    return RangeResult(last, [], false, false, false, attempts);
  }

  // What the range search needs to know of a window.
  lemma WindowFacts(current: nat, remaining: int, batch: int, step: nat)
    requires remaining >= 1 && batch >= 1 && step >= 1 && (step == 1 ==> current <= U64)
    ensures var (window, digits) := DispatchWindow(current, remaining, batch, step);
            && 0 <= window <= remaining && (window < 1 ==> step == 1 && current == U64)
            && (digits.Some? && window >= 1 ==>
                  && step == 1 && 1 <= digits.value <= MAX_FIXED_DIGIT_LENGTH
                  && forall n: nat :: current <= n < current + window ==> |Decimal(n)| == digits.value)
            && (step == 1 ==> digits.Some? && current + window <= U64)
  {
    hide Decimal;
    if step == 1 {
      if current < U64 {
        WindowKeepsDigits(current, remaining, batch, 1);
        TwentyDigits(current);
        var (window, digits) := DispatchWindow(current, remaining, batch, 1);
        assert |Decimal(current + window - 1)| == digits.value;
      } else {
        TenToTheTwenty();
        assert Power10(20) == 10 * Power10(19);
        DigitsOf(current, 20);
      }
    }
  }

  // One launch over a window of the range.
  method SearchWindow(h: Hash, prefix: Context, difficulty: nat, current: nat, window: nat, step: nat, digits: Option<nat>,
                      perThread: nat, groupSize: nat, ghost message: seq<int>, ghost start: nat, ghost attempts: nat) returns (best: nat)
    requires Sane(h) && prefix.Holds(h, message) && AreBytes(message) && difficulty <= 256 && perThread >= 1 && groupSize >= 1
    requires digits.Some? ==>
               && step == 1 && current + window <= U64 && 1 <= digits.value <= MAX_FIXED_DIGIT_LENGTH
               && forall n: nat :: current <= n < current + window ==> |Decimal(n)| == digits.value
    requires current == NonceAt(start, step, attempts) && Cleared(h, message, difficulty, start, step, attempts)
    ensures best <= window && Cleared(h, message, difficulty, start, step, attempts + best)
    ensures best < window && NonceAt(start, step, attempts + best) < U64 ==> Wins(h, message, difficulty, NonceAt(start, step, attempts + best))
  {
    hide Wins, IsLeastWinner, First, ThreadCount, Cleared, NonceAt, Suits, Sane, Decimal;
    var k := ChooseKernel(h, prefix, digits, message, current, step, window);
    ghost var l := LaunchOf(h, message, difficulty, current, step, window, perThread);
    ThreadsCover(l, groupSize);
    best := RunKernel(h, prefix, k, difficulty, current, step, window, perThread, ThreadCount(window, perThread, groupSize), message);
    WindowIsSearched(h, message, difficulty, start, step, attempts, window, perThread, best);
  }

  lemma LastNonce(start: nat, step: nat, k: nat)
    requires k >= 1
    ensures NonceAt(start, step, k) == NonceAt(start, step, k - 1) + step
  {
  }

  lemma NothingTriedYet(h: Hash, message: seq<int>, difficulty: nat, start: nat, step: nat)
    ensures Cleared(h, message, difficulty, start, step, 0) && NonceAt(start, step, 0) == start
  {
  }

  lemma WindowIsSearched(h: Hash, message: seq<int>, difficulty: nat, start: nat, step: nat, attempts: nat, window: nat, perThread: nat, best: nat)
    requires IsLeastWinner(LaunchOf(h, message, difficulty, NonceAt(start, step, attempts), step, window, perThread), best)
    requires Cleared(h, message, difficulty, start, step, attempts)
    ensures best <= window && Cleared(h, message, difficulty, start, step, attempts + best)
    ensures best < window && NonceAt(start, step, attempts + best) < U64 ==> Wins(h, message, difficulty, NonceAt(start, step, attempts + best))
  {
    hide Wins, NonceAt;
    var l := LaunchOf(h, message, difficulty, NonceAt(start, step, attempts), step, window, perThread);
    forall i: nat | NonceAt(start, step, attempts + i) < U64
      ensures l.wins(i) == Wins(h, message, difficulty, NonceAt(start, step, attempts + i))
    {
      NonceAtTwice(start, step, attempts, i);
    }
    var k := attempts + best;
    if k >= 1 && NonceAt(start, step, k - 1) < U64 {
      if attempts >= 1 {
        NoncesGrow(start, step, attempts - 1, k - 1);
      }
      forall j: nat | j < k
        ensures !Wins(h, message, difficulty, NonceAt(start, step, j))
      {
        NoncesGrow(start, step, j, k - 1);
        if j >= attempts {
          assert !l.wins(j - attempts);
        }
      }
    }
  }
}
