/** The scanner object `Btcbf`: its fields, the match test of one candidate, the balance
    check, the core-count prompt, the sequential scan's range loading and dispatch, and one
    tick of the status reporter. Files are modelled by their contents, the worker pool by
    the list of indices submitted to it. */
module KeyZero {
  import opened PyText
  import opened Progress
  import opened Oracle
  import opened WatchList
  import opened Cores
  import opened Dispatch

  /** How the check of one candidate key ends: a match (the source then saves the key and
      exits), no match, or an exception that ends the worker's task. */
  datatype Probe = Match | NoMatch | Failed

  /** `address in self.loaded_addresses or self.check_balance(address)`: the watch list is
      consulted first, and the oracle's verdict decides only when the address is not on it. */
  function CheckCandidate(address: string, loaded: set<string>, outcomes: seq<ProviderOutcome>): (p: Probe)
    ensures address in loaded ==> p == Match
    ensures p == Match <==> address in loaded || BalanceVerdict(outcomes) == Funded
    ensures p == Failed <==> address !in loaded && BalanceVerdict(outcomes) == Raised
  {
    if address in loaded then Match
    else match BalanceVerdict(outcomes)
      case Funded => Match
      case NotFunded => NoMatch
      case Raised => Failed
  }

  /** One line of the status reporter: the cursor, the rate per second over the two-second
      interval, and how far the cursor is past the start of the range. */
  datatype Status = Status(n: int, rate: int, total: int)

  function Abs(x: int): (r: nat)
    ensures r == x || r == -x
  {
    if x < 0 then -x else x
  }

  class Btcbf {
    var startN: int
    var endN: int
    var startR: int
    var curN: int
    var prevN: int
    var sequential: bool
    var cores: int
    /** The addresses of `address.txt`, loaded once. */
    const loadedAddresses: set<string>
    /** `Key().from_int(n).address`; `None` where the key library rejects `n`. */
    const deriveAddress: int -> Option<string>
    /** The contents of `cache.txt`. */
    var cacheFile: string
    /** The indices handed to the worker pool, in submission order. */
    var submitted: seq<int>

    /** The numbers stay non-negative and at least one worker is configured. */
    predicate Valid()
      reads this
    {
      startN >= 0 && endN >= 0 && startR >= 0 && curN >= 0 && prevN >= 0 && cores >= 1
    }

    /** `__init__`: every counter zero, not sequential, the watch list loaded and all
        processors in use. `cache` is the contents of `cache.txt` (empty when it had to be
        created). */
    constructor (addressFile: Option<string>, cache: string, available: int, derive: int -> Option<string>)
      requires available >= 1
      ensures Valid()
      ensures startN == 0 && endN == 0 && startR == 0 && curN == 0 && prevN == 0 && !sequential
      ensures cores == available && cacheFile == cache && submitted == []
      ensures loadedAddresses == LoadAddresses(addressFile) && deriveAddress == derive
    {
      startN, endN, startR, curN, prevN := 0, 0, 0, 0, 0;
      sequential := false;
      loadedAddresses := LoadAddresses(addressFile);
      cores := available;
      deriveAddress := derive;
      cacheFile := cache;
      submitted := [];
    }

    /** `check_balance`: the providers' outcomes are taken in list order; `consulted` is how
        many of them were asked, and what they said decides the verdict. */
    method CheckBalance(outcomes: seq<ProviderOutcome>) returns (v: Verdict, ghost consulted: nat)
      ensures v == BalanceVerdict(outcomes)
      ensures consulted <= |outcomes| && v == BalanceVerdict(outcomes[..consulted])
      ensures consulted < |outcomes| ==> v != NotFunded
      ensures consulted == Consulted(outcomes)
    {
      var i := 0;
      while i < |outcomes|
        invariant 0 <= i <= |outcomes|
        invariant SkippedBefore(outcomes, i) && i <= FirstDecision(outcomes)
        invariant BalanceVerdict(outcomes) == BalanceVerdict(outcomes[i..])
        invariant BalanceVerdict(outcomes[..i]) == NotFunded
      {
        assert outcomes[..i + 1][i..] == [outcomes[i]];
        VerdictAfterSkips(outcomes[..i + 1], i);
        match outcomes[i] {
          case Responded(200, Amount(amount)) =>
            if amount > 0 {
              return Funded, i + 1;
            }
          case Responded(200, WrongShape) =>
            return Raised, i + 1;
          case _ =>
        }
        i := i + 1;
      }
      assert outcomes[i..] == [] && outcomes[..i] == outcomes;
      v, consulted := NotFunded, i;
    }

    /** `sequential_brute(n)`: records `n` as the cursor, derives the key of index `n` and
        tests its address; the oracle is not asked when the address is on the watch list. */
    method SequentialBrute(n: int, outcomes: seq<ProviderOutcome>) returns (p: Probe, ghost consulted: nat)
      requires Valid() && n >= 0
      modifies this`curN
      ensures Valid() && curN == n
      ensures deriveAddress(n).None? ==> p == Failed && consulted == 0
      ensures deriveAddress(n).Some? ==> p == CheckCandidate(deriveAddress(n).value, loadedAddresses, outcomes)
      ensures deriveAddress(n).Some? && deriveAddress(n).value in loadedAddresses ==> consulted == 0
      ensures deriveAddress(n).Some? && deriveAddress(n).value !in loadedAddresses ==> consulted == Consulted(outcomes)
    {
      curN := n;
      match deriveAddress(n)
      case None =>
        p, consulted := Failed, 0;
      case Some(address) =>
        p, consulted := TestCandidate(address, outcomes);
    }

    /** `random_brute(n)`: records `n` as the cursor and tests the address of a randomly
        drawn key, given here as `address`. */
    method RandomBrute(n: int, address: string, outcomes: seq<ProviderOutcome>) returns (p: Probe, ghost consulted: nat)
      requires Valid() && n >= 0
      modifies this`curN
      ensures Valid() && curN == n
      ensures p == CheckCandidate(address, loadedAddresses, outcomes)
      ensures address in loadedAddresses ==> consulted == 0
      ensures address !in loadedAddresses ==> consulted == Consulted(outcomes)
    {
      curN := n;
      p, consulted := TestCandidate(address, outcomes);
    }

    /** The test shared by both brute-force steps. */
    method TestCandidate(address: string, outcomes: seq<ProviderOutcome>) returns (p: Probe, ghost consulted: nat)
      ensures p == CheckCandidate(address, loadedAddresses, outcomes)
      ensures address in loadedAddresses ==> consulted == 0
      ensures address !in loadedAddresses ==> consulted == Consulted(outcomes)
    {
      if address in loadedAddresses {
        return Match, 0;
      }
      var v;
      v, consulted := CheckBalance(outcomes);
      p := match v
        case Funded => Match
        case NotFunded => NoMatch
        case Raised => Failed;
    }

    /** `num_of_cores`: sets the worker count from the typed text and returns it. */
    method NumOfCores(typed: string, available: int) returns (c: int)
      requires Valid() && available >= 1
      modifies this`cores
      ensures Valid()
      ensures c == cores && c == CoreCount(typed, available) && 1 <= c <= available
    {
      cores := CoreCount(typed, available);
      c := cores;
    }

    /** The assignments `start_r = int(r0[1])`, `start_n = int(r0[0])`,
        `end_n = int(r0[2])`, `seq = True`, stopping at the first that raises. */
    method AssignRange(r0: seq<string>) returns (r: Result<Range>)
      requires forall p :: p in r0 ==> NoDash(p)
      requires startN >= 0 && startR >= 0 && endN >= 0
      modifies this`startR, this`startN, this`endN, this`sequential
      ensures r == ReadFields(r0)
      ensures r.Ok? ==> Range(startN, startR, endN) == r.value && sequential
      ensures r.Err? ==> sequential == old(sequential)
      ensures startN >= 0 && startR >= 0 && endN >= 0
    {
      var f := Field(r0, 1);
      if f.Err? { return Err(f.error); }
      startR := f.value;
      f := Field(r0, 0);
      if f.Err? { return Err(f.error); }
      startN := f.value;
      f := Field(r0, 2);
      if f.Err? { return Err(f.error); }
      endN := f.value;
      sequential := true;
      r := Ok(Range(startN, startR, endN));
    }

    /** Resuming: the cache is split on `-` and its fields are read. */
    method ResumeRange() returns (r: Result<Range>)
      requires Valid() && cacheFile != ""
      modifies this`startR, this`startN, this`endN, this`sequential
      ensures Valid()
      ensures r == ParseCache(cacheFile)
      ensures r.Ok? ==> sequential && Range(startN, startR, endN) == r.value
      ensures r.Err? ==> sequential == old(sequential)
    {
      var r0 := SplitOn(cacheFile, {'-'});
      if |r0| < 3 {
        return Err(IndexError);
      }
      r := AssignRange(r0);
    }

    /** The first run: the typed range is split on `-`, its first piece repeated, the
        result written to the cache and then read. */
    method StartFresh(typedRange: string) returns (r: Result<Range>)
      requires Valid() && cacheFile == ""
      modifies this`startR, this`startN, this`endN, this`sequential, this`cacheFile
      ensures Valid()
      ensures cacheFile == FreshCacheLine(typedRange) && r == FreshRange(typedRange)
      ensures r.Ok? ==> sequential && Range(startN, startR, endN) == r.value
      ensures r.Err? ==> sequential == old(sequential)
    {
      var r0 := SplitOn(typedRange, {'-'});
      NormalisedNoDash(typedRange);
      r0 := Insert(r0, 1, r0[0]);
      cacheFile := Join(r0, '-');
      assert Valid();
      r := AssignRange(r0);
    }

    /** The first half of `_sequential_offline_attack`: resume from the cache when it is
        not empty, otherwise start from the typed range. */
    method LoadRange(typedRange: string) returns (r: Result<Range>)
      requires Valid()
      modifies this`startR, this`startN, this`endN, this`sequential, this`cacheFile
      ensures Valid()
      ensures r == StartingRange(old(cacheFile), typedRange)
      ensures cacheFile == CacheAfterStart(old(cacheFile), typedRange)
      ensures r.Ok? ==> sequential && Range(startN, startR, endN) == r.value
      ensures r.Err? ==> sequential == old(sequential)
    {
      if |cacheFile| > 0 {
        r := ResumeRange();
      } else {
        r := StartFresh(typedRange);
      }
    }

    /** The dispatch loop `for i in range(start_n, end_n): pool.submit(...)`. */
    method SubmitRange()
      requires Valid()
      modifies this`submitted
      ensures Valid()
      ensures submitted == old(submitted) + Span(startN, endN)
    {
      var i := startN;
      while i < endN
        invariant i == startN || startN <= i <= endN
        invariant submitted == old(submitted) + Span(startN, i)
      {
        SpanSnoc(startN, i);
        submitted := submitted + [i];
        i := i + 1;
      }
      assert Span(startN, i) == Span(startN, endN);
    }

    /** `_sequential_offline_attack`: load the range, ask for the worker count and submit
        every index of the range in order. */
    method SequentialOfflineAttack(typedRange: string, typedCores: string, available: int)
      returns (r: Result<Range>)
      requires Valid() && available >= 1
      modifies this`startR, this`startN, this`endN, this`sequential, this`cacheFile, this`cores, this`submitted
      ensures Valid()
      ensures r == StartingRange(old(cacheFile), typedRange)
      ensures cacheFile == CacheAfterStart(old(cacheFile), typedRange)
      ensures r.Ok? ==> sequential && Range(startN, startR, endN) == r.value
      ensures r.Ok? ==> cores == CoreCount(typedCores, available)
      ensures r.Ok? ==> submitted == old(submitted) + Span(startN, endN)
      ensures r.Err? ==> sequential == old(sequential) && cores == old(cores) && submitted == old(submitted)
    {
      r := LoadRange(typedRange);
      if r.Err? {
        return;
      }
      var c := NumOfCores(typedCores, available);
      SubmitRange();
    }

    /** The write of `cache.txt` at the end of a tick. */
    method SaveProgress()
      requires Valid()
      modifies this`cacheFile
      ensures Valid()
      ensures cacheFile == FormatCache(curN, startR, endN)
    {
      cacheFile := FormatCache(curN, startR, endN);
    }

    /** One pass of the `speed` loop: nothing happens while the cursor is zero; otherwise the
        status line is produced, the previous cursor is updated and, in a sequential scan
        only, the cache is overwritten with the current cursor and range. */
    method SpeedTick() returns (status: Option<Status>)
      requires Valid()
      modifies this`prevN, this`cacheFile
      ensures Valid()
      ensures curN == 0 ==> status == None && prevN == old(prevN) && cacheFile == old(cacheFile)
      ensures curN != 0 ==> prevN == curN
      ensures curN != 0 && old(prevN) == 0 ==> status == Some(Status(curN, 0, curN - startR))
      ensures curN != 0 && old(prevN) != 0 ==> status == Some(Status(curN, Abs(curN - old(prevN)) / 2, curN - startR))
      ensures curN != 0 && sequential ==> cacheFile == FormatCache(curN, startR, endN)
      ensures !(curN != 0 && sequential) ==> cacheFile == old(cacheFile)
    {
      status := None;
      if curN != 0 {
        var n := curN;
        if prevN == 0 {
          prevN := n;
        }
        status := Some(Status(n, Abs(n - prevN) / 2, n - startR));
        prevN := n;
        if sequential {
          SaveProgress();
        }
      }
    }
  }
}
