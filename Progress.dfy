/** The progress cache `cache.txt`: one line `cursor-rangeStart-rangeEnd`, written by the
    status ticker and by the first run of a sequential scan, read back when a scan
    resumes. */
module Progress {
  import opened PyText

  /** The Python exceptions the range-reading code can raise. */
  datatype PyError = IndexError | ValueError

  datatype Result<T> = Ok(value: T) | Err(error: PyError) {
    predicate IsFailure() { Err? }
    function PropagateFailure<U>(): Result<U> requires Err? { Err(error) }
    function Extract(): T requires Ok? { value }
  }

  /** The three numbers of a cache line, under the names the scanner gives them: `startN`
      is where dispatch begins, `startR` the start of the range the user asked for and
      `endN` its exclusive end. */
  datatype Range = Range(startN: int, startR: int, endN: int)

  predicate NonNegative(r: Range) {
    r.startN >= 0 && r.startR >= 0 && r.endN >= 0
  }

  /** The line the ticker writes, `f"{cur_n}-{start_r}-{end_n}"`. */
  function FormatCache(cur: int, startR: int, endN: int): string {
    FormatInt(cur) + "-" + FormatInt(startR) + "-" + FormatInt(endN)
  }

  predicate NoDash(s: string) {
    Avoids(s, {'-'})
  }

  lemma FormatNatNoDash(n: nat)
    ensures NoDash(FormatInt(n))
  {
    assert IsDigits(FormatInt(n));
  }

  /** `int(parts[k])`: an `IndexError` past the end, a `ValueError` when it is not a number;
      a piece of a split on `-` never gives a negative number. */
  function Field(parts: seq<string>, k: nat): (r: Result<int>)
    requires forall p :: p in parts ==> NoDash(p)
    ensures r == Err(IndexError) <==> k >= |parts|
    ensures r.Ok? ==> k < |parts| && ParseInt(parts[k]) == Some(r.value) && r.value >= 0
    ensures r.Err? && k < |parts| ==> ParseInt(parts[k]).None?
  {
    if k >= |parts| then Err(IndexError)
    else
      assert parts[k] in parts && NoDash(parts[k]);
      match ParseInt(parts[k])
      case None => Err(ValueError)
      case Some(v) => Ok(v)
  }

  /** The three assignments shared by the resume and the first-run paths: `start_r` from
      `r0[1]`, then `start_n` from `r0[0]`, then `end_n` from `r0[2]`, so the first failing
      field decides the exception. */
  function ReadFields(parts: seq<string>): (r: Result<Range>)
    requires forall p :: p in parts ==> NoDash(p)
    ensures r.Ok? ==> NonNegative(r.value) && |parts| >= 3 &&
                      ParseInt(parts[0]) == Some(r.value.startN) &&
                      ParseInt(parts[1]) == Some(r.value.startR) &&
                      ParseInt(parts[2]) == Some(r.value.endN)
    ensures r.Err? ==> |parts| < 3 || ParseInt(parts[0]).None? || ParseInt(parts[1]).None? ||
                       ParseInt(parts[2]).None?
  {
    var startR :- Field(parts, 1);
    var startN :- Field(parts, 0);
    var endN :- Field(parts, 2);
    Ok(Range(startN, startR, endN))
  }

  /** Resuming: the file is split on `-`; printing `r0[2]` raises `IndexError` on fewer than
      three pieces before any field is read; pieces after the third are ignored. */
  function ParseCache(text: string): (r: Result<Range>)
    ensures r.Ok? ==> NonNegative(r.value)
    ensures |SplitOn(text, {'-'})| < 3 ==> r == Err(IndexError)
  {
    var r0 := SplitOn(text, {'-'});
    if |r0| < 3 then Err(IndexError) else ReadFields(r0)
  }

  /** First run: `r0.insert(1, r0[0])`; `a-b` becomes `a-a-b`. */
  function Normalise(r0: seq<string>): (r: seq<string>)
    requires |r0| >= 1
    ensures |r| == |r0| + 1 && r[0] == r0[0] && r[1] == r0[0] && r[2..] == r0[1..]
  {
    Insert(r0, 1, r0[0])
  }

  /** The line the first run writes into the cache, before any field is read. */
  function FreshCacheLine(typed: string): string {
    Join(Normalise(SplitOn(typed, {'-'})), '-')
  }

  /** The range the first run reads from the typed text. */
  function FreshRange(typed: string): (r: Result<Range>)
    ensures r.Ok? ==> NonNegative(r.value) && r.value.startN == r.value.startR
  {
    ReadFields(Normalise(SplitOn(typed, {'-'})))
  }

  lemma NormalisedNoDash(typed: string)
    ensures forall p :: p in Normalise(SplitOn(typed, {'-'})) ==> NoDash(p)
  {
    var r0 := SplitOn(typed, {'-'});
    var n := Normalise(r0);
    forall p | p in n ensures NoDash(p) {
      var k :| 0 <= k < |n| && n[k] == p;
      if k <= 1 { assert p == r0[0]; assert r0[0] in r0; }
      else { assert p == r0[k - 1]; assert r0[k - 1] in r0; }
    }
  }

  /** A resumed scan starts where the ticker's last line says, with the range bounds it
      recorded. */
  lemma {:induction false} CacheRoundTrip(cur: nat, startR: nat, endN: nat)
    ensures ParseCache(FormatCache(cur, startR, endN)) == Ok(Range(cur, startR, endN))
  {
    var parts := [FormatInt(cur), FormatInt(startR), FormatInt(endN)];
    FormatNatNoDash(cur);
    FormatNatNoDash(startR);
    FormatNatNoDash(endN);
    assert parts[1..][1..] == [FormatInt(endN)];
    assert Join(parts[1..], '-') == FormatInt(startR) + "-" + FormatInt(endN);
    assert Join(parts, '-') == FormatCache(cur, startR, endN);
    SplitJoin(parts, '-');
    ParseFormat(cur);
    ParseFormat(startR);
    ParseFormat(endN);
  }

  /** `a-b` with `a` and `b` numbers gives `start_n = start_r = a` and `end_n = b`; extra
      `-` pieces are ignored and a text with no `-` at all is an error. */
  lemma FreshRangeFields(typed: string)
    ensures var r0 := SplitOn(typed, {'-'});
            FreshRange(typed).Ok? <==>
            |r0| >= 2 && ParseInt(r0[0]).Some? && ParseInt(r0[1]).Some?
    ensures var r0 := SplitOn(typed, {'-'});
            FreshRange(typed).Ok? ==>
            FreshRange(typed).value == Range(ParseInt(r0[0]).value, ParseInt(r0[0]).value, ParseInt(r0[1]).value)
  {
    NormalisedNoDash(typed);
  }

  /** Two numbers joined by `-` are read as the range from the first to the second. */
  lemma {:induction false} FreshPair(a: nat, b: nat)
    ensures FreshRange(FormatInt(a) + "-" + FormatInt(b)) == Ok(Range(a, a, b))
  {
    var parts := [FormatInt(a), FormatInt(b)];
    FormatNatNoDash(a);
    FormatNatNoDash(b);
    assert parts[1..] == [FormatInt(b)];
    assert Join(parts, '-') == FormatInt(a) + "-" + FormatInt(b);
    SplitJoin(parts, '-');
    ParseFormat(a);
    ParseFormat(b);
    FreshRangeFields(FormatInt(a) + "-" + FormatInt(b));
  }

  /** What the first run writes, the next run reads back: the resumed range is the one
      the first run scanned, and when the first run failed the resume fails too. */
  lemma {:induction false} FreshThenResume(typed: string)
    ensures FreshRange(typed).Ok? ==> ParseCache(FreshCacheLine(typed)) == FreshRange(typed)
    ensures FreshRange(typed).Err? ==> ParseCache(FreshCacheLine(typed)).Err?
  {
    var n := Normalise(SplitOn(typed, {'-'}));
    NormalisedNoDash(typed);
    SplitJoin(n, '-');
  }

  /** A range typed without any `-` is written to the cache as `a-a` before it is rejected,
      and that line can never be resumed: every later run stops with an `IndexError`. */
  lemma {:induction false} DashlessInputPoisonsCache(typed: string)
    requires NoDash(typed)
    ensures FreshRange(typed).Err?
    ensures ParseCache(FreshCacheLine(typed)) == Err(IndexError)
  {
    assert SplitOn(typed, {'-'}) == [typed];
    var n := Normalise([typed]);
    assert n == [typed, typed];
    SplitJoin(n, '-');
  }

  /** The range a sequential scan starts from: the cache's when the cache is not empty,
      otherwise the typed one. */
  function StartingRange(cache: string, typed: string): (r: Result<Range>)
    ensures r.Ok? ==> NonNegative(r.value)
  {
    if cache != "" then ParseCache(cache) else FreshRange(typed)
  }

  /** The cache once a sequential scan has started: untouched when it was not empty,
      otherwise the normalised typed range. */
  function CacheAfterStart(cache: string, typed: string): string {
    if cache != "" then cache else FreshCacheLine(typed)
  }

  /** A scan that starts leaves behind a cache from which the next run starts the same
      range; a scan that fails to start leaves one from which the next run fails too. */
  lemma {:induction false} StartThenResume(cache: string, typed: string)
    ensures var next := StartingRange(CacheAfterStart(cache, typed), typed);
            StartingRange(cache, typed).Ok? ==> next == StartingRange(cache, typed)
    ensures StartingRange(cache, typed).Err? ==> StartingRange(CacheAfterStart(cache, typed), typed).Err?
  {
    if cache == "" {
      FreshThenResume(typed);
      assert FreshCacheLine(typed) != "" by {
        NormalisedNoDash(typed);
        var n := Normalise(SplitOn(typed, {'-'}));
        assert |n| >= 2;
        assert FreshCacheLine(typed) == n[0] + ['-'] + Join(n[1..], '-');
      }
    }
  }
}
