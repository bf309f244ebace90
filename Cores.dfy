/** `num_of_cores`: the worker count typed at the prompt, checked against the number of
    processors. */
module Cores {
  import opened PyText

  /** The count the prompt settles on. `available` is `cpu_count()`, never below one. */
  function CoreCount(typed: string, available: int): (r: int)
    requires available >= 1
    ensures 1 <= r <= available
    ensures Strip(typed) == "" ==> r == available
    ensures r != available ==> IsDigits(Strip(typed)) && ParseInt(Strip(typed)) == Some(r)
  {
    var t := Strip(typed);
    if t == "" then available
    else if IsDigits(t) then
      ParseDigits(t);
      var k := ParseInt(t).value;
      if 0 < k <= available then k else available
    else available
  }

  /** A digit string naming between one and all of the processors is taken as typed; any
      other digit string, `0` included, gives all of them. */
  lemma {:induction false} DigitsAccepted(typed: string, available: int)
    requires available >= 1 && IsDigits(Strip(typed))
    ensures var k := DigitsValue(Strip(typed));
            CoreCount(typed, available) == (if 0 < k <= available then k else available)
  {
    ParseDigits(Strip(typed));
  }
}
