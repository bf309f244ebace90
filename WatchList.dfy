/** The watch list `address.txt`, loaded once by `_load_addresses`: one address per line,
    white space around it ignored, and lines holding the marker `wallet` dropped. */
module WatchList {
  import opened PyText

  /** The lines of the file as `readlines()` in text mode gives them, line breaks being
      `\n`, `\r` or `\r\n`. A `\r\n` yields an extra empty piece here, which the filter
      below drops, so the resulting set is the same. */
  function Lines(text: string): seq<string> {
    SplitOn(text, {'\n', '\r'})
  }

  /** The condition of the comprehension: `x.strip() and "wallet" not in x`. */
  predicate Keeps(line: string) {
    Strip(line) != "" && !Contains(line, "wallet")
  }

  /** The list `[x.strip() for x in lines if x.strip() and "wallet" not in x]`. */
  function Kept(lines: seq<string>): seq<string> {
    if |lines| == 0 then []
    else (if Keeps(lines[0]) then [Strip(lines[0])] else []) + Kept(lines[1..])
  }

  /** `_load_addresses`: the empty set when the file does not exist. */
  function LoadAddresses(file: Option<string>): (r: set<string>)
    ensures file.None? ==> r == {}
  {
    match file
    case None => {}
    case Some(text) => set a | a in Kept(Lines(text))
  }

  lemma {:induction false} KeptMembers(lines: seq<string>, a: string)
    ensures a in Kept(lines) <==> exists l :: l in lines && Keeps(l) && Strip(l) == a
  {
    if |lines| > 0 {
      KeptMembers(lines[1..], a);
      if a !in Kept(lines) {
        forall l | l in lines && Keeps(l) ensures Strip(l) != a {
          if l != lines[0] { assert l in lines[1..]; }
        }
      }
    }
  }

  /** An address is loaded exactly when some line of the file, stripped, is that address,
      is not empty and does not hold the marker. */
  lemma LoadedExactly(text: string, a: string)
    ensures a in LoadAddresses(Some(text)) <==>
            exists l :: l in Lines(text) && Keeps(l) && Strip(l) == a
  {
    KeptMembers(Lines(text), a);
  }

  /** Every loaded address is non-empty, has no white space at either end, contains no
      line break and no `wallet` marker. */
  lemma LoadedShape(file: Option<string>, a: string)
    requires a in LoadAddresses(file)
    ensures a != "" && Strip(a) == a && !Contains(a, "wallet")
    ensures '\n' !in a && '\r' !in a
  {
    var text := file.value;
    LoadedExactly(text, a);
    var l :| l in Lines(text) && Keeps(l) && Strip(l) == a;
    StripIdempotent(l);
    if Contains(a, "wallet") { ContainsInStrip(l, "wallet"); }
    assert Avoids(l, {'\n', '\r'});
    if '\n' in a { StripChars(l, '\n'); }
    if '\r' in a { StripChars(l, '\r'); }
  }
}
