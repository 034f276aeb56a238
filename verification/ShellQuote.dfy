/** Quoting an argument for the shell, and how the shell reads it back. */
module ShellQuote {
  import opened Common

  const NUL: char := 0 as char
  const QUOTE: char := '\''
  const INT_MAX: nat := 0x7fff_ffff
  const ESCAPED: string := "'\\''"

  /* ---- reading, after sections 2.2.1 and 2.2.2 of the POSIX Shell Command Language ---- */

  predicate IsBlank(ch: char) { ch == ' ' || ch == '\t' || ch == '\n' }

  /** Characters that mean something else to the shell when they are not quoted. */
  predicate IsSpecial(ch: char) {
    ch in "|&;<>()$`\"*?[#~=%{}!"
  }

  /** The words of `s`; `cur` is the word being read, if any, and `quoted` tells that a quote is open. */
  function Words(s: string, quoted: bool, cur: Option<string>): (r: Option<seq<string>>)
    decreases |s|
  {
    if s == "" then
      if quoted then None else Some(if cur.Some? then [cur.value] else [])
    else if quoted then
      // single quotes preserve the literal value of each character within them
      if s[0] == QUOTE then Words(s[1..], false, cur)
      else Words(s[1..], true, Some((if cur.Some? then cur.value else "") + [s[0]]))
    else if s[0] == QUOTE then
      Words(s[1..], true, Some(if cur.Some? then cur.value else ""))
    else if s[0] == '\\' then
      // a backslash preserves the literal value of the next character, but for a newline
      if |s| == 1 then None
      else if s[1] == '\n' then Words(s[2..], false, cur)
      else Words(s[2..], false, Some((if cur.Some? then cur.value else "") + [s[1]]))
    else if IsBlank(s[0]) then
      var rest := Words(s[1..], false, None);
      if rest.None? then None else Some((if cur.Some? then [cur.value] else []) + rest.value)
    else if IsSpecial(s[0]) then None
    else Words(s[1..], false, Some((if cur.Some? then cur.value else "") + [s[0]]))
  }

  /* ---- writing ---- */

  /** `arg` with every quote replaced by: close the quotes, an escaped quote, open them again. */
  function Body(arg: string): (r: string) {
    if arg == "" then "" else Body(arg[..|arg| - 1]) + (if arg[|arg| - 1] == QUOTE then ESCAPED else [arg[|arg| - 1]])
  }

  function Quotes(arg: string): (n: nat)
    ensures n <= |arg|
  {
    if arg == "" then 0 else Quotes(arg[..|arg| - 1]) + (if arg[|arg| - 1] == QUOTE then 1 else 0)
  }

  lemma {:induction false} BodyLength(arg: string)
    ensures |Body(arg)| == |arg| + 3 * Quotes(arg)
  {
    if arg != "" {
      BodyLength(arg[..|arg| - 1]);
    }
  }

  lemma {:induction false} QuotesPrefix(arg: string, n: nat)
    requires n <= |arg|
    ensures Quotes(arg[..n]) <= Quotes(arg)
    decreases |arg| - n
  {
    if n < |arg| {
      QuotesPrefix(arg, n + 1);
      assert arg[..n + 1][..n] == arg[..n];
    } else {
      assert arg[..n] == arg;
    }
  }

  /** First pass: count the quotes, giving up when the counter would overflow. */
  method CountQuotes(arg: string) returns (ok: bool, count: nat)
    ensures ok <==> Quotes(arg) <= INT_MAX
    ensures ok ==> count == Quotes(arg)
  {
    count := 0;
    var i := 0;
    assert arg[..0] == "";
    while i < |arg|
      invariant 0 <= i <= |arg| && count == Quotes(arg[..i]) && count <= INT_MAX
    {
      assert arg[..i + 1][..i] == arg[..i];
      if arg[i] == QUOTE {
        count := count + 1;
        if count > INT_MAX {
          QuotesPrefix(arg, i + 1);
          return false, 0;
        }
      }
      i := i + 1;
    }
    assert arg[..i] == arg;
    return true, count;
  }

  /** Append a string at the first NUL of the buffer from `at` on. */
  method Strcat(buf: array<char>, at: nat, s: string)
    requires at + |s| < buf.Length && buf[at] == NUL && forall j :: at <= j < buf.Length ==> buf[j] == NUL
    modifies buf
    ensures buf[..] == old(buf[..at]) + s + old(buf[at + |s|..])
  {
    var k := 0;
    while k < |s|
      invariant 0 <= k <= |s|
      invariant buf[..] == old(buf[..at]) + s[..k] + old(buf[at + k..])
    {
      buf[at + k] := s[k];
      k := k + 1;
    }
  }

  /** The buffer holds `text`, then only NULs. */
  ghost predicate Holds(buf: array<char>, text: string)
    reads buf
  {
    |text| <= buf.Length && buf[..|text|] == text && forall j :: |text| <= j < buf.Length ==> buf[j] == NUL
  }

  /** Write one character of the argument after `text`. */
  method WriteOne(buf: array<char>, walk: nat, ghost text: string, ch: char) returns (walk': nat)
    requires Holds(buf, text) && walk == |text| && walk + (if ch == QUOTE then 4 else 1) < buf.Length
    modifies buf
    ensures Holds(buf, text + (if ch == QUOTE then ESCAPED else [ch]))
    ensures walk' == walk + (if ch == QUOTE then 4 else 1)
  {
    if ch == QUOTE {
      Strcat(buf, walk, ESCAPED);
      assert buf[..walk + 4] == text + ESCAPED;
      walk' := walk + 4;
    } else {
      buf[walk] := ch;
      walk' := walk + 1;
    }
  }

  /**
   * Quote an argument into a buffer of the size computed beforehand. Every write is inside the
   * buffer and the result is NUL-terminated.
   */
  method QuoteShellArg(arg: string) returns (quoted: Option<array<char>>)
    ensures quoted.Some? <==> Quotes(arg) <= INT_MAX
    ensures quoted.Some? ==> fresh(quoted.value) && quoted.value.Length == |arg| + 4 * Quotes(arg) + 3
    ensures quoted.Some? ==> Holds(quoted.value, Quoted(arg)) && |Quoted(arg)| < quoted.value.Length
  {
    var ok, count := CountQuotes(arg);
    if !ok {
      return None;
    }
    var buf := new char[|arg| + 4 * count + 3](_ => NUL);
    buf[0] := QUOTE;
    var walk := 1;
    var i := 0;
    ghost var text := [QUOTE];
    while i < |arg|
      invariant 0 <= i <= |arg| && text == [QUOTE] + Body(arg[..i]) && walk == |text| && Holds(buf, text)
    {
      assert arg[..i + 1][..i] == arg[..i];
      BodyLength(arg[..i]);
      QuotesPrefix(arg, i + 1);
      walk := WriteOne(buf, walk, text, arg[i]);
      text := text + (if arg[i] == QUOTE then ESCAPED else [arg[i]]);
      i := i + 1;
    }
    assert arg[..i] == arg;
    BodyLength(arg);
    buf[walk] := QUOTE;
    walk := walk + 1;
    buf[walk] := NUL;
    return Some(buf);
  }

  function Quoted(arg: string): (r: string) {
    [QUOTE] + Body(arg) + [QUOTE]
  }

  /* ---- the round trip ---- */

  /** Inside quotes, the body of `arg` reads as `arg`. */
  lemma {:induction false} WordsOfBody(arg: string, cur: string, tail: string)
    ensures Words(Body(arg) + tail, true, Some(cur)) == Words(tail, true, Some(cur + arg))
  {
    if arg == "" {
      assert Body(arg) + tail == tail && cur + arg == cur;
    } else {
      var n := |arg| - 1;
      var last := if arg[n] == QUOTE then ESCAPED else [arg[n]];
      WordsOfBody(arg[..n], cur, last + tail);
      assert Body(arg) + tail == Body(arg[..n]) + (last + tail);
      WordsOfOne(arg[n], cur + arg[..n], tail);
      assert cur + arg[..n] + [arg[n]] == cur + arg;
    }
  }

  lemma WordsOfOne(ch: char, cur: string, tail: string)
    ensures Words((if ch == QUOTE then ESCAPED else [ch]) + tail, true, Some(cur)) == Words(tail, true, Some(cur + [ch]))
  {
    if ch == QUOTE {
      var s := ESCAPED + tail;
      assert s[1..] == "\\''" + tail;
      assert s[1..][2..] == "'" + tail;
      assert s[1..][2..][1..] == tail;
      assert Words(s, true, Some(cur)) == Words(s[1..], false, Some(cur));
      assert Words(s[1..], false, Some(cur)) == Words(s[1..][2..], false, Some(cur + [QUOTE]));
      assert Words(s[1..][2..], false, Some(cur + [QUOTE])) == Words(tail, true, Some(cur + [QUOTE]));
    } else {
      assert ([ch] + tail)[1..] == tail;
    }
  }

  /** The shell reads a quoted argument as exactly one word, the argument. */
  lemma QuotedIsOneWord(arg: string)
    ensures Words(Quoted(arg), false, None) == Some([arg])
  {
    var s := Quoted(arg);
    assert s[1..] == Body(arg) + [QUOTE];
    WordsOfBody(arg, "", [QUOTE]);
    assert "" + arg == arg;
    assert [QUOTE][1..] == "";
  }
}
