/** Decimal rendering of indices (`usize::to_string`) and their `"."`-joined
    form, with the parsers that invert them. */
module Render {
  import opened Common

  predicate IsDigit(ch: char)
  {
    '0' <= ch <= '9'
  }

  predicate AllDigits(s: string)
  {
    forall i :: 0 <= i < |s| ==> IsDigit(s[i])
  }

  function Digit(d: nat): (ch: char)
    requires d < 10
    ensures IsDigit(ch)
  {
    (d + '0' as int) as char
  }

  /** `usize::to_string`: most significant digit first, no leading zeros. */
  function ToDecimal(n: nat): (s: string)
    ensures |s| > 0 && AllDigits(s)
    ensures |s| == 1 || s[0] != '0'
    decreases n
  {
    if n < 10 then [Digit(n)] else ToDecimal(n / 10) + [Digit(n % 10)]
  }

  /** The number a string of decimal digits denotes. */
  function ParseDecimal(s: string): nat
    requires AllDigits(s)
    decreases |s|
  {
    if s == [] then 0
    else ParseDecimal(s[..|s| - 1]) * 10 + (s[|s| - 1] as int - '0' as int)
  }

  lemma {:induction false} ParseToDecimal(n: nat)
    ensures ParseDecimal(ToDecimal(n)) == n
    decreases n
  {
    if n >= 10 {
      var s := ToDecimal(n);
      assert s[..|s| - 1] == ToDecimal(n / 10);
      ParseToDecimal(n / 10);
    }
  }

  /** The indices in decimal, joined by `"."`. */
  function JoinIndices(path: seq<nat>): (s: string)
    ensures (|s| == 0) == (|path| == 0)
    decreases |path|
  {
    if path == [] then ""
    else if |path| == 1 then ToDecimal(path[0])
    else ToDecimal(path[0]) + "." + JoinIndices(path[1..])
  }

  /** Position of the first `ch` in `s`, or `|s|` when there is none. */
  function FindChar(s: string, ch: char): (k: nat)
    ensures k <= |s|
    ensures k < |s| ==> s[k] == ch
    ensures forall j :: 0 <= j < k ==> s[j] != ch
    decreases |s|
  {
    if s == [] then 0 else if s[0] == ch then 0 else 1 + FindChar(s[1..], ch)
  }

  /** A digit string ends at the first occurrence of a non-digit. */
  lemma FindCharAfterDigits(d: string, ch: char, rest: string)
    requires AllDigits(d) && !IsDigit(ch)
    ensures FindChar(d + [ch] + rest, ch) == |d|
    ensures FindChar(d, ch) == |d|
  {
    var s := d + [ch] + rest;
    assert forall j :: 0 <= j < |d| ==> s[j] == d[j] && s[j] != ch;
    assert s[|d|] == ch;
    assert !IsDigit(s[FindChar(s, ch)]);
  }

  /** Reads back a `"."`-separated list of decimal numbers; `None` on any
      empty or non-numeric segment. */
  function ParseIndices(s: string): Option<seq<nat>>
    decreases |s|
  {
    if s == [] then Some([])
    else
      var k := FindChar(s, '.');
      var head := s[..k];
      if head == [] || !AllDigits(head) then None
      else if k == |s| then Some([ParseDecimal(head)])
      else match ParseIndices(s[k + 1..])
        case Some(rest) => if rest == [] then None else Some([ParseDecimal(head)] + rest)
        case None => None
  }

  /** Joining never loses information: the rendered path reads back as itself. */
  lemma {:induction false} ParseJoinIndices(path: seq<nat>)
    ensures ParseIndices(JoinIndices(path)) == Some(path)
    decreases |path|
  {
    if path != [] {
      var d := ToDecimal(path[0]);
      ParseToDecimal(path[0]);
      if |path| == 1 {
        FindCharAfterDigits(d, '.', "");
        assert d[..|d|] == d;
        assert path == [path[0]];
      } else {
        var s := JoinIndices(path);
        assert s == d + "." + JoinIndices(path[1..]);
        FindCharAfterDigits(d, '.', JoinIndices(path[1..]));
        assert s[..|d|] == d;
        assert s[|d| + 1..] == JoinIndices(path[1..]);
        ParseJoinIndices(path[1..]);
        assert path == [path[0]] + path[1..];
      }
    }
  }
}
