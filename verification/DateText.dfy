// Characters, words and layout cells used by the date parser.
module DateText {
  datatype Option<+T> = None | Some(value: T)

  predicate IsDigit(c: char) { '0' <= c <= '9' }

  predicate IsUpper(c: char) { 'A' <= c <= 'Z' }

  predicate IsLetter(c: char) { 'a' <= c <= 'z' || IsUpper(c) }

  function LowerChar(c: char): char {
    if IsUpper(c) then c - 'A' + 'a' else c
  }

  function ToLower(s: string): (r: string)
    ensures |r| == |s|
  {
    seq(|s|, k requires 0 <= k < |s| => LowerChar(s[k]))
  }

  const DAYS: seq<string> := [
    "mon", "tue", "wed", "thu", "fri", "sat", "sun",
    "monday", "tuesday", "wednesday", "thursday", "friday", "saturday", "sunday"]

  const MONTHS: seq<string> := [
    "january", "february", "march", "april", "may", "june",
    "july", "august", "september", "october", "november", "december"]

  predicate IsDay(alpha: string) { alpha in DAYS }

  predicate IsMonthFull(alpha: string) { alpha in MONTHS }

  /** One byte of the layout buffer: either the input byte it was copied from,
      named by its index in the input, or a byte the parser wrote over it. */
  datatype Cell = Src(k: nat) | Put(c: char)

  /** The buffer as it starts: a copy of an input of n bytes. */
  function Fresh(n: nat): (r: seq<Cell>)
    ensures |r| == n
  {
    seq(n, k requires 0 <= k < n => Src(k))
  }

  function Lit(val: string): (r: seq<Cell>)
    ensures |r| == |val|
  {
    seq(|val|, k requires 0 <= k < |val| => Put(val[k]))
  }

  /** parser.set: writes outside the buffer are dropped whole. */
  function Write(l: seq<Cell>, start: int, val: string): (r: seq<Cell>)
    ensures |r| == |l|
  {
    if start < 0 || |l| < start + |val| then l
    else l[..start] + Lit(val) + l[start + |val|..]
  }

  /** What is written, and what is kept. */
  lemma WrittenAt(l: seq<Cell>, start: int, val: string, k: nat)
    requires k < |l|
    ensures Write(l, start, val)[k] ==
            if 0 <= start && start + |val| <= |l| && start <= k < start + |val| then Put(val[k - start]) else l[k]
  {}

  /** The bytes a layout stands for, given the input it was copied from. */
  function Byte(c: Cell, input: string): char {
    match c
    case Put(v) => v
    case Src(k) => if k < |input| then input[k] else ' '
  }

  function Render(l: seq<Cell>, input: string): (r: string)
    ensures |r| == |l|
  {
    seq(|l|, k requires 0 <= k < |l| => Byte(l[k], input))
  }

  /** Number of commas in s. */
  function Commas(s: string): nat {
    if s == "" then 0 else (if s[0] == ',' then 1 else 0) + Commas(s[1..])
  }

  lemma {:induction false} CommaReplaced(s: string, i: nat, c: char)
    requires i < |s| && c != ','
    ensures Commas(s[i := c]) == Commas(s) - (if s[i] == ',' then 1 else 0)
  {
    if i == 0 {
      assert s[i := c][1..] == s[1..];
    } else {
      assert s[i := c][1..] == s[1..][i - 1 := c];
      CommaReplaced(s[1..], i - 1, c);
    }
  }
}
