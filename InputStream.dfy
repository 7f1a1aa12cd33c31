/**
 * The character stream the tokenizer reads from (`RenderInputStream`): a
 * position into the input, and the line and column of that position for
 * error messages.
 */
module InputStream {
  import opened Wrappers
  import opened Decimal

  /** `input.charAt(i)`: the one-character string at `i`, or `""` past the end. */
  function CharAt(s: string, i: nat): (c: string)
    ensures |c| <= 1
    ensures c == "" <==> i >= |s|
    ensures i < |s| ==> c[0] == s[i]
  {
    if i < |s| then [s[i]] else ""
  }

  /** What `next` does to (line, column) on reading `c`. */
  function Step(pos: (nat, nat), c: string): (nat, nat) {
    if c == "\n" then (pos.0 + 1, 0) else (pos.0, pos.1 + 1)
  }

  /** The (line, column) after `p` calls of `next` from the start. */
  ghost function Track(s: string, p: nat): (nat, nat)
    decreases p
  {
    if p == 0 then (1, 0) else Step(Track(s, p - 1), CharAt(s, p - 1))
  }

  /** The error `term` throws: its reason, the line and column, and an optional cause. */
  datatype StreamError = StreamError(reason: string, line: nat, column: nat, cause: Option<string>)

  /** The thrown error's message: "reason line:column (cause)", or "reason line:column " without a cause. */
  function Message(err: StreamError): (m: string)
    ensures |m| >= |err.reason| + 5 && m[..|err.reason| + 1] == err.reason + " "
    ensures var at := Digits(err.line) + ":" + Digits(err.column) + " ";
      |m| >= |err.reason| + 1 + |at| && m[|err.reason| + 1..|err.reason| + 1 + |at|] == at
    ensures err.cause.Some? && err.cause.value != "" ==> m[|m| - 1] == ')'
    ensures err.cause.None? ==> m[|m| - 1] == ' '
  {
    err.reason + " " + Digits(err.line) + ":" + Digits(err.column) + " " + CauseText(err.cause)
  }

  /** The cause in parentheses, or nothing when there is none or it is empty. */
  function CauseText(cause: Option<string>): string {
    if cause.Some? && cause.value != "" then "(" + cause.value + ")" else ""
  }

  /** What follows the reason and its space: line, `:`, then the column, a space and the cause. */
  lemma MessageAfterReason(err: StreamError)
    ensures Message(err)[|err.reason| + 1..] == Digits(err.line) + [':'] + (Digits(err.column) + [' '] + CauseText(err.cause))
  {
    var m := Message(err);
    var after := Digits(err.line) + [':'] + (Digits(err.column) + [' '] + CauseText(err.cause));
    assert m == (err.reason + " ") + after;
  }

  /** The number of decimal digits at the front of `s`. */
  function LeadingDigits(s: string): (n: nat)
    ensures n <= |s|
  {
    if s == [] || !IsDigit(s[0]) then 0 else 1 + LeadingDigits(s[1..])
  }

  /** Digits followed by a non-digit separator: the separator ends the leading digits. */
  lemma {:induction false} LeadingDigitsBefore(d: string, sep: char, x: string)
    requires forall i | 0 <= i < |d| :: IsDigit(d[i])
    requires !IsDigit(sep)
    ensures LeadingDigits(d + [sep] + x) == |d|
  {
    if d != [] {
      assert (d + [sep] + x)[1..] == d[1..] + [sep] + x;
      LeadingDigitsBefore(d[1..], sep, x);
    }
  }

  /** Two digit strings each followed by the same non-digit separator are split at that separator. */
  lemma SplitAtSeparator(d1: string, d2: string, sep: char, x1: string, x2: string)
    requires forall i | 0 <= i < |d1| :: IsDigit(d1[i])
    requires forall i | 0 <= i < |d2| :: IsDigit(d2[i])
    requires !IsDigit(sep)
    requires d1 + [sep] + x1 == d2 + [sep] + x2
    ensures d1 == d2 && x1 == x2
  {
    var m := d1 + [sep] + x1;
    LeadingDigitsBefore(d1, sep, x1);
    LeadingDigitsBefore(d2, sep, x2);
    assert d1 == m[..|d1|] == d2;
    assert x1 == m[|d1| + 1..] == x2;
  }

  /** Errors with the same reason but a different line or column have different messages. */
  lemma MessageLocates(e1: StreamError, e2: StreamError)
    requires e1.reason == e2.reason
    requires e1.line != e2.line || e1.column != e2.column
    ensures Message(e1) != Message(e2)
  {
    if Message(e1) == Message(e2) {
      var t1, t2 := CauseText(e1.cause), CauseText(e2.cause);
      var r1 := Digits(e1.column) + [' '] + t1;
      var r2 := Digits(e2.column) + [' '] + t2;
      MessageAfterReason(e1);
      MessageAfterReason(e2);
      SplitAtSeparator(Digits(e1.line), Digits(e2.line), ':', r1, r2);
      SplitAtSeparator(Digits(e1.column), Digits(e2.column), ' ', t1, t2);
      DigitsInjective(e1.line, e2.line);
      DigitsInjective(e1.column, e2.column);
    }
  }

  class RenderInputStream {
    const input: string
    var position: nat
    var line: nat
    var column: nat

    /** Line and column always describe the current position. */
    ghost predicate Valid()
      reads this
    {
      (line, column) == Track(input, position)
    }

    constructor (input: string)
      ensures this.input == input
      ensures position == 0 && line == 1 && column == 0
      ensures Valid()
    {
      this.input := input;
      position, column, line := 0, 0, 1;
    }

    /** The next character, consumed: a newline starts a new line, anything else (even `""`) moves the column on. */
    method Next() returns (c: string)
      requires Valid()
      modifies this
      ensures Valid()
      ensures c == CharAt(input, old(position)) && position == old(position) + 1
      ensures c == "\n" ==> line == old(line) + 1 && column == 0
      ensures c != "\n" ==> line == old(line) && column == old(column) + 1
    {
      c := CharAt(input, position);
      position := position + 1;
      if c == "\n" {
        line := line + 1;
        column := 0;
      } else {
        column := column + 1;
      }
    }

    /** The next character, not consumed: `""` at the end of the input. */
    method Peek() returns (c: string)
      ensures c == CharAt(input, position)
      ensures c == "" <==> position >= |input|
    {
      c := CharAt(input, position);
    }

    /** Whether the input is exhausted, asked of `peek`. */
    method Eof() returns (b: bool)
      ensures b <==> position >= |input|
    {
      var c := Peek();
      b := c == "";
    }

    /** `term(reason, cause)`: always fails, with the current line and column. */
    method Term(reason: string, cause: Option<string>) returns (r: Result<(), StreamError>)
      ensures r.Err? && r.error.reason == reason && r.error.cause == cause
      ensures r.error.line == line && r.error.column == column
    {
      r := Err(StreamError(reason, line, column, cause));
    }
  }

  /** The number of newlines among the first `p` characters of `s` (all of them once `p` passes the end). */
  function NewlinesBefore(s: string, p: nat): nat {
    multiset(s[..if p <= |s| then p else |s|])['\n']
  }

  /** The line is one more than the number of newlines read so far. */
  lemma {:induction false} LineCountsNewlines(s: string, p: nat)
    ensures Track(s, p).0 == 1 + NewlinesBefore(s, p)
    decreases p
  {
    if p > 0 {
      LineCountsNewlines(s, p - 1);
      if p - 1 < |s| {
        assert s[..p] == s[..p - 1] + [s[p - 1]];
      } else {
        assert (if p <= |s| then p else |s|) == (if p - 1 <= |s| then p - 1 else |s|);
      }
    }
  }

  /**
   * The column counts the characters read since the line began: the last
   * `column` positions read hold no newline, and the one before them (if
   * any) is a newline.
   */
  lemma {:induction false} ColumnSinceNewline(s: string, p: nat)
    ensures Track(s, p).1 <= p
    ensures forall j | p - Track(s, p).1 <= j < p :: CharAt(s, j) != "\n"
    ensures Track(s, p).1 < p ==> CharAt(s, p - Track(s, p).1 - 1) == "\n"
    decreases p
  {
    if p > 0 {
      ColumnSinceNewline(s, p - 1);
    }
  }
}
