/** The journal's cursor text: the daemon life, a separator and the decimal sequence number. */
module Cursors {
  import opened Options

  const SEPARATOR := '.'

  predicate IsDigit(c: char) { '0' <= c <= '9' }

  function DigitOf(d: nat): char
    requires d < 10
  {
    ('0' as int + d) as char
  }

  function Decimal(n: nat): string {
    if n < 10 then [DigitOf(n)] else Decimal(n / 10) + [DigitOf(n % 10)]
  }

  /** A first digit from 1 to 9, then digits. */
  predicate SequenceForm(s: string) {
    |s| > 0 && s[0] != '0' && forall i :: 0 <= i < |s| ==> IsDigit(s[i])
  }

  function NumberOf(s: string): nat
    requires forall i :: 0 <= i < |s| ==> IsDigit(s[i])
  {
    if s == [] then 0
    else
      assert IsDigit(s[|s| - 1]);
      10 * NumberOf(s[..|s| - 1]) + (s[|s| - 1] as int - '0' as int)
  }

  /** The index of the last separator, or -1. */
  function LastSeparator(s: string): (at: int)
    ensures -1 <= at < |s|
    ensures at >= 0 ==> s[at] == SEPARATOR
    ensures forall i :: at < i < |s| ==> s[i] != SEPARATOR
  {
    if s == [] then -1
    else if s[|s| - 1] == SEPARATOR then |s| - 1
    else LastSeparator(s[..|s| - 1])
  }

  function Cursor(life: string, sequence: nat): string {
    life + [SEPARATOR] + Decimal(sequence)
  }

  /** The sequence a cursor of this life names, when this life recorded it. */
  function SequenceOf(cursor: string, life: string, latest: nat): Option<nat> {
    var at := LastSeparator(cursor);
    var digits := cursor[at + 1..];
    if at == -1 || cursor[..at] != life then None
    else if !SequenceForm(digits) then None
    else
      var sequence := NumberOf(digits);
      if sequence <= latest then Some(sequence) else None
  }

  lemma {:induction false} DecimalReads(n: nat)
    ensures forall i :: 0 <= i < |Decimal(n)| ==> IsDigit(Decimal(n)[i])
    ensures n > 0 ==> SequenceForm(Decimal(n))
    ensures NumberOf(Decimal(n)) == n
  {
    if n >= 10 {
      DecimalReads(n / 10);
      assert Decimal(n)[..|Decimal(n)| - 1] == Decimal(n / 10);
    } else {
      assert Decimal(n)[..0] == [];
    }
  }

  lemma DecimalAppends(n: nat, d: nat)
    requires n > 0 && d < 10
    ensures Decimal(10 * n + d) == Decimal(n) + [DigitOf(d)]
  {
    assert (10 * n + d) / 10 == n && (10 * n + d) % 10 == d;
  }

  lemma {:induction false} SequenceFormIsDecimal(s: string)
    requires SequenceForm(s)
    ensures NumberOf(s) > 0
    ensures Decimal(NumberOf(s)) == s
  {
    var front, last := s[..|s| - 1], s[|s| - 1];
    if front == [] {
      assert s == [last];
    } else {
      SequenceFormIsDecimal(front);
      DecimalAppends(NumberOf(front), last as int - '0' as int);
      assert s == front + [last];
    }
  }

  /**
   * Issuing and reading are inverse, whatever text names the daemon life: a cursor reads as a sequence exactly when it
   * is the cursor issued for that sequence, and only for sequences from 1 to the latest.
   */
  lemma CursorRoundTrip(cursor: string, life: string, latest: nat, sequence: nat)
    ensures SequenceOf(cursor, life, latest) == Some(sequence)
       <==> 1 <= sequence <= latest && cursor == Cursor(life, sequence)
  {
    if cursor == Cursor(life, sequence) {
      DecimalReads(sequence);
      assert cursor[|life|] == SEPARATOR;
      assert forall i :: |life| < i < |cursor| ==> cursor[i] == Decimal(sequence)[i - |life| - 1];
      assert LastSeparator(cursor) == |life|;
      assert cursor[..|life|] == life;
      assert cursor[|life| + 1..] == Decimal(sequence);
    }
    if SequenceOf(cursor, life, latest) == Some(sequence) {
      var at := LastSeparator(cursor);
      SequenceFormIsDecimal(cursor[at + 1..]);
      assert cursor == cursor[..at] + [cursor[at]] + cursor[at + 1..];
    }
  }
}
