/**
 Seat labels, `R<row>-S<seat>`, ten seats to a row.
 A parser recovers the ordinal from its label, so labels never collide.
 */
module SeatNumbers {
  import opened Prelude

  const SEATS_PER_ROW := 10

  /** The decimal digit for 0..9. */
  function Digit(d: nat): char
    requires d < 10
  {
    '0' + d as char
  }

  /** The decimal printing of a natural number, as `%d` prints it. */
  function Decimal(n: nat): string {
    if n < 10 then [Digit(n)] else Decimal(n / 10) + [Digit(n % 10)]
  }

  /** The label of the `num`-th seat of an event, counting from one. */
  function FormatSeatNumber(num: nat): string
    requires num >= 1
  {
    var row := (num - 1) / SEATS_PER_ROW + 1;
    var seat := (num - 1) % SEATS_PER_ROW + 1;
    "R" + Decimal(row) + "-S" + Decimal(seat)
  }

  predicate IsDigit(c: char) {
    '0' <= c <= '9'
  }

  /** Reads a non-empty string of digits. */
  function ParseDecimal(s: string): Option<nat> {
    if s == [] || !IsDigit(s[|s| - 1]) then
      None
    else if |s| == 1 then
      Some((s[0] - '0') as nat)
    else
      match ParseDecimal(s[..|s| - 1])
      case None => None
      case Some(high) => Some(10 * high + (s[|s| - 1] - '0') as nat)
  }

  /** The position of the first dash, or the length if there is none. */
  function DashAt(s: string): (k: nat)
    ensures k <= |s|
    ensures k < |s| ==> s[k] == '-'
    ensures '-' !in s[..k]
  {
    if s == [] || s[0] == '-' then 0 else 1 + DashAt(s[1..])
  }

  /** Reads a label back: an `R`, a row, a dash, an `S`, and a seat between 1 and 10. */
  function ParseSeatNumber(text: string): Option<nat> {
    var dash := DashAt(text);
    if text == [] || text[0] != 'R' || dash == 0 || |text| <= dash + 1 || text[dash + 1] != 'S' then
      None
    else
      match (ParseDecimal(text[1..dash]), ParseDecimal(text[dash + 2..]))
      case (Some(row), Some(seat)) =>
        if row >= 1 && 1 <= seat <= 10 then Some((row - 1) * 10 + seat) else None
      case _ => None
  }

  lemma {:induction false} DecimalRoundTrip(n: nat)
    ensures ParseDecimal(Decimal(n)) == Some(n)
    ensures '-' !in Decimal(n)
  {
    if n < 10 {
      assert Digit(n) - '0' == n as char;
    } else {
      DecimalRoundTrip(n / 10);
      var s := Decimal(n);
      assert s[..|s| - 1] == Decimal(n / 10);
      assert Digit(n % 10) - '0' == (n % 10) as char;
    }
  }

  lemma {:induction false} FirstDash(before: string, after: string)
    requires '-' !in before
    ensures DashAt(before + "-" + after) == |before|
  {
    var s := before + "-" + after;
    if before != [] {
      assert s[1..] == before[1..] + "-" + after;
      FirstDash(before[1..], after);
      assert s[0] == before[0] != '-';
    }
  }

  /** Where the parser cuts a label made of two dash-free parts. */
  lemma LabelParts(row: string, seat: string)
    requires '-' !in row
    ensures var text := "R" + row + "-S" + seat;
            DashAt(text) == |row| + 1 && text[1..|row| + 1] == row && text[|row| + 3..] == seat
  {
    var text := "R" + row + "-S" + seat;
    assert text == ("R" + row) + "-" + ("S" + seat);
    FirstDash("R" + row, "S" + seat);
  }

  /** The parser undoes the printer on every seat ordinal. */
  lemma SeatNumberRoundTrip(num: nat)
    requires num >= 1
    ensures ParseSeatNumber(FormatSeatNumber(num)) == Some(num)
  {
    var row := (num - 1) / SEATS_PER_ROW + 1;
    var seat := (num - 1) % SEATS_PER_ROW + 1;
    DecimalRoundTrip(row);
    DecimalRoundTrip(seat);
    LabelParts(Decimal(row), Decimal(seat));
  }

  /** Different seats of an event never share a label. */
  lemma SeatNumbersDistinct(a: nat, b: nat)
    requires 1 <= a && 1 <= b && FormatSeatNumber(a) == FormatSeatNumber(b)
    ensures a == b
  {
    SeatNumberRoundTrip(a);
    SeatNumberRoundTrip(b);
  }
}
