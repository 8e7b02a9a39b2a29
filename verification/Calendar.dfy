/** Dates of the Gregorian calendar (section 5.6 and appendix C of RFC 3339), as day
    numbers and as text. Day 0 is 0000-01-01. */
module Calendar {
  import opened Text

  datatype Date = Date(y: int, m: int, d: int)

  predicate Leap(y: int) { y % 4 == 0 && (y % 100 != 0 || y % 400 == 0) }

  function YearLength(y: int): (n: int)
    ensures 365 <= n <= 366
  {
    if Leap(y) then 366 else 365
  }

  function MonthLength(y: int, m: int): (n: int)
    ensures 28 <= n <= 31
  {
    if m == 2 then (if Leap(y) then 29 else 28) else if m in {4, 6, 9, 11} then 30 else 31
  }

  predicate Valid(c: Date) { 1 <= c.m <= 12 && 1 <= c.d <= MonthLength(c.y, c.m) }

  /** The day a year starts. */
  function YearStart(y: int): int {
    365 * y + (y + 3) / 4 - (y + 99) / 100 + (y + 399) / 400
  }

  /** How many days of the year come before month m. */
  function MonthStart(y: int, m: int): (n: int)
    requires 1 <= m <= 13
    ensures n >= 0
    decreases m
  {
    if m == 1 then 0 else MonthStart(y, m - 1) + MonthLength(y, m - 1)
  }

  function DayNumber(c: Date): int
    requires Valid(c)
  {
    YearStart(c.y) + MonthStart(c.y, c.m) + c.d - 1
  }

  /** Rounding y / k up goes up by one just after a multiple of k. */
  lemma Fours(y: int)
    ensures (y + 4) / 4 == (y + 3) / 4 + if y % 4 == 0 then 1 else 0
  {
  }

  lemma Hundreds(y: int)
    ensures (y + 100) / 100 == (y + 99) / 100 + if y % 100 == 0 then 1 else 0
  {
  }

  lemma FourHundreds(y: int)
    ensures (y + 400) / 400 == (y + 399) / 400 + if y % 400 == 0 then 1 else 0
  {
  }

  lemma LeapDays(y: int)
    ensures YearLength(y) == 365 + (if y % 4 == 0 then 1 else 0) - (if y % 100 == 0 then 1 else 0) + (if y % 400 == 0 then 1 else 0)
  {
  }

  lemma YearStep(y: int)
    ensures YearStart(y + 1) == YearStart(y) + YearLength(y)
  {
    Fours(y);
    Hundreds(y);
    FourHundreds(y);
    LeapDays(y);
    Added(y, (y + 3) / 4, (y + 99) / 100, (y + 399) / 400);
  }

  lemma Added(y: int, a: int, b: int, c: int)
    requires a == (y + 3) / 4 && b == (y + 99) / 100 && c == (y + 399) / 400
    ensures YearStart(y) == 365 * y + a - b + c
    ensures YearStart(y + 1) == 365 * (y + 1) + (y + 4) / 4 - (y + 100) / 100 + (y + 400) / 400
  {
  }

  /** The year of day n, looked for from y on. */
  function YearUp(n: int, y: int): (r: int)
    requires YearStart(y) <= n
    ensures YearStart(r) <= n < YearStart(r + 1)
    decreases n - YearStart(y)
  {
    YearStep(y);
    if n < YearStart(y + 1) then y else YearUp(n, y + 1)
  }

  function YearDown(n: int, y: int): (r: int)
    requires n < YearStart(y + 1)
    ensures YearStart(r) <= n < YearStart(r + 1)
    decreases YearStart(y + 1) - n
  {
    YearStep(y);
    if YearStart(y) <= n then y else YearDown(n, y - 1)
  }

  function YearOf(n: int): (y: int)
    ensures YearStart(y) <= n < YearStart(y + 1)
  {
    if n >= 0 then YearUp(n, 0) else YearDown(n, -1)
  }

  function MonthUp(y: int, k: int, m: int): (r: int)
    requires 1 <= m <= 12 && MonthStart(y, m) <= k < MonthStart(y, 13)
    ensures 1 <= r <= 12 && MonthStart(y, r) <= k < MonthStart(y, r + 1)
    decreases 12 - m
  {
    if k < MonthStart(y, m + 1) then m else MonthUp(y, k, m + 1)
  }

  lemma WholeYear(y: int)
    ensures MonthStart(y, 13) == YearLength(y)
  {
    assert MonthStart(y, 3) == 31 + MonthLength(y, 2);
    assert MonthStart(y, 5) == 31 + MonthLength(y, 2) + 61;
    assert MonthStart(y, 7) == 31 + MonthLength(y, 2) + 122;
    assert MonthStart(y, 9) == 31 + MonthLength(y, 2) + 184;
    assert MonthStart(y, 11) == 31 + MonthLength(y, 2) + 245;
  }

  lemma NextMonth(y: int, m: int)
    requires 1 <= m <= 12
    ensures MonthStart(y, m + 1) == MonthStart(y, m) + MonthLength(y, m)
  {
  }

  /** The date of the k-th day of a year, counted from 0. */
  function DateIn(y: int, k: int): (c: Date)
    requires 0 <= k < YearLength(y)
    ensures Valid(c) && c.y == y && MonthStart(y, c.m) + c.d - 1 == k
  {
    WholeYear(y);
    var m := MonthUp(y, k, 1);
    NextMonth(y, m);
    Date(y, m, k - MonthStart(y, m) + 1)
  }

  /** The date of day n. */
  function DateOf(n: int): (c: Date)
    ensures Valid(c) && DayNumber(c) == n
  {
    var y := YearOf(n);
    YearStep(y);
    DateIn(y, n - YearStart(y))
  }

  lemma {:induction false} YearsApart(a: int, b: int)
    requires a < b
    ensures YearStart(a + 1) <= YearStart(b)
    decreases b - a
  {
    YearStep(b - 1);
    if a + 1 < b { YearsApart(a, b - 1); }
  }

  lemma {:induction false} MonthsApart(y: int, a: int, b: int)
    requires 1 <= a < b <= 13
    ensures MonthStart(y, a) + MonthLength(y, a) <= MonthStart(y, b)
    decreases b
  {
    if a + 1 < b { MonthsApart(y, a, b - 1); }
  }

  lemma WithinYear(c: Date)
    requires Valid(c)
    ensures YearStart(c.y) <= DayNumber(c) < YearStart(c.y + 1)
  {
    YearStep(c.y);
    WholeYear(c.y);
    MonthsApart(c.y, c.m, 13);
  }

  /** Dates and day numbers are in step: an earlier date has a smaller number. */
  lemma InOrder(a: Date, b: Date)
    requires Valid(a) && Valid(b)
    requires a.y < b.y || (a.y == b.y && (a.m < b.m || (a.m == b.m && a.d < b.d)))
    ensures DayNumber(a) < DayNumber(b)
  {
    if a.y < b.y {
      WithinYear(a);
      WithinYear(b);
      YearsApart(a.y, b.y);
    } else if a.m < b.m {
      MonthsApart(a.y, a.m, b.m);
    }
  }

  /** Each day has one date. */
  lemma OneDate(c: Date)
    requires Valid(c)
    ensures DateOf(DayNumber(c)) == c
  {
    var e := DateOf(DayNumber(c));
    if e != c {
      if e.y < c.y || (e.y == c.y && (e.m < c.m || (e.m == c.m && e.d < c.d))) { InOrder(e, c); } else { InOrder(c, e); }
    }
  }

  /** The day after c, as a person counts. */
  function NextDay(c: Date): (n: Date)
    requires Valid(c)
    ensures Valid(n)
  {
    if c.d < MonthLength(c.y, c.m) then c.(d := c.d + 1)
    else if c.m < 12 then Date(c.y, c.m + 1, 1)
    else Date(c.y + 1, 1, 1)
  }

  lemma NextDayNumber(c: Date)
    requires Valid(c)
    ensures DayNumber(NextDay(c)) == DayNumber(c) + 1
  {
    YearStep(c.y);
    WholeYear(c.y);
    if c.m == 12 { assert MonthStart(c.y, 13) == MonthStart(c.y, 12) + MonthLength(c.y, 12); }
  }

  // As text.

  function FourDigits(y: int): string {
    if y >= 0 then Padded(y, 4) else "-" + Padded(-y, 4)
  }

  /** The date as it is written. */
  function Written(c: Date): string
    requires Valid(c)
  {
    FourDigits(c.y) + "-" + Padded(c.m, 2) + "-" + Padded(c.d, 2)
  }

  function Number(s: string): Option<int> {
    if s != "" && AllDigits(s) then Some(NumberOf(s)) else None
  }

  /** The date a text is, if it is one: four digits, two and two, with hyphens. */
  function Read(s: string): Option<Date> {
    if |s| != 10 || s[4] != '-' || s[7] != '-' then None
    else match (Number(s[..4]), Number(s[5..7]), Number(s[8..]))
      case (Some(y), Some(m), Some(d)) => if Valid(Date(y, m, d)) then Some(Date(y, m, d)) else None
      case _ => None
  }

  lemma {:induction false} DecimalLength(n: nat, k: nat, bound: nat)
    requires (k == 1 && bound == 10) || (k == 2 && bound == 100) || (k == 4 && bound == 10000)
    ensures n < bound <==> |Decimal(n)| <= k
  {
    if n >= 10 {
      var n2 := n / 10;
      assert |Decimal(n)| == |Decimal(n2)| + 1;
      if n2 >= 10 {
        var n3 := n2 / 10;
        assert |Decimal(n2)| == |Decimal(n3)| + 1;
        if n3 >= 10 {
          var n4 := n3 / 10;
          assert |Decimal(n3)| == |Decimal(n4)| + 1;
          if n4 >= 10 { assert |Decimal(n4)| == |Decimal(n4 / 10)| + 1; }
        }
      }
    }
  }

  lemma PaddedLength(n: nat, k: nat, bound: nat)
    requires (k == 2 && bound == 100) || (k == 4 && bound == 10000)
    ensures |Padded(n, k)| == k <==> n < bound
  {
    DecimalLength(n, k, bound);
  }

  /** A date is read back as written exactly when its year has four digits. */
  lemma WrittenReads(c: Date)
    requires Valid(c)
    ensures Read(Written(c)) == if 0 <= c.y <= 9999 then Some(c) else None
  {
    var y, m, d := FourDigits(c.y), Padded(c.m, 2), Padded(c.d, 2);
    PaddedLength(c.m, 2, 100);
    PaddedLength(c.d, 2, 100);
    NumberOfPadded(c.m, 2);
    NumberOfPadded(c.d, 2);
    var s := Written(c);
    if c.y >= 0 {
      PaddedLength(c.y, 4, 10000);
      NumberOfPadded(c.y, 4);
      if c.y <= 9999 {
        assert s[..4] == y && s[5..7] == m && s[8..] == d;
      }
    } else {
      assert |y| > 4;
    }
  }

  // Days as text.

  function ReadDay(s: string): Option<int> {
    match Read(s) case None => None case Some(c) => Some(DayNumber(c))
  }

  function WriteDay(n: int): string { Written(DateOf(n)) }

  /** A day is read back as written exactly when its year has four digits. */
  lemma DayReadsBack(n: int)
    ensures ReadDay(WriteDay(n)) == if 0 <= YearOf(n) <= 9999 then Some(n) else None
  {
    WrittenReads(DateOf(n));
    YearStep(YearOf(n));
  }
}
