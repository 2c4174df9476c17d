// The two display formatters of an amount: the notification one builds the grouped digits from the
// left, the reminder one splices separators in from the right.

module Money {
  import opened Tables

  // ----- decimal numerals

  function Digit(d: nat): char
    requires d < 10
  {
    "0123456789"[d]
  }

  function Decimal(n: nat): (s: string)
    ensures s != [] && '.' !in s && '-' !in s
  {
    if n < 10 then [Digit(n)] else Decimal(n / 10) + [Digit(n % 10)]
  }

  /** The numeral strconv.FormatInt(n, 10) and the verb %d produce. */
  function Numeral(n: int): string {
    if n < 0 then "-" + Decimal(-n) else Decimal(n)
  }

  function DigitValue(c: char): nat {
    if '0' <= c <= '9' then (c - '0') as nat else 0
  }

  function Parse(s: string): nat {
    if s == [] then 0 else 10 * Parse(s[..|s| - 1]) + DigitValue(s[|s| - 1])
  }

  lemma {:induction false} ParseDecimal(n: nat)
    ensures Parse(Decimal(n)) == n
  {
    if n >= 10 {
      ParseDecimal(n / 10);
      assert Decimal(n)[..|Decimal(n)| - 1] == Decimal(n / 10);
    } else {
      assert Parse([]) == 0;
      assert Decimal(n)[..0] == [];
    }
  }

  // ----- what grouping means

  /** Digits in groups of three counted from the right, separated by dots. */
  function Grouped(s: string): string {
    if |s| <= 3 then s else Grouped(s[..|s| - 3]) + "." + s[|s| - 3..]
  }

  function Undotted(s: string): string {
    if s == [] then []
    else if s[|s| - 1] == '.' then Undotted(s[..|s| - 1])
    else Undotted(s[..|s| - 1]) + [s[|s| - 1]]
  }

  lemma {:induction false} UndottedAppend(a: string, b: string)
    ensures Undotted(a + b) == Undotted(a) + Undotted(b)
  {
    if b == [] {
      assert a + b == a;
    } else {
      assert (a + b)[..|a + b| - 1] == a + b[..|b| - 1];
      UndottedAppend(a, b[..|b| - 1]);
    }
  }

  lemma {:induction false} UndottedSame(s: string)
    requires '.' !in s
    ensures Undotted(s) == s
  {
    if s != [] {
      UndottedSame(s[..|s| - 1]);
    }
  }

  /** Dropping the dots gives the digits back. */
  lemma {:induction false} GroupedUndone(s: string)
    requires '.' !in s
    ensures Undotted(Grouped(s)) == s
  {
    if |s| <= 3 {
      UndottedSame(s);
    } else {
      var front, last := s[..|s| - 3], s[|s| - 3..];
      GroupedUndone(front);
      UndottedSame(last);
      UndottedAppend(Grouped(front) + ".", last);
      UndottedAppend(Grouped(front), ".");
      assert Undotted(".") == [] by { assert "."[..0] == []; }
    }
  }

  /** Counted from the right, exactly every fourth character is a dot, and the first never is:
      each group but the first has three digits, and the first has one to three. */
  lemma {:induction false} GroupShape(s: string, k: nat)
    requires s != [] && '.' !in s && k < |Grouped(s)|
    ensures Grouped(s)[|Grouped(s)| - 1 - k] == '.' <==> k % 4 == 3
    ensures |Grouped(s)| % 4 != 0
  {
    hide Grouped;
    if |s| > 3 {
      var front, last := s[..|s| - 3], s[|s| - 3..];
      var head := Grouped(front);
      GroupedSplit(s);
      FromRight(head, last, k);
      if k < 3 {
        assert last[2 - k] == s[|s| - 1 - k];
        GroupShape(front, 0);
      } else if k == 3 {
        GroupShape(front, 0);
      } else {
        GroupShape(front, k - 4);
        PeriodFour(k - 4);
      }
      PeriodFour(|head|);
    } else {
      GroupedShort(s);
      assert s[|s| - 1 - k] in s;
    }
  }

  lemma PeriodFour(n: nat)
    ensures (n + 4) % 4 == n % 4
  {
  }

  lemma FromRight(head: string, last: string, k: nat)
    requires |last| == 3 && k < |head| + 4
    ensures var s := head + "." + last;
            |s| == |head| + 4
            && s[|s| - 1 - k] == if k < 3 then last[2 - k] else if k == 3 then '.' else head[|head| - 1 - (k - 4)]
  {
  }

  lemma GroupedSplit(s: string)
    requires |s| > 3
    ensures Grouped(s) == Grouped(s[..|s| - 3]) + "." + s[|s| - 3..] && |Grouped(s[..|s| - 3])| > 0
  {
    if |s| > 6 {
      GroupedSplit(s[..|s| - 3]);
    }
  }

  // ----- the two loops

  /** Go's negation of an int64: the minimum has no positive counterpart and stays as it is. */
  function Negate(n: int64): int64 {
    if n == -0x8000_0000_0000_0000 then n else -n
  }

  const MIN_INT64: int64 := -0x8000_0000_0000_0000

  /** groupDigits: the loop appends one group after the other. */
  method GroupDigits(amount: int64) returns (r: string)
    ensures amount >= 0 ==> r == Grouped(Decimal(amount as int))
    ensures amount < 0 ==> r == "-" + Grouped(Numeral(Negate(amount) as int))
  {
    var n, sign := amount, "";
    if n < 0 {
      sign := "-";
      n := Negate(n);
    }
    var grouped := AppendGroups(Numeral(n as int));
    r := sign + grouped;
  }

  /** The body of groupDigits after the sign: a short first group, then groups of three. */
  method AppendGroups(digits: string) returns (b: string)
    ensures b == Grouped(digits)
  {
    hide Grouped;
    b := "";
    var pre := |digits| % 3;
    GroupedShort(digits[..pre]);
    if pre > 0 {
      b := b + digits[..pre];
      if |digits| > pre {
        b := b + ".";
      }
    }
    var i := pre;
    while i < |digits|
      invariant pre <= i <= |digits| && (|digits| - i) % 3 == 0
      invariant b == Grouped(digits[..i]) + if 0 < i < |digits| then "." else ""
    {
      GroupedGrows(digits, i);
      b := b + digits[i..i + 3];
      if i + 3 < |digits| {
        b := b + ".";
      }
      i := i + 3;
    }
    assert digits[..i] == digits;
  }

  lemma GroupedGrows(s: string, i: nat)
    requires i + 3 <= |s|
    ensures Grouped(s[..i + 3]) == (if i > 0 then Grouped(s[..i]) + "." else "") + s[i..i + 3]
  {
    assert s[..i + 3][..i] == s[..i];
    assert s[..i + 3][i..] == s[i..i + 3];
  }

  /** groupReminderDigits. */
  method GroupReminderDigits(n: int64) returns (digits: string)
    ensures n >= 0 ==> digits == Grouped(Decimal(n as int))
    ensures n < 0 ==> digits == "-" + Grouped(Decimal(-(n as int)))
  {
    var numeral := Numeral(n as int);
    var start := 0;
    if "-" <= numeral {
      start := 1;
    }
    assert start == (if n < 0 then 1 else 0) by { assert numeral[0] in numeral; }
    digits := SpliceDots(numeral, start);
    assert n < 0 ==> numeral[1..] == Decimal(-(n as int));
    assert numeral[0..] == numeral;
  }

  lemma GroupedShort(s: string)
    requires |s| <= 3
    ensures Grouped(s) == s
  {
  }

  /** The loop of groupReminderDigits: a dot before every third digit from the right, down to start. */
  method SpliceDots(s: string, start: nat) returns (digits: string)
    requires start < |s|
    ensures digits == s[..start] + Grouped(s[start..])
  {
    hide Grouped;
    digits := s;
    var i := |digits| - 3;
    ghost var tail := "";
    assert s[start..i + 3] == s[start..] && s[..i + 3] == s;
    while i > start
      invariant start < i + 3 <= |s|
      invariant digits == s[..i + 3] + tail
      invariant Grouped(s[start..]) == Grouped(s[start..i + 3]) + tail
    {
      assert digits[..i] == s[..i] && digits[i..] == s[i..i + 3] + tail;
      GroupedGrows(s[start..], i - start);
      assert s[start..][..i - start + 3] == s[start..i + 3] && s[start..][..i - start] == s[start..i];
      tail := "." + (s[i..i + 3] + tail);
      digits := digits[..i] + "." + digits[i..];
      i := i - 3;
    }
    GroupedShort(s[start..i + 3]);
    assert s[..i + 3] == s[..start] + s[start..i + 3];
  }

  // ----- agreement

  function ApprovalText(amount: int64): string {
    if amount >= 0 then Grouped(Decimal(amount as int)) else "-" + Grouped(Numeral(Negate(amount) as int))
  }

  function ReminderText(amount: int64): string {
    if amount >= 0 then Grouped(Decimal(amount as int)) else "-" + Grouped(Decimal(-(amount as int)))
  }

  /** FormatAmount. */
  method FormatAmount(amount: int64, currency: string) returns (r: string)
    ensures r == Formatted(amount, currency, ApprovalText(amount))
    ensures currency == "IDR" ==> r == "Rp" + ApprovalText(amount)
    ensures currency == "USD" ==> r == "$" + ApprovalText(amount)
    ensures currency != "IDR" && currency != "USD" ==> r == currency + " " + Numeral(amount as int)
  {
    var grouped := GroupDigits(amount);
    r := match currency
      case "IDR" => "Rp" + grouped
      case "USD" => "$" + grouped
      case _ => currency + " " + Numeral(amount as int);
  }

  /** formatReminderAmount. */
  method FormatReminderAmount(amount: int64, currency: string) returns (r: string)
    ensures r == Formatted(amount, currency, ReminderText(amount))
    ensures currency == "IDR" ==> r == "Rp" + ReminderText(amount)
    ensures currency == "USD" ==> r == "$" + ReminderText(amount)
    ensures currency != "IDR" && currency != "USD" ==> r == currency + " " + Numeral(amount as int)
  {
    var grouped := GroupReminderDigits(amount);
    r := match currency
      case "IDR" => "Rp" + grouped
      case "USD" => "$" + grouped
      case _ => currency + " " + Numeral(amount as int);
  }

  function Formatted(amount: int64, currency: string, grouped: string): string {
    if currency == "IDR" then "Rp" + grouped
    else if currency == "USD" then "$" + grouped
    else currency + " " + Numeral(amount as int)
  }

  lemma GroupedKeepsFirst(s: string)
    requires s != []
    ensures Grouped(s) != [] && Grouped(s)[0] == s[0]
  {
  }

  /** The notification and the reminder show the same text for an amount, except for the smallest
      int64 in a grouped currency, whose negation wraps in one of the two. */
  lemma {:induction false} FormattersAgree(amount: int64, currency: string)
    ensures Formatted(amount, currency, ApprovalText(amount)) == Formatted(amount, currency, ReminderText(amount))
            <==> !(amount == MIN_INT64 && (currency == "IDR" || currency == "USD"))
  {
    var a, r := ApprovalText(amount), ReminderText(amount);
    TextsAgree(amount);
    assert ("Rp" + a)[2..] == a && ("Rp" + r)[2..] == r;
    assert ("$" + a)[1..] == a && ("$" + r)[1..] == r;
  }

  lemma TextsAgree(amount: int64)
    ensures ApprovalText(amount) == ReminderText(amount) <==> amount != MIN_INT64
  {
    var n := amount as int;
    if n < 0 {
      if amount == MIN_INT64 {
        SecondMinus(-n);
      } else {
        assert Numeral(Negate(amount) as int) == Decimal(-n);
      }
    }
  }

  lemma SecondMinus(m: nat)
    ensures "-" + Grouped("-" + Decimal(m)) != "-" + Grouped(Decimal(m))
  {
    var d := Decimal(m);
    GroupedKeepsFirst("-" + d);
    GroupedKeepsFirst(d);
    assert d[0] in d;
    assert ("-" + Grouped("-" + d))[1] == '-';
    assert ("-" + Grouped(d))[1] == d[0];
  }

  /** The shown digits of any amount a transaction can hold read back as that amount. */
  lemma {:induction false} ShownAmountReadsBack(amount: int64)
    requires amount >= 0
    ensures Parse(Undotted(ApprovalText(amount))) == amount as int
  {
    GroupedUndone(Decimal(amount as int));
    ParseDecimal(amount as int);
  }

  /** The reminder's digits read back for every amount, behind a minus sign if it is negative. */
  lemma {:induction false} ReminderReadsBack(amount: int64)
    ensures amount >= 0 ==> Parse(Undotted(ReminderText(amount))) == amount as int
    ensures amount < 0 ==> ReminderText(amount)[..1] == "-"
                           && Parse(Undotted(ReminderText(amount)[1..])) == -(amount as int)
  {
    var n := if amount >= 0 then amount as int else -(amount as int);
    GroupedUndone(Decimal(n));
    ParseDecimal(n);
    assert ("-" + Grouped(Decimal(n)))[1..] == Grouped(Decimal(n));
  }
}
