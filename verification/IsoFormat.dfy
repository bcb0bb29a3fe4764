/**
Dates as text: the extended calendar form YYYY-MM-DD (section 4.1.2.2 of ISO 8601:2004)
that `date.isoformat` writes and `_parse_d` reads back.  The scheduler keeps the dates
already taken as a set of such strings; the lemmas say that this is the same as keeping
the set of dates.
*/
module IsoFormat {
  import opened Calendar
  import opened Wrappers

  predicate InTextRange(d: Date) {
    d.year <= 9999
  }

  function DigitChar(n: int): (c: char)
    requires 0 <= n < 10
    ensures '0' <= c <= '9' && c as int == '0' as int + n
  {
    ('0' as int + n) as char
  }

  function Pad2(n: int): (s: string)
    requires 0 <= n < 100
    ensures |s| == 2
  {
    [DigitChar(n / 10), DigitChar(n % 10)]
  }

  function Pad4(n: int): (s: string)
    requires 0 <= n < 10000
    ensures |s| == 4
  {
    Pad2(n / 100) + Pad2(n % 100)
  }

  /** `date.isoformat()`. */
  function Format(d: Date): (s: string)
    requires InTextRange(d)
    ensures |s| == 10
  {
    Pad4(d.year) + "-" + Pad2(d.month) + "-" + Pad2(d.day)
  }

  function DigitValue(c: char): Option<int> {
    if '0' <= c <= '9' then Some(c as int - '0' as int) else None
  }

  function Parse2(s: string): Option<int>
    requires |s| == 2
  {
    match (DigitValue(s[0]), DigitValue(s[1]))
    case (Some(a), Some(b)) => Some(10 * a + b)
    case _ => None
  }

  /** `_parse_d` on text: the first ten characters, or None when they are not a date. */
  function Parse(s: string): Option<Date> {
    if |s| < 10 || s[4] != '-' || s[7] != '-' then None
    else
      match (Parse2(s[0..2]), Parse2(s[2..4]), Parse2(s[5..7]), Parse2(s[8..10]))
      case (Some(century), Some(year), Some(month), Some(day)) =>
        var d := RawDate(100 * century + year, month, day);
        if IsDate(d) then Some(d) else None
      case _ => None
  }

  lemma Parse2Pad2(n: int)
    requires 0 <= n < 100
    ensures Parse2(Pad2(n)) == Some(n)
  {
  }

  /** Reading back what was written gives the date, whatever follows it (a time of day, say). */
  lemma ParseFormat(d: Date, rest: string)
    requires InTextRange(d)
    ensures Parse(Format(d) + rest) == Some(d)
  {
    var s := Format(d) + rest;
    Parse2Pad2(d.year / 100);
    Parse2Pad2(d.year % 100);
    Parse2Pad2(d.month);
    Parse2Pad2(d.day);
    assert s[0..2] == Pad2(d.year / 100);
    assert s[2..4] == Pad2(d.year % 100);
    assert s[5..7] == Pad2(d.month);
    assert s[8..10] == Pad2(d.day);
  }

  lemma FormatInjective(a: Date, b: Date)
    requires InTextRange(a) && InTextRange(b) && Format(a) == Format(b)
    ensures a == b
  {
    ParseFormat(a, "");
    ParseFormat(b, "");
  }

  /** The order of strings by their first differing character. */
  predicate TextLess(s: string, t: string) {
    if s == [] || t == [] then s == [] && t != []
    else s[0] < t[0] || (s[0] == t[0] && TextLess(s[1..], t[1..]))
  }

  lemma {:induction false} TextLessConcat(s: string, t: string, u: string, v: string)
    requires |s| == |t|
    ensures TextLess(s + u, t + v) <==> TextLess(s, t) || (s == t && TextLess(u, v))
  {
    if s == [] {
      assert s + u == u && t + v == v;
    } else {
      assert (s + u)[1..] == s[1..] + u && (t + v)[1..] == t[1..] + v;
      TextLessConcat(s[1..], t[1..], u, v);
      assert s == t <==> s[0] == t[0] && s[1..] == t[1..] by {
        assert s == [s[0]] + s[1..] && t == [t[0]] + t[1..];
      }
    }
  }

  lemma Pad2Order(m: int, n: int)
    requires 0 <= m < 100 && 0 <= n < 100
    ensures TextLess(Pad2(m), Pad2(n)) <==> m < n
    ensures Pad2(m) == Pad2(n) <==> m == n
  {
    Parse2Pad2(m);
    Parse2Pad2(n);
    assert Pad2(m)[1..] == [DigitChar(m % 10)] && Pad2(n)[1..] == [DigitChar(n % 10)];
    assert TextLess(Pad2(m)[1..], Pad2(n)[1..]) <==> m % 10 < n % 10;
  }

  lemma Pad4Order(m: int, n: int)
    requires 0 <= m < 10000 && 0 <= n < 10000
    ensures TextLess(Pad4(m), Pad4(n)) <==> m < n
    ensures Pad4(m) == Pad4(n) <==> m == n
  {
    Pad2Order(m / 100, n / 100);
    Pad2Order(m % 100, n % 100);
    TextLessConcat(Pad2(m / 100), Pad2(n / 100), Pad2(m % 100), Pad2(n % 100));
    assert Pad4(m)[..2] == Pad2(m / 100) && Pad4(m)[2..] == Pad2(m % 100);
    assert Pad4(n)[..2] == Pad2(n / 100) && Pad4(n)[2..] == Pad2(n % 100);
  }

  /** Written dates sort as the dates do. */
  lemma FormatOrder(a: Date, b: Date)
    requires InTextRange(a) && InTextRange(b)
    ensures TextLess(Format(a), Format(b)) <==> Lt(a, b)
  {
    var ya, yb, ma, mb, da, db := Pad4(a.year), Pad4(b.year), Pad2(a.month), Pad2(b.month), Pad2(a.day), Pad2(b.day);
    Pad4Order(a.year, b.year);
    Pad2Order(a.month, b.month);
    Pad2Order(a.day, b.day);
    assert Format(a) == (ya + "-") + ((ma + "-") + da) && Format(b) == (yb + "-") + ((mb + "-") + db);
    TextLessConcat(ya + "-", yb + "-", (ma + "-") + da, (mb + "-") + db);
    TextLessConcat(ma + "-", mb + "-", da, db);
    SameSuffix(ya, yb);
    SameSuffix(ma, mb);
  }

  lemma SameSuffix(s: string, t: string)
    requires |s| == |t|
    ensures TextLess(s + "-", t + "-") <==> TextLess(s, t)
    ensures s + "-" == t + "-" <==> s == t
  {
    TextLessConcat(s, t, "-", "-");
    assert (s + "-")[..|s|] == s && (t + "-")[..|t|] == t;
  }

  /** Asking a set of written dates is asking the set of dates. */
  lemma TextDedupeIsDateDedupe(dates: set<Date>, d: Date)
    requires InTextRange(d) && forall x <- dates :: InTextRange(x)
    ensures Format(d) in (set x <- dates :: Format(x)) <==> d in dates
  {
    forall x <- dates | Format(x) == Format(d)
      ensures x == d
    {
      FormatInjective(x, d);
    }
  }
}
