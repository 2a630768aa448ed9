/**
 Calendar days and their rendering with Go's layout "2006-01-02": a four-digit
 year, a two-digit month and a two-digit day, each zero-padded and joined by
 dashes. Because every field has a fixed width, comparing two rendered days
 character by character is the same as comparing the days themselves.
 */
module Calendar {
  import opened Text

  /** A calendar day as the clock reports it. */
  datatype Date = Date(year: nat, month: nat, day: nat)

  /** The days the layout renders with fixed width: years 0 through 9999. */
  predicate Valid(d: Date) {
    d.year < 10000 && 1 <= d.month <= 12 && 1 <= d.day <= 31
  }

  /** Chronological order of days. */
  predicate Before(a: Date, b: Date) {
    || a.year < b.year
    || (a.year == b.year && a.month < b.month)
    || (a.year == b.year && a.month == b.month && a.day < b.day)
  }

  function Pow10(w: nat): (r: nat)
    ensures r >= 1
  {
    if w == 0 then 1 else 10 * Pow10(w - 1)
  }

  function Digit(k: nat): (c: char)
    requires k < 10
    ensures '0' <= c <= '9'
  {
    ('0' as int + k) as char
  }

  /** `n` written in decimal, zero-padded on the left to exactly `w` digits. */
  function Pad(n: nat, w: nat): (r: string)
    requires n < Pow10(w)
    ensures |r| == w
    ensures forall i :: 0 <= i < |r| ==> '0' <= r[i] <= '9'
  {
    if w == 0 then "" else Pad(n / 10, w - 1) + [Digit(n % 10)]
  }

  /** The day as the layout "2006-01-02" renders it. */
  function FormatDate(d: Date): (r: string)
    requires Valid(d)
    ensures |r| == 10 && r[4] == '-' && r[7] == '-'
    ensures forall i :: 0 <= i < |r| ==> r[i] == '-' || '0' <= r[i] <= '9'
  {
    Pad(d.year, 4) + "-" + Pad(d.month, 2) + "-" + Pad(d.day, 2)
  }

  /** Zero-padded numerals of one width are ordered as the numbers they denote. */
  lemma {:induction false} PadOrder(n: nat, m: nat, w: nat)
    requires n < Pow10(w) && m < Pow10(w)
    ensures Less(Pad(n, w), Pad(m, w)) <==> n < m
    decreases w
  {
    if w == 0 {
      LessIrreflexive("");
    } else {
      var a, b := Pad(n / 10, w - 1), Pad(m / 10, w - 1);
      var dn, dm := [Digit(n % 10)], [Digit(m % 10)];
      assert Pad(n, w) == a + dn && Pad(m, w) == b + dm;
      assert n == 10 * (n / 10) + n % 10 && m == 10 * (m / 10) + m % 10;
      PadOrder(n / 10, m / 10, w - 1);
      PadOrder(m / 10, n / 10, w - 1);
      if n / 10 == m / 10 {
        LessCommonPrefix(a, dn, dm);
        assert Less(dn, dm) <==> n % 10 < m % 10;
      } else {
        LessSameLength(a, b, dn, dm);
      }
    }
  }

  /** Rendered days are ordered as the days: the text order is chronological. */
  lemma FormatDateOrder(a: Date, b: Date)
    requires Valid(a) && Valid(b)
    ensures Less(FormatDate(a), FormatDate(b)) <==> Before(a, b)
  {
    var ya, ma, da := Pad(a.year, 4) + "-", Pad(a.month, 2) + "-", Pad(a.day, 2);
    var yb, mb, db := Pad(b.year, 4) + "-", Pad(b.month, 2) + "-", Pad(b.day, 2);
    assert Less(FormatDate(a), FormatDate(b))
       <==> Less(ya, yb) || (ya == yb && (Less(ma, mb) || (ma == mb && Less(da, db)))) by {
      assert FormatDate(a) == ya + (ma + da);
      assert FormatDate(b) == yb + (mb + db);
      LessFields(ya, ma, da, yb, mb, db);
    }
    FieldOrder(a.year, b.year, 4);
    FieldOrder(a.month, b.month, 2);
    PadOrder(a.day, b.day, 2);
  }

  /** A padded field followed by a dash orders, and equals, as its number. */
  lemma FieldOrder(n: nat, m: nat, w: nat)
    requires n < Pow10(w) && m < Pow10(w)
    ensures Less(Pad(n, w) + "-", Pad(m, w) + "-") <==> n < m
    ensures Pad(n, w) + "-" == Pad(m, w) + "-" <==> n == m
  {
    LessLeading(Pad(n, w), Pad(m, w), "-", "-");
    LessIrreflexive("-");
    PadOrder(n, m, w);
    PadOrder(m, n, w);
    LessIrreflexive(Pad(n, w));
    if Pad(n, w) + "-" == Pad(m, w) + "-" {
      assert Pad(n, w) == (Pad(n, w) + "-")[..w];
    }
  }

  /** Two valid days render alike only when they are the same day. */
  lemma FormatDateInjective(a: Date, b: Date)
    requires Valid(a) && Valid(b)
    requires FormatDate(a) == FormatDate(b)
    ensures a == b
  {
    FormatDateOrder(a, b);
    FormatDateOrder(b, a);
    LessIrreflexive(FormatDate(a));
  }
}
