// Every date-time of section 5.6 of RFC 3339 with upper-case T and Z gets exactly its
// Go layout.
module DateRfc3339 {
  import opened DateText
  import opened DateParser
  import opened DateSpelling
  import opened DateClock
  import opened DateTail
  import opened DateEnding
  import opened DateLayouts

  // ---------------------------------------------------------------- the grammar

  predicate DigitsAt(s: string, i: nat, j: nat) {
    i <= j <= |s| && forall k :: i <= k < j ==> IsDigit(s[k])
  }

  /** full-date "T" partial-time without its fraction, in the first 19 bytes. */
  predicate Seconds(s: string) {
    && |s| > 19
    && DigitsAt(s, 0, 4) && s[4] == '-' && DigitsAt(s, 5, 7) && s[7] == '-' && DigitsAt(s, 8, 10)
    && s[10] == 'T'
    && DigitsAt(s, 11, 13) && s[13] == ':' && DigitsAt(s, 14, 16) && s[16] == ':' && DigitsAt(s, 17, 19)
  }

  /** Where the zone starts after n fraction digits; no fraction at all for n = 0. */
  function ZoneAt(n: nat): nat { if n == 0 then 19 else 20 + n }

  predicate Zulu(s: string, e: nat) { |s| == e + 1 && s[e] == 'Z' }

  predicate NumOffset(s: string, e: nat) {
    |s| == e + 6 && (s[e] == '+' || s[e] == '-')
    && DigitsAt(s, e + 1, e + 3) && s[e + 3] == ':' && DigitsAt(s, e + 4, e + 6)
  }

  /** date-time with n fraction digits. */
  predicate DateTime(s: string, n: nat) {
    && Seconds(s)
    && (n > 0 ==> |s| > 20 + n && s[19] == '.' && DigitsAt(s, 20, 20 + n))
    && (Zulu(s, ZoneAt(n)) || NumOffset(s, ZoneAt(n)))
  }

  function Layout(s: string, n: nat): string {
    "2006-01-02T15:04:05" + (if n == 0 then "" else "." + seq(n, _ => '0'))
    + (if Zulu(s, ZoneAt(n)) then "Z" else "-07:00")
  }

  // ---------------------------------------------------------------- its parts

  lemma FullDate(s: string) returns (d: Date)
    requires Seconds(s)
    ensures d.Valid() && d.Joins("T") && !d.NameDay? && !d.Ambiguous() && d.Dropped() == 0
    ensures d.Text() == s[..10] && forall pref :: d.Laid(pref) == "2006-01-02"
  {
    d := YearDashes(s[..4], s[5..7], s[8..10]);
    assert s[..10] == s[..4] + "-" + s[5..7] + "-" + s[8..10];
    assert "2006-" + "01" + "-" + "02" == "2006-01-02";
  }

  lemma PartialTime(s: string) returns (c: Clock)
    requires Seconds(s)
    ensures c.Valid() && c.s != "" && c.Text() == s[11..19] && c.Laid() == "15:04:05"
  {
    c := Clock(s[11..13], s[14..16], s[17..19]);
    assert s[11..19] == s[11..13] + ":" + s[14..16] + (":" + s[17..19]);
  }

  lemma OffsetOf(s: string, e: nat) returns (z: Zone)
    requires NumOffset(s, e)
    ensures z.Valid() && z.colon && z.Text() == s[e..]
  {
    z := Hours(s[e], s[e + 1..e + 3], s[e + 4..], true);
    assert s[e..] == [s[e]] + s[e + 1..e + 3] + ":" + s[e + 4..];
  }

  /** Fraction and zone. */
  lemma Rest(s: string, n: nat, c: Clock) returns (x: Tail)
    requires DateTime(s, n) && c.s != ""
    ensures x.Valid(c) && !x.NeedsNoYear() && x.Cut() == 0 && x.Text() == s[19..] && "2006-01-02T15:04:05" + x.Laid(c) == Layout(s, n)
    ensures x.InUtc() == (n == 0 && s[|s| - 1] == 'Z')
  {
    hide Zone.Text;
    var e := ZoneAt(n);
    if n == 0 {
      if Zulu(s, e) {
        x := Tail.Zulu;
      } else {
        var z := OffsetOf(s, e);
        x := Offset(z);
      }
    } else {
      var after := Suffix("Z");
      if !Zulu(s, e) {
        var z := OffsetOf(s, e);
        after := Tight(z);
      }
      x := Fraction(s[20..e], after);
      assert s[19..] == "." + s[20..e] + s[e..];
    }
  }

  // ---------------------------------------------------------------- the theorem

  /** For every such string, under every option, parseTime succeeds with the Go layout of
      that string and the string itself, and asks for UTC only for a bare seconds Z. */
  lemma Rfc3339Layout(s: string, n: nat, loc: Loc, o: Options, lib: Lib)
    requires DateTime(s, n)
    ensures var r := ParseTime(s, loc, o, lib);
            && r.err.None? && r.x.Some?
            && ParsedLayout(r.x.value) == Layout(s, n) && ParsedInput(r.x.value) == s
            && r.x.value.p.zulu == (n == 0 && s[|s| - 1] == 'Z')
  {
    hide ParseTime, Layout, ParsedLayout, ParsedInput;
    hide Date.Text, Date.Laid, Date.Valid, Date.Joins, Clock.Text, Clock.Laid, Tail.Text, Tail.Laid, Tail.Cut, Tail.Valid, DateTime, Seconds;
    assert Seconds(s) && |s| > 19 && s[10] == 'T' by { StartsWithSeconds(s, n); }
    var d := FullDate(s);
    var c := PartialTime(s);
    var x := Rest(s, n, c);
    Pieces(s, d.Text(), c.Text(), x.Text());
    Joint("2006-01-02", "15:04:05", x.Laid(c));
    FromParts(d, c, x, s, Layout(s, n), loc, o, lib);
  }

  lemma StartsWithSeconds(s: string, n: nat)
    requires DateTime(s, n)
    ensures Seconds(s) && |s| > 19 && s[10] == 'T'
  {}

  lemma Pieces(s: string, d: string, c: string, x: string)
    requires |s| >= 19 && s[10] == 'T' && d == s[..10] && c == s[11..19] && x == s[19..]
    ensures s == d + "T" + "" + c + x
  {}

  lemma Joint(d: string, c: string, x: string)
    requires d == "2006-01-02" && c == "15:04:05"
    ensures d + "T" + "" + c + x == "2006-01-02T15:04:05" + x
  {}

  lemma FromParts(d: Date, c: Clock, x: Tail, s: string, layout: string, loc: Loc, o: Options, lib: Lib)
    requires d.Valid() && d.Joins("T") && !d.NameDay? && !d.Ambiguous() && d.Dropped() == 0
    requires c.Valid() && x.Valid(c) && !x.NeedsNoYear() && x.Cut() == 0
    requires s == d.Text() + "T" + "" + c.Text() + x.Text()
    requires layout == d.Laid(o.preferMonthFirst) + "T" + "" + c.Laid() + x.Laid(c)
    ensures Gives(ParseTime(s, loc, o, lib), layout, s, x.InUtc())
  {
    hide ParseTime, Gives, Date.Text, Date.Laid, Date.Valid, Date.Joins, Clock.Text, Clock.Laid, Tail.Text, Tail.Laid, Tail.Valid;
    DateTimeLayout(d, "T", "", c, x, loc, o, lib);
    assert s[0..|s|] == s;
  }
}
