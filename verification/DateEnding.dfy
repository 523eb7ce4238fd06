// Everything that may follow a clock, as a grammar, and how each part of it is laid out.
module DateEnding {
  import opened DateText
  import opened DateParser
  import opened DateSpelling
  import opened DateClock
  import opened DateTail
  import opened DateFraction

  /** Behind a space. */
  datatype Word =
    | HalfDay(half: string, rest: string)                // PM ...
    | Spaced(z: Zone)                                    // +0530 or +05:30
    | SpacedText(z: Zone, rest: string)                  // +05:30 UTC
    | SpacedName(z: Zone, name: string)                  // +0530 UTC
    | SpacedYear(z: Zone, year: string)                  // +0530 2008
    | SpacedTwice(z: Zone, rest: string)                 // +0300 +03 or +0300 (MSK)
    | SpacedMonotonic(z: Zone, name: string, rest: string) // +0300 MSK m=+0.001
    | Name(name: string)                                 // UTC
    | NameYear(name: string, year: string)               // UTC 2008
    | NameOffset(name: string, z: Zone)                  // UTC+0100 or UTC-05
    | NameYearBehind(name: string, z: Zone, year: string) // UTC+0100 2015
    | NameComment(name: string, z: Zone, rest: string)   // GMT+0100 (GMT Daylight Time)
    | Year(year: string)                                 // 2008
  {
    predicate Valid() {
      match this
      case HalfDay(half, _) => half == "AM" || half == "PM"
      case Spaced(z) => z.Valid() && z.m != ""
      case SpacedText(z, rest) => z.Valid() && z.colon && rest != "" && IsLetter(rest[0])
      case SpacedName(z, name) => FourDigits(z) && name != "" && Letters(name)
      case SpacedYear(z, year) => FourDigits(z) && Digits(year) && |year| == 4
      case SpacedTwice(z, rest) => 
        FourDigits(z) && rest != "" && Unspaced(rest) && (rest[0] == '+' || rest[0] == '-' || rest[0] == '(')
      case SpacedMonotonic(z, name, rest) =>
        FourDigits(z) && name != "" && Letters(name) && rest != "" && (rest[0] == '+' || rest[0] == '-') && Unspaced(rest)
      case Name(name) => Abbreviation(name)
      case NameYear(name, _) => Abbreviation(name)
      case NameOffset(name, z) => Abbreviation(name) && z.Valid() && !z.colon
      case NameYearBehind(name, z, year) => Abbreviation(name) && FourDigits(z) && Digits(year) && |year| == 4
      case NameComment(name, z, rest) => Abbreviation(name) && FourDigits(z) && rest != "" && !IsDigit(rest[0])
      case Year(year) => year != "" && IsDigit(year[0])
    }

    function Text(): string {
      match this
      case HalfDay(half, rest) => half + rest
      case Spaced(z) => z.Text()
      case SpacedText(z, rest) => z.Text() + (" " + rest)
      case SpacedName(z, name) => z.Text() + (" " + name)
      case SpacedYear(z, year) => z.Text() + (" " + year)
      case SpacedTwice(z, rest) => z.Text() + (" " + rest)
      case SpacedMonotonic(z, name, rest) => z.Text() + (" " + (name + (" m=" + rest)))
      case Name(name) => name
      case NameYear(name, year) => name + (" " + year)
      case NameOffset(name, z) => name + z.Text()
      case NameYearBehind(name, z, year) => name + (z.Text() + (" " + year))
      case NameComment(name, z, rest) => name + (z.Text() + (" " + rest))
      case Year(year) => year
    }

    /** The layout; of a year that is not of two or four bytes, and of a name not of three or
        four letters, it is the text itself. */
    function Laid(): string
      requires Valid()
    {
      match this
      case HalfDay(_, rest) => "PM" + rest
      case Spaced(z) => if z.colon then "-07:00" else "-0700"
      case SpacedText(z, rest) => z.Text() + (" " + rest)
      case SpacedName(z, name) => "-0700 " + if |name| == 3 then "MST" else if |name| == 4 then "MST " else name
      case SpacedYear(_, _) => "-0700 2006"
      case SpacedTwice(_, _) => "-0700"
      case SpacedMonotonic(_, name, _) => "-0700 " + name
      case Name(name) => if |name| == 3 || |name| == 4 then "MST" else name
      case NameYear(name, year) => Front(name) + " " + LaidYear(year)
      case NameOffset(name, z) => Front(name) + if z.m == "" then "-07" else "-0700"
      case NameYearBehind(name, _, _) => Front(name) + "-0700 2006"
      case NameComment(name, _, _) => Front(name) + "-0700"
      case Year(year) => LaidYear(year)
    }

    /** How much of the input is cut off at the end. */
    function Cut(): nat {
      match this
      case SpacedTwice(_, rest) => 1 + |rest|
      case SpacedMonotonic(_, _, rest) => 3 + |rest|
      case Name(name) => if |name| == 4 then 1 else 0
      case NameComment(_, _, rest) => 1 + |rest|
      case _ => 0
    }
  }

  function Front(name: string): string {
    if |name| == 3 then "MST" else if |name| == 4 then " MST" else name
  }

  function LaidYear(year: string): string {
    if |year| == 2 then "06" else if |year| == 4 then "2006" else year
  }

  /** A word behind a space, and behind a mark if there is one. */
  lemma WordLays(p: Parser, s: string, c: Clock, pre: string, w: Parser, i: nat, sep: string, x: Word)
    requires AtWord(p, s, c, pre, w, i, sep, x.Text()) && x.Valid() && (x.NameYearBehind? ==> p.yeari == 0)
    ensures c.Valid() && TimeInv(p, s, |pre|) && x.Cut() <= |s|
    ensures Lays(Tailed(p, s, |pre|), p, s, |s| - x.Cut(), pre + c.Laid() + (sep + x.Laid()), false)
  {
    hide AtWord, Lays, Tailed, TimeInv, Word.Valid, Word.Text, Word.Laid, Word.Cut, Clock.Laid;
    match x {
      case HalfDay(_, _) | Spaced(_) | Year(_) => PlainWord(p, s, c, pre, w, i, sep, x);
      case SpacedText(_, _) => TextWord(p, s, c, pre, w, i, sep, x);
      case SpacedName(_, _) | SpacedYear(_, _) | SpacedTwice(_, _) | SpacedMonotonic(_, _, _) =>
        ZonedWord(p, s, c, pre, w, i, sep, x);
      case Name(_) | NameYear(_, _) => NamedWord(p, s, c, pre, w, i, sep, x);
      case NameOffset(_, _) | NameYearBehind(_, _, _) | NameComment(_, _, _) => NamedOffsetWord(p, s, c, pre, w, i, sep, x);
    }
  }

  lemma TextWord(p: Parser, s: string, c: Clock, pre: string, w: Parser, i: nat, sep: string, x: Word)
    requires AtWord(p, s, c, pre, w, i, sep, x.Text()) && x.Valid() && x.SpacedText?
    ensures c.Valid() && TimeInv(p, s, |pre|) && x.Cut() <= |s|
    ensures Lays(Tailed(p, s, |pre|), p, s, |s| - x.Cut(), pre + c.Laid() + (sep + x.Laid()), false)
  {
    hide AtWord, Lays, Tailed, TimeInv, Clock.Laid, Clock.Text, Zone.Text;
    OffsetColonText(p, s, c, pre, w, i, sep, x.z, x.rest);
  }

  lemma PlainWord(p: Parser, s: string, c: Clock, pre: string, w: Parser, i: nat, sep: string, x: Word)
    requires AtWord(p, s, c, pre, w, i, sep, x.Text()) && x.Valid() && (x.HalfDay? || x.Spaced? || x.Year?)
    ensures c.Valid() && TimeInv(p, s, |pre|) && x.Cut() <= |s|
    ensures Lays(Tailed(p, s, |pre|), p, s, |s| - x.Cut(), pre + c.Laid() + (sep + x.Laid()), false)
  {
    hide AtWord, AtZoned, Lays, Tailed, TimeInv, Clock.Laid, Clock.Text, Zone.Text, Abbreviation, Unspaced, Letters, Digits;
    WordParts(p, s, c, pre, w, i, sep, x.Text());
    match x {
      case HalfDay(half, rest) =>
        HalfDayWord(p, s, c, pre, w, i, sep, half, rest);
        Regroup(sep, "PM", rest);
      case Spaced(z) => OffsetWord(p, s, c, pre, w, i, sep, z);
      case Year(year) => YearWord(p, s, c, pre, w, i, sep, year);
    }
  }

  lemma NameBehindOffset(p: Parser, s: string, c: Clock, pre: string, w: Parser, i: nat, sep: string, z: Zone, name: string)
    requires AtWord(p, s, c, pre, w, i, sep, z.Text() + (" " + name)) && FourDigits(z) && name != "" && Letters(name)
    ensures c.Valid() && TimeInv(p, s, |pre|)
    ensures Lays(Tailed(p, s, |pre|), p, s, |s|, pre + c.Laid() + (sep + ("-0700 " + NameLaid(name))), false)
  {
    hide AtWord, AtZoned, Lays, Tailed, TimeInv, Clock.Laid, Clock.Text, Zone.Text, FourDigits, Abbreviation, Unspaced, Letters, Digits;
    WordParts(p, s, c, pre, w, i, sep, z.Text() + (" " + name));
    var u := OffsetThen(p, s, c, pre, w, i, sep, z, name);
    OffsetAndName(p, s, c, pre, u, i + 6, sep, name);
    Zoning(sep, NameLaid(name));
  }

  lemma YearBehindOffset(p: Parser, s: string, c: Clock, pre: string, w: Parser, i: nat, sep: string, z: Zone, year: string)
    requires AtWord(p, s, c, pre, w, i, sep, z.Text() + (" " + year)) && FourDigits(z) && Digits(year) && |year| == 4
    ensures c.Valid() && TimeInv(p, s, |pre|)
    ensures Lays(Tailed(p, s, |pre|), p, s, |s|, pre + c.Laid() + (sep + "-0700 2006"), false)
  {
    hide AtWord, AtZoned, Lays, Tailed, TimeInv, Clock.Laid, Clock.Text, Zone.Text, FourDigits, Abbreviation, Unspaced, Letters, Digits;
    WordParts(p, s, c, pre, w, i, sep, z.Text() + (" " + year));
    var u := OffsetThen(p, s, c, pre, w, i, sep, z, year);
    OffsetAndYear(p, s, c, pre, u, i + 6, sep, year);
    Zoning(sep, "2006");
    assert "-0700 " + "2006" == "-0700 2006";
  }

  lemma ZoneBehindOffset(p: Parser, s: string, c: Clock, pre: string, w: Parser, i: nat, sep: string, z: Zone, rest: string)
    requires AtWord(p, s, c, pre, w, i, sep, z.Text() + (" " + rest)) && FourDigits(z) && rest != "" && Unspaced(rest) && (rest[0] == '+' || rest[0] == '-' || rest[0] == '(')
    ensures c.Valid() && TimeInv(p, s, |pre|) && 1 + |rest| <= |s|
    ensures Lays(Tailed(p, s, |pre|), p, s, |s| - (1 + |rest|), pre + c.Laid() + (sep + "-0700"), false)
  {
    hide AtWord, AtZoned, Lays, Tailed, TimeInv, Clock.Laid, Clock.Text, Zone.Text, FourDigits, Abbreviation, Unspaced, Letters, Digits;
    WordParts(p, s, c, pre, w, i, sep, z.Text() + (" " + rest));
    var u := OffsetThen(p, s, c, pre, w, i, sep, z, rest);
    OffsetTwice(p, s, c, pre, u, i + 6, sep, rest);
  }

  lemma MonotonicBehindOffset(p: Parser, s: string, c: Clock, pre: string, w: Parser, i: nat, sep: string, z: Zone, name: string, rest: string)
    requires AtWord(p, s, c, pre, w, i, sep, z.Text() + (" " + (name + (" m=" + rest)))) && FourDigits(z) && name != "" && Letters(name) && rest != ""
             && (rest[0] == '+' || rest[0] == '-') && Unspaced(rest)
    ensures c.Valid() && TimeInv(p, s, |pre|) && 3 + |rest| <= |s|
    ensures Lays(Tailed(p, s, |pre|), p, s, |s| - (3 + |rest|), pre + c.Laid() + (sep + ("-0700 " + name)), false)
  {
    hide AtWord, AtZoned, Lays, Tailed, TimeInv, Clock.Laid, Clock.Text, Zone.Text, FourDigits, Abbreviation, Unspaced, Letters, Digits;
    WordParts(p, s, c, pre, w, i, sep, z.Text() + (" " + (name + (" m=" + rest))));
    var u := OffsetThen(p, s, c, pre, w, i, sep, z, name + (" m=" + rest));
    OffsetMonotonic(p, s, c, pre, u, i + 6, sep, name, rest);
    Zoning(sep, name);
  }

  lemma OffsetBehindName(p: Parser, s: string, c: Clock, pre: string, w: Parser, i: nat, sep: string, name: string, z: Zone)
    requires AtWord(p, s, c, pre, w, i, sep, name + z.Text()) && Abbreviation(name) && z.Valid() && !z.colon
    ensures c.Valid() && TimeInv(p, s, |pre|)
    ensures Lays(Tailed(p, s, |pre|), p, s, |s|, pre + c.Laid() + (sep + (NameFront(name) + z.Laid())), false)
  {
    hide AtWord, AtZoned, Lays, Tailed, TimeInv, Clock.Laid, Clock.Text, Zone.Text, FourDigits, Abbreviation, Unspaced, Letters, Digits;
    WordParts(p, s, c, pre, w, i, sep, name + z.Text());
    NameAndOffset(p, s, c, pre, w, i, sep, name, z);
    Regroup(sep, NameFront(name), z.Laid());
  }

  lemma CommentBehindName(p: Parser, s: string, c: Clock, pre: string, w: Parser, i: nat, sep: string, name: string, z: Zone, rest: string)
    requires AtWord(p, s, c, pre, w, i, sep, name + (z.Text() + (" " + rest))) && Abbreviation(name) && FourDigits(z) && rest != "" && !IsDigit(rest[0])
    ensures c.Valid() && TimeInv(p, s, |pre|) && 1 + |rest| <= |s|
    ensures Lays(Tailed(p, s, |pre|), p, s, |s| - (1 + |rest|), pre + c.Laid() + (sep + (NameFront(name) + "-0700")), false)
  {
    hide AtWord, AtZoned, Lays, Tailed, TimeInv, Clock.Laid, Clock.Text, Zone.Text, FourDigits, Abbreviation, Unspaced, Letters, Digits;
    WordParts(p, s, c, pre, w, i, sep, name + (z.Text() + (" " + rest)));
    NameOffsetComment(p, s, c, pre, w, i, sep, name, z, rest);
    Regroup(sep, NameFront(name), "-0700");
  }

  lemma YearBehindNameOffset(p: Parser, s: string, c: Clock, pre: string, w: Parser, i: nat, sep: string, name: string, z: Zone, year: string)
    requires AtWord(p, s, c, pre, w, i, sep, name + (z.Text() + (" " + year))) && Abbreviation(name) && FourDigits(z) && Digits(year) && |year| == 4
             && p.yeari == 0
    ensures c.Valid() && TimeInv(p, s, |pre|)
    ensures Lays(Tailed(p, s, |pre|), p, s, |s|, pre + c.Laid() + (sep + (NameFront(name) + "-0700 2006")), false)
  {
    hide AtWord, AtZoned, Lays, Tailed, TimeInv, Clock.Laid, Clock.Text, Zone.Text, FourDigits, Abbreviation, Unspaced, Letters, Digits;
    WordParts(p, s, c, pre, w, i, sep, name + (z.Text() + (" " + year)));
    NameOffsetYear(p, s, c, pre, w, i, sep, name, z, year);
    FourWords(sep, NameFront(name), "-0700", " " + "2006");
    assert "-0700" + (" " + "2006") == "-0700 2006";
  }

  lemma ZonedWord(p: Parser, s: string, c: Clock, pre: string, w: Parser, i: nat, sep: string, x: Word)
    requires AtWord(p, s, c, pre, w, i, sep, x.Text()) && x.Valid()
    requires x.SpacedName? || x.SpacedYear? || x.SpacedTwice? || x.SpacedMonotonic?
    ensures c.Valid() && TimeInv(p, s, |pre|) && x.Cut() <= |s|
    ensures Lays(Tailed(p, s, |pre|), p, s, |s| - x.Cut(), pre + c.Laid() + (sep + x.Laid()), false)
  {
    hide AtWord, AtZoned, Lays, Tailed, TimeInv, Clock.Laid, Clock.Text, Zone.Text, FourDigits, Abbreviation, Unspaced, Letters, Digits;
    match x {
      case SpacedName(z, name) => NameBehindOffset(p, s, c, pre, w, i, sep, z, name);
      case SpacedYear(z, year) => YearBehindOffset(p, s, c, pre, w, i, sep, z, year);
      case SpacedTwice(z, rest) => ZoneBehindOffset(p, s, c, pre, w, i, sep, z, rest);
      case SpacedMonotonic(z, name, rest) => MonotonicBehindOffset(p, s, c, pre, w, i, sep, z, name, rest);
    }
  }

  lemma YearBehindName(p: Parser, s: string, c: Clock, pre: string, w: Parser, i: nat, sep: string, name: string, year: string)
    requires AtWord(p, s, c, pre, w, i, sep, name + (" " + year)) && Abbreviation(name)
    ensures c.Valid() && TimeInv(p, s, |pre|)
    ensures Lays(Tailed(p, s, |pre|), p, s, |s|, pre + c.Laid() + (sep + (NameFront(name) + " " + YearLaid(year))), false)
  {
    hide AtWord, Lays, Tailed, TimeInv, Clock.Laid, Clock.Text, Abbreviation;
    WordParts(p, s, c, pre, w, i, sep, name + (" " + year));
    NameAndYear(p, s, c, pre, w, i, sep, name, year);
    FourWords(sep, NameFront(name), " ", YearLaid(year));
  }

  lemma NamedWord(p: Parser, s: string, c: Clock, pre: string, w: Parser, i: nat, sep: string, x: Word)
    requires AtWord(p, s, c, pre, w, i, sep, x.Text()) && x.Valid() && (x.Name? || x.NameYear?)
    ensures c.Valid() && TimeInv(p, s, |pre|) && x.Cut() <= |s|
    ensures Lays(Tailed(p, s, |pre|), p, s, |s| - x.Cut(), pre + c.Laid() + (sep + x.Laid()), false)
  {
    hide AtWord, Lays, Tailed, TimeInv, Clock.Laid, Clock.Text, Abbreviation;
    match x {
      case Name(name) =>
        assert |name| <= |s| by { WordParts(p, s, c, pre, w, i, sep, name); }
        NameEnds(p, s, c, pre, w, i, sep, name);
      case NameYear(name, year) => YearBehindName(p, s, c, pre, w, i, sep, name, year);
    }
  }

  lemma NamedOffsetWord(p: Parser, s: string, c: Clock, pre: string, w: Parser, i: nat, sep: string, x: Word)
    requires AtWord(p, s, c, pre, w, i, sep, x.Text()) && x.Valid() && (x.NameOffset? || x.NameYearBehind? || x.NameComment?) && (x.NameYearBehind? ==> p.yeari == 0)
    ensures c.Valid() && TimeInv(p, s, |pre|) && x.Cut() <= |s|
    ensures Lays(Tailed(p, s, |pre|), p, s, |s| - x.Cut(), pre + c.Laid() + (sep + x.Laid()), false)
  {
    hide AtWord, Lays, Tailed, TimeInv, Clock.Laid, Clock.Text, Zone.Text, Abbreviation, FourDigits, Digits;
    match x {
      case NameOffset(name, z) =>
        OffsetBehindName(p, s, c, pre, w, i, sep, name, z);
      case NameYearBehind(name, z, year) =>
        YearBehindNameOffset(p, s, c, pre, w, i, sep, name, z, year);
      case NameComment(name, z, rest) =>
        CommentBehindName(p, s, c, pre, w, i, sep, name, z, rest);
    }
  }

  lemma Zoning(sep: string, w: string)
    ensures (sep + "-0700") + (" " + w) == sep + ("-0700 " + w)
  {}

  lemma FourWords(a: string, b: string, c: string, d: string)
    ensures (a + b + c) + d == a + (b + c + d) == a + (b + (c + d))
  {}

  // ---------------------------------------------------------------- behind a fraction

  datatype After =
    | End
    | Suffix(rest: string)                                   // Z, or any other letters
    | Tight(z: Zone)                                         // +0100
    | TightThen(z: Zone, rest: string)                       // +01:00 CET
    | GapText(rest: string)                                  // a space and UTC, or PM
    | GapNumber(digits: string)                              // a space and 2008
    | GapZone(z: Zone)                                       // a space and +0100
    | GapZoneText(z: Zone, rest: string)                     // a space and +0100 CET
    | GapZoneName(z: Zone, name: string)                     // a space and +01:00 CET
    | GapTwice(z: Zone, rest: string)                        // a space and +0300 +03
    | GapMono(z: Zone, name: string, rest: string)           // a space and +0300 MSK m=+0.001
  {
    predicate Valid() {
      match this
      case End => true
      case Suffix(rest) => rest != "" && IsLetter(rest[0])
      case Tight(z) => z.Valid()
      case TightThen(z, _) => z.Valid() && z.colon
      case GapText(rest) => rest != "" && IsLetter(rest[0])
      case GapNumber(digits) => digits != "" && Digits(digits)
      case GapZone(z) => z.Valid() && z.m != ""
      case GapZoneText(z, rest) => FourDigits(z) && rest != "" && IsLetter(rest[0]) && '=' !in rest
      case GapZoneName(z, name) => z.Valid() && z.colon && name != "" && IsLetter(name[0])
      case GapTwice(z, rest) => FourDigits(z) && rest != "" && (rest[0] == '+' || rest[0] == '-') && Digits(rest[1..])
      case GapMono(z, name, rest) => FourDigits(z) && name != "" && IsLetter(name[0]) && '=' !in name && '=' !in rest
    }

    function Text(): string {
      match this
      case End => ""
      case Suffix(rest) => rest
      case Tight(z) => z.Text()
      case TightThen(z, rest) => z.Text() + (" " + rest)
      case GapText(rest) => " " + rest
      case GapNumber(digits) => " " + digits
      case GapZone(z) => " " + z.Text()
      case GapZoneText(z, rest) => " " + (z.Text() + (" " + rest))
      case GapZoneName(z, name) => " " + (z.Text() + (" " + name))
      case GapTwice(z, rest) => " " + (z.Text() + (" " + rest))
      case GapMono(z, name, rest) => " " + (z.Text() + (" " + (name + (" m=" + rest))))
    }

    function Laid(): string
      requires Valid()
    {
      match this
      case End => ""
      case Suffix(rest) => rest
      case Tight(z) => if z.m == "" then z.Text() else if z.colon then "-07:00" else "-0700"
      case TightThen(_, rest) => "-07:00 " + rest
      case GapText(rest) => " " + rest
      case GapNumber(digits) => " " + digits
      case GapZone(z) => if z.colon then " " + z.Text() else " -0700"
      case GapZoneText(_, rest) => " -0700 " + rest
      case GapZoneName(_, name) => " -07:00 " + if |name| == 3 then "MST" else if |name| == 4 then "MST " else name
      case GapTwice(_, _) => " -0700"
      case GapMono(_, name, _) => " -0700 " + name
    }

    function Cut(): nat {
      match this
      case GapTwice(_, rest) => 1 + |rest|
      case GapMono(_, _, rest) => 3 + |rest|
      case _ => 0
    }
  }

  lemma FractionLays(p: Parser, s: string, c: Clock, pre: string, w: Parser, k: nat, f: string, x: After)
    requires AtFraction(p, s, c, pre, w, k, f, x.Text()) && x.Valid()
    ensures c.Valid() && TimeInv(p, s, |pre|) && x.Cut() <= |s|
    ensures Lays(Tailed(p, s, |pre|), p, s, |s| - x.Cut(), pre + c.Laid() + ("." + Noughts(|f|) + x.Laid()), false)
  {
    hide AtFraction, AtGap, Lays, Tailed, TimeInv, Clock.Laid, Clock.Text, Zone.Text, Noughts;
    match x {
      case End => FractionAlone(p, s, c, pre, w, k, f);
      case Suffix(rest) => FractionWord(p, s, c, pre, w, k, f, rest);
      case Tight(z) => FractionOffset(p, s, c, pre, w, k, f, z);
      case TightThen(z, rest) =>
        FractionOffsetThen(p, s, c, pre, w, k, f, z, rest);
        TwoSpaced(rest);
      case GapText(rest) =>
        var u := FractionSpace(p, s, c, pre, w, k, f, rest);
        hide After.Text;
        GapWord(p, s, c, pre, u, k + |f| + 1, f, rest);
      case GapNumber(digits) =>
        var u := FractionSpace(p, s, c, pre, w, k, f, digits);
        hide After.Text;
        GapDigits(p, s, c, pre, u, k + |f| + 1, f, digits);
      case _ =>
        GapLays(p, s, c, pre, w, k, f, x);
    }
  }

  lemma TwoSpaced(b: string)
    ensures "-07:00" + (" " + b) == "-07:00 " + b && " -0700" + (" " + b) == " -0700 " + b
  {}

  lemma GapLays(p: Parser, s: string, c: Clock, pre: string, w: Parser, k: nat, f: string, x: After)
    requires AtFraction(p, s, c, pre, w, k, f, x.Text()) && x.Valid()
    requires x.GapZone? || x.GapZoneText? || x.GapZoneName? || x.GapTwice? || x.GapMono?
    ensures c.Valid() && TimeInv(p, s, |pre|) && x.Cut() <= |s|
    ensures Lays(Tailed(p, s, |pre|), p, s, |s| - x.Cut(), pre + c.Laid() + ("." + Noughts(|f|) + x.Laid()), false)
  {
    hide AtFraction, AtGap, AtOffset, AtGapZoned, Lays, Tailed, TimeInv, Clock.Laid, Clock.Text, Zone.Text, Noughts;
    match x {
      case GapZone(z) =>
        var u := FractionOffsetGap(p, s, c, pre, w, k, f, z.Text(), z);
        assert " " + "-0700" == " -0700";
        if z.colon { GapOffsetColon(p, s, c, pre, u, k + |f| + 1, f, z); } else { GapOffset(p, s, c, pre, u, k + |f| + 1, f, z); }
      case GapZoneName(z, name) =>
        var u := FractionOffsetGap(p, s, c, pre, w, k, f, z.Text() + (" " + name), z);
        GapOffsetColonName(p, s, c, pre, u, k + |f| + 1, f, z, name);
      case GapZoneText(z, rest) =>
        var v := FractionZonedGap(p, s, c, pre, w, k, f, z, rest);
        GapOffsetWord(p, s, c, pre, v, k + |f| + 7, f, rest);
        TwoSpaced(rest);
      case GapTwice(z, rest) =>
        var v := FractionZonedGap(p, s, c, pre, w, k, f, z, rest);
        GapOffsetTwice(p, s, c, pre, v, k + |f| + 7, f, rest);
      case GapMono(z, name, rest) =>
        var v := FractionZonedGap(p, s, c, pre, w, k, f, z, name + (" m=" + rest));
        GapMonotonic(p, s, c, pre, v, k + |f| + 7, f, name, rest);
        TwoSpaced(name);
    }
  }

  lemma FractionOffsetGap(p: Parser, s: string, c: Clock, pre: string, w: Parser, k: nat, f: string, t: string, z: Zone)
    returns (u: Parser)
    requires AtFraction(p, s, c, pre, w, k, f, " " + t) && z.Valid() && z.Text() <= t
    ensures AtOffset(p, s, c, pre, u, k + |f| + 1, f, t) && TimeInv(p, s, |pre|)
  {
    hide AtFraction, AtGap, AtOffset, TimeInv, Zone.Text;
    Signed(z);
    assert t[0] == z.Text()[0];
    u := FractionSpace(p, s, c, pre, w, k, f, t);
    u := GapSign(p, s, c, pre, u, k + |f| + 1, f, t);
  }

  lemma FractionZonedGap(p: Parser, s: string, c: Clock, pre: string, w: Parser, k: nat, f: string, z: Zone, rest: string)
    returns (v: Parser)
    requires AtFraction(p, s, c, pre, w, k, f, " " + (z.Text() + (" " + rest))) && FourDigits(z)
    ensures AtGapZoned(p, s, c, pre, v, k + |f| + 7, f, rest) && TimeInv(p, s, |pre|) && k + |f| + 7 + |rest| == |s|
  {
    hide AtFraction, AtGap, AtOffset, AtGapZoned, TimeInv, Zone.Text;
    var u := FractionOffsetGap(p, s, c, pre, w, k, f, z.Text() + (" " + rest), z);
    v := GapOffsetThen(p, s, c, pre, u, k + |f| + 1, f, z, rest);
    assert k + |f| + 7 + |rest| == |s| by { GapZonedEnd(p, s, c, pre, v, k + |f| + 7, f, rest); }
  }

  lemma GapZonedEnd(p: Parser, s: string, c: Clock, pre: string, v: Parser, g: nat, f: string, rest: string)
    requires AtGapZoned(p, s, c, pre, v, g, f, rest)
    ensures g + |rest| == |s|
  {}

  // ---------------------------------------------------------------- behind the clock

  datatype Tail =
    | Nothing
    | Zulu
    | ZuluDigits(rest: string)                // Z07:00
    | Mark(mark: string)                      // am, AM, pm or PM
    | Offset(z: Zone)
    | Spacing(mark: string, word: Word)       // a space and a word, perhaps behind a mark
    | Fraction(f: string, after: After)
  {
    predicate Valid(c: Clock) {
      match this
      case Nothing | Zulu => true
      case ZuluDigits(rest) => rest != "" && IsDigit(rest[0])
      case Mark(mark) => HalfMarked(mark)
      case Offset(z) => z.Valid()
      case Spacing(mark, word) => (mark == "" || HalfMarked(mark)) && word.Valid()
      case Fraction(f, after) => c.s != "" && Digits(f) && after.Valid()
    }

    function Text(): string {
      match this
      case Nothing => ""
      case Zulu => "Z"
      case ZuluDigits(rest) => "Z" + rest
      case Mark(mark) => mark
      case Offset(z) => z.Text()
      case Spacing(mark, word) => mark + (" " + word.Text())
      case Fraction(f, after) => "." + f + after.Text()
    }

    function Laid(c: Clock): string
      requires Valid(c)
    {
      match this
      case Nothing => ""
      case Zulu => "Z"
      case ZuluDigits(rest) => "Z" + rest
      case Mark(mark) => if mark == "AM" then "PM" else mark
      case Offset(z) => if z.m == "" then "-07" else if z.colon then "-07:00" else "-0700"
      case Spacing(mark, word) => (if mark == "AM" then "PM" else mark) + " " + word.Laid()
      case Fraction(f, after) => "." + seq(|f|, _ => '0') + after.Laid()
    }

    /** How much of the input is cut off at the end. */
    function Cut(): nat {
      match this
      case Spacing(_, word) => word.Cut()
      case Fraction(_, after) => after.Cut()
      case _ => 0
    }

    /** Whether the time is in UTC. */
    predicate InUtc() { Zulu? || ZuluDigits? }

    /** Whether the year comes last of all, behind a zone that has a name and an offset. */
    predicate NeedsNoYear() { Spacing? && word.NameYearBehind? }
  }

  /** What follows a clock is laid out as the grammar says, whatever the date before it. */
  lemma TailLays(p: Parser, s: string, c: Clock, pre: string, e: nat, x: Tail)
    requires Before(p, s, c, pre, e) && e <= |s| && s[e..] == x.Text() && x.Valid(c) && (x.NeedsNoYear() ==> p.yeari == 0)
    ensures c.Valid() && TimeInv(p, s, |pre|) && x.Cut() <= |s|
    ensures Lays(Tailed(p, s, |pre|), p, s, |s| - x.Cut(), pre + c.Laid() + x.Laid(c), x.InUtc())
  {
    hide Before, Lays, Tailed, TimeInv, Clock.Laid, Clock.Text, Word.Laid, Word.Text, Word.Cut, Word.Valid;
    hide After.Text, After.Laid, After.Cut, After.Valid, HalfMarked;
    match x {
      case Nothing | Zulu | ZuluDigits(_) | Mark(_) | Offset(_) => TightLays(p, s, c, pre, e, x);
      case Spacing(mark, word) => SpacingLays(p, s, c, pre, e, mark, word);
      case Fraction(f, after) => PointLays(p, s, c, pre, e, f, after);
    }
  }

  lemma TightLays(p: Parser, s: string, c: Clock, pre: string, e: nat, x: Tail)
    requires Before(p, s, c, pre, e) && e <= |s| && s[e..] == x.Text() && x.Valid(c)
    requires x.Nothing? || x.InUtc() || x.Mark? || x.Offset?
    ensures c.Valid() && TimeInv(p, s, |pre|)
    ensures Lays(Tailed(p, s, |pre|), p, s, |s|, pre + c.Laid() + x.Laid(c), x.InUtc())
  {
    hide Before, Stage, Lays, Tailed, TimeInv, Clock.Laid, Clock.Text, Zone.Text, RunTime, Render;
    assert c.Valid() && TimeInv(p, s, |pre|) by { Enters(p, s, c, pre, e); }
    match x {
      case Nothing =>
        ClockAlone(p, s, c, pre, e);
        NothingBack(pre, c.Laid());
      case Zulu => ZuluBehind(p, s, c, pre, e);
      case ZuluDigits(rest) => ZuluAndDigit(p, s, c, pre, e, rest);
      case Mark(mark) => HalfAlone(p, s, c, pre, e, mark);
      case Offset(z) => OffsetBehind(p, s, c, pre, e, z);
    }
  }

  lemma PointLays(p: Parser, s: string, c: Clock, pre: string, e: nat, f: string, after: After)
    requires Before(p, s, c, pre, e) && e <= |s| && s[e..] == "." + f + after.Text()
    requires c.s != "" && Digits(f) && after.Valid()
    ensures c.Valid() && TimeInv(p, s, |pre|) && after.Cut() <= |s|
    ensures Lays(Tailed(p, s, |pre|), p, s, |s| - after.Cut(), pre + c.Laid() + ("." + seq(|f|, _ => '0') + after.Laid()), false)
  {
    hide Before, AtFraction, Lays, Tailed, TimeInv, Clock.Laid, Clock.Text, After.Text, After.Laid, After.Cut, After.Valid;
    var w := PointBehind(p, s, c, pre, e, f, after.Text());
    FractionLays(p, s, c, pre, w, e + 1, f, after);
    assert Noughts(|f|) == seq(|f|, _ => '0');
  }

  lemma SpacingLays(p: Parser, s: string, c: Clock, pre: string, e: nat, mark: string, word: Word)
    requires Before(p, s, c, pre, e) && e <= |s| && s[e..] == mark + (" " + word.Text())
    requires (mark == "" || HalfMarked(mark)) && word.Valid() && (word.NameYearBehind? ==> p.yeari == 0)
    ensures c.Valid() && TimeInv(p, s, |pre|) && word.Cut() <= |s|
    ensures Lays(Tailed(p, s, |pre|), p, s, |s| - word.Cut(),
                 pre + c.Laid() + ((if mark == "AM" then "PM" else mark) + " " + word.Laid()), false)
  {
    hide Before, AtWord, Lays, Tailed, TimeInv, Clock.Laid, Clock.Text, Word.Laid, Word.Text, Word.Cut, Word.Valid, HalfMarked;
    if mark == "" {
      assert mark + (" " + word.Text()) == " " + word.Text() by { NothingBack("", " " + word.Text()); }
      assert "" + " " == " ";
      var w := SpaceBehind(p, s, c, pre, e, word.Text());
      WordLays(p, s, c, pre, w, e + 1, " ", word);
    } else {
      var w := MarkThenSpace(p, s, c, pre, e, mark, word.Text());
      WordLays(p, s, c, pre, w, e + 3, HalfLaid(mark) + " ", word);
    }
  }

  lemma MarkThenSpace(p: Parser, s: string, c: Clock, pre: string, e: nat, mark: string, t: string) returns (w: Parser)
    requires Before(p, s, c, pre, e) && e <= |s| && s[e..] == mark + (" " + t) && HalfMarked(mark)
    ensures AtWord(p, s, c, pre, w, e + 3, HalfLaid(mark) + " ", t)
  {
    hide Before, Stage, AtWord, TimeInv, RunTime, Render, Clock.Laid, Clock.Text, HalfMarked;
    assert |HalfLaid(mark)| == 2 by { HalfLength(mark); }
    hide HalfLaid;
    var v := HalfBehind(p, s, c, pre, e, mark, " " + t);
    assert e == |pre + c.Text()| && c.Valid() by { Ending(p, s, c, pre, e); }
    w := SpaceAgain(p, s, c, pre, v, e + 2, HalfLaid(mark), t);
  }

  lemma Ending(p: Parser, s: string, c: Clock, pre: string, e: nat)
    requires Before(p, s, c, pre, e)
    ensures c.Valid() && e == |pre + c.Text()|
  {}

  lemma HalfLength(mark: string)
    requires HalfMarked(mark)
    ensures |HalfLaid(mark)| == 2
  {}
}
