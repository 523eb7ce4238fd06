# watchmaker, verified

Watchmaker shifts the clock that a running process sees. It links a small position-independent
image, stops the process, maps the image into it and overwrites a vDSO function with a jump to
it; the image asks the kernel for the time and adds a configured delta. This project models that
chain in Dafny and proves what it is for, part by part and then end to end. Line numbers below
are those of the repository's files.

`dafny verify dfyconfig.toml` checks everything.

## The parts

- **Date parser** (`date_parse.go`). `DateParser` has the two scanning loops as transition
  functions on a record, one function per state, and `parseTime` on top; the contracts carry the
  invariants that make every index and slice in range and every run end. `DateMachine` has the
  same parser as the source has it, an object with a byte buffer written in place by loops that
  move the index forwards and back, and proves that it does what the functions say; where a row
  below says "as F", the method does to the object, whose layout is ghost, what F of
  `DateParser` computes from it. About the functions: `DateAgree`, `DateRuns`, `DateRestart` and
  `DateShape` prove that the outcome depends on the shape of the string alone, and exactly when;
  `DatePreference` and `DateRetry` that the month/day preference and the deferred retry steer
  neither success nor error; `DateSwap` what the retry does change, and when that depends on the
  digits; `DateFormat` the promise of `ParseDateFormat`.
- **Layouts.** What the parser is for is the layout it finds. `DateLayouts` has a grammar of
  dates, `DateEnding` one of what may follow a clock; `DateLayout` and `DateTimeLayout` give the
  layout of every date alone and of every date with every clock and tail, as text, whatever the
  digits, and with it what is cut off the input. On the way there: `DateWalk`, `DateSpelling` and
  `DateFields` (states that pass over bytes, layouts as text), `DateStage` (the stages of the date
  loop), `DateNumbers`, `DateNames` and `DateMonths` (one family of dates after the other),
  `DateClock`, `DateTail` and `DateFraction` (a clock and what follows it). `DateAgain` has the
  forms that are parsed twice, `DateRefusals` what is refused, `DateRfc3339` the date-times of RFC
  3339 as an instance, and `DateExamples` examples letter by letter.
- **Image linker** (`asset_linux*.go`). `Linker` patches the relocation sites and decodes the
  patched instructions again. `Layout` says where the variables' slots end up, and exactly when
  an image set to any values is still recognised.
- **Process** (`ptrace_linux*.go`). `Memory` and `Tracee` are the target as ptrace shows it: byte
  memory, registers, and primitives that may fail, with the kernel as a function. "The kernel
  has room" (`HasPages`) means that the code at the instruction pointer is there to be borrowed
  and one of the two requests for pages is granted.
  `Room` says when a kernel has it: a memory that is small enough has a gap, and a kernel that
  maps at the first gap exists and is generous. `StopWorld` is the protocol that stops all threads, against a target that spawns
  threads while it is being scanned.
- **Injector** (`fake_image_linux*.go`, `time_skew_linux.go`). `Injection` says what injecting
  does to memory, `FakeImage` has the operations with their rollback, `Session` any
  sequence of them, `Runs` some that come out unexpectedly, `Skew` several images in one process.
- **Clocks** (`fakeclock/*.c`). `Clock` has the arithmetic of the three fake functions with C's
  undefined overflow made explicit. `Offset` reads the command line. `Children` collects the
  processes below one.
- **End to end.** `EndToEnd` runs from the offset on the command line to the reading in the
  process, through code that is fetched and decoded from the process's own memory.

## What turned out

The following hold of the code as it is; each is a proved statement.

- A string of digits alone that is 10, 13, 16 or 19 long is read as a Unix time, and only there
  (after any leading weekdays) do the digits decide the outcome: `ShapeInvariance` is an
  if-and-only-if. The layout `ParseDateFormat` returns for it is the number itself
  (`TimeIsStamp`).
- Not every part gets a layout. With the day first a date with colons is left as it is
  (`ColonsUnlaid`), and so is am in small letters (`HalfAlone`). Behind a fraction Z is not taken
  for UTC (`FractionWord`), a year is not laid out (`GapDigits`), nor is an offset with a colon and
  nothing behind it (`GapOffsetColon`). Of a zone of four letters at the end the last letter is cut
  off the input (`NameEnds`); a zone that starts with AM or PM is taken for half a day
  (`HalfDayWord`). The digits behind a third colon are a fraction only if an offset follows
  (`ThirdColon`), and before a month name a day of one digit loses the slash behind it
  (`ShortDayLayout`).
- The retry for ambiguous dates assigns the new parser but drops the new error. That is harmless:
  `RetryKeepsTheOutcome`. With the retry on, digits matter through the library's verdicts, and do
  exactly for ambiguous dates, unless the retry is bound to undo its own change
  (`VerdictDecides`, `RetryShapeInvariance`): "1/2/2014" is one
  (`SlashDatesAreSwappable`).
- Behind a weekday the options are dropped, so the retry never exchanges month and day there; it
  only replaces the caller's location by Local (`RetryBehindWeekday`).
- An offset beyond int64 without a unit is not rejected at once: its last digit is taken for the
  unit, and only if the rest does not fit either is there an error (`OffsetMeaning`). A product
  beyond int64 wraps around (`OffsetIsExact` says exactly when). Without a sign, an offset of 4, 8
  or 14 bytes may be a date: "3600" is a year (`UnsignedMeaning`).
- When stopping the threads fails, threads may stay traced: exactly the one whose interrupt or
  wait failed after it was seized, and those whose release was refused (`Trace`; `InterruptFails`
  is such a run). A refused release ends `Detach` early, and every thread from that one on stays
  traced.
- Recovering is an exact inverse of injecting only for symbols of at least sixteen bytes in
  whole words; otherwise zeroes and a rest of the jump stay behind (`RecoverFrame`,
  `ExactInverse`).
- A second attach finds the image and does not patch again, so attaching after recovering
  succeeds with the function unpatched (`AttachAgain`), and so does attaching after a first attach
  that did not find the function (`AttachAfterLookup`). After a successful attach the function
  jumps to the image if and only if the image is new or the function did so before
  (`AttachToProcess`).
- A set image is sure to be recognised if and only if the last relocations, as many as there are
  symbols, have distinct symbols (`LinkerLays`, `RecognisedExactly`). Otherwise a second attach
  maps another image when the first one's variables are not zero (`TwoMappings`; `ImagesPileUp`
  is such a run). It saves the first jump as the function's bytes, so no recovery restores the
  function (`LostFunction`).
- Recovering a skew leaves the `time` function jumping to its image (`Skew.Recover`).
- A nanosecond field of exactly a billion is reached, exactly at positive multiples
  (`FakeClockGettime`); a microsecond field of a million likewise is in range
  (`FakeGettimeofday`).

## Model

| member | source | states |
|---|---|---|
| DateText.WrittenAt | date_parse.go:2027-2037 | all of the value is written or, if it does not fit, nothing; every other cell is kept |
| DateText.CommaReplaced | date_parse.go:1164-1171 | replacing a comma leaves one comma less, which is what makes the restart end |
| DateParser.OnStart | date_parse.go:266-273 | digit, letter, or an error; index, buffer and string stay in step |
| DateParser.OnDigitSlash1 | date_parse.go:291-327 | year first, day and month name, or an ambiguous pair whose first part the preference assigns; index, buffer and string stay in step |
| DateParser.OnDigitColon1 | date_parse.go:328-345 | as for a slash, but with the day first nothing is assigned; index, buffer and string stay in step |
| DateParser.OnDigitDot1 | date_parse.go:346-362 | year first, or month first and ambiguous; index, buffer and string stay in step |
| DateParser.OnDigit | date_parse.go:274-396 | what the byte after the first number decides; a comma is an error; index, buffer and string stay in step |
| DateParser.OnDigitSt | date_parse.go:398-402 | six digits and a space are a date; the index moves back by one; index, buffer and string stay in step |
| DateParser.OnYearDash | date_parse.go:403-422 | the month ends at a dash, or is a name; index, buffer and string stay in step |
| DateParser.OnYearDashDash | date_parse.go:423-448 | the day ends at an offset, a space or T; index, buffer and string stay in step |
| DateParser.OnYearDashDashOffset | date_parse.go:455-462 | an offset with a colon; index, buffer and string stay in step |
| DateParser.OnYearDashAlphaDash | date_parse.go:464-471 | a month name between dashes; index, buffer and string stay in step |
| DateParser.OnDigitDash | date_parse.go:472-480 | a month name must follow; index, buffer and string stay in step |
| DateParser.OnDigitDashAlpha | date_parse.go:481-492 | the month name ends; index, buffer and string stay in step |
| DateParser.OnDigitDashAlphaDash | date_parse.go:493-524 | two or four digits of year before a time; index, buffer and string stay in step |
| DateParser.OnDigitYearSlash | date_parse.go:526-545 | month and day of a date with the year first; index, buffer and string stay in step |
| DateParser.OnDigitSlashAlpha | date_parse.go:546-567 | a month name between slashes; index, buffer and string stay in step |
| DateParser.OnDigitSlash | date_parse.go:568-604 | the second slash assigns the other part, by preference; index, buffer and string stay in step |
| DateParser.OnDigitColon | date_parse.go:605-643 | the same with colons, and with the year first; index, buffer and string stay in step |
| DateParser.OnDigitWs | date_parse.go:644-675 | a short or a long month name after the day; index, buffer and string stay in step |
| DateParser.OnDigitWsMoYear | date_parse.go:676-692 | the year ends at a comma or a space; index, buffer and string stay in step |
| DateParser.OnDigitDot | date_parse.go:706-727 | the second dot; index, buffer and string stay in step |
| DateParser.OnAlphaSpace | date_parse.go:763-806 | a full month name, a weekday to drop and restart behind, or a short word; index, buffer and string stay in step |
| DateParser.OnAlpha | date_parse.go:730-829 | the first word; a four-letter abbreviation loses a letter and the parse restarts on a shorter string; index, buffer and string stay in step |
| DateParser.OnAlphaWs | date_parse.go:830-855 | weekday and month, or month and day; index, buffer and string stay in step |
| DateParser.OnAlphaWsDigit | date_parse.go:856-878 | the day after a short month name; a suffix does not advance the index; index, buffer and string stay in step |
| DateParser.OnAlphaWsDigitYearmaybe | date_parse.go:879-897 | year or hour; the index moves back by three and not below one; index, buffer and string stay in step |
| DateParser.OnAlphaWsDigitMore | date_parse.go:898-908 | the year starts; index, buffer and string stay in step |
| DateParser.OnAlphaWsDigitMoreWs | date_parse.go:909-928 | the year ends; index, buffer and string stay in step |
| DateParser.OnAlphaPeriodWsDigit | date_parse.go:1039-1049 | the day after an abbreviated month; anything else is an error that still returns the parser; index, buffer and string stay in step |
| DateParser.OnAlphaWsMonth | date_parse.go:930-951 | the day after a full month name; a suffix does not advance the index; index, buffer and string stay in step |
| DateParser.OnAlphaWsMonthMore | date_parse.go:952-970 | the year ends; index, buffer and string stay in step |
| DateParser.OnAlphaWsMonthSuffix | date_parse.go:971-1000 | a day suffix is cut out and the parse restarts on a shorter string; index, buffer and string stay in step |
| DateParser.OnAlphaWsMore | date_parse.go:1001-1037 | the day after a full month name, with more to come; index, buffer and string stay in step |
| DateParser.OnWeekdayComma | date_parse.go:1050-1072 | day, month and year after a weekday that will be skipped; index, buffer and string stay in step |
| DateParser.OnWeekdayAbbrevComma | date_parse.go:1073-1103 | the same after a short weekday; index, buffer and string stay in step |
| DateParser.DateStep | date_parse.go:264-1108 | one turn of the date loop, for every state and byte: the invariant is kept, and the turn advances, or enters the suffix state, which is never left, or ends the loop |
| DateParser.OnTimeSign | date_parse.go:1172-1186 | minutes, seconds or fraction end at the sign; the fraction stays inside the buffer, even once it is cut |
| DateParser.OnTimeZulu | date_parse.go:1191-1199 | Z sets UTC; the fraction stays inside the buffer, even once it is cut |
| DateParser.OnTimeHalf | date_parse.go:1222-1235 | am or pm; AM is laid out as PM; the fraction stays inside the buffer, even once it is cut |
| DateParser.OnTimeA | date_parse.go:1200-1222 | the word at resets the hour; the fraction stays inside the buffer, even once it is cut |
| DateParser.OnTimeSpace | date_parse.go:1236-1238 | the clock is written; the fraction stays inside the buffer, even once it is cut |
| DateParser.OnTimeColon | date_parse.go:1239-1256 | minutes, seconds, then a colon that becomes a dot in buffer and string; the number of commas is kept; the fraction stays inside the buffer, even once it is cut |
| DateParser.OnTimeChar | date_parse.go:1164-1256 | every byte while the clock is read; a comma restarts with one comma less; the fraction stays inside the buffer, even once it is cut |
| DateParser.OnTimeStart | date_parse.go:1125-1256 | the first byte is where the hour starts; the fraction stays inside the buffer, even once it is cut |
| DateParser.OnTimeWs | date_parse.go:1265-1307 | day half, offset, zone or year; the fraction stays inside the buffer, even once it is cut |
| DateParser.OnTimeWsAlpha | date_parse.go:1308-1340 | a zone name ends; the fraction stays inside the buffer, even once it is cut |
| DateParser.OnTimeWsAlphaZoneOffset | date_parse.go:1344-1359 | the offset ends; the fraction stays inside the buffer, even once it is cut |
| DateParser.OnTimeWsAlphaZoneOffsetWs | date_parse.go:1360-1371 | a year, or a comment to cut off; the fraction stays inside the buffer, even once it is cut |
| DateParser.OnTimeWsAlphaZoneOffsetWsYear | date_parse.go:1372-1379 | a trailing year; the fraction stays inside the buffer, even once it is cut |
| DateParser.OnTimeWsAMPMMaybe | date_parse.go:1380-1398 | PM and the hour of a twelve-hour clock, or a zone; the fraction stays inside the buffer, even once it is cut |
| DateParser.OnTimeWsOffset | date_parse.go:1400-1419 | a colon or the end of the offset; the fraction stays inside the buffer, even once it is cut |
| DateParser.OnTimeWsOffsetWs | date_parse.go:1420-1456 | a year, a zone, a monotonic reading or a second zone to cut off; the fraction stays inside the buffer, even once it is cut |
| DateParser.OnTimeMonotonic | date_parse.go:1426-1433 | buffer and string are cut together, inside both; the fraction stays inside the buffer, even once it is cut |
| DateParser.OnTimeExtraZone | date_parse.go:1434-1442 | buffer and string are cut together, inside both; the fraction stays inside the buffer, even once it is cut |
| DateParser.OnTimeWsOffsetColon | date_parse.go:1458-1467 | a zone name ends the loop; the fraction stays inside the buffer, even once it is cut |
| DateParser.OnTimeOffset | date_parse.go:1257-1264 | a colon in the offset; the fraction stays inside the buffer, even once it is cut |
| DateParser.OnTimePeriod | date_parse.go:1468-1511 | the fraction ends; its length fits the buffer; the fraction stays inside the buffer, even once it is cut |
| DateParser.OnTimePeriodOffset | date_parse.go:1512-1520 | a colon in the offset; the fraction stays inside the buffer, even once it is cut |
| DateParser.OnTimePeriodOffsetColon | date_parse.go:1521-1531 | the offset ends; the fraction stays inside the buffer, even once it is cut |
| DateParser.OnTimePeriodWs | date_parse.go:1534-1560 | an offset or a zone name; the fraction stays inside the buffer, even once it is cut |
| DateParser.OnTimePeriodWsOffset | date_parse.go:1562-1597 | the offset ends, or something to cut off; the fraction stays inside the buffer, even once it is cut |
| DateParser.OnTimePeriodWsOffsetWsAlpha | date_parse.go:1598-1605 | a monotonic reading to cut off; the fraction stays inside the buffer, even once it is cut |
| DateParser.OnTimePeriodWsOffsetColon | date_parse.go:1607-1618 | the offset ends; the fraction stays inside the buffer, even once it is cut |
| DateParser.OnTimeZ | date_parse.go:1621-1632 | digits after Z; the fraction stays inside the buffer, even once it is cut |
| DateParser.TimeStep | date_parse.go:1119-1634 | one turn of the time loop, for every state and byte: it advances or leaves the loop, and keeps the bounds |
| DateParser.RunDate | date_parse.go:263-1110 | the date loop ends on every input; it leaves the loop with buffer and string of one length, or restarts on a shorter string |
| DateParser.SkipSpaces | date_parse.go:1111-1117 | the index of the first byte from i on that is no space |
| DateParser.RunTime | date_parse.go:1118-1635 | the time loop ends on every input; a restart has the same length and fewer commas |
| DateParser.OffsetFinish | date_parse.go:1666-1678 | an offset of 0, 1, 2 or 4 bytes is an error that still returns the parser |
| DateParser.AbbreviationFinish | date_parse.go:1637-1647 | three letters, or four of which the last is cut off |
| DateParser.OffsetEndFinish | date_parse.go:1656-1716 | which offset layout is written |
| DateParser.TailFinish | date_parse.go:1654-1718 | comment, fraction or zone name at the end |
| DateParser.TimeFinish | date_parse.go:1636-1718 | for every end state: buffer and string still of one length, and the fraction fits |
| DateParser.DigitFinish | date_parse.go:1722-1772 | by length: a date, a Unix time, too short, or unknown |
| DateParser.Finish | date_parse.go:1721-1946 | any parser answered is one that parse can use in bounds |
| DateParser.EndTime | date_parse.go:1636-1946 | the two switches behind the time loop: a result in bounds, and the string not emptied |
| DateParser.ScanTime | date_parse.go:1110-1719 | a pass's time half: done, or again with fewer commas |
| DateParser.Scan | date_parse.go:256-1946 | one call's own work: done, or again on a string that is smaller by length, then commas |
| DateParser.ParseTime | date_parse.go:225-1946 | total: recursion and retry end for every input and option set, and the parser answered is one that parse can use in bounds |
| DateParser.Dropped | date_parse.go:2153-2156 | a prefix is skipped inside buffer and string |
| DateMachine.LiveParser.constructor | date_parse.go:2002-2019 | format starts as a copy of the input |
| DateMachine.LiveParser.Set | date_parse.go:2027-2037 | byte by byte; all of the value or nothing |
| DateMachine.LiveParser.SetMonth | date_parse.go:2038-2045 | 01 or 1 by the month's length |
| DateMachine.LiveParser.SetDay | date_parse.go:2046-2052 | 02 or 2 by the day's length |
| DateMachine.LiveParser.SetYear | date_parse.go:2053-2059 | 06 or 2006 by the year's length |
| DateMachine.LiveParser.CoalesceMonthDay | date_parse.go:2066-2074 | month and day, where still open, end here and are written |
| DateMachine.LiveParser.CoalesceDate | date_parse.go:2060-2075 | open spans end here, and are written |
| DateMachine.LiveParser.CoalesceClock | date_parse.go:2082-2114 | hours, minutes and seconds |
| DateMachine.LiveParser.CoalesceTime | date_parse.go:2082-2121 | the loop over the fraction stays in the buffer without a test, and writes zeroes exactly there |
| DateMachine.LiveParser.TrimExtra | date_parse.go:2128-2133 | buffer and string are cut at one place |
| DateMachine.LiveParser.FirstPart | date_parse.go:316-327 | who gets the first of two ambiguous parts |
| DateMachine.LiveParser.FirstSlash | date_parse.go:291-327 | as OnDigitSlash1 |
| DateMachine.LiveParser.FirstColon | date_parse.go:328-345 | as OnDigitColon1 |
| DateMachine.LiveParser.FirstDot | date_parse.go:346-362 | as OnDigitDot1 |
| DateMachine.LiveParser.DigitTurn | date_parse.go:274-396 | as OnDigit |
| DateMachine.LiveParser.DayMonthTurn | date_parse.go:644-675 | as OnDigitWs |
| DateMachine.LiveParser.DotTurn | date_parse.go:706-727 | as OnDigitDot |
| DateMachine.LiveParser.DigitsTurn | date_parse.go:398-729 | as DigitsStep |
| DateMachine.LiveParser.DashedDayTurn | date_parse.go:423-448 | as OnYearDashDash |
| DateMachine.LiveParser.DashesTurn | date_parse.go:403-471 | as DashesStep |
| DateMachine.LiveParser.SetDashYear | date_parse.go:500-521 | as DashYear |
| DateMachine.LiveParser.DayDashesTurn | date_parse.go:472-524 | as DayDashesStep |
| DateMachine.LiveParser.YearSlashTurn | date_parse.go:526-545 | as OnDigitYearSlash |
| DateMachine.LiveParser.SlashWordTurn | date_parse.go:546-567 | as OnDigitSlashAlpha |
| DateMachine.LiveParser.SlashTurn | date_parse.go:568-604 | as OnDigitSlash |
| DateMachine.LiveParser.SlashesTurn | date_parse.go:526-643 | as SlashesStep |
| DateMachine.LiveParser.ColonTurn | date_parse.go:605-643 | as OnDigitColon |
| DateMachine.LiveParser.YearThenTime | date_parse.go:558-565 | the year ends where the time starts |
| DateMachine.LiveParser.SecondPart | date_parse.go:579-594 | who gets the second of two ambiguous parts |
| DateMachine.LiveParser.WordTurn | date_parse.go:730-829 | as OnAlpha; the local string is edited before the restart |
| DateMachine.LiveParser.DayTurn | date_parse.go:856-878 | as OnAlphaWsDigit |
| DateMachine.LiveParser.WordThenTurn | date_parse.go:830-855 | as OnAlphaWs |
| DateMachine.LiveParser.YearTurn | date_parse.go:909-928 | as OnAlphaWsDigitMoreWs |
| DateMachine.LiveParser.WordsTurn | date_parse.go:830-928 | as WordsStep |
| DateMachine.LiveParser.MoreTurn | date_parse.go:1001-1037 | as OnAlphaWsMore |
| DateMachine.LiveParser.MonthsTurn | date_parse.go:930-1037 | as MonthsStep |
| DateMachine.LiveParser.WeekdayTurn | date_parse.go:1050-1072 | as OnWeekdayComma |
| DateMachine.LiveParser.WeekdayAbbrevTurn | date_parse.go:1073-1103 | as OnWeekdayAbbrevComma |
| DateMachine.LiveParser.StartTurn | date_parse.go:266-273 | as OnStart |
| DateMachine.LiveParser.DateTurn | date_parse.go:264-1108 | as DateStep |
| DateMachine.LiveParser.SignTurn | date_parse.go:1172-1186 | as OnTimeSign |
| DateMachine.LiveParser.HalfTurn | date_parse.go:1222-1235 | as OnTimeHalf |
| DateMachine.LiveParser.ATurn | date_parse.go:1200-1222 | as OnTimeA |
| DateMachine.LiveParser.TimeColonTurn | date_parse.go:1239-1256 | as OnTimeColon; datestr and the local string change together |
| DateMachine.LiveParser.ZuluTurn | date_parse.go:1191-1199 | as OnTimeZulu; loc becomes UTC |
| DateMachine.LiveParser.SpaceTurn | date_parse.go:1236-1238 | as OnTimeSpace |
| DateMachine.LiveParser.TimeStartTurn | date_parse.go:1125-1256 | as OnTimeStart |
| DateMachine.LiveParser.SetZone | date_parse.go:1317-1339 | as ZoneName |
| DateMachine.LiveParser.SetTrailingYear | date_parse.go:1372-1379 | as TrailingYear |
| DateMachine.LiveParser.AbbreviationTurn | date_parse.go:1265-1398 | as AbbreviationStep |
| DateMachine.LiveParser.NamedTurn | date_parse.go:1257-1379 | as NamedStep |
| DateMachine.LiveParser.AfterOffset | date_parse.go:1420-1456 | as OnTimeWsOffsetWs |
| DateMachine.LiveParser.OffsetTurn | date_parse.go:1400-1467 | as OffsetStep |
| DateMachine.LiveParser.AfterFraction | date_parse.go:1534-1560 | as OnTimePeriodWs |
| DateMachine.LiveParser.PeriodTurn | date_parse.go:1468-1560 | as PeriodStep |
| DateMachine.LiveParser.PeriodOffsetTurn | date_parse.go:1562-1618 | as PeriodOffsetStep |
| DateMachine.LiveParser.TimeTurn | date_parse.go:1119-1634 | as TimeStep |
| DateMachine.LiveParser.DateLoop | date_parse.go:263-1108 | the loop with its rewinds computes RunDate and ends |
| DateMachine.LiveParser.TimeLoop | date_parse.go:1118-1635 | the loop, whose string changes under it, computes RunTime and ends |
| DateMachine.LiveParser.FinishTime | date_parse.go:1636-1718 | as TimeFinish |
| DateMachine.LiveParser.FinishOffset | date_parse.go:1656-1716 | as OffsetEndFinish |
| DateMachine.LiveParser.FinishTail | date_parse.go:1654-1713 | as TailFinish |
| DateMachine.LiveParser.FinishDigits | date_parse.go:1722-1772 | as DigitFinish |
| DateMachine.LiveParser.FinishDashedOffset | date_parse.go:1788-1796 | the offset layout by its length |
| DateMachine.LiveParser.FinishSpan | date_parse.go:1798-1886 | an open day, month or year ends with the string |
| DateMachine.LiveParser.FinishDate | date_parse.go:1721-1946 | as Finish |
| DateMachine.LiveParser.SetFullMonth | date_parse.go:2122-2127 | January for the month named, unless a month span is known |
| DateMachine.LiveParser.Parse | date_parse.go:2146-2164 | the library is asked with the completed layout and the unskipped string; an ambiguous parser is left as it was |
| DateMachine.OnePass | date_parse.go:243-1946 | both loops and both switches compute Scan, on the object |
| DateMachine.TimePassEnd | date_parse.go:1636-1946 | both switches compute EndTime, on the object |
| DateMachine.TimePass | date_parse.go:1110-1719 | the time half computes ScanTime |
| DateMachine.ParseTime | date_parse.go:225-1946 | the object parseTime answers, its error, its layout bytes, string, location and preference are those of the function, restarts and deferred retry included |
| DateAgree.DateStepAgrees | date_parse.go:264-1108 | digits replaced by digits: the same state, spans and index after one turn, outside the first number's value |
| DateAgree.TimeStepAgrees | date_parse.go:1119-1634 | the same for the time loop, on parsers that agree |
| DateRuns.RunDateAgrees | date_parse.go:263-1110 | two whole date loops on strings of one shape visit the same states and indices and end alike |
| DateRuns.RunTimeAgrees | date_parse.go:1118-1635 | two whole time loops visit the same states and indices and end alike |
| DateRuns.ScanAgrees | date_parse.go:256-1946 | two passes on strings of one shape give the same result, or restart on strings of one shape, unless digits decide |
| DateRestart.RunDateBehind | date_parse.go:787-826 | what a restart leaves behind: after a weekday the rest, otherwise a string that starts with a letter but not with a weekday |
| DateShape.ScanHandsOn | date_parse.go:800-826 | what one pass hands to the next: the rest after a weekday, or a string that is no bare number |
| DateShape.ScanLeaves | date_parse.go:1239-1256 | the string a pass leaves to the retry: as given, or one that starts with no weekday and is no bare number |
| DateShape.ShapeFixesOutcome | date_parse.go:195-254 | under every option, strings of one shape have the same error, final states, spans, buffer cells, location and preference, unless a Unix time is read after weekdays, or the library tells the deferred retry something else about them |
| DateShape.StampIsTime | date_parse.go:1730-1764 | a bare number of 10, 13, 16 or 19 digits that fits int64 is a Unix time, under every option: of seconds, milliseconds, microseconds or nanoseconds by its length, the products wrapping as int64 does |
| DateShape.DecimalJoins | date_parse.go:1730-1764 | digits count by their place: a number written behind another moves it up by as many tens |
| DateShape.TimeIsStamp | date_parse.go:1730-1771 | conversely, a Unix time is read from such a number behind weekdays only, and the layout is then that number |
| DateShape.StampIsNotAsked | date_parse.go:229-235 | nothing is asked about a Unix time, so the retry changes none |
| DateShape.StampBreaksShape | date_parse.go:1730-1771 | where a Unix time is read, a string of the same shape, with the same verdicts, and another outcome |
| DateShape.ShapeInvariance | date_parse.go:195-254 | under every option: the outcome depends on the shape and the verdicts alone if and only if what follows the leading weekdays is not a bare number of 10, 13, 16 or 19 digits; without the retry there are no verdicts |
| DateShape.LayoutsAgree | date_parse.go:2027-2121 | layouts of one shape agree at every byte written, and keep the input's byte at the others |
| DateFormat.ParseDateFormat | date_parse.go:200-210 | a layout is returned exactly when parsing and the library succeed; it is the layout the library was asked with, and for a Unix time the number itself |
| DateFormat.FormatFits | date_parse.go:195-210 | the promise: every string of the same shape, with the same verdicts if the retry is on, succeeds as well, with a layout that agrees at every byte |
| DateFormat.SuccessHasParser | date_parse.go:225-252 | no error means there is a parser, with the retry too |
| DateFormat.AskingAmbiguousIsPlain | date_parse.go:232-247 | for an ambiguous date the layout asked is the buffer and the string the whole string, so asking twice is asking the same |
| DatePreference.RunDateAlike | date_parse.go:316-354 | under the two preferences the date loop goes through the same states and indices |
| DatePreference.PreferenceSteersNothing | date_parse.go:232-254 | under the two preferences a pass has the same states, indices, restarts and errors; only spans and buffer differ |
| DateRetry.OptionsSteerNothing | date_parse.go:225-254 | without the retry neither preference nor location decides whether a parse succeeds |
| DateRetry.ScanAgain | date_parse.go:1239-1256 | the string a pass leaves behind, dots for colons, passes again |
| DateRetry.ScanAfterComma | date_parse.go:1164-1171 | a digit date starts over at a comma at most once, and then the pass succeeds |
| DateRetry.WordsAreNeverAmbiguous | date_parse.go:730-829 | dates that start with a word are never ambiguous |
| DateRetry.SecondTry | date_parse.go:232-247 | the string the retry is given parses, under either preference, if the first try did |
| DateRetry.RetryKeepsTheOutcome | date_parse.go:229-253 | the retry changes neither success nor error, for every input and every answer of the library: the error it drops is never one |
| DateSwap.PlainAlike | date_parse.go:225-254 | without the retry, two locations and preferences give the same error and strings, and parsers that differ in date spans and written bytes only |
| DateSwap.RetryBehindWeekday | date_parse.go:229-247 | behind a weekday the retry never exchanges month and day: all it does is put Local for the caller's location, exactly when the library's month is out of range |
| DateSwap.RetryIs | date_parse.go:229-247 | what the retry answers, for every string: the first parse; or, when the library finds its month out of range, the string left behind parsed with the other preference in Local; or, where a comma made the parser start over and the month is out of range again, parsed a third time with the caller's preference |
| DateSwap.RetryExchanges | date_parse.go:229-247 | the retry keeps error, strings, states and time spans, unless a third colon was made a dot; the location and the preference it leaves are exactly those of its verdicts |
| DateSwap.VerdictDecides | date_parse.go:229-247 | with the retry on, two strings of one shape come out alike if and only if the library's verdicts have the same effect on both: nothing, an exchange, or only another location and string |
| DateSwap.BackHasComma | date_parse.go:1164-1171 | why going back is seen: the string keeps the comma that the plain parse made a dot |
| DateSwap.VerdictSeparates | date_parse.go:229-247 | where the retry can change a parse, a library and a string of the same shape with another outcome |
| DateSwap.NotUndoneSeparates | date_parse.go:229-247 | the same in Local for a date that starts over at a comma, if some string of its shape asks the library two questions |
| DateSwap.UndoneIsKept | date_parse.go:229-247 | if all of them ask one question twice, the second verdict undoes the first, whatever the library |
| DateSwap.NamedMonthsAreUndone | date_parse.go:493-524 | and so it is wherever the preference does not matter, as in 1-Jan-14 10:00:00,5 |
| DateSwap.RetryShapeInvariance | date_parse.go:195-254 | with the retry on, for every string and location: the shape decides for every library if and only if no Unix time is read and the retry cannot change the date (it is not ambiguous or, behind a weekday, in Local already) or always undoes its change |
| DateSwap.SlashDatesAreSwappable | date_parse.go:291-327 | digits, a slash, digits and slashes: a family of dates that the retry can change |
| DateSwap.OneShapeOneError | date_parse.go:195-254 | under every option and every library, strings of one shape both fail with one error or both succeed, unless a Unix time is read |
| DateWalk.DatePasses | date_parse.go:263-1110 | a state of the date loop passes over the bytes it does not mind, however many, and nothing changes |
| DateWalk.TimePasses | date_parse.go:1118-1635 | the same for the time loop |
| DateClock.ClockRun | date_parse.go:1239-1250 | h:mm or h:mm:ss with one or two digits each: the time loop comes to its end with exactly its spans |
| DateClock.ClockReads | date_parse.go:2082-2114 | coalesceTime writes 15 or 3, 04 or 4 and 05 or 5 over the clock's parts and keeps everything else |
| DateTail.ClockAlone | date_parse.go:1636-1719 | a clock that ends the string is laid out 15:04:05, or with 3, 4 or 5 for parts of one digit |
| DateTail.ZuluBehind | date_parse.go:1191-1199 | Z stays Z, and means UTC |
| DateTail.ZuluAndDigit | date_parse.go:1621-1632 | Z and digits, as in Z07:00: all of it stays, and means UTC |
| DateTail.OffsetBehind | date_parse.go:1172-1186 | right behind the clock: -07, -0700 or -07:00, by the digits and the colon |
| DateTail.HalfAlone | date_parse.go:1200-1235 | am, pm and PM stay, AM becomes PM; the hour stays 15 or 3 |
| DateTail.HalfDayWord | date_parse.go:1380-1398 | a space and AM or PM: PM; what follows is left as it is |
| DateTail.OffsetWord | date_parse.go:1400-1419 | a space and an offset: -0700 or -07:00 |
| DateTail.OffsetColonText | date_parse.go:1458-1467 | +05:30 UTC, or any other letters behind: nothing of it is laid out |
| DateTail.OffsetAndName | date_parse.go:1420-1456 | +0530 UTC: -0700 MST; a fourth letter becomes a space |
| DateTail.OffsetAndYear | date_parse.go:1420-1456 | +0530 2008: -0700 2006 |
| DateTail.OffsetTwice | date_parse.go:1434-1442 | +0300 +03 or +0300 (MSK): -0700, the rest cut off layout and input |
| DateTail.OffsetMonotonic | date_parse.go:1426-1433 | +0300 MSK m=+0.001: -0700 MSK, the rest cut off |
| DateTail.NameEnds | date_parse.go:1637-1647 | a zone of three letters is MST; of four letters the last is cut off the input; others stay |
| DateTail.NameAndYear | date_parse.go:1308-1340 | UTC 2008: MST 2006; a four-letter name gives a space and MST |
| DateTail.YearWord | date_parse.go:1295-1307 | a space and a year of two or four digits: 06 or 2006 |
| DateTail.NameAndOffset | date_parse.go:1308-1340 | UTC+0100 or UTC-05: MST-0700 or MST-07 |
| DateTail.NameOffsetComment | date_parse.go:1360-1371 | GMT+0100 (GMT Daylight Time): MST-0700, the comment cut off |
| DateTail.NameOffsetYear | date_parse.go:1372-1379 | UTC+0100 2015, for a date without a year: MST-0700 2006 |
| DateFraction.FractionAlone | date_parse.go:1468-1511 | every digit of the fraction becomes a zero |
| DateFraction.FractionWord | date_parse.go:1500-1511 | letters behind it stay, and Z is not taken for UTC |
| DateFraction.FractionOffset | date_parse.go:1512-1520 | an offset behind it: -0700 or -07:00; of two digits alone it is not laid out |
| DateFraction.FractionOffsetThen | date_parse.go:1521-1531 | +01:00 CET: -07:00, the rest stays |
| DateFraction.GapWord | date_parse.go:1534-1560 | a space and letters stay |
| DateFraction.GapDigits | date_parse.go:1534-1560 | a space and digits stay, so a year there is not laid out |
| DateFraction.GapOffset | date_parse.go:1562-1597 | a space and +0100: -0700 |
| DateFraction.GapOffsetColon | date_parse.go:1607-1618 | a space and +01:00 with nothing behind it is not laid out |
| DateFraction.GapOffsetColonName | date_parse.go:1607-1620 | a space and +01:00 CET: -07:00 MST |
| DateFraction.GapOffsetWord | date_parse.go:1562-1597 | a space and +0100 CET: -0700, the name stays |
| DateFraction.GapOffsetTwice | date_parse.go:1575-1590 | a space and +0300 +03: -0700, the rest cut off |
| DateFraction.GapMonotonic | date_parse.go:1598-1605 | a space and +0300 MSK m=+0.001: -0700 MSK, the rest cut off |
| DateFraction.CommaBehind | date_parse.go:1164-1171 | a comma behind the clock restarts the parse with a point in its place |
| DateFraction.ThirdColonAlone | date_parse.go:1239-1256 | a third colon becomes a point, and the digits behind it stay |
| DateFraction.ThirdColonOffset | date_parse.go:1172-1186 | with an offset behind them they become zeroes |
| DateEnding.WordLays | date_parse.go:1265-1467 | any of the thirteen kinds of words behind a space, and behind am or pm if there is one |
| DateEnding.FractionLays | date_parse.go:1468-1620 | any of the eleven kinds of text behind a fraction |
| DateEnding.TailLays | date_parse.go:1119-1719 | whatever may follow a clock is laid out as the grammar Tail says, whatever the date before it |
| DateStages.DateThenClock | date_parse.go:1110-1117 | the time loop starts behind the join and the spaces after it |
| DateStages.DateAtClock | date_parse.go:1200-1221 | or behind the word at |
| DateNumbers.YearSlashDay | date_parse.go:526-545 | yyyy/m/d, alone or before a space or colon: 2006/01/02, with 1 or 2 for parts of one digit |
| DateNumbers.YearDashDay | date_parse.go:403-448 | yyyy-m-d, alone or before a space or T: 2006-01-02 |
| DateNumbers.YearColonDay | date_parse.go:605-643 | yyyy:m:d, alone or before a space: 2006:01:02 |
| DateNumbers.SlashYear | date_parse.go:568-604 | a/b/yyyy or a/b/yy under both preferences: the first part is 01 or 1 if the month is to come first, else 02 or 2; the second the other; the year 2006 or 06 |
| DateNumbers.ColonYear | date_parse.go:605-643 | a:b:yyyy with the month first: 01:02:2006 |
| DateNumbers.ColonsUnlaid | date_parse.go:328-345 | with the day first it is not laid out at all |
| DateNumbers.DotParts | date_parse.go:346-362 | a.b.yyyy: 01.02.2006 under both preferences |
| DateNumbers.YearDots | date_parse.go:706-727 | yyyy.m.d: 2006.01.02 |
| DateNumbers.YearDotMonth | date_parse.go:1840-1845 | yyyy.m: 2006.01 |
| DateNumbers.YearDashAlone | date_parse.go:1777-1780 | yyyy-m: 2006-01 |
| DateNumbers.YearDashOffset | date_parse.go:1788-1797 | yyyy-m-d and an offset: -0700 or -07:00; of two digits it is not laid out |
| DateNumbers.SixDigits | date_parse.go:398-402 | yymmdd before a clock: 060102 |
| DateNumbers.DigitsAlone | date_parse.go:1742-1765 | 4, 8 or 14 digits: 2006, 20060102, 20060102150405 |
| DateNames.SlashNameYear | date_parse.go:546-567 | dd/Mon/yyyy or /yy, alone or before a space or colon: 02/Jan/2006 or /06 |
| DateNames.DashNameYear | date_parse.go:493-524 | d-Mon-yyyy or -yy before a clock: 02-Jan-2006 or -06; two digits of year make it ambiguous |
| DateNames.DashNameAlone | date_parse.go:1812-1839 | the same alone |
| DateNames.DashNameDayAlone | date_parse.go:1798-1804 | yyyy-Mon-d: 2006-Jan-02 |
| DateNames.DayNameYear | date_parse.go:644-692 | d Mon yyyy, alone or before a space or comma: 02 Jan 2006 |
| DateNames.DayMonthAlone | date_parse.go:1863-1872 | d January yyyy: the buffer is replaced by 02 January 2006 or 2 January 2006 |
| DateNames.CommaYearEnds | date_parse.go:898-928 | Mon d, yyyy or Mon. d, 'yy before a clock: Jan 02, 2006 |
| DateNames.CommaYearAlone | date_parse.go:1881-1886 | the same alone |
| DateNames.SpaceYear | date_parse.go:879-897 | Mon d yyyy: Jan 02 2006 |
| DateNames.HourForYear | date_parse.go:879-897 | Mon d before a clock: what looked like a year is an hour, and the loop steps back |
| DateMonths.MonthDayYear | date_parse.go:930-951 | April 8, 2009 or April 8 2009 alone: day and year are written, the month stays to be replaced |
| DateMonths.MonthMoreYear | date_parse.go:952-1037 | the same before a clock |
| DateMonths.WeekdayYear | date_parse.go:1050-1072 | Monday, 02-Jan-06, alone or before a clock: 02-Jan-06 behind a prefix to be skipped |
| DateMonths.AbbrevYear | date_parse.go:1073-1103 | Mon, 02 Jan 2006, alone or before a clock |
| DateLayouts.DateOpens | date_parse.go:263-1117 | any date of the grammar before a clock: the loop is left at the join with the date laid out |
| DateLayouts.DateLayout | date_parse.go:225-1946 | every date of the grammar that may stand alone, under either preference: parseTime succeeds, and the library is asked with exactly the layout Go has for it and the input but for a weekday that is skipped |
| DateLayouts.DateTimeLayout | date_parse.go:225-1946 | every such date with every clock and every one of the things that may follow it: layout and input exactly, UTC exactly for a Z right behind the clock |
| DateAgain.CommaIsPoint | date_parse.go:1164-1171 | a comma before a fraction parses as a point does |
| DateAgain.ThirdColon | date_parse.go:1239-1256 | a third colon reads as a point; the layout keeps the digits behind it |
| DateAgain.ThirdColonWithOffset | date_parse.go:1172-1186 | with an offset behind them they are laid out as zeroes |
| DateAgain.WeekdayDropped | date_parse.go:787-803 | a weekday of three letters and a space: the rest is parsed with the default options |
| DateAgain.FourLetterMonth | date_parse.go:811-826 | sept. parses as sep. |
| DateAgain.SuffixDropped | date_parse.go:971-1000 | oct 7th, 1970 parses as oct 7, 1970, for every ordinal suffix and whatever follows |
| DateAgain.FullMonthSuffixDropped | date_parse.go:971-1000 | and so does April 8th, 2009 |
| DateAgain.DayFullMonthLayout | date_parse.go:1863-1872 | d January yyyy: the layout is 02 January 2006 or 2 January 2006, whatever the month's name |
| DateAgain.ShortDayLayout | date_parse.go:298-311 | 8/May/2005, a day of one digit: the slash behind it is written over, 02Jan/2006 |
| DateAgain.TwoWordsLayout | date_parse.go:830-855 | two words of which the first is no weekday: Mon and Jan are written over them, the rest stays |
| DateExamples.YearSlashExample | date_parse.go:527 | 2014/07/10 06:55:38.156283 is 2006/01/02 15:04:05.000000 |
| DateExamples.SlashExamples | date_parse.go:569-576 | 4/8/2014 22:05 is 1/2/2006 15:04, or 2/1/2006 15:04 with the day first |
| DateExamples.HalfDayExample | date_parse.go:738 | May 8, 2009 5:57:51 PM is Jan 2, 2006 3:04:05 PM |
| DateExamples.OffsetExample | date_parse.go:405-406 | 2006-01-02T15:04:05+0000 is 2006-01-02T15:04:05-0700 |
| DateExamples.NamedOffsetExample | date_parse.go:1420-1424 | 2015-2-8 03:02 +0300 MSK is 2006-1-2 15:04 -0700 MST |
| DateExamples.DayNameExample | date_parse.go:379-380 | 12 Feb 2006, 19:17 is 02 Jan 2006, 15:04 |
| DateExamples.YearColonExample | date_parse.go:606 | 2014:7:10 6:55 is 2006:1:02 3:04 |
| DateExamples.ColonExample | date_parse.go:607-610 | 03:19:2012 10:11 is 01:02:2006 15:04 |
| DateExamples.CompactExample | date_parse.go:1774 | 171113 14:14:20 is 060102 15:04:05 |
| DateExamples.AtExample | date_parse.go:1006 | September 17, 2012 at 5:00pm UTC-05 is January 02, 2006 at 3:04pm MST-07 |
| DateExamples.ShortWeekdayExample | date_parse.go:754-758 | Thu, 4 Jan 18 17:53 +0000 is Mon, 2 Jan 06 15:04 -0700 |
| DateExamples.YearLastExample | date_parse.go:786 | May 8 17:57:51 2009 is Jan 2 15:04:05 2006 |
| DateExamples.FractionZoneExample | date_parse.go:1562-1566 | 2012-08-03 18:31:59.257 +0000 UTC is 2006-01-02 15:04:05.000 -0700 UTC |
| DateExamples.DayDashExamples | date_parse.go:496-499 | 29-Jun-2016 is 02-Jan-2006, and 9-Jun-16 is 2-Jan-06 |
| DateExamples.DaySlashExample | date_parse.go:292 | 08/May/2005 is 02/Jan/2006 |
| DateExamples.DotExamples | date_parse.go:357-359 | 3.31.2014 is 1.02.2006, and 2018.09.30 is 2006.01.02 |
| DateExamples.FigureExamples | date_parse.go:1730-1731 | 20140601 is 20060102, and 2014 is 2006 |
| DateExamples.QuoteExample | date_parse.go:1040 | oct. 7, '70 is Jan. 2, '06 |
| DateExamples.FullMonthExample | date_parse.go:741 | April 8, 2009 is January 2, 2006 |
| DateExamples.DashNameExample | date_parse.go:279 | 2013-Feb-03 is 2006-Jan-02 |
| DateExamples.DashZoneExample | date_parse.go:429 | 2020-07-20+00:00 is 2006-01-02-07:00 |
| DateRefusals.BadStart | date_parse.go:266-273 | a string that starts with neither digit nor letter, or is empty, is refused |
| DateRefusals.BadNumber | date_parse.go:389-393 | so is a number with a comma behind it, or with a dash and no letter, unless it is a year |
| DateRefusals.FewDigits | date_parse.go:1766-1767 | fewer than four digits are too short |
| DateRefusals.WordAlone | date_parse.go:730-829 | a word alone is refused, and a word with a point that is not of three or four letters |
| DateRefusals.BadOffset | date_parse.go:1666-1678 | an offset of none, one or three digits right behind a clock is an error about the zone, with a parser |
| DateRfc3339.FullDate | date_parse.go:403-448 | the full-date of RFC 3339 is one of those dates |
| DateRfc3339.PartialTime | date_parse.go:1239-1250 | its partial-time is one of those clocks |
| DateRfc3339.Rest | date_parse.go:1468-1531 | its fraction and zone are among what may follow |
| DateRfc3339.Rfc3339Layout | date_parse.go:277-1718 | every date-time of section 5.6 of RFC 3339 with upper-case T and Z and any fraction succeeds, under every option, with layout 2006-01-02T15:04:05, a zero per fraction digit, and Z or -07:00 |
| Clock.Normalise | fakeclock/fake_clock_gettime.c:50-58 | both loops end; they carry whole seconds, leave 0 to a billion, and overflow exactly when Normal fails |
| Clock.FakeClockGettime | fakeclock/fake_clock_gettime.c:38-65 | defined exactly when clk_id is 0 to 30 and nothing overflows; a selected clock shifts by exactly the two deltas, with nanoseconds 0 to a billion, a billion exactly at positive multiples; any other is unchanged |
| Clock.HeadroomIsDefined | fakeclock/fake_clock_gettime.c:46-62 | a billion nanoseconds of room in the delta is enough to be defined |
| Clock.BillionWhen | fakeclock/fake_clock_gettime.c:50-53 | the upper loop stops at a billion exactly at positive multiples |
| Clock.RoundsToNearest | fakeclock/fake_gettimeofday.c:41-44 | a nearest quotient, and at a tie the one away from zero |
| Clock.FakeGettimeofday | fakeclock/fake_gettimeofday.c:46-70 | defined exactly when nothing overflows; the reading moves by the deltas to within half a microsecond, at a tie away from where the microseconds were; they end in 0 to a million, within half a microsecond of what the loops leave |
| Clock.ShiftsAreNeighbours | fakeclock/fake_gettimeofday.c:54-67 | at any two instants the shift differs by at most one, and not at all unless the delta is half a microsecond off |
| Clock.TimeOfDayIsMonotone | fakeclock/fake_gettimeofday.c:41-70 | later real instants never read earlier |
| Clock.FakeTime | fakeclock/fake_time.c:24-53 | the result is within half a second of the deltas, the later of two as near; defined exactly when nothing overflows; it is stored if there is a place |
| Clock.NearestSecond | fakeclock/fake_time.c:37-46 | of all whole numbers of seconds it is the nearest, and no other is |
| Clock.TimeNearClock | fakeclock/fake_time.c:28-46 | time and clock_gettime differ by at most a second |
| Clock.Config.constructor | time_skew_linux.go:36-42 | the three fields |
| Clock.Config.Merge | time_skew_linux.go:53-59 | sums that wrap, and the union of the masks |
| Clock.MergeIsComposition | time_skew_linux.go:53-59 | two skews one after the other show the same total as their merger, and the same fields unless the total is whole seconds |
| Clock.MergeKeepsTotal | time_skew_linux.go:53-59 | the merged shift is the sum exactly when neither addition overflows |
| Offset.SignIsNoDate | date_offset.go:14-20 | text with a sign in front is never taken for a date |
| Offset.WrapSteps | date_offset.go:39-42 | wrapping at each factor is wrapping once |
| Offset.OffsetMeaning | date_offset.go:22-48 | for every signed decimal and unit: the wrapped product; beyond int64 an error, but without a unit the last digit is dropped first |
| Offset.UnitsAre | date_offset.go:33-48 | the units in nanoseconds, for small and capital letters |
| Offset.NoOffset | date_offset.go:11-14 | nothing, 0 and null are no offset |
| Offset.OffsetIsExact | date_offset.go:22-48 | the offset is number times unit exactly when that fits int64 nanoseconds, with a minute, an hour, a day and a year of 365 days given in nanoseconds, and a minus sign making it negative |
| Offset.ScanUnbroken | date_parse.go:1722-1772 | digits and unit letters, starting with a digit, reach the end switch in one pass, whatever the preference |
| Offset.UnsignedMeaning | date_offset.go:14-48 | a decimal without a sign, with or without a unit: a date exactly when it has 4, 8 or 14 bytes and the library takes it, or is a Unix time that fits; otherwise what it means with a plus in front |
| Offset.EncodeClkIds | encode_clk_ids.go:8-40 | the mask is the sum of the powers of two of the ten clock names, in the order of their ids, that are in the list; an error exactly when some name is none of the ten |
| Linker.FieldHolds | asset_linux_arm64.go:42-50 | the patched field holds the displacement: all 32 bits on amd64, from the third bit on in the nineteen bits of arm64's immediate |
| Linker.PatchKeepsInstruction | asset_linux_arm64.go:42-50 | the 13 bits outside imm19 survive |
| Linker.PatchedLoadsSlot | asset_linux_arm64.go:46-51 | the patched instruction, decoded at any base, addresses its slot (S+A-P of section 4.4 of the System V AMD64 ABI; LDR literal) |
| Linker.Image.AssetLD | asset_linux_amd64.go:12-30 | one relocation: field, slot and name; it fails exactly when the site is outside the content |
| Linker.Image.Load | asset_linux.go:44-82 | the loop over the section: entries whose symbol number is none of the table's are skipped; the j-th other entry has the j-th slot of eight or sixteen bytes behind the text, and the table leads there if no later one names its symbol; the content is that of linking those relocations in order |
| Linker.ResolvedAre | asset_linux.go:57-76 | the relocations are, in order, exactly the entries with a symbol number from one to the number of symbols; each keeps its site and addend, and its symbol is the one of that number |
| Linker.LinkOne | asset_linux_amd64.go:24-29 | one more relocation keeps what is known of the others |
| Linker.LinkingFrame | asset_linux.go:57-76 | well-placed sites: linking succeeds, the text outside the fields is kept, the slots are zero |
| Linker.OffsetIsLastSlot | asset_linux_amd64.go:24 | the table holds a symbol's last slot, and only that |
| Linker.LinkingReaches | asset_linux.go:57-76 | mapped anywhere, every patched instruction loads from its own slot in the content; setting the symbol sets that slot exactly when no later relocation has it |
| Linker.SlotsDisjoint | asset_linux_amd64.go:29 | slots do not overlap |
| StopWorld.FrozenStays | ptrace_linux.go:74-117 | if every live thread is traced and stopped, that stays so whatever the target and the scheduler do |
| StopWorld.SortedTids | ptrace_linux.go:119-125 | the sorted list of the recorded threads |
| StopWorld.ReleaseAll | ptrace_linux.go:63-71 | it tries every recorded thread; afterwards a live thread is traced exactly if it is the one that was seized and not stopped, or its release was refused |
| StopWorld.StopThread | ptrace_linux.go:95-113 | seize, interrupt, record, wait, in that order; which of them failed, exactly, and that it was the last call |
| StopWorld.StopSeized | ptrace_linux.go:100-110 | interrupt and wait, with the thread recorded in between; a failure leaves it seized |
| StopWorld.Pass | ptrace_linux.go:75-113 | one scan of the thread list; if it found nothing new every live thread is stopped; it fails with the call that failed, or at a thread that has died |
| StopWorld.ReadMaps | ptrace_linux.go:127-146 | the last step: it fails exactly when its call does, and then only refused releases leave threads traced |
| StopWorld.PassOrRelease | ptrace_linux.go:63-113 | a scan with the clean-up behind it |
| StopWorld.Trace | ptrace_linux.go:56-147 | success: every live thread of the target is attached, stopped and listed, and no call failed; failure: which call failed, what for and at which thread, or that the thread died between listing and seizing; so it succeeds if in this run no call fails and no thread dies; after a failure a live thread is still traced exactly if its interrupt or wait failed after it was seized, or its release was refused; it ends when spawns are bounded |
| StopWorld.Uninterruptible | ptrace_linux.go:100-103 | a process whose first interrupt fails |
| StopWorld.InterruptFails | ptrace_linux.go:63-108 | tracing any such process fails and leaves a live thread traced |
| StopWorld.Detach | ptrace_linux.go:150-163 | it releases the threads in order and stops at the first refusal; those before it are free, exactly those from it on stay traced; without a refusal none that was there stays traced or stopped |
| Tracee.Convention | ptrace_linux_amd64.go:37-80 | the registers of both calling conventions in order, the system call instructions byte by byte, and number, protection and flags of mmap |
| Tracee.SixArgs | ptrace_linux_amd64.go:54-73 | the whole register file with six arguments, register by register, on both architectures |
| Tracee.ArgsArrive | ptrace_linux_amd64.go:56-79 | number and arguments are in their registers, and every other register is as before |
| Tracee.TracedProgram.Step | ptrace_linux.go:201-208 | one system call, as the kernel function has it |
| Tracee.TracedProgram.Protect | ptrace_linux.go:166-178 | registers and code are saved |
| Tracee.TracedProgram.Restore | ptrace_linux.go:181-193 | registers and code are as saved |
| Tracee.TracedProgram.RunCall | ptrace_linux_amd64.go:80-102 | code patched, one step, everything back |
| Tracee.TracedProgram.Syscall | ptrace_linux_amd64.go:37-103 | the kernel is entered with number and arguments in the named registers of its convention, all others as before, and its instruction in place of the code; without an error registers and code are then as before and memory is changed by the call's own effect only; when no primitive fails, an error comes only for too many arguments or an unmapped instruction pointer, and nothing has changed |
| Tracee.RestoredIsTransparent | ptrace_linux_amd64.go:84-102 | patching, the effect and restoring leave exactly the effect |
| Tracee.TracedProgram.TryMmap | ptrace_linux.go:211-230 | the kernel is asked, register by register, for mmap with 0, the length, 7, 0x22, the descriptor and 0; a new zeroed mapping where it says; when no primitive fails, exactly if it grants one, and otherwise no change |
| Tracee.TracedProgram.Mmap | ptrace_linux.go:233-263 | whole pages, or the larger second try, new and zeroed; obtained exactly when the kernel grants one of the two |
| Tracee.PagesCover | ptrace_linux.go:235-249 | the least multiple of the page that covers the length, and a fallback that is the same or two pages, and no less than either |
| Tracee.TracedProgram.ReadSlice | ptrace_linux.go:266-292 | the bytes there, exactly when they are mapped |
| Tracee.TracedProgram.WriteSlice | ptrace_linux.go:295-321 | all of the bytes or none |
| Tracee.TracedProgram.WriteUint64ToAddr | ptrace_linux.go:459-464 | eight bytes, little-endian |
| Tracee.AlignedAt | ptrace_linux.go:323-336 | the bytes, and zeroes up to a whole word |
| Tracee.TracedProgram.PtraceWriteSlice | ptrace_linux.go:339-357 | all words of the padded buffer, or a proper prefix of them on failure |
| Tracee.TracedProgram.JumpToFakeFunc | ptrace_linux_amd64.go:106-118 | the sixteen jump bytes, or on failure none or eight of them |
| Tracee.JumpReaches | ptrace_linux_arm64.go:100-112 | the bytes decode to a jump to the target on both architectures |
| Tracee.TracedProgram.MmapSlice | ptrace_linux.go:371-391 | a region free before, mapped now, that starts with the slice, at the place the kernel gives; without failures it succeeds exactly when the kernel grants a mapping; registers and all else unchanged |
| Injection.SetVarHolds | fake_image_linux_arm64.go:18-32 | a set slot holds the value; on arm64 behind a pointer to its own second half |
| Injection.SetVarsHold | fake_image_linux.go:91-97 | set in any order, every variable reads as its own value, and only slots have changed |
| Injection.MappingKeeps | fake_image_linux.go:148-152 | mapping an image keeps the invariant |
| Injection.JumpKeeps | fake_image_linux.go:163-172 | writing the jump moves it from one case to the other |
| Injection.RewriteKeeps | fake_image_linux.go:176-185 | and putting the bytes back moves it back, for every size |
| Injection.SetVarsKeep | fake_image_linux.go:129-137 | variables never touch the compared prefix |
| FakeImages.FakeImage.constructor | fake_image_linux.go:31-33 | nothing injected yet |
| FakeImages.FakeImage.SetVarUint64 | fake_image_linux_amd64.go:17-24 | an unknown name changes nothing; a known one is set |
| FakeImages.FakeImage.SetVariables | fake_image_linux.go:91-97 | every variable reads as set exactly when all names are known; otherwise only slots changed |
| FakeImages.FakeImage.FindInjectedImage | fake_image_linux.go:119-142 | here exactly when the bytes before the last variables are as linked; a count that does not fit fails |
| FakeImages.FakeImage.InjectFakeImage | fake_image_linux.go:146-173 | exact memory afterwards; mapped exactly when the kernel has room, patched exactly when the function was found besides; the original bytes are kept only after the jump is written |
| FakeImages.FakeImage.TryReWriteFakeImage | fake_image_linux.go:176-186 | the padded bytes are back and forgotten, or nothing is forgotten |
| FakeImages.FakeImage.FindOrInject | fake_image_linux.go:63-79 | a known image is reused and nothing written; otherwise image and jump; it succeeds exactly when the image is known, or the kernel has room and the function was found |
| FakeImages.FakeImage.SetOrRollBack | fake_image_linux.go:80-98 | success exactly when every name is known; on failure after an injection the function is put back |
| FakeImages.FakeImage.AttachToProcess | fake_image_linux.go:37-100 | when no primitive fails it succeeds exactly when the count matches, there is a vDSO, all names are known, and the image is known or the function found and the kernel has room; then the variables read as set, and the function jumps if and only if the image is new or it did so before; a later attach changes slots only; an image that is not recognised any more is replaced: exact place, jump, and what is saved |
| FakeImages.FakeImage.Recover | fake_image_linux.go:190-219 | no-op without saved bytes; otherwise the saved bytes are written back exactly when the image is recognised with so many variables, and it fails exactly when so many do not fit |
| FakeImages.FirstInjection | fake_image_linux.go:146-172 | the first injection establishes the jump, saves the bytes it replaced, and touches sixteen bytes of what was there |
| Sessions.OneEvent | fake_image_linux.go:37-219 | attach, recover, or a stretch of running: what it answers, what it writes, and when |
| Sessions.Session | fake_image_linux.go:37-219 | any sequence of events, each with its exact answer and effect: at every moment at most one image; OriginFuncCode holds the original bytes and the function jumps to the image, or it is nil and the function is original |
| Sessions.FirstAttach | fake_image_linux.go:37-100 | the first attach of a fresh image succeeds exactly when the kernel has room and the variables are those of the image; then the function jumps to where the kernel put it |
| Sessions.RecoverFrame | fake_image_linux.go:146-186 | inject then recover, byte by byte, for every symbol size: own bytes back, zero padding, left-over jump, nothing else |
| Sessions.ExactInverse | fake_image_linux.go:146-186 | recovering undoes injecting for every memory and target if and only if the size is at least sixteen and a multiple of eight |
| Sessions.InjectAndRecover | fake_image_linux.go:37-219 | the same frame for the two operations on a process; attaching succeeds exactly when Attaches says so, and then so does recovering |
| Layouts.DistinctOffsets | asset_linux.go:57-76 | with distinct symbols the table names each once, with its own slot |
| Layouts.OffsetAtLast | asset_linux_amd64.go:24 | a symbol's entry is the slot of the last relocation that has it |
| Layouts.LinkedIsSlotted | asset_linux.go:57-76 | the slots of a linked image lie inside it and do not overlap |
| Layouts.LinkerLays | fake_image_linux.go:129-137 | a linked image has all its slots in the last bytes, where the comparison leaves off, if and only if the last relocations, as many as there are symbols, have distinct symbols |
| Layouts.LaidIsRecognised | fake_image_linux.go:119-142 | with its slots there, a set image is recognised whatever its variables |
| Layouts.UnlaidIsMissed | fake_image_linux.go:119-142 | with one elsewhere, an image, its variables set, that is not recognised |
| Layouts.RecognisedExactly | fake_image_linux.go:119-142 | set images are recognised, for every place and all values, if and only if the slots lie in the last bytes |
| Runs.AttachAgain | fake_image_linux.go:37-219 | attach, recover, attach: if the first succeeds so do the others, and the function ends unpatched with the variables set |
| Runs.AttachAfterLookup | fake_image_linux.go:63-79 | an attach that maps the image and lacks the function fails; the next sets the variables in that image and succeeds, and the function stays as it was |
| Runs.AttachHidden | fake_image_linux.go:63-98 | attaching an image that is not recognised: success exactly when the kernel has room; it is mapped again, not recognised again, and saves whatever bytes the function had |
| Runs.TwoMappings | fake_image_linux.go:119-173 | a symbol repeated among the last relocations and values other than zero: after the first attach the image is not recognised, and the second maps another exactly when the kernel has room, as a generous one has in a small memory; saved are then the bytes of the first jump |
| Runs.LostFunction | fake_image_linux.go:190-219 | after that no recovery, with whatever count, gives the function its own bytes: nothing is written, or the first jump is back |
| Runs.PileUpStart | fake_image_linux.go:119-173 | a process, a kernel and an image where such a run starts |
| Runs.ImagesPileUp | fake_image_linux.go:119-173 | and the run, which ends with two images mapped and a jump for saved bytes |
| Rooms.GrantedIsGap | ptrace_linux.go:211-230 | what a kernel that follows the rules grants was free |
| Rooms.HasPagesWhen | ptrace_linux.go:233-263 | with a generous kernel there is room exactly when the code at the instruction pointer is there and the memory has a gap for the pages |
| Rooms.SpaciousIsRoomy | ptrace_linux.go:233-263 | a small memory has a gap, wherever its bytes are |
| Rooms.StaysSpacious | ptrace_linux.go:371-391 | and keeps room for one mapping less after each |
| Rooms.FirstFitFinds | ptrace_linux.go:211-230 | a kernel that maps at the first gap finds one if there is any |
| Rooms.Boot | ptrace_linux.go:143-156 | a process under that kernel: the rules hold, and the kernel is generous |
| EndToEnd.SiteReads | asset_linux.go:57-76 | every patched instruction in the mapped and set image yields its variable's value |
| EndToEnd.LinkImage | asset_linux.go:44-82 | linking well-placed entries with distinct symbols succeeds, and the image has the size and the slots that attaching needs |
| EndToEnd.LinkAndAttach | fake_image_linux.go:37-100 | linking and a first attach succeed exactly when the kernel has room; then the function jumps to where the kernel put the image, and the load at the site of every entry fetches what was set for the symbol of its number |
| EndToEnd.ShiftedClock | cmd/watchmaker.go:63-84 | from a signed offset and clock names to the clock read: attached exactly when the kernel has room; then the clock moves by exactly number times unit if its name, of the ten in order, is in the list, and otherwise not at all |
| EndToEnd.ShiftedTime | cmd/watchmaker.go:63-84 | the same for time: it moves by the whole number of seconds nearest to number times unit |
| EndToEnd.ShiftedTimeOfDay | cmd/watchmaker.go:63-84 | the same for gettimeofday: it moves by number times unit to within half a microsecond |
| Skews.StepKeepsAll | time_skew_linux.go:122-159 | an operation on one image keeps what is known of the others |
| Skews.OtherReads | time_skew_linux.go:122-159 | and of what the others' variables read as |
| Skews.AttachAmong | time_skew_linux.go:130-137 | attaching with other images in the process, from state to state: success exactly when Attaches says so, where a new image then is, what has changed; and success when a generous kernel has room left |
| Skews.RecoverAmong | time_skew_linux.go:167-171 | recovering with other images in the process |
| Skews.Skew.Inject | time_skew_linux.go:122-159 | three images in order, each attach from the state the one before has left, stopping at the first error in the state it leaves; after success all three read the configured seconds as TV_SEC_DELTA and nanoseconds as TV_NSEC_DELTA, and clock_gettime the mask as CLOCK_IDS_MASK; it succeeds if counts, names and lookups are right and a generous kernel has room for three mappings |
| Skews.ReadyIsEnough | time_skew_linux.go:122-159 | with a generous kernel an attach with the right variables succeeds exactly when the image is known, or its function found and the memory has a gap for it |
| Skews.Skew.Recover | time_skew_linux.go:163-192 | clock_gettime and gettimeofday are both tried and restored; the time image is untouched and its function goes on jumping |
| Children.CollectAllChildren | cmd/watchmaker.go:132-139 | the recursion with its loop ends on a forest and computes Collected |
| Children.Comparable | cmd/watchmaker.go:132-139 | two ancestors of one process are one below the other |
| Children.CollectedIs | cmd/watchmaker.go:132-139 | what is collected from the i-th child on: those below it, once each, parents first |
| Children.CollectsDescendants | cmd/watchmaker.go:132-139 | every proper descendant exactly once, each after its parent, and nothing else |
| Memory.LoadElsewhere | ptrace_linux.go:295-321 | a write changes nothing outside its bytes |
| Memory.Read64Stored | ptrace_linux.go:459-464 | eight stored bytes read back as the value |

## Left out

- Bytes outside ASCII: the parser's states for Chinese dates, the minus sign U+2212 and letters of more than one byte; also the states that no code assigns.
- `time.Parse`, `time.ParseInLocation`, time zones and the clock: a function parameter that answers for a layout, a string and a location; the texts of errors.
- The absolute-date branch of `CalculateOffset` (`date_offset.go:15-20`), which reads the wall clock several times: the answer is only that a date was read.
- DateLayouts.DateTimeLayout: forms outside the grammars of dates and tails have no layout stated, such as a comma behind "May 8 2009", or a clock behind "18 January 2018"; nor has an ambiguous date with the retry on, for which `RetryIs` says which parse it is.
- DateMachine.LiveParser: the scalar fields of the parser object are kept in one record field, updated field by field; buffer, string and location are fields of their own. The record's places for layout and length stay empty; a ghost field holds the layout.
- `debug/elf`, the embedded file system and the file name: linking takes the text, the relocation entries and the symbol names; big-endian files are not modelled.
- `ReadMaps`, `FindVDSOEntry`, `FindSymbolInEntry`, `processStat` and the flags: reading and splitting text; the lookup's result is a parameter of attaching.
- A `process_vm_readv` or `process_vm_writev` that transfers only a part: all of the bytes or none.
- A panic of the Go program (an empty slice, a slice out of range): kept as a failure, which leaves the same state behind.
- The process between the operations is another program: it runs on by arbitrary writes, but not to the function or the fixed part of the image.
- Sessions.Session: the primitives succeed and there is no other writer; a jump that fails midway on the first injection is not rolled back (`JumpToFakeFunc` says what is in memory then), because OriginFuncCode is not yet set.
- StopWorld.Trace: a thread list is read at one instant, thread ids are not used again, and only running threads of the process spawn, so many in all; a wait that fails has not stopped its thread, and releasing a thread that has not stopped finds no such process.
- Which thread a system call is made on, and the time it takes; page permissions; logging and the lock in `Skew`.
- Clock.FakeClockGettime: a clock id below 0 or above 30 is an undefined shift in C, and the real call is taken to have succeeded.
- Clock.FakeGettimeofday: the time zone argument, which is passed through.
- Children.CollectAllChildren: on maps that are no forest, where the source does not end.
- `GetSkew` and `Fork` only load images again; `NewConfig` and `DeepCopy` only copy.
