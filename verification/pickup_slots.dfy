/** Pickup-time slots offered at checkout (src/pages/Checkout.tsx, `getAvailableTimeSlots` and the
    pickup-time parse of `handlePlaceOrder`).

    Time is counted in whole minutes since today's midnight. A value of 1440 or more lies in
    tomorrow: `setMinutes(60)` after 23:45 rolls the start over midnight, and the "after closing"
    branch moves the start to tomorrow's opening. */
module PickupSlots {
  import opened Wrappers

  const MinutesPerDay := 24 * 60
  /** The store opens at 11:00 and closes at 22:00; slots are 15 minutes apart. */
  const OpenTime := 11 * 60
  const CloseTime := 22 * 60
  const SlotMinutes := 15

  /** The hour and minute fields of the current moment. Seconds and milliseconds are not part of
      it: the start time zeroes them after rounding the minute field. */
  datatype Clock = Clock(hour: int, minute: int)

  predicate ValidClock(c: Clock) {
    0 <= c.hour < 24 && 0 <= c.minute < 60
  }

  function MinuteOfDay(c: Clock): int {
    c.hour * 60 + c.minute
  }

  function Max(a: int, b: int): int {
    if a < b then b else a
  }

  /** `Math.ceil(m / d)` for a non-negative numerator. */
  function CeilDiv(m: nat, d: nat): nat
    requires d > 0
  {
    if m % d == 0 then m / d else m / d + 1
  }

  /** The start after `setMinutes(Math.ceil(minutes / 15) * 15)`: the first slot boundary at or
      after the current minute. */
  function RoundedStart(now: Clock): (r: int)
    requires ValidClock(now)
    ensures r % SlotMinutes == 0
    ensures MinuteOfDay(now) <= r < MinuteOfDay(now) + SlotMinutes
    ensures r <= MinutesPerDay
  {
    now.hour * 60 + CeilDiv(now.minute, SlotMinutes) * SlotMinutes
  }

  /** The first candidate slot: the rounded start, moved up to opening when earlier, and moved to
      tomorrow's opening when strictly after closing. */
  function FirstSlot(now: Clock): (r: int)
    requires ValidClock(now)
    ensures r % SlotMinutes == 0 && r >= OpenTime
    ensures RoundedStart(now) < CloseTime ==> r == Max(RoundedStart(now), OpenTime)
    ensures RoundedStart(now) == CloseTime ==> r == CloseTime
    ensures RoundedStart(now) > CloseTime ==> r == MinutesPerDay + OpenTime
  {
    var rounded := RoundedStart(now);
    var start := if rounded < OpenTime then OpenTime else rounded;
    if start > CloseTime then MinutesPerDay + OpenTime else start
  }

  /** The slot generation loop: every 15 minutes from the first slot while before today's close. */
  method AvailableTimeSlots(now: Clock) returns (slots: seq<int>)
    requires ValidClock(now)
    ensures forall i :: 0 <= i < |slots| ==> OpenTime <= slots[i] < CloseTime
    ensures forall i :: 0 <= i < |slots| ==> slots[i] % SlotMinutes == 0
    ensures forall i :: 0 <= i < |slots| ==> RoundedStart(now) <= slots[i]
    ensures forall i :: 0 < i < |slots| ==> slots[i] == slots[i - 1] + SlotMinutes
    ensures forall i, j :: 0 <= i < j < |slots| ==> slots[i] < slots[j]
    ensures |slots| > 0 ==> slots[0] == Max(RoundedStart(now), OpenTime)
    ensures |slots| == 0 <==> RoundedStart(now) >= CloseTime
    ensures forall m :: Max(RoundedStart(now), OpenTime) <= m < CloseTime && m % SlotMinutes == 0 ==> m in slots
  {
    var start := FirstSlot(now);
    assert start < CloseTime <==> RoundedStart(now) < CloseTime;
    slots := [];
    var current := start;
    while current < CloseTime
      invariant current == start + SlotMinutes * |slots|
      invariant forall i :: 0 <= i < |slots| ==> slots[i] == start + SlotMinutes * i
      invariant start < CloseTime ==> current <= CloseTime
      invariant forall i :: 0 <= i < |slots| ==> slots[i] < CloseTime
      decreases CloseTime - current
    {
      slots := slots + [current];
      current := current + SlotMinutes;
    }
    forall m | Max(RoundedStart(now), OpenTime) <= m < CloseTime && m % SlotMinutes == 0
      ensures m in slots
    {
      var k := (m - start) / SlotMinutes;
      assert start + SlotMinutes * k == m;
      assert slots[k] == m;
    }
  }

  /** The character for one decimal digit. */
  function DigitChar(d: int): char
    requires 0 <= d < 10
  {
    ('0' as int + d) as char
  }

  predicate IsDigit(ch: char) {
    '0' <= ch <= '9'
  }

  function DigitValue(ch: char): int
    requires IsDigit(ch)
  {
    ch as int - '0' as int
  }

  /** A number below 100 with a leading zero. */
  function TwoDigits(n: int): string
    requires 0 <= n < 100
  {
    [DigitChar(n / 10), DigitChar(n % 10)]
  }

  /** `format(slot, 'HH:mm')`: the radio value of a slot. */
  function SlotValue(m: int): (r: string)
    requires 0 <= m < MinutesPerDay
    ensures |r| == 5 && r[2] == ':'
    ensures forall i :: 0 <= i < 5 && i != 2 ==> IsDigit(r[i])
  {
    TwoDigits(m / 60) + ":" + TwoDigits(m % 60)
  }

  /** `format(slot, 'h:mm a')`: the label shown next to the radio button. */
  function SlotLabel(m: int): (r: string)
    requires 0 <= m < MinutesPerDay
    ensures |r| >= 3 && (r[|r| - 2..] == "AM" <==> m < 12 * 60)
    ensures |r| >= 3 && (r[|r| - 2..] == "PM" <==> m >= 12 * 60)
    ensures |r| >= 7 && r[|r| - 6] == ':' && r[|r| - 5..|r| - 3] == TwoDigits(m % 60)
    ensures ParseInt(r) == Some(if (m / 60) % 12 == 0 then 12 else (m / 60) % 12)
    ensures r[0] != '0' && |LeadingDigits(r)| == |r| - 6 && |r| <= 8
    ensures r[|r| - 3] == ' '
  {
    var h := m / 60;
    var h12 := if h % 12 == 0 then 12 else h % 12;
    var meridiem := if h < 12 then " AM" else " PM";
    LabelParts(HourField(h12), TwoDigits(m % 60), meridiem);
    HourField(h12) + (":" + TwoDigits(m % 60) + meridiem)
  }

  /** The hour of a label, without a leading zero: its digits read back as the hour. */
  function HourField(h: int): (r: string)
    requires 1 <= h <= 12
    ensures |r| > 0 && (forall i :: 0 <= i < |r| ==> IsDigit(r[i])) && DigitsValue(r) == h
    ensures |r| <= 2 && r[0] != '0'
  {
    if h < 10 then
      assert [DigitChar(h)][..0] == [];
      [DigitChar(h)]
    else
      TwoDigitsValue(h);
      TwoDigits(h)
  }

  /** Where the parts of a label sit: the meridiem at the end, the minute field and ':' before it,
      and the hour digits at the front, where `parseInt` reads them and nothing else. */
  lemma LabelParts(hour: string, minute: string, meridiem: string)
    requires |hour| > 0 && forall i :: 0 <= i < |hour| ==> IsDigit(hour[i])
    requires |minute| == 2 && |meridiem| == 3
    ensures var r := hour + (":" + minute + meridiem);
            |r| >= 7 && r[|r| - 2..] == meridiem[1..] && r[|r| - 6] == ':' && r[|r| - 5..|r| - 3] == minute &&
            ParseInt(r) == Some(DigitsValue(hour)) && LeadingDigits(r) == hour &&
            r[0] == hour[0] && r[|r| - 3] == meridiem[0]
  {
    var rest := ":" + minute + meridiem;
    var r := hour + rest;
    assert r[|r| - 2..] == rest[4..];
    assert r[|r| - 3] == rest[3];
    LeadingDigitsOfRun(hour, rest);
    assert r[|r| - 6] == rest[0];
    assert r[|r| - 5..|r| - 3] == rest[1..3];
    ParseDigits(hour, rest);
  }

  /** `s.split(sep)`: the pieces between separators, with empty pieces kept. */
  function Split(s: string, sep: char): (parts: seq<string>)
    ensures |parts| >= 1
    ensures forall i :: 0 <= i < |parts| ==> sep !in parts[i]
  {
    if |s| == 0 then [""]
    else
      var rest := Split(s[1..], sep);
      if s[0] == sep then [""] + rest else [[s[0]] + rest[0]] + rest[1..]
  }

  /** `parts.join(sep)`: the inverse of `Split`. */
  function Join(parts: seq<string>, sep: char): string
    requires |parts| >= 1
  {
    if |parts| == 1 then parts[0] else parts[0] + [sep] + Join(parts[1..], sep)
  }

  /** Splitting loses nothing: joining the pieces with the separator gives the text back. */
  lemma {:induction false} JoinSplit(s: string, sep: char)
    ensures Join(Split(s, sep), sep) == s
  {
    if |s| > 0 {
      JoinSplit(s[1..], sep);
      var rest := Split(s[1..], sep);
      if s[0] == sep {
        assert Split(s, sep) == [""] + rest;
        assert ([""] + rest)[1..] == rest;
      } else {
        var parts := Split(s, sep);
        assert parts == [[s[0]] + rest[0]] + rest[1..];
        if |rest| == 1 {
          assert Join(parts, sep) == [s[0]] + rest[0];
        } else {
          assert parts[1..] == rest[1..];
          assert Join(rest, sep) == rest[0] + [sep] + Join(rest[1..], sep);
        }
      }
    }
  }

  /** The leading run of decimal digits. */
  function LeadingDigits(s: string): (r: string)
    ensures |r| <= |s| && r == s[..|r|]
    ensures forall i :: 0 <= i < |r| ==> IsDigit(r[i])
    ensures |r| < |s| ==> !IsDigit(s[|r|])
  {
    if |s| == 0 || !IsDigit(s[0]) then [] else [s[0]] + LeadingDigits(s[1..])
  }

  /** The value of a run of decimal digits, most significant first. */
  function DigitsValue(ds: string): nat
    requires forall i :: 0 <= i < |ds| ==> IsDigit(ds[i])
  {
    if |ds| == 0 then 0 else DigitsValue(ds[..|ds| - 1]) * 10 + DigitValue(ds[|ds| - 1]) as nat
  }

  /** `parseInt(s, 10)` on text without leading blanks or sign: the value of the leading digits, or
      None (NaN) when there are none. */
  function ParseInt(s: string): (r: Option<nat>)
    ensures r.None? <==> (|s| == 0 || !IsDigit(s[0]))
  {
    var ds := LeadingDigits(s);
    if |ds| == 0 then None else Some(DigitsValue(ds))
  }

  /** The pickup moment of `handlePlaceOrder`: hours and minutes from `selectedTime.split(':')`,
      applied with `setHours` / `setMinutes` to today (an hour or minute beyond its range rolls
      over, as the minute count does). None when either part does not parse, where the source
      builds an invalid date, `toISOString` throws while the order row is being built, and
      nothing is inserted. */
  function PickupMinute(selectedTime: string): (r: Option<int>)
    ensures r.Some? ==> r.value >= 0
    ensures r.Some? <==>
              |Split(selectedTime, ':')| >= 2 &&
              ParseInt(Split(selectedTime, ':')[0]).Some? && ParseInt(Split(selectedTime, ':')[1]).Some?
    ensures r.Some? ==>
              r.value == ParseInt(Split(selectedTime, ':')[0]).value * 60 + ParseInt(Split(selectedTime, ':')[1]).value
  {
    var parts := Split(selectedTime, ':');
    var hours := ParseInt(parts[0]);
    var minutes := if |parts| >= 2 then ParseInt(parts[1]) else None;
    if hours.Some? && minutes.Some? then Some(hours.value * 60 + minutes.value) else None
  }

  /** A two-digit field has the value of its number. */
  lemma TwoDigitsValue(n: int)
    requires 0 <= n < 100
    ensures forall i :: 0 <= i < 2 ==> IsDigit(TwoDigits(n)[i])
    ensures DigitsValue(TwoDigits(n)) == n
  {
    var a, b := DigitChar(n / 10), DigitChar(n % 10);
    assert [a, b][..1] == [a];
    assert [a][..0] == [];
    assert DigitsValue([a]) == DigitValue(a);
    assert DigitValue(a) == n / 10 && DigitValue(b) == n % 10;
  }

  /** The leading digits of a run of digits followed by a non-digit are that run. */
  lemma {:induction false} LeadingDigitsOfRun(ds: string, rest: string)
    requires forall i :: 0 <= i < |ds| ==> IsDigit(ds[i])
    requires |rest| == 0 || !IsDigit(rest[0])
    ensures LeadingDigits(ds + rest) == ds
  {
    if |ds| > 0 {
      LeadingDigitsOfRun(ds[1..], rest);
      assert (ds + rest)[1..] == ds[1..] + rest;
      assert [ds[0]] + ds[1..] == ds;
    } else {
      assert ds + rest == rest;
    }
  }

  /** `parseInt` of a non-empty run of digits followed by a non-digit (or nothing) is the decimal
      value of the run: the rest of the text is ignored. */
  lemma ParseDigits(ds: string, rest: string)
    requires |ds| > 0 && forall i :: 0 <= i < |ds| ==> IsDigit(ds[i])
    requires |rest| == 0 || !IsDigit(rest[0])
    ensures ParseInt(ds + rest) == Some(DigitsValue(ds))
  {
    LeadingDigitsOfRun(ds, rest);
  }

  lemma TwoDigitsParse(n: int, rest: string)
    requires 0 <= n < 100
    requires |rest| == 0 || !IsDigit(rest[0])
    ensures ParseInt(TwoDigits(n) + rest) == Some(n)
  {
    TwoDigitsValue(n);
    ParseDigits(TwoDigits(n), rest);
  }

  /** Text without the separator is a single piece. */
  lemma {:induction false} SplitNoSep(t: string, sep: char)
    requires sep !in t
    ensures Split(t, sep) == [t]
  {
    if |t| > 0 {
      SplitNoSep(t[1..], sep);
      assert [t[0]] + t[1..] == t;
    }
  }

  /** A separator after a separator-free prefix ends the first piece there. */
  lemma {:induction false} SplitAtSep(a: string, b: string, sep: char)
    requires sep !in a
    ensures Split(a + [sep] + b, sep) == [a] + Split(b, sep)
  {
    if |a| == 0 {
      assert a + [sep] + b == [sep] + b;
      assert ([sep] + b)[1..] == b;
    } else {
      SplitAtSep(a[1..], b, sep);
      assert (a + [sep] + b)[1..] == a[1..] + [sep] + b;
      assert [a[0]] + a[1..] == a;
    }
  }

  lemma SplitSlotValue(m: int)
    requires 0 <= m < MinutesPerDay
    ensures Split(SlotValue(m), ':') == [TwoDigits(m / 60), TwoDigits(m % 60)]
  {
    SplitAtSep(TwoDigits(m / 60), TwoDigits(m % 60), ':');
    SplitNoSep(TwoDigits(m % 60), ':');
  }

  /** Round trip: the value of a slot, split at ':' and parsed, gives back the slot's minute of the
      day, so the order is placed for exactly the time that was chosen. */
  lemma SlotValueRoundTrip(m: int)
    requires 0 <= m < MinutesPerDay
    ensures PickupMinute(SlotValue(m)) == Some(m)
  {
    SplitSlotValue(m);
    TwoDigitsParse(m / 60, []);
    TwoDigitsParse(m % 60, []);
    assert TwoDigits(m / 60) + [] == TwoDigits(m / 60);
    assert TwoDigits(m % 60) + [] == TwoDigits(m % 60);
  }
}
