/**
 * What both appointment forms share: the options of the time `<select>`
 * (every quarter hour of the day, as `HH:MM`) and the `deadline` text built
 * from the date and time inputs. The conversion `new Date(...).toISOString()`
 * depends on the time zone and is a parameter.
 */
module Scheduling {
  import opened JsStrings

  /** `[0, 15, 30, 45]` */
  const QuarterMinutes: seq<nat> := [0, 15, 30, 45]

  /** `` `${h.toString().padStart(2, '0')}:${m.toString().padStart(2, '0')}` `` */
  function OptionLabel(h: nat, m: nat): string {
    PadStart(Decimal(h), 2, '0') + ":" + PadStart(Decimal(m), 2, '0')
  }

  /** The inner `map` over the quarter hours of one hour. */
  function HourOptions(h: nat): seq<string> {
    seq(4, j requires 0 <= j < 4 => OptionLabel(h, QuarterMinutes[j]))
  }

  /** The nested arrays as rendered: one after the other. */
  function Flatten(xss: seq<seq<string>>): seq<string> {
    if xss == [] then [] else xss[0] + Flatten(xss[1..])
  }

  /** `Array.from({ length: 24 }).map((_, hour) => [0, 15, 30, 45].map(...))` */
  function TimeOptions(): (r: seq<string>)
    ensures |r| == 96
  {
    FlattenLength(Hours());
    Flatten(Hours())
  }

  /** The outer `map` over the 24 hours. */
  function Hours(): (r: seq<seq<string>>)
    ensures |r| == 24 && forall i :: 0 <= i < 24 ==> r[i] == HourOptions(i)
  {
    seq(24, h requires 0 <= h < 24 => HourOptions(h))
  }

  /** The reference form of a time option: two hour digits, a colon, two minute digits. */
  function Clock(h: nat, m: nat): string
    requires h < 100 && m < 100
  {
    Digits2(h) + ":" + Digits2(m)
  }

  /** A number below 100 as two decimal digits. */
  function Digits2(n: nat): string
    requires n < 100
  {
    [DigitChar(n / 10), DigitChar(n % 10)]
  }

  lemma {:induction false} FlattenFour(xss: seq<seq<string>>, k: nat)
    requires forall i :: 0 <= i < |xss| ==> |xss[i]| == 4
    requires k < 4 * |xss|
    ensures |Flatten(xss)| == 4 * |xss|
    ensures Flatten(xss)[k] == xss[k / 4][k % 4]
  {
    if k < 4 {
      FlattenLength(xss[1..]);
    } else {
      FlattenFour(xss[1..], k - 4);
      assert (k - 4) / 4 == k / 4 - 1 && (k - 4) % 4 == k % 4;
    }
  }

  lemma {:induction false} FlattenLength(xss: seq<seq<string>>)
    requires forall i :: 0 <= i < |xss| ==> |xss[i]| == 4
    ensures |Flatten(xss)| == 4 * |xss|
  {
    if xss != [] {
      FlattenLength(xss[1..]);
    }
  }

  /** The option at quarter `q` of hour `h` comes from the inner `map` of that hour. */
  lemma TimeOptionsIndex(h: nat, q: nat)
    requires h < 24 && q < 4
    ensures TimeOptions()[4 * h + q] == HourOptions(h)[q]
  {
    var k := 4 * h + q;
    assert k / 4 == h && k % 4 == q;
    var hours := Hours();
    FlattenFour(hours, k);
    assert Flatten(hours)[k] == hours[h][q];
  }

  /** Each label of an hour is the hour and the quarter's minute, both zero-padded. */
  lemma HourOptionsAt(h: nat, q: nat)
    requires h < 24 && q < 4
    ensures HourOptions(h)[q] == Clock(h, QuarterMinutes[q])
  {
    OptionLabelIsClock(h, QuarterMinutes[q]);
  }

  /** There are 96 options, and the option at quarter `q` of hour `h` is
      the hour and the minute `15 * q`, both zero-padded. */
  lemma TimeOptionsAt(h: nat, q: nat)
    requires h < 24 && q < 4
    ensures TimeOptions()[4 * h + q] == Clock(h, QuarterMinutes[q])
  {
    TimeOptionsIndex(h, q);
    HourOptionsAt(h, q);
  }

  /** The padded label of a two-digit hour and minute is the reference form. */
  lemma OptionLabelIsClock(h: nat, m: nat)
    requires h < 100 && m < 100
    ensures OptionLabel(h, m) == Clock(h, m)
  {
    TwoDigits(h);
    TwoDigits(m);
  }

  lemma ClockBelow(h1: nat, m1: nat, h2: nat, m2: nat)
    requires h1 < 100 && m1 < 60 && h2 < 100 && m2 < 60
    requires h1 < h2 || (h1 == h2 && m1 / 10 < m2 / 10)
    ensures Below(Clock(h1, m1), Clock(h2, m2))
  {
    var a, b := Clock(h1, m1), Clock(h2, m2);
    if h1 / 10 < h2 / 10 {
      BelowAt(a, b, 0);
    } else if h1 < h2 {
      assert a[..1] == b[..1];
      BelowAt(a, b, 1);
    } else {
      assert a[..3] == b[..3];
      BelowAt(a, b, 3);
    }
  }

  /** The options are in strictly ascending string order. */
  lemma TimeOptionsAscending(i: nat, j: nat)
    requires i < j < 96
    ensures Below(TimeOptions()[i], TimeOptions()[j])
  {
    var hi, qi, hj, qj := i / 4, i % 4, j / 4, j % 4;
    assert i == 4 * hi + qi && j == 4 * hj + qj;
    TimeOptionsAt(hi, qi);
    TimeOptionsAt(hj, qj);
    SlotOrder(hi, qi, hj, qj);
  }

  /** An earlier quarter-hour slot has the smaller label. */
  lemma SlotOrder(hi: nat, qi: nat, hj: nat, qj: nat)
    requires hi < 24 && qi < 4 && hj < 24 && qj < 4
    requires hi < hj || (hi == hj && qi < qj)
    ensures Below(Clock(hi, QuarterMinutes[qi]), Clock(hj, QuarterMinutes[qj]))
  {
    if hi == hj {
      QuarterOrder(qi, qj);
    }
    ClockBelow(hi, QuarterMinutes[qi], hj, QuarterMinutes[qj]);
  }

  lemma QuarterOrder(a: nat, b: nat)
    requires a < b < 4
    ensures QuarterMinutes[a] / 10 < QuarterMinutes[b] / 10
  {
  }

  /** `date && time ? new Date(`${date}T${time}`).toISOString() : ''` */
  function Deadline(date: string, time: string, toIso: string -> string): (r: string)
    ensures date == "" || time == "" ==> r == ""
    ensures date != "" && time != "" ==> r == toIso(date + "T" + time)
  {
    if date != "" && time != "" then toIso(date + "T" + time) else ""
  }
}
