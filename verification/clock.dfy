/**
 * The digit packing of the `date` and `time` imports. The clock readings
 * themselves are parameters: `month` is zero-based, as `Date.getMonth()`.
 */
module Clock {

  /** `date()`: the calendar date as the decimal number YYYYMMDD. */
  function PackDate(year: int, month: int, day: int): (r: int)
    ensures IsDate(year, month, day) ==> year * 10000 + 101 <= r <= year * 10000 + 1231
  {
    year * 10000 + (month + 1) * 100 + day
  }

  /** `time()`: the time of day as the decimal number hhmmss. */
  function PackTime(hours: int, minutes: int, seconds: int): (r: int)
    ensures IsTime(hours, minutes, seconds) ==> 0 <= r <= 235959
  {
    hours * 10000 + minutes * 100 + seconds
  }

  predicate IsDate(year: int, month: int, day: int)
  {
    0 <= year && 0 <= month < 12 && 1 <= day <= 31
  }

  predicate IsTime(hours: int, minutes: int, seconds: int)
  {
    0 <= hours < 24 && 0 <= minutes < 60 && 0 <= seconds < 60
  }

  /** The year, the one-based month and the day can be read back from the digits. */
  lemma UnpackDate(year: int, month: int, day: int)
    requires IsDate(year, month, day)
    ensures PackDate(year, month, day) / 10000 == year
    ensures PackDate(year, month, day) % 10000 / 100 == month + 1
    ensures PackDate(year, month, day) % 100 == day
  {
    var r := PackDate(year, month, day);
    var low := (month + 1) * 100 + day;
    assert r == year * 10000 + low && 0 <= low < 10000;
    assert r / 10000 == year && r % 10000 == low;
    assert low / 100 == month + 1;
    assert r == (year * 100 + month + 1) * 100 + day;
  }

  /** Hours, minutes and seconds can be read back from the digits. */
  lemma UnpackTime(hours: int, minutes: int, seconds: int)
    requires IsTime(hours, minutes, seconds)
    ensures PackTime(hours, minutes, seconds) / 10000 == hours
    ensures PackTime(hours, minutes, seconds) % 10000 / 100 == minutes
    ensures PackTime(hours, minutes, seconds) % 100 == seconds
    ensures 0 <= PackTime(hours, minutes, seconds) < 240000
  {
    var r := PackTime(hours, minutes, seconds);
    var low := minutes * 100 + seconds;
    assert r == hours * 10000 + low && 0 <= low < 10000;
    assert r / 10000 == hours && r % 10000 == low;
    assert low / 100 == minutes;
    assert r == (hours * 100 + minutes) * 100 + seconds;
  }

  /** Packed dates compare as the dates do: year first, then month, then day. */
  lemma DateOrder(y1: int, m1: int, d1: int, y2: int, m2: int, d2: int)
    requires IsDate(y1, m1, d1) && IsDate(y2, m2, d2)
    ensures PackDate(y1, m1, d1) < PackDate(y2, m2, d2) <==>
      y1 < y2 || (y1 == y2 && (m1 < m2 || (m1 == m2 && d1 < d2)))
  {
    var l1, l2 := (m1 + 1) * 100 + d1, (m2 + 1) * 100 + d2;
    assert PackDate(y1, m1, d1) == y1 * 10000 + l1 && PackDate(y2, m2, d2) == y2 * 10000 + l2;
    if y1 < y2 {
      assert y1 * 10000 + 10000 <= y2 * 10000;
    } else if y2 < y1 {
      assert y2 * 10000 + 10000 <= y1 * 10000;
    }
  }
}
