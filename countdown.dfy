/** The countdown formatter of `src/main.rs`: `CountDown::new`,
    `CountDown::num_to_utf8slice` and `CountDown::to_str`. A number of minutes
    becomes the nine display bytes "HHh:MMmin", written into a caller's fixed
    buffer without allocation. */
module Countdown {
  import opened MachineWords

  /** Hours and minutes left until the next measurement. */
  datatype CountDown = CountDown(hoursLeft: uint32, minsLeft: uint32)

  /** `CountDown::new`: whole hours and the leftover minutes of a minute count. */
  function New(totalMinsLeft: uint32): (c: CountDown)
    ensures c.hoursLeft as int * 60 + c.minsLeft as int == totalMinsLeft as int
    ensures c.minsLeft < 60
  {
    CountDown(totalMinsLeft / 60, totalMinsLeft % 60)
  }

  /** The width of the buffer `to_str` formats into. */
  const BufferLength := 9

  predicate IsDigit(b: uint8) {
    48 <= b <= 57
  }

  predicate AllDigits(s: seq<uint8>) {
    forall k :: 0 <= k < |s| ==> IsDigit(s[k])
  }

  /** The ASCII character of a decimal digit. */
  function Digit(d: nat): (b: uint8)
    requires d < 10
    ensures IsDigit(b)
  {
    (48 + d) as uint8
  }

  function Pow10(k: nat): (p: nat)
    ensures p >= 1
  {
    if k == 0 then 1 else 10 * Pow10(k - 1)
  }

  /** The ASCII decimal digits of `n`, most significant first, without leading
      zeros: none at all for 0. This is the sequence `num_to_utf8slice`
      produces, one byte per iteration, from the right. */
  function Digits(n: nat): (ds: seq<uint8>)
    ensures AllDigits(ds)
    ensures n > 0 ==> |ds| > 0 && ds[0] != 48
  {
    if n == 0 then [] else Digits(n / 10) + [Digit(n % 10)]
  }

  /** The number an ASCII decimal numeral denotes; the decoder of `Digits`. */
  function DecimalValue(s: seq<uint8>): nat
    requires AllDigits(s)
  {
    if s == [] then 0 else DecimalValue(s[..|s| - 1]) * 10 + (s[|s| - 1] as int - 48)
  }

  /** Reading back the digits gives the number they were made from. */
  lemma {:induction false} DigitsRoundTrip(n: nat)
    ensures DecimalValue(Digits(n)) == n
  {
    if n > 0 {
      var ds := Digits(n);
      assert ds[..|ds| - 1] == Digits(n / 10);
      DigitsRoundTrip(n / 10);
    }
  }

  /** A number below 10^k has at most k digits. */
  lemma {:induction false} DigitsFit(n: nat, k: nat)
    requires n < Pow10(k)
    ensures |Digits(n)| <= k
  {
    if n > 0 {
      DigitsFit(n / 10, k - 1);
    }
  }

  /** A number with k digits is at least 10^(k-1): the digit count is exact. */
  lemma {:induction false} DigitsExact(n: nat)
    requires n > 0
    ensures Pow10(|Digits(n)| - 1) <= n < Pow10(|Digits(n)|)
  {
    if n >= 10 {
      DigitsExact(n / 10);
    }
  }

  /** The bytes `s` hold once the digits of `num` are written so that the last
      one sits just before index `end`. */
  function WriteDigits(s: seq<uint8>, num: nat, end: nat): seq<uint8>
    requires |Digits(num)| <= end <= |s|
  {
    s[..end - |Digits(num)|] + Digits(num) + s[end..]
  }

  /** Writing digits changes only the `|Digits(num)|` bytes before `end`, puts
      ASCII digits there, and those bytes read back as `num`. */
  lemma WriteDigitsEffect(s: seq<uint8>, num: nat, end: nat)
    requires |Digits(num)| <= end <= |s|
    ensures var r := WriteDigits(s, num, end);
      var start := end - |Digits(num)|;
      && |r| == |s|
      && (forall j :: 0 <= j < |s| && !(start <= j < end) ==> r[j] == s[j])
      && AllDigits(r[start..end])
      && DecimalValue(r[start..end]) == num
  {
    var r := WriteDigits(s, num, end);
    var start := end - |Digits(num)|;
    assert r[start..end] == Digits(num);
    forall j | 0 <= j < |s| && !(start <= j < end)
      ensures r[j] == s[j]
    {
      if j < start {
        assert r[j] == s[..start][j];
      } else {
        assert r[j] == s[end..][j - end];
      }
    }
    DigitsRoundTrip(num);
  }

  /** A buffer that holds the digits of `num` in `[start, end)` and agrees
      with `before` elsewhere is `before` with those digits written. */
  lemma DigitsWritten(before: seq<uint8>, after: seq<uint8>, num: nat, start: nat, end: nat)
    requires |after| == |before| && start <= end <= |after|
    requires after[start..end] == Digits(num)
    requires forall j :: 0 <= j < |after| && !(start <= j < end) ==> after[j] == before[j]
    ensures after == WriteDigits(before, num, end)
  {
    assert after == after[..start] + after[start..end] + after[end..];
  }

  /** `CountDown::num_to_utf8slice`: writes the decimal digits of `num` right to
      left, the last one at `end - 1`, leaving every other byte alone; nothing
      is written for 0. The caller must leave room for the digits. */
  method NumToUtf8Slice(num: uint32, buffer: array<uint8>, end: nat)
    requires |Digits(num as nat)| <= end
    requires num > 0 ==> end <= buffer.Length
    modifies buffer
    ensures buffer[..] == if num == 0 then old(buffer[..]) else WriteDigits(old(buffer[..]), num as nat, end)
  {
    var i := end;
    var x := num;
    while x > 0
      invariant x <= num
      invariant num == 0 ==> i == end
      invariant num > 0 ==> |Digits(x as nat)| <= i <= end <= buffer.Length
      invariant num > 0 ==> Digits(num as nat) == Digits(x as nat) + buffer[i..end]
      invariant forall j :: 0 <= j < buffer.Length && !(i <= j < end) ==> buffer[j] == old(buffer[j])
      decreases x
    {
      ghost var written := buffer[i..end];
      assert Digits(x as nat) == Digits(x as nat / 10) + [Digit(x as nat % 10)];
      i := i - 1;
      var rem := x % 10;
      buffer[i] := rem as uint8 + 48;
      assert buffer[i..end] == [Digit(x as nat % 10)] + written;
      x := x / 10;
    }
    if num > 0 {
      DigitsWritten(old(buffer[..]), buffer[..], num as nat, i, end);
    } else {
      assert forall j :: 0 <= j < buffer.Length ==> buffer[j] == old(buffer[j]);
      assert buffer[..] == old(buffer[..]);
    }
  }

  /** `[0, 0, h, :, 0, 0, m, i, n]` in ASCII: what `to_str` starts from. */
  const Template: seq<uint8> := [48, 48, 104, 58, 48, 48, 109, 105, 110]

  /** "HHh:MMmin" with both fields zero-padded to two digits: the layout the
      doc comment of `to_str` promises, written down directly. */
  function Rendered(hours: nat, mins: nat): (r: seq<uint8>)
    requires hours < 100 && mins < 100
  {
    [Digit(hours / 10), Digit(hours % 10), 104, 58, Digit(mins / 10), Digit(mins % 10), 109, 105, 110]
  }

  /** The buffer after `to_str`: the rendering when both fields fit two digits,
      otherwise the buffer exactly as it was. */
  function Formatted(c: CountDown, before: seq<uint8>): (r: seq<uint8>)
    requires |before| == BufferLength
    ensures |r| == BufferLength
    ensures IsAscii(before) ==> IsAscii(r)
  {
    if c.hoursLeft < 100 && c.minsLeft < 100 then Rendered(c.hoursLeft as nat, c.minsLeft as nat) else before
  }

  /** Overwriting a "00" field right-aligned with the digits of n < 100 gives
      n zero-padded to two digits. */
  lemma TwoDigitField(n: nat)
    requires n < 100
    ensures |Digits(n)| <= 2
    ensures [48 as uint8, 48][..2 - |Digits(n)|] + Digits(n) == [Digit(n / 10), Digit(n % 10)]
  {
    if n >= 10 {
      assert Digits(n / 10) == [Digit(n / 10)];
    } else if n > 0 {
      assert Digits(n) == [Digit(n)];
    }
  }

  /** Writing n < 100 into a "00" field that ends at `end` turns that field
      into n zero-padded to two digits and leaves the rest. */
  lemma WriteTwoDigitField(s: seq<uint8>, n: nat, end: nat)
    requires n < 100 && 2 <= end <= |s| && s[end - 2] == 48 && s[end - 1] == 48
    ensures |Digits(n)| <= 2
    ensures WriteDigits(s, n, end) == s[..end - 2] + [Digit(n / 10), Digit(n % 10)] + s[end..]
  {
    TwoDigitField(n);
    var k := |Digits(n)|;
    assert s[..end - k] == s[..end - 2] + [48 as uint8, 48][..2 - k];
  }

  /** Filling the template's minutes field (ending at 6) and then its hours
      field (ending at 2) yields the zero-padded rendering. */
  lemma TemplateFilled(hours: nat, mins: nat)
    requires hours < 100 && mins < 100
    ensures |Digits(mins)| <= 6 && |Digits(hours)| <= 2
    ensures WriteDigits(WriteDigits(Template, mins, 6), hours, 2) == Rendered(hours, mins)
  {
    WriteTwoDigitField(Template, mins, 6);
    var afterMins := WriteDigits(Template, mins, 6);
    assert afterMins == [48, 48, 104, 58, Digit(mins / 10), Digit(mins % 10), 109, 105, 110];
    WriteTwoDigitField(afterMins, hours, 2);
    assert afterMins[..0] == [] && afterMins[2..] == [104, 58, Digit(mins / 10), Digit(mins % 10), 109, 105, 110];
  }

  /** `CountDown::to_str`: when both fields are below 100, overwrites the whole
      buffer with the template and fills in minutes, then hours; otherwise
      leaves the buffer untouched. Returns the buffer's bytes, which stay ASCII
      when they were; the UTF-8 conversion of the source cannot fail on an
      ASCII buffer such as the zeroed one of the main loop (a buffer that is not
      valid UTF-8, such as one holding 0xFF, with an overflowing field would
      make it panic). */
  method ToStr(c: CountDown, buffer: array<uint8>) returns (text: seq<uint8>)
    requires buffer.Length == BufferLength
    modifies buffer
    ensures buffer[..] == Formatted(c, old(buffer[..]))
    ensures text == buffer[..]
    ensures IsAscii(old(buffer[..])) ==> IsAscii(text)
  {
    if c.hoursLeft < 100 && c.minsLeft < 100 {
      forall k | 0 <= k < BufferLength {
        buffer[k] := Template[k];
      }
      assert buffer[..] == Template;
      TemplateFilled(c.hoursLeft as nat, c.minsLeft as nat);
      var i := 6;
      NumToUtf8Slice(c.minsLeft, buffer, i);
      assert buffer[..] == WriteDigits(Template, c.minsLeft as nat, 6);
      i := 2;
      NumToUtf8Slice(c.hoursLeft, buffer, i);
      assert buffer[..] == WriteDigits(WriteDigits(Template, c.minsLeft as nat, 6), c.hoursLeft as nat, 2);
    }
    text := buffer[..];
  }

  /** The rendering is nine ASCII bytes: two digits, "h:", two digits, "min",
      and its two fields read back as the hours and the minutes. */
  lemma RenderedLayout(hours: nat, mins: nat)
    requires hours < 100 && mins < 100
    ensures var r := Rendered(hours, mins);
      && |r| == BufferLength && IsAscii(r)
      && r[2..4] == Bytes("h:") && r[6..] == Bytes("min")
      && AllDigits(r[..2]) && AllDigits(r[4..6])
      && DecimalValue(r[..2]) == hours && DecimalValue(r[4..6]) == mins
  {
    var r := Rendered(hours, mins);
    assert r[..2][..1] == [r[0]] && [r[0]][..0] == [];
    assert DecimalValue([r[0]]) == hours / 10;
    assert DecimalValue(r[..2]) == (hours / 10) * 10 + hours % 10;
    assert r[4..6][..1] == [r[4]] && [r[4]][..0] == [];
    assert DecimalValue([r[4]]) == mins / 10;
    assert DecimalValue(r[4..6]) == (mins / 10) * 10 + mins % 10;
  }

  /** Two renderings are equal only for equal hours and minutes. */
  lemma RenderedInjective(h1: nat, m1: nat, h2: nat, m2: nat)
    requires h1 < 100 && m1 < 100 && h2 < 100 && m2 < 100
    requires Rendered(h1, m1) == Rendered(h2, m2)
    ensures h1 == h2 && m1 == m2
  {
    RenderedLayout(h1, m1);
    RenderedLayout(h2, m2);
  }

  /** The example of the doc comment of `to_str`, and the two field extremes. */
  lemma RenderedExamples()
    ensures Rendered(7, 23) == Bytes("07h:23min")
    ensures Rendered(0, 0) == Bytes("00h:00min")
    ensures Rendered(99, 5) == Bytes("99h:05min")
  {
  }

  /** A minute count below 6000 always takes the formatting branch, and the
      text shows its hours and its minutes modulo an hour. */
  lemma FormattedCountdown(total: uint32, before: seq<uint8>)
    requires total < 6000 && |before| == BufferLength
    ensures New(total).hoursLeft < 100
    ensures Formatted(New(total), before) == Rendered(total as nat / 60, total as nat % 60)
  {
  }

  /** With a field of 100 or more the buffer is left as it was: an all-zero
      buffer stays nine zero bytes. */
  lemma OverflowLeavesBuffer(c: CountDown)
    requires c.hoursLeft >= 100 || c.minsLeft >= 100
    ensures Formatted(c, seq(BufferLength, _ => 0 as uint8)) == seq(BufferLength, _ => 0 as uint8)
  {
  }
}
