/** The timer input field of the game setup: the user types digits, the last four typed are
    kept and read as MM:SS, and the field reports the total number of seconds. */
module TimerInput {
  import opened Text

  /** `value.replace(/[^0-9]/g, '')`: the digits of `raw`, in order. */
  function DigitsOf(raw: string): (v: string)
    ensures AllDigits(v) && |v| <= |raw|
    decreases |raw|
  {
    if |raw| == 0 then ""
    else if IsDigit(raw[|raw| - 1]) then DigitsOf(raw[..|raw| - 1]) + [raw[|raw| - 1]]
    else DigitsOf(raw[..|raw| - 1])
  }

  /** Filtering distributes over concatenation. */
  lemma {:induction false} DigitsOfConcat(a: string, b: string)
    ensures DigitsOf(a + b) == DigitsOf(a) + DigitsOf(b)
    decreases |b|
  {
    if |b| > 0 {
      var b' := b[..|b| - 1];
      assert (a + b)[..|a + b| - 1] == a + b';
      DigitsOfConcat(a, b');
    } else {
      assert a + b == a;
    }
  }

  /** A digit string is left as it is, so filtering twice is filtering once. */
  lemma {:induction false} DigitsOfDigits(s: string)
    requires AllDigits(s)
    ensures DigitsOf(s) == s
    decreases |s|
  {
    if |s| > 0 {
      DigitsOfDigits(s[..|s| - 1]);
    }
  }

  /** `handleInputChange`: the digits of the new field value, of which only the last four are
      kept when there are more. */
  function HandleInputChange(raw: string): (s: string)
    ensures AllDigits(s) && |s| <= 4
    ensures var v := DigitsOf(raw); if |v| <= 4 then s == v else s == v[|v| - 4..]
  {
    var v := DigitsOf(raw);
    if |v| <= 4 then v else v[|v| - 4..]
  }

  /** Feeding the stored sequence back into the field stores it unchanged. */
  lemma HandleInputChangeIdempotent(raw: string)
    ensures HandleInputChange(HandleInputChange(raw)) == HandleInputChange(raw)
  {
    DigitsOfDigits(HandleInputChange(raw));
  }

  /** `formatToTimer`: the sequence padded to four digits with '0', as "MM:SS". */
  function FormatToTimer(s: string): (r: string)
    ensures |s| <= 4 ==> |r| == 5 && r[2] == ':' && r[..2] + r[3..] == PadStart(s, 4, '0')
  {
    var p := PadStart(s, 4, '0');
    p[0..2] + ":" + p[2..4]
  }

  /** `convertToSeconds`: 60 times the first two padded digits plus the last two. */
  function ConvertToSeconds(s: string): (n: nat)
    requires AllDigits(s)
  {
    var p := PadStart(s, 4, '0');
    DigitsValue(p[0..2]) * 60 + DigitsValue(p[2..4])
  }

  /** Minutes and seconds are two digits each, so at most 99 * 60 + 99 seconds. */
  lemma SecondsBound(s: string)
    requires AllDigits(s)
    ensures ConvertToSeconds(s) <= 99 * 60 + 99
  {
    var p := PadStart(s, 4, '0');
    DigitsValueBound(p[0..2]);
    DigitsValueBound(p[2..4]);
  }

  /** A two-digit string denotes zero exactly when both digits are '0'. */
  lemma TwoDigitsZero(t: string)
    requires |t| == 2 && AllDigits(t)
    ensures DigitsValue(t) == 0 <==> t == "00"
  {
    assert t[..1][..0] == "";
    assert DigitsValue(t) == DigitsValue(t[..1]) * 10 + (t[1] as int - '0' as int);
    assert DigitsValue(t[..1]) == t[0] as int - '0' as int;
  }

  /** For a stored sequence the display reads "00:00" exactly when it is worth zero seconds. */
  lemma ZeroDisplayIffZeroSeconds(s: string)
    requires AllDigits(s) && |s| <= 4
    ensures FormatToTimer(s) == "00:00" <==> ConvertToSeconds(s) == 0
  {
    var p := PadStart(s, 4, '0');
    assert AllDigits(p);
    TwoDigitsZero(p[0..2]);
    TwoDigitsZero(p[2..4]);
    assert FormatToTimer(s) == p[0..2] + ":" + p[2..4];
    if FormatToTimer(s) == "00:00" {
      assert p[0..2] == FormatToTimer(s)[0..2];
      assert p[2..4] == FormatToTimer(s)[3..5];
    }
  }

  /** The seconds the field reports: 0 for an empty or all-zero sequence, otherwise its value. */
  function ReportedSeconds(s: string): (n: nat)
    requires AllDigits(s)
  {
    if s == "" || FormatToTimer(s) == "00:00" then 0 else ConvertToSeconds(s)
  }

  /** The zero rule agrees with the conversion: the field reports the sequence's value. */
  lemma ReportedIsConverted(s: string)
    requires AllDigits(s) && |s| <= 4
    ensures ReportedSeconds(s) == ConvertToSeconds(s)
  {
    ZeroDisplayIffZeroSeconds(s);
    if s == "" {
      assert PadStart(s, 4, '0') == "0000";
      assert ConvertToSeconds(s) == DigitsValue("00") * 60 + DigitsValue("00");
      TwoDigitsZero("00");
    }
  }

  /** `displayValue`: the formatted time while focused or when it is not zero, else nothing. */
  function DisplayValue(s: string, focused: bool): string {
    if focused || (s != "" && FormatToTimer(s) != "00:00") then FormatToTimer(s) else ""
  }

  /** The display is empty exactly when the field is unfocused and worth zero seconds. */
  lemma DisplayEmptyIffIdleZero(s: string, focused: bool)
    requires AllDigits(s) && |s| <= 4
    ensures DisplayValue(s, focused) == "" <==> !focused && ConvertToSeconds(s) == 0
  {
    ReportedIsConverted(s);
    ZeroDisplayIffZeroSeconds(s);
  }

  /** "1234" reads as 12:34, 754 seconds. */
  lemma Example1234()
    ensures HandleInputChange("1234") == "1234"
    ensures FormatToTimer("1234") == "12:34" && ReportedSeconds("1234") == 754
  {
    DigitsOfDigits("1234");
    assert PadStart("1234", 4, '0') == "1234";
    assert DigitsValue("12") == 12 by {
      assert "12"[..1] == "1";
    }
    assert DigitsValue("34") == 34 by {
      assert "34"[..1] == "3";
    }
  }

  /** "56" reads as 00:56, 56 seconds. */
  lemma Example56()
    ensures HandleInputChange("56") == "56"
    ensures FormatToTimer("56") == "00:56" && ReportedSeconds("56") == 56
  {
    DigitsOfDigits("56");
    assert PadStart("56", 4, '0') == "0056";
    assert DigitsValue("00") == 0 by {
      assert "00"[..1] == "0";
    }
    assert DigitsValue("56") == 56 by {
      assert "56"[..1] == "5";
    }
  }

  /** Typing "12345" keeps "2345": 23:45, 1425 seconds. */
  lemma Example12345()
    ensures HandleInputChange("12345") == "2345"
    ensures FormatToTimer("2345") == "23:45" && ReportedSeconds("2345") == 1425
  {
    DigitsOfDigits("12345");
    assert "12345"[1..] == "2345";
    assert PadStart("2345", 4, '0') == "2345";
    assert DigitsValue("23") == 23 by {
      assert "23"[..1] == "2";
    }
    assert DigitsValue("45") == 45 by {
      assert "45"[..1] == "4";
    }
  }
}
