/** The `--resolution WxH` command-line argument (vid.py `arg_resolution`):
    the pattern `(\d+)x(\d+)` matched at the start of the text, the two digit
    runs read as decimal integers. Anything after the second digit run is
    ignored; text that does not start with the pattern is an error, and so is
    a digit run longer than CPython's default limit on `int` of a string. */
module ResolutionArg {
  import opened Wrappers
  import opened Frames

  predicate IsDigit(c: char)
  {
    '0' <= c <= '9'
  }

  predicate AllDigits(s: string)
  {
    forall k :: 0 <= k < |s| ==> IsDigit(s[k])
  }

  function DigitValue(c: char): nat
    requires IsDigit(c)
  {
    c as int - '0' as int
  }

  /** `int(...)` of a digit string; leading zeros are allowed. The value is
      0 exactly when every digit is '0'. */
  function DecimalValue(s: string): (v: nat)
    requires AllDigits(s)
    ensures v == 0 <==> forall k :: 0 <= k < |s| ==> s[k] == '0'
  {
    if s == [] then 0
    else
      var init := s[..|s| - 1];
      assert forall k :: 0 <= k < |s| - 1 ==> s[k] == init[k];
      10 * DecimalValue(init) + DigitValue(s[|s| - 1])
  }

  /** A leading zero does not change the value. */
  lemma {:induction false} DecimalValueLeadingZero(s: string)
    requires AllDigits(s)
    ensures AllDigits(['0'] + s) && DecimalValue(['0'] + s) == DecimalValue(s)
  {
    var z := ['0'] + s;
    if s != [] {
      assert z[..|z| - 1] == ['0'] + s[..|s| - 1];
      DecimalValueLeadingZero(s[..|s| - 1]);
    } else {
      assert z[..0] == [];
    }
  }

  /** The length of the greedy `\d+` at the start of `s` (0 when it does not
      match): every character before it is a digit and the one after is not. */
  function DigitRun(s: string): (k: nat)
    ensures k <= |s| && AllDigits(s[..k])
    ensures forall i :: 0 <= i < k ==> IsDigit(s[i])
    ensures k < |s| ==> !IsDigit(s[k])
  {
    if s != [] && IsDigit(s[0]) then
      var k := 1 + DigitRun(s[1..]);
      assert forall i :: 1 <= i < k ==> s[..k][i] == s[1..][..k - 1][i - 1];
      k
    else 0
  }

  /** CPython's default limit on the digits `int` converts from a string
      (`sys.get_int_max_str_digits()`); longer strings raise `ValueError`. */
  const IntMaxStrDigits: nat := 4300

  /** The exceptions `arg_resolution` raises: its own `ArgumentTypeError`
      when the pattern does not match, and the `ValueError` of `int` when a
      group is too long to convert. */
  datatype ResolutionError = ArgumentTypeError(message: string) | ValueError

  /** Parses a resolution argument into (width, height). */
  function ArgResolution(s: string): (r: Result<Resolution, ResolutionError>)
    ensures r.Err? && r.error.ArgumentTypeError? ==> r.error.message == "Not a valid resolution: " + s
  {
    var i := DigitRun(s);
    if i == 0 || i == |s| || s[i] != 'x' then Err(ArgumentTypeError("Not a valid resolution: " + s))
    else
      var j := i + 1 + DigitRun(s[i + 1..]);
      if j == i + 1 then Err(ArgumentTypeError("Not a valid resolution: " + s))
      else if i > IntMaxStrDigits || j - i - 1 > IntMaxStrDigits then Err(ValueError)
      else
        assert s[i + 1..j] == s[i + 1..][..j - i - 1];
        Ok(Resolution(DecimalValue(s[..i]), DecimalValue(s[i + 1..j])))
  }

  /** `s` starts with a match of `(\d+)x(\d+)` whose groups are s[..i] and
      s[i + 1..j]. */
  predicate MatchAt(s: string, i: nat, j: nat)
  {
    0 < i && i + 1 < j <= |s| && AllDigits(s[..i]) && s[i] == 'x' && AllDigits(s[i + 1..j])
  }

  /** `re.match(r'(\d+)x(\d+)', s)` finds a match. */
  ghost predicate Matches(s: string)
  {
    exists i: nat, j: nat :: MatchAt(s, i, j)
  }

  /** The match `re.match` reports: the second group is not followed by a
      digit, since `\d+` is greedy. */
  predicate MatchGroups(s: string, i: nat, j: nat)
  {
    MatchAt(s, i, j) && (j < |s| ==> !IsDigit(s[j]))
  }

  /** Both groups are short enough for `int` to convert. */
  predicate Convertible(i: nat, j: nat)
  {
    i <= IntMaxStrDigits && j - i - 1 <= IntMaxStrDigits
  }

  /** The digit run is at least as long as any all-digit prefix. */
  lemma {:induction false} DigitRunCovers(s: string, k: nat)
    requires k <= |s| && AllDigits(s[..k])
    ensures k <= DigitRun(s)
  {
    if k > 0 {
      assert IsDigit(s[..k][0]);
      assert s[1..][..k - 1] == s[..k][1..];
      DigitRunCovers(s[1..], k - 1);
    }
  }

  /** A digit prefix followed by a non-digit (or the end) is the digit run. */
  lemma DigitRunExact(s: string, k: nat)
    requires k <= |s| && AllDigits(s[..k]) && (k < |s| ==> !IsDigit(s[k]))
    ensures DigitRun(s) == k
  {
    DigitRunCovers(s, k);
  }

  /** The reported match: its groups are the pair of its two digit runs,
      so a match converts exactly when those groups are short enough. */
  lemma ArgResolutionOfMatch(s: string, i: nat, j: nat)
    requires MatchGroups(s, i, j)
    ensures ArgResolution(s) ==
      if Convertible(i, j) then Ok(Resolution(DecimalValue(s[..i]), DecimalValue(s[i + 1..j])))
      else Err(ValueError)
  {
    DigitRunExact(s, i);
    assert s[i + 1..][..j - i - 1] == s[i + 1..j];
    DigitRunExact(s[i + 1..], j - i - 1);
  }

  /** `ArgumentTypeError` is raised exactly when the pattern does not match
      at the start; otherwise the result is `Ok` exactly when the reported
      groups are short enough to convert. */
  lemma ArgResolutionOkIffMatches(s: string)
    ensures ArgResolution(s).Err? && ArgResolution(s).error.ArgumentTypeError? <==> !Matches(s)
    ensures ArgResolution(s).Ok? <==> exists i: nat, j: nat :: MatchGroups(s, i, j) && Convertible(i, j)
  {
    var i := DigitRun(s);
    if !(i == 0 || i == |s| || s[i] != 'x') {
      var j := i + 1 + DigitRun(s[i + 1..]);
      if j != i + 1 {
        assert s[i + 1..j] == s[i + 1..][..j - i - 1];
        assert MatchGroups(s, i, j);
        ArgResolutionOfMatch(s, i, j);
      }
    }
    if Matches(s) {
      var i': nat, j': nat :| MatchAt(s, i', j');
      DigitRunExact(s, i');
      assert s[i' + 1..][..j' - i' - 1] == s[i' + 1..j'];
      DigitRunCovers(s[i' + 1..], j' - i' - 1);
    }
    if exists i: nat, j: nat :: MatchGroups(s, i, j) && Convertible(i, j) {
      var i': nat, j': nat :| MatchGroups(s, i', j') && Convertible(i', j');
      ArgResolutionOfMatch(s, i', j');
    }
  }

  function DigitChar(d: nat): (c: char)
    requires d < 10
    ensures IsDigit(c) && DigitValue(c) == d
  {
    ('0' as int + d) as char
  }

  /** `str(n)`: the decimal digits of n, without leading zeros. */
  function Decimal(n: nat): (s: string)
    ensures s != [] && AllDigits(s)
  {
    if n < 10 then [DigitChar(n)] else Decimal(n / 10) + [DigitChar(n % 10)]
  }

  lemma {:induction false} DecimalRoundTrip(n: nat)
    ensures DecimalValue(Decimal(n)) == n
  {
    if n >= 10 {
      var s := Decimal(n);
      assert s[..|s| - 1] == Decimal(n / 10);
      DecimalRoundTrip(n / 10);
    }
  }

  /** A resolution written as "<width>x<height>", followed by anything that
      does not start with a digit, parses back to that resolution when both
      numbers have at most 4300 digits, and raises `ValueError` otherwise. */
  lemma ArgResolutionRoundTrip(res: Resolution, rest: string)
    requires rest != [] ==> !IsDigit(rest[0])
    ensures ArgResolution(Decimal(res.width) + "x" + Decimal(res.height) + rest) ==
      if |Decimal(res.width)| <= IntMaxStrDigits && |Decimal(res.height)| <= IntMaxStrDigits then Ok(res)
      else Err(ValueError)
  {
    var w, h := Decimal(res.width), Decimal(res.height);
    var s := w + "x" + h + rest;
    var i, j := |w|, |w| + 1 + |h|;
    assert s[..i] == w && s[i] == 'x' && s[i + 1..j] == h;
    assert j < |s| ==> s[j] == rest[0];
    ArgResolutionOfMatch(s, i, j);
    DecimalRoundTrip(res.width);
    DecimalRoundTrip(res.height);
  }

  function Pow10(k: nat): (p: nat)
    ensures p >= 1
  {
    if k == 0 then 1 else 10 * Pow10(k - 1)
  }

  /** A number below 10^k (k >= 1) has at most k decimal digits. */
  lemma {:induction false} DecimalLength(n: nat, k: nat)
    requires 1 <= k && n < Pow10(k)
    ensures |Decimal(n)| <= k
  {
    if n >= 10 {
      assert k >= 2;
      DecimalLength(n / 10, k - 1);
    }
  }

  /** A digit group longer than the conversion limit raises `ValueError`
      rather than the pattern's `ArgumentTypeError`. */
  lemma ArgResolutionLongGroup()
    ensures ArgResolution(seq(IntMaxStrDigits + 1, _ => '1') + "x1") == Err(ValueError)
  {
    var s := seq(IntMaxStrDigits + 1, _ => '1') + "x1";
    var i := IntMaxStrDigits + 1;
    assert s[..i] == seq(IntMaxStrDigits + 1, _ => '1');
    assert s[i] == 'x' && s[i + 1..i + 2] == "1";
    ArgResolutionOfMatch(s, i, i + 2);
  }

  lemma DecimalOf640And480()
    ensures DecimalValue("640") == 640 && DecimalValue("480") == 480
  {
    assert "640"[..2] == "64" && "64"[..1] == "6" && "6"[..0] == "";
    assert "480"[..2] == "48" && "48"[..1] == "4" && "4"[..0] == "";
  }

  /** The default argument "640x480" gives 640 by 480. */
  lemma ArgResolutionDefault()
    ensures ArgResolution("640x480") == Ok(Resolution(640, 480))
  {
    assert "640x480"[..3] == "640" && "640x480"[4..7] == "480";
    ArgResolutionOfMatch("640x480", 3, 7);
    DecimalOf640And480();
  }

  /** Text after the second digit run is ignored. */
  lemma ArgResolutionIgnoresSuffix()
    ensures ArgResolution("640x480p") == Ok(Resolution(640, 480))
  {
    assert "640x480p"[..3] == "640" && "640x480p"[4..7] == "480";
    ArgResolutionOfMatch("640x480p", 3, 7);
    DecimalOf640And480();
  }

  /** Leading zeros are allowed. */
  lemma ArgResolutionLeadingZeros()
    ensures ArgResolution("007x08") == Ok(Resolution(7, 8))
  {
    assert "007x08"[..3] == "007" && "007x08"[4..6] == "08";
    ArgResolutionOfMatch("007x08", 3, 6);
  }

  /** Text that does not start with digits, 'x', digits is rejected. */
  lemma ArgResolutionRejects()
    ensures ArgResolution("").Err?
    ensures ArgResolution("x480").Err?
    ensures ArgResolution(" 640x480").Err?
    ensures ArgResolution("640xx480").Err?
    ensures ArgResolution("640x").Err?
  {
    DigitRunExact("x480", 0);
    DigitRunExact(" 640x480", 0);
    DigitRunExact("640xx480", 3);
    DigitRunExact("640xx480"[4..], 0);
    DigitRunExact("640x", 3);
  }
}
