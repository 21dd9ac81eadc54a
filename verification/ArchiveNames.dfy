/** Archive names and pending-file markers as text: which names a marker may carry,
and why a marker that was cut short is never believed. */
module ArchiveNames {
  import opened Wrappers

  const PREFIX := "zephyr-"
  const SUFFIX := ".zip"
  const LIVE_NAME := "zephyr.log"
  const DIGEST_LENGTH := 64

  predicate IsDigit(c: char) {
    '0' <= c <= '9'
  }

  predicate AllDigits(s: string) {
    forall i | 0 <= i < |s| :: IsDigit(s[i])
  }

  function DigitValue(c: char): (v: int)
    requires IsDigit(c)
    ensures 0 <= v <= 9
  {
    c as int - '0' as int
  }

  function Value(s: string): (v: nat)
    requires AllDigits(s)
  {
    if s == "" then 0 else Value(s[..|s| - 1]) * 10 + DigitValue(s[|s| - 1])
  }

  function Decimal(n: nat): (s: string)
    ensures AllDigits(s) && |s| >= 1
  {
    var last := [('0' as int + n % 10) as char];
    if n < 10 then last else Decimal(n / 10) + last
  }

  // The counter as the format verb writes it: at least two digits.
  function Padded(n: nat): (s: string)
    ensures AllDigits(s) && |s| >= 2
  {
    if n < 10 then "0" + Decimal(n) else Decimal(n)
  }

  // ----- Dates -----

  predicate LeapYear(y: int) {
    y % 4 == 0 && (y % 100 != 0 || y % 400 == 0)
  }

  function DaysIn(y: int, m: int): int {
    if m == 2 then (if LeapYear(y) then 29 else 28) else if m in {4, 6, 9, 11} then 30 else 31
  }

  /** YYYY-MM-DD naming a day of the calendar. */
  predicate IsDate(s: string) {
    && |s| == 10 && s[4] == '-' && s[7] == '-' && AllDigits(s[..4]) && AllDigits(s[5..7]) && AllDigits(s[8..])
    && 1 <= Value(s[5..7]) <= 12 && 1 <= Value(s[8..]) <= DaysIn(Value(s[..4]), Value(s[5..7]))
  }

  // ----- Names -----

  /** The name nextArchivePath builds for a date and a counter. */
  function NameOf(date: string, n: nat): string {
    PREFIX + date + "-" + Padded(n) + SUFFIX
  }

  predicate IsCounter(s: string) {
    2 <= |s| <= 4 && AllDigits(s) && 1 <= Value(s) <= 9999
  }

  ghost predicate Splits(name: string, date: string, counter: string) {
    name == PREFIX + date + "-" + counter + SUFFIX && IsDate(date) && IsCounter(counter)
  }

  ghost predicate WellNamed(name: string) {
    exists date, counter :: Splits(name, date, counter)
  }

  method ValidArchiveName(name: string) returns (ok: bool)
    ensures ok <==> WellNamed(name)
  {
    hide WellNamed, IsDate;
    Shaped(name);
    if !(PREFIX <= name) || |name| < |SUFFIX| || name[|name| - |SUFFIX|..] != SUFFIX {
      return false;
    }
    SuffixAfterPrefix(name);
    var rest := name[|PREFIX|..|name| - |SUFFIX|];
    assert name == PREFIX + rest + SUFFIX;
    SplitShape(name, rest);
    if |rest| < 13 || rest[10] != '-' {
      return false;
    }
    var date, counter := rest[..10], rest[11..];
    assert rest == date + "-" + counter;
    SplitIsUnique(name, date, counter);
    if !IsDate(date) || |counter| < 2 || |counter| > 4 {
      return false;
    }
    var value := 0;
    var i := 0;
    while i < |counter|
      invariant 0 <= i <= |counter| && AllDigits(counter[..i])
      invariant value == Value(counter[..i])
    {
      if !IsDigit(counter[i]) {
        return false;
      }
      assert counter[..i + 1][..i] == counter[..i];
      value := value * 10 + DigitValue(counter[i]);
      i := i + 1;
    }
    assert counter[..i] == counter;
    return 1 <= value <= 9999;
  }

  lemma Shaped(name: string)
    ensures WellNamed(name) ==> PREFIX <= name && |name| >= |SUFFIX| && name[|name| - |SUFFIX|..] == SUFFIX
  {
    forall date, counter | Splits(name, date, counter)
      ensures PREFIX <= name && |name| >= |SUFFIX| && name[|name| - |SUFFIX|..] == SUFFIX
    {
      assert name == PREFIX + date + "-" + counter + SUFFIX;
    }
  }

  // No end of the prefix starts the suffix, so the two never overlap.
  lemma SuffixAfterPrefix(name: string)
    requires PREFIX <= name && |name| >= |SUFFIX| && name[|name| - |SUFFIX|..] == SUFFIX
    ensures |name| >= |PREFIX| + |SUFFIX|
  {
    assert name[|name| - |SUFFIX|] == SUFFIX[0] == '.';
    assert forall i | 0 <= i < |PREFIX| :: name[i] == PREFIX[i] && PREFIX[i] != '.';
  }

  lemma SplitIsUnique(name: string, date: string, counter: string)
    requires name == PREFIX + (date + "-" + counter) + SUFFIX && |date| == 10
    ensures WellNamed(name) <==> IsDate(date) && IsCounter(counter)
  {
    assert name == PREFIX + date + "-" + counter + SUFFIX;
    assert IsDate(date) && IsCounter(counter) ==> Splits(name, date, counter);
    forall d, c | Splits(name, d, c) ensures d == date && c == counter {
      assert name[|PREFIX|..|PREFIX| + 10] == d == date;
      assert name[|PREFIX| + 11..|name| - |SUFFIX|] == c == counter;
    }
  }

  lemma SplitShape(name: string, rest: string)
    requires name == PREFIX + rest + SUFFIX
    ensures WellNamed(name) ==> |rest| >= 13 && rest[10] == '-'
  {
    forall date, counter | Splits(name, date, counter) ensures |rest| >= 13 && rest[10] == '-' {
      assert rest == name[|PREFIX|..|name| - |SUFFIX|] == date + "-" + counter;
    }
  }

  // ----- Which names are accepted -----

  lemma {:induction false} DecimalValue(n: nat)
    ensures Value(Decimal(n)) == n
  {
    var last := [('0' as int + n % 10) as char];
    assert last[..0] == "";
    if n >= 10 {
      DecimalValue(n / 10);
      assert (Decimal(n / 10) + last)[..|Decimal(n)| - 1] == Decimal(n / 10);
    }
  }

  lemma PaddedValue(n: nat)
    ensures Value(Padded(n)) == n
    ensures n <= 9999 ==> |Padded(n)| <= 4
    ensures |Padded(n)| > 2 ==> Padded(n)[0] != '0'
  {
    DecimalValue(n);
    DecimalShape(n);
    if n < 10 {
      assert Padded(n)[..1] == "0" && "0"[..0] == "";
      assert Value("0") == 0;
    }
  }

  lemma {:induction false} DecimalShape(n: nat)
    ensures n >= 10 ==> Decimal(n)[0] != '0' && |Decimal(n)| >= 2
    ensures 0 < n < 10 ==> Decimal(n)[0] != '0'
    ensures n < 10 ==> |Decimal(n)| == 1
    ensures n < 100 ==> |Decimal(n)| <= 2
    ensures n < 1000 ==> |Decimal(n)| <= 3
    ensures n < 10000 ==> |Decimal(n)| <= 4
  {
    if n >= 10 { DecimalShape(n / 10); }
  }

  /** Every name that the rotator reserves is accepted. */
  lemma ReservedNamesAreAccepted(date: string, n: nat)
    requires IsDate(date) && 1 <= n <= 9999
    ensures WellNamed(NameOf(date, n))
  {
    PaddedValue(n);
    assert Splits(NameOf(date, n), date, Padded(n));
  }

  lemma {:induction false} ValueDetermines(s: string, t: string)
    requires AllDigits(s) && AllDigits(t) && |s| == |t| && Value(s) == Value(t)
    ensures s == t
  {
    if s != "" {
      var n := |s| - 1;
      ValueDetermines(s[..n], t[..n]);
      assert s == s[..n] + [s[n]] && t == t[..n] + [t[n]];
    }
  }

  lemma {:induction false} ValueBounds(s: string)
    requires AllDigits(s)
    ensures |s| == 2 ==> Value(s) < 100
    ensures |s| == 3 ==> Value(s) < 1000
    ensures |s| == 4 ==> Value(s) < 10000
    ensures |s| == 1 ==> Value(s) < 10
    ensures |s| > 0 && s[0] != '0' ==> Value(s) >= (if |s| == 1 then 1 else if |s| == 2 then 10 else if |s| == 3 then 100 else if |s| == 4 then 1000 else 0)
  {
    if s != "" { ValueBounds(s[..|s| - 1]); }
  }

  lemma PaddedLength(n: nat)
    ensures n < 100 ==> |Padded(n)| == 2
    ensures 100 <= n < 1000 ==> |Padded(n)| == 3
    ensures 1000 <= n < 10000 ==> |Padded(n)| == 4
  {
    DecimalShape(n);
    DecimalShape(n / 10);
    DecimalShape(n / 100);
  }

  // Some date and counter give this name.
  ghost predicate Reservable(name: string) {
    exists date, n: nat :: IsDate(date) && 1 <= n <= 9999 && name == NameOf(date, n)
  }

  lemma SameCounter(name: string, date: string, counter: string, d: string, n: nat)
    requires Splits(name, date, counter) && IsDate(d) && name == NameOf(d, n)
    ensures d == date && counter == Padded(n)
  {
    assert name == PREFIX + date + "-" + counter + SUFFIX;
    assert name[|PREFIX|..|PREFIX| + 10] == d == date;
    assert name[|PREFIX| + 11..|name| - |SUFFIX|] == Padded(n) == counter;
  }

  /** An accepted name is one the rotator could have reserved, for some date and
      counter, exactly when its counter carries no needless zero. */
  lemma AcceptedNameIsReservedIff(name: string, date: string, counter: string)
    requires Splits(name, date, counter)
    ensures Reservable(name) <==> (|counter| == 2 || counter[0] != '0')
  {
    if |counter| == 2 || counter[0] != '0' {
      var n := Value(counter);
      ValueBounds(counter);
      PaddedLength(n);
      PaddedValue(n);
      ValueDetermines(counter, Padded(n));
      assert name == NameOf(date, n);
    }
    if Reservable(name) {
      var d, n: nat :| IsDate(d) && 1 <= n <= 9999 && name == NameOf(d, n);
      SameCounter(name, date, counter, d, n);
      PaddedValue(n);
    }
  }

  /** One such name: accepted, though no date and counter give it. */
  lemma NeedlessZeroIsAccepted()
    ensures WellNamed("zephyr-2024-01-31-001.zip") && !Reservable("zephyr-2024-01-31-001.zip")
  {
    var date, counter := "2024-01-31", "001";
    assert date[..4] == "2024" && date[5..7] == "01" && date[8..] == "31";
    assert Value("01") == 1 by { assert "01"[..1] == "0" && "0"[..0] == ""; }
    assert Value("31") == 31 by { assert "31"[..1] == "3" && "3"[..0] == ""; }
    assert Value(counter) == 1 by { assert counter[..2] == "00" && "00"[..1] == "0" && "0"[..0] == ""; }
    hide Reservable, WellNamed;
    assert Splits("zephyr-2024-01-31-001.zip", date, counter);
    SplitsIsWellNamed("zephyr-2024-01-31-001.zip", date, counter);
    AcceptedNameIsReservedIff("zephyr-2024-01-31-001.zip", date, counter);
  }

  lemma SplitsIsWellNamed(name: string, date: string, counter: string)
    requires Splits(name, date, counter)
    ensures WellNamed(name)
  {}

  /** No accepted name is the live log or one of the dot files. */
  lemma AcceptedNameIsAnArchive(name: string)
    requires WellNamed(name)
    ensures name != LIVE_NAME && name[0] != '.' && '\n' !in name
  {
    var date, counter :| Splits(name, date, counter);
    assert name[6] == '-' && LIVE_NAME[6] == '.';
    assert forall i | 0 <= i < 10 :: date[i] != '\n' by {
      assert forall i | 0 <= i < 4 :: date[i] == date[..4][i];
      assert forall i | 5 <= i < 7 :: date[i] == date[5..7][i - 5];
      assert forall i | 8 <= i < 10 :: date[i] == date[8..][i - 8];
    }
  }

  // ----- Markers -----

  predicate IsHex(c: char) {
    IsDigit(c) || 'a' <= c <= 'f' || 'A' <= c <= 'F'
  }

  predicate IsDigest(s: string) {
    |s| == DIGEST_LENGTH && forall i | 0 <= i < |s| :: IsHex(s[i])
  }

  function MarkerText(name: string, digest: string): string {
    name + "\n" + digest
  }

  // The text split at its newlines.
  function Lines(s: string): (r: seq<string>)
    ensures |r| >= 1
  {
    if s == "" then [""]
    else
      var rest := Lines(s[1..]);
      if s[0] == '\n' then [""] + rest else [[s[0]] + rest[0]] + rest[1..]
  }

  /** The name and digest a marker carries, if its bytes are well formed. */
  ghost function ParseMarker(s: string): Option<(string, string)> {
    var lines := Lines(s);
    if |lines| == 2 && WellNamed(lines[0]) && IsDigest(lines[1]) then Some((lines[0], lines[1])) else None
  }

  lemma {:induction false} LinesOfOne(s: string)
    requires '\n' !in s
    ensures Lines(s) == [s]
  {
    if s != "" {
      LinesOfOne(s[1..]);
      assert [s[0]] + s[1..] == s;
    }
  }

  lemma {:induction false} LinesOfTwo(a: string, b: string)
    requires '\n' !in a && '\n' !in b
    ensures Lines(a + "\n" + b) == [a, b]
  {
    var whole := a + "\n" + b;
    if a == "" {
      assert whole[1..] == b;
      LinesOfOne(b);
    } else {
      assert whole[1..] == a[1..] + "\n" + b;
      LinesOfTwo(a[1..], b);
      assert [a[0]] + a[1..] == a;
    }
  }

  lemma DigestHasNoNewline(s: string, n: nat)
    requires IsDigest(s) && n <= |s|
    ensures '\n' !in s[..n]
  {}

  /** A marker written in full is read back as it was written. */
  lemma MarkerRoundTrip(name: string, digest: string)
    requires WellNamed(name) && IsDigest(digest)
    ensures ParseMarker(MarkerText(name, digest)) == Some((name, digest))
  {
    AcceptedNameIsAnArchive(name);
    DigestHasNoNewline(digest, |digest|);
    assert digest[..|digest|] == digest;
    LinesOfTwo(name, digest);
  }

  /** A marker cut short anywhere, as a crash during its write leaves it, is
      never accepted. */
  lemma TornMarkerIsRejected(name: string, digest: string, n: nat)
    requires WellNamed(name) && IsDigest(digest) && n < |MarkerText(name, digest)|
    ensures ParseMarker(MarkerText(name, digest)[..n]) == None
  {
    AcceptedNameIsAnArchive(name);
    var text := MarkerText(name, digest)[..n];
    if n <= |name| {
      assert text == name[..n];
      LinesOfOne(text);
    } else {
      var m := n - |name| - 1;
      assert text == name + "\n" + digest[..m];
      DigestHasNoNewline(digest, m);
      LinesOfTwo(name, digest[..m]);
    }
  }
}
